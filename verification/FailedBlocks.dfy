/** What a block that fails to apply leaves behind: the in-memory flags of logic/multisignature.js. */
module FailedBlocks {
  import opened Base
  import opened Accounts
  import opened Voting
  import opened Ledger
  import opened Rollback
  import opened PopBlocks

  /** The unconfirmed check of transaction k, with the unconfirmed halves of those before it on top. */
  ghost predicate UOk(n: Node, txs: seq<Transaction>, k: nat)
    requires k < |txs|
  {
    UAllowed(UFold(n.books.accts, txs[..k]), n.flags + GroupSenders(txs[..k]), txs[k], false)
  }

  /** The confirmed check of transaction k, with those before it done whole. */
  ghost predicate COk(n: Node, txs: seq<Transaction>, k: nat)
    requires k < |txs|
  {
    CAllowed(PairFold(n.books.accts, txs[..k]), txs[k], false)
  }

  lemma {:induction false} UAllStep(n: Node, txs: seq<Transaction>, k: nat)
    requires k < |txs| && UAll(n, txs[..k]).ok
    ensures UAll(n, txs[..k + 1]).ok <==> UOk(n, txs, k)
    ensures !UOk(n, txs, k) ==> UAll(n, txs[..k + 1]) == Attempt(UAll(n, txs[..k]).node, false)
  {
    hide UStep, UAllowed, UFold, GroupSenders;
    assert txs[..k + 1][..k] == txs[..k];
    UAllSpec(n, txs[..k]);
  }

  lemma CByConf(s: Accts, s': Accts, tx: Transaction)
    requires s.conf == s'.conf
    ensures CAllowed(s, tx, false) == CAllowed(s', tx, false)
  {
    hide Ready, CheckDelegates, UsernameFree;
  }

  lemma {:induction false} CAllStep(n: Node, round: int, txs: seq<Transaction>, k: nat)
    requires UAll(n, txs).ok && k < |txs| && CAll(UAll(n, txs).node, round, txs[..k]).ok
    ensures var u := UAll(n, txs).node;
            && (CAll(u, round, txs[..k + 1]).ok <==> COk(n, txs, k))
            && (!COk(n, txs, k) ==> CAll(u, round, txs[..k + 1]) == Attempt(CAll(u, round, txs[..k]).node, false))
  {
    hide CStep, CAllowed, PairFold, UAll;
    assert txs[..k + 1][..k] == txs[..k];
    CAllBooks(n, round, txs, k);
    CByConf(CAll(UAll(n, txs).node, round, txs[..k]).node.books.accts, PairFold(n.books.accts, txs[..k]), txs[k]);
  }

  lemma {:induction false} UAllUpTo(n: Node, txs: seq<Transaction>, k: nat)
    requires k <= |txs| && forall i :: 0 <= i < k ==> UOk(n, txs, i)
    ensures UAll(n, txs[..k]).ok
  {
    hide UOk, UStep, UAllowed;
    if k > 0 {
      UAllUpTo(n, txs, k - 1);
      UAllStep(n, txs, k - 1);
    }
  }

  lemma {:induction false} CAllUpTo(n: Node, round: int, txs: seq<Transaction>, k: nat)
    requires UAll(n, txs).ok && k <= |txs| && forall i :: 0 <= i < k ==> COk(n, txs, i)
    ensures CAll(UAll(n, txs).node, round, txs[..k]).ok
  {
    hide COk, CStep, CAllowed, UAll;
    if k > 0 {
      CAllUpTo(n, round, txs, k - 1);
      CAllStep(n, round, txs, k - 1);
    }
  }

  /** After the first refusal nothing more is applied. */
  lemma {:induction false} UStopped(n: Node, txs: seq<Transaction>, k: nat)
    requires k <= |txs| && !UAll(n, txs[..k]).ok
    ensures UAll(n, txs) == UAll(n, txs[..k])
    decreases |txs|
  {
    hide UStep, UAllowed;
    if k == |txs| {
      assert txs[..k] == txs;
    } else {
      assert txs[..|txs| - 1][..k] == txs[..k];
      UStopped(n, txs[..|txs| - 1], k);
    }
  }

  lemma {:induction false} CStopped(n: Node, round: int, txs: seq<Transaction>, k: nat)
    requires k <= |txs| && !CAll(n, round, txs[..k]).ok
    ensures CAll(n, round, txs) == CAll(n, round, txs[..k])
    decreases |txs|
  {
    hide CStep, CAllowed;
    if k == |txs| {
      assert txs[..k] == txs;
    } else {
      assert txs[..|txs| - 1][..k] == txs[..k];
      CStopped(n, round, txs[..|txs| - 1], k);
    }
  }

  /** Transaction k is the first one refused: unconfirmed, or confirmed once all passed unconfirmed. */
  ghost predicate FirstRefused(n: Node, txs: seq<Transaction>, k: nat, confirmed: bool) {
    && k < |txs|
    && if confirmed
       then && (forall i :: 0 <= i < |txs| ==> UOk(n, txs, i))
            && !COk(n, txs, k) && forall i :: 0 <= i < k ==> COk(n, txs, i)
       else !UOk(n, txs, k) && forall i :: 0 <= i < k ==> UOk(n, txs, i)
  }

  /** The transactions whose flags stay: those applied unconfirmed, but not confirmed. */
  function Stuck(txs: seq<Transaction>, k: nat, confirmed: bool): seq<Transaction>
    requires k <= |txs|
  {
    if confirmed then txs[k..] else txs[..k]
  }

  /** Group registrations in one block have different senders, none of them flagged before. */
  lemma {:induction false} GroupsDiffer(n: Node, txs: seq<Transaction>, k: nat)
    requires UAll(n, txs).ok && k <= |txs|
    ensures GroupSenders(txs) == GroupSenders(txs[..k]) + GroupSenders(txs[k..])
    ensures GroupSenders(txs[..k]) !! GroupSenders(txs[k..]) && n.flags !! GroupSenders(txs)
    decreases |txs|
  {
    hide UStep, UAllowed;
    if k == |txs| {
      assert txs[..k] == txs && txs[k..] == [];
      GroupsWereFree(n, txs);
      NoOverlap(n.flags, GroupSenders(txs));
    } else {
      var last := |txs| - 1;
      var pre, tx := txs[..last], txs[last];
      GroupsDiffer(n, pre, k);
      assert pre[..k] == txs[..k];
      assert txs[k..][..|txs| - k - 1] == pre[k..] && txs[k..][|txs| - k - 1] == tx;
      UAllPrefix(n, txs, last);
      if tx.asset.Multisignature? { assert tx.From() !in n.flags + GroupSenders(pre) by { Unflagged(n, pre, tx); } }
    }
  }

  lemma Unflagged(n: Node, pre: seq<Transaction>, tx: Transaction)
    requires UAllowed(UFold(n.books.accts, pre), n.flags + GroupSenders(pre), tx, false) && tx.asset.Multisignature?
    ensures tx.From() !in n.flags + GroupSenders(pre)
  {
    hide UFold, GroupSenders;
  }

  /** A block applies if and only if each of its transactions passes its unconfirmed check after the unconfirmed halves
      of those before it, and its confirmed check after those before it done whole. */
  lemma AppliesIff(n: Node, b: Block)
    ensures ApplyBlock(n, b).ok <==>
            forall i :: 0 <= i < |b.transactions| ==> UOk(n, b.transactions, i) && COk(n, b.transactions, i)
  {
    hide UAll, CAll, Tick, UOk, COk;
    var round, txs := CalcRound(|n.blocks| + 1), b.transactions;
    assert txs[..|txs|] == txs;
    if forall i :: 0 <= i < |txs| ==> UOk(n, txs, i) {
      UAllUpTo(n, txs, |txs|);
      if forall i :: 0 <= i < |txs| ==> COk(n, txs, i) { CAllUpTo(n, round, txs, |txs|); }
    }
    if ApplyBlock(n, b).ok {
      forall i | 0 <= i < |txs| ensures UOk(n, txs, i) && COk(n, txs, i) { PassedBoth(n, round, txs, i); }
    }
  }

  lemma PassedBoth(n: Node, round: int, txs: seq<Transaction>, i: nat)
    requires UAll(n, txs).ok && CAll(UAll(n, txs).node, round, txs).ok && i < |txs|
    ensures UOk(n, txs, i) && COk(n, txs, i)
  {
    hide UAllowed, CAllowed, UAll, CAll, PairFold;
    var u := UAll(n, txs).node;
    UAllPrefix(n, txs, i);
    CAllPrefix(u, round, txs, i);
    CAllBooks(n, round, txs, i);
    CByConf(CAll(u, round, txs[..i]).node.books.accts, PairFold(n.books.accts, txs[..i]), txs[i]);
  }

  /** So a block that fails has a first refusal. */
  lemma FailsIff(n: Node, b: Block)
    ensures !ApplyBlock(n, b).ok <==> exists k, confirmed :: FirstRefused(n, b.transactions, k, confirmed)
  {
    hide ApplyBlock, UOk, COk;
    var txs := b.transactions;
    AppliesIff(n, b);
    if !ApplyBlock(n, b).ok {
      if i :| 0 <= i < |txs| && !UOk(n, txs, i) {
        var k := FirstU(n, txs, i);
        assert FirstRefused(n, txs, k, false);
      } else {
        var i :| 0 <= i < |txs| && !COk(n, txs, i);
        var k := FirstC(n, txs, i);
        assert FirstRefused(n, txs, k, true);
      }
    }
    if k, confirmed :| FirstRefused(n, txs, k, confirmed) {
      assert !(UOk(n, txs, k) && COk(n, txs, k));
    }
  }

  lemma {:induction false} FirstU(n: Node, txs: seq<Transaction>, i: nat) returns (k: nat)
    requires i < |txs| && !UOk(n, txs, i)
    ensures k < |txs| && !UOk(n, txs, k) && forall j :: 0 <= j < k ==> UOk(n, txs, j)
  {
    hide UOk;
    if j :| 0 <= j < i && !UOk(n, txs, j) { k := FirstU(n, txs, j); } else { k := i; }
  }

  lemma {:induction false} FirstC(n: Node, txs: seq<Transaction>, i: nat) returns (k: nat)
    requires i < |txs| && !COk(n, txs, i)
    ensures k < |txs| && !COk(n, txs, k) && forall j :: 0 <= j < k ==> COk(n, txs, j)
  {
    hide COk;
    if j :| 0 <= j < i && !COk(n, txs, j) { k := FirstC(n, txs, j); } else { k := i; }
  }

  /** A block that fails changes nothing but the flags: refused first at transaction k unconfirmed, the group
      registrations before k stay flagged; refused confirmed, those from k on. */
  lemma FailedBlockFlags(n: Node, b: Block, k: nat, confirmed: bool)
    requires FirstRefused(n, b.transactions, k, confirmed)
    ensures !ApplyBlock(n, b).ok
    ensures ApplyBlock(n, b).node == n.(flags := n.flags + GroupSenders(Stuck(b.transactions, k, confirmed)))
    ensures ApplyBlock(n, b).node == n <==> GroupSenders(Stuck(b.transactions, k, confirmed)) == {}
  {
    hide UAll, CAll, Tick, GroupSenders, UOk, COk;
    var round, txs := CalcRound(|n.blocks| + 1), b.transactions;
    var u := UAll(n, txs);
    if !confirmed {
      UAllUpTo(n, txs, k);
      UAllStep(n, txs, k);
      UStopped(n, txs, k + 1);
      UAllSpec(n, txs[..k]);
      GroupsDiffer(n, txs[..k], k);
      assert txs[..k][..k] == txs[..k];
    } else {
      assert txs[..|txs|] == txs;
      UAllUpTo(n, txs, |txs|);
      CAllUpTo(n, round, txs, k);
      CAllStep(n, round, txs, k);
      CStopped(u.node, round, txs, k + 1);
      UAllSpec(n, txs);
      CAllAccts(u.node, round, txs[..k]);
      GroupsDiffer(n, txs, k);
      assert n.flags + GroupSenders(txs) - GroupSenders(txs[..k]) == n.flags + GroupSenders(txs[k..]);
    }
    NothingAdded(n.flags, GroupSenders(Stuck(txs, k, confirmed)));
  }

  lemma NoOverlap(f: set<Address>, g: set<Address>)
    requires f - g == f
    ensures f !! g
  {
    assert forall a :: a in f ==> a in f - g;
  }

  lemma NothingAdded(f: set<Address>, g: set<Address>)
    requires f !! g
    ensures f + g == f <==> g == {}
  {
    if f + g == f { assert forall a :: a in g ==> a in f + g; }
  }

  /** A group registration that got stuck in this way is refused from then on. */
  lemma StuckGroupRefused(n: Node, b: Block, k: nat, confirmed: bool, tx: Transaction, accts: Accts)
    requires FirstRefused(n, b.transactions, k, confirmed) && tx in Stuck(b.transactions, k, confirmed)
    requires tx.asset.Multisignature?
    ensures !UAllowed(accts, ApplyBlock(n, b).node.flags, tx, false)
  {
    hide ApplyBlock, Stuck, GroupSenders, UOk, COk;
    FailedBlockFlags(n, b, k, confirmed);
    InGroup(Stuck(b.transactions, k, confirmed), tx);
  }

  lemma {:induction false} InGroup(txs: seq<Transaction>, tx: Transaction)
    requires tx in txs && tx.asset.Multisignature?
    ensures tx.From() in GroupSenders(txs)
  {
    var n := |txs| - 1;
    if tx != txs[n] {
      assert txs == txs[..n] + [txs[n]];
      InGroup(txs[..n], tx);
    }
  }

  /** A verified block that registers a group and then twice spends coins its second sender has once: it fails,
      nothing of it stays but the flag of the group's sender, and the registration is refused from then on. */
  lemma OverdrawnBlock(n: Node, genesisKey: PublicKey, b: Block, group: Transaction, first: Transaction,
                       second: Transaction)
    requires BlockVerified(n, genesisKey, b) && b.transactions == [group, first, second]
    requires n.books.accts.conf == n.books.accts.unconf && group.asset.Multisignature? && group.From() !in n.flags
    requires first.asset.Send? && second.asset.Send? && first.sender == second.sender != group.sender
    requires Row(n.books.accts.conf, first.From()).balance < first.Cost() + second.Cost()
    ensures !ApplyBlock(n, b).ok && ApplyBlock(n, b).node == n.(flags := n.flags + {group.From()})
    ensures forall accts :: !UAllowed(accts, ApplyBlock(n, b).node.flags, group, false)
  {
    hide Verified, UAllowed, UStep, ApplyBlock, SumFees, UFold, GroupSenders, COk;
    var txs := b.transactions;
    assert Verified(n.books.accts, genesisKey, txs[0]) && Verified(n.books.accts, genesisKey, txs[1]);
    assert txs[..0] == [] && txs[..1] == [group] && txs[..2] == [group, first];
    Overdrawn(n, genesisKey, group, first, second);
    Folds(n, group, first);
    assert FirstRefused(n, txs, 2, false);
    OneGroup(group, first);
    FailedBlockFlags(n, b, 2, false);
    forall accts ensures !UAllowed(accts, ApplyBlock(n, b).node.flags, group, false) {
      StuckGroupRefused(n, b, 2, false, group, accts);
    }
  }

  lemma Folds(n: Node, group: Transaction, first: Transaction)
    requires group.asset.Multisignature? && first.asset.Send?
    ensures var n1 := UStep(n, group);
            && UFold(n.books.accts, []) == n.books.accts && n.flags + GroupSenders([]) == n.flags
            && UFold(n.books.accts, [group]) == n1.books.accts && n.flags + GroupSenders([group]) == n1.flags
            && UFold(n.books.accts, [group, first]) == UStep(n1, first).books.accts
            && n.flags + GroupSenders([group, first]) == UStep(n1, first).flags
  {
    hide UEffect;
    assert [group][..0] == [] && [group, first][..1] == [group];
    assert UFold(n.books.accts, [group][..0]) == n.books.accts && GroupSenders([group][..0]) == {};
    OneGroup(group, first);
  }

  lemma OneGroup(group: Transaction, send: Transaction)
    requires group.asset.Multisignature? && send.asset.Send?
    ensures GroupSenders([group, send]) == {group.From()}
  {
    assert [group, send][..1] == [group] && [group][..0] == [];
    assert GroupSenders([group]) == {group.From()};
  }

  lemma Overdrawn(n: Node, genesisKey: PublicKey, group: Transaction, first: Transaction, second: Transaction)
    requires Verified(n.books.accts, genesisKey, group) && Verified(n.books.accts, genesisKey, first)
    requires n.books.accts.conf == n.books.accts.unconf && group.asset.Multisignature? && group.From() !in n.flags
    requires first.asset.Send? && second.asset.Send? && first.sender == second.sender != group.sender
    requires Row(n.books.accts.conf, first.From()).balance < first.Cost() + second.Cost()
    ensures UAllowed(n.books.accts, n.flags, group, false)
    ensures var n1 := UStep(n, group);
            && UAllowed(n1.books.accts, n1.flags, first, false)
            && var n2 := UStep(n1, first); !UAllowed(n2.books.accts, n2.flags, second, false)
  {
    hide TypeEffect, CheckDelegates, UsernameFree;
    var a, n1 := first.From(), UStep(n, group);
    assert Row(n1.books.accts.unconf, a) == Row(n.books.accts.unconf, a);
    TypeIgnoresBalance(Row(n.books.accts.unconf, a), Row(n.books.accts.unconf, a).balance - first.Cost(), first.asset);
    assert Row(UStep(n1, first).books.accts.unconf, a).balance == Row(n.books.accts.unconf, a).balance - first.Cost();
  }
}
