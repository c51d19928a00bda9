/**
  The memory tables as the source keeps them, updated in place: logic/account.js,
  logic/transaction.js with the transaction types, logic/round.js, modules/rounds.js and the apply
  and pop steps of modules/blocks/chain.js.  Every method is tied to the abstract node.
 */
module LedgerNodes {
  import opened Base
  import opened Diff
  import opened Accounts
  import opened Voting
  import opened Tally
  import opened Payouts
  import opened Ledger
  import opened Acceptance
  import opened Storage
  import opened Steps
  import opened RoundChanging
  import opened GenesisBlocks
  import opened ActiveDelegates

  /** mem_round_snapshot and mem_votes_snapshot (vote and producedBlocks of every delegate). */
  datatype Saved = Saved(rows: seq<RoundRow>, delegates: map<Address, (int, int)>)

  ghost function SnapshotOfSaved(s: Saved): Snapshot {
    Snapshot(PendingOf(s.rows), RoundsOf(s.rows),
             imap a: Address | a in s.delegates :: s.delegates[a].0,
             imap a: Address | a in s.delegates :: s.delegates[a].1)
  }

  ghost function SnapshotView(s: Option<Saved>): Option<Snapshot> {
    if s.Some? then Some(SnapshotOfSaved(s.value)) else None
  }

  ghost function NodeOf(t: AccountTable, rows: seq<RoundRow>, saved: Option<Saved>, roundRewards: seq<RewardRow>,
                        blocks: seq<Block>, flags: set<Address>): Node {
    Node(blocks, BooksOf(t, rows), flags, RoundsOf(rows), SnapshotView(saved), roundRewards)
  }

  lemma VotesInSaved(s: Saved)
    ensures SnapshotOfSaved(s).votes == VotesIn(s.delegates)
  {
  }

  // ---------- every key that a row refers to has an account ----------

  predicate KeysLinked(t: AccountTable, ks: seq<PublicKey>) {
    forall i :: 0 <= i < |ks| ==> OfKey(ks[i]) in t
  }

  predicate RowsLinked(t: AccountTable, rows: seq<RoundRow>) {
    forall i :: 0 <= i < |rows| ==> OfKey(rows[i].delegate) in t
  }

  predicate TxLinked(t: AccountTable, tx: Transaction) {
    && tx.From() in t
    && (tx.asset.Votes? ==> AllSigned(tx.asset.votes) && ItemsLinked(t, tx.asset.votes))
  }

  predicate ItemsLinked(t: AccountTable, items: seq<string>) {
    forall i :: 0 <= i < |items| ==> OfKey(KeyOf(items[i])) in t
  }

  predicate BlockLinked(t: AccountTable, b: Block) {
    && OfKey(b.generator) in t
    && forall i :: 0 <= i < |b.transactions| ==> TxLinked(t, b.transactions[i])
  }

  predicate SavedLinked(t: AccountTable, saved: Option<Saved>) {
    saved.Some? ==> RowsLinked(t, saved.value.rows) && saved.value.delegates.Keys <= t.Keys
  }

  ghost predicate TableLinked(t: AccountTable) { forall a :: a in t ==> KeysLinked(t, t[a].conf.delegates) }

  ghost predicate Linked(t: AccountTable, rows: seq<RoundRow>, saved: Option<Saved>, blocks: seq<Block>) {
    && TableLinked(t)
    && RowsLinked(t, rows)
    && SavedLinked(t, saved)
    && (forall i :: 0 <= i < |blocks| ==> BlockLinked(t, blocks[i]))
  }

  /** Links survive any change that removes no account and only adds linked keys. */
  lemma LinkedPut(t: AccountTable, rows: seq<RoundRow>, saved: Option<Saved>, blocks: seq<Block>, a: Address,
      row: AccountRow)
    requires Linked(t, rows, saved, blocks)
    requires KeysLinked(t, row.conf.delegates)
    ensures Linked(t[a := row], rows, saved, blocks)
  {
    var t' := t[a := row];
    forall b | b in t' ensures KeysLinked(t', t'[b].conf.delegates) {
      if b != a { assert KeysLinked(t, t[b].conf.delegates); }
    }
    forall i | 0 <= i < |blocks| ensures BlockLinked(t', blocks[i]) {
      BlockStaysLinked(t, t', blocks[i]);
    }
  }

  lemma BlockStaysLinked(t: AccountTable, t': AccountTable, b: Block)
    requires BlockLinked(t, b) && t.Keys <= t'.Keys
    ensures BlockLinked(t', b)
  {
    forall i | 0 <= i < |b.transactions| ensures TxLinked(t', b.transactions[i]) {
      assert TxLinked(t, b.transactions[i]);
      assert forall x :: x in t ==> x in t';
    }
  }

  lemma {:induction false} WithoutLinked(t: AccountTable, ks: seq<PublicKey>, k: PublicKey)
    requires KeysLinked(t, ks)
    ensures KeysLinked(t, Without(ks, k))
  {
    if ks != [] { WithoutLinked(t, ks[..|ks| - 1], k); }
  }

  predicate FieldLinked(t: AccountTable, f: Field) {
    f.Keys? && f.keys.Delegates? ==> ItemsLinked(t, f.items)
  }

  lemma SameKeyList(r: AccountRow, c: KeyColumn)
    ensures SetKeyList(r, c, KeyListOf(r, c)) == r
  {
  }

  lemma KeyListSet(r: AccountRow, c: KeyColumn, ks: seq<PublicKey>)
    ensures KeyListOf(SetKeyList(r, c, ks), c) == ks
    ensures SetKeyList(SetKeyList(r, c, KeyListOf(r, c)), c, ks) == SetKeyList(r, c, ks)
    ensures SetKeyList(r, c, ks).conf.balance == r.conf.balance
  {
  }

  lemma ChangedLinked(t: AccountTable, rows: seq<RoundRow>, saved: Option<Saved>, blocks: seq<Block>,
                      a: Address, c: KeyColumn, item: string)
    requires Linked(t, rows, saved, blocks) && a in t
    requires c.Delegates? ==> OfKey(KeyOf(item)) in t
    ensures Linked(t[a := SetKeyList(t[a], c, ChangeKeys(KeyListOf(t[a], c), item))], rows, saved, blocks)
  {
    assert KeysLinked(t, t[a].conf.delegates);
    WithoutLinked(t, t[a].conf.delegates, KeyOf(item));
    LinkedPut(t, rows, saved, blocks, a, SetKeyList(t[a], c, ChangeKeys(KeyListOf(t[a], c), item)));
  }

  lemma LinkedRow(t: AccountTable, rows: seq<RoundRow>, saved: Option<Saved>, blocks: seq<Block>, row: RoundRow)
    requires Linked(t, rows, saved, blocks) && OfKey(row.delegate) in t
    ensures Linked(t, rows + [row], saved, blocks)
  {
  }

  lemma NewRowNode(t: AccountTable, rows: seq<RoundRow>, saved: Option<Saved>, roundRewards: seq<RewardRow>,
                   blocks: seq<Block>, flags: set<Address>, a: Address)
    requires a !in t
    ensures NodeOf(t[a := NEW_ROW], rows, saved, roundRewards, blocks, flags) == NodeOf(t, rows, saved, roundRewards,
            blocks, flags)
    ensures Linked(t, rows, saved, blocks) ==> Linked(t[a := NEW_ROW], rows, saved, blocks)
  {
    NewRow(t, a);
    if Linked(t, rows, saved, blocks) { LinkedPut(t, rows, saved, blocks, a, NEW_ROW); }
  }

  /** The state of the loop over a key list after `i` items. */
  ghost predicate KeysDone(t0: AccountTable, rows0: seq<RoundRow>, t: AccountTable, rows: seq<RoundRow>,
                           a: Address, c: KeyColumn, items: seq<string>, round: int, i: nat) {
    && i <= |items| && a in t0 && a in t
    && t == t0[a := SetKeyList(t0[a], c, KeyListOf(t[a], c))]
    && multiset(KeyListOf(t[a], c)) == ApplyDiff(multiset(KeyListOf(t0[a], c)), items[..i])
    && (if c.Delegates? then
          && PendingOf(rows) == AccrueVotes(PendingOf(rows0), round, t0[a].conf.balance, items[..i])
          && RoundsOf(rows) == if i == 0 then RoundsOf(rows0) else RoundsOf(rows0) + {round}
        else rows == rows0)
  }

  lemma KeysStart(t: AccountTable, rows: seq<RoundRow>, a: Address, c: KeyColumn, items: seq<string>, round: int)
    requires a in t
    ensures KeysDone(t, rows, t, rows, a, c, items, round, 0)
  {
    hide AcctsOf, VotesOf, PendingOf, AccrueVotes, RoundsOf, FullPending;
    FullBooks(t, rows);
    NoVotesAccrued(PendingOf(rows), round, t[a].conf.balance);
    SameKeyList(t[a], c);
    assert items[..0] == [];
  }

  lemma KeysNext(t0: AccountTable, rows0: seq<RoundRow>, t: AccountTable, rows: seq<RoundRow>, more: seq<RoundRow>,
                 a: Address, c: KeyColumn, items: seq<string>, round: int, i: nat)
    requires i < |items| && KeysDone(t0, rows0, t, rows, a, c, items, round, i)
    requires more == if c.Delegates? then rows + [VoteRow(a, t0[a].conf.balance, items[i], round)] else rows
    ensures var t' := t[a := SetKeyList(t[a], c, ChangeKeys(KeyListOf(t[a], c), items[i]))];
            KeysDone(t0, rows0, t', more, a, c, items, round, i + 1)
  {
    hide PendingOf, AccrueVotes, RoundsOf, ApplyDiff, ChangeKeys, VoteRow;
    var ks := ChangeKeys(KeyListOf(t[a], c), items[i]);
    ChangeKeysIs(multiset(KeyListOf(t0[a], c)), KeyListOf(t[a], c), items, i);
    KeyListSet(t0[a], c, KeyListOf(t[a], c));
    KeyListSet(t0[a], c, ks);
    Overwritten(t0[a], c, KeyListOf(t[a], c), ks);
    if c.Delegates? {
      VoteRowAccrues(PendingOf(rows0), rows, a, t0[a].conf.balance, items, i, round);
      AppendRow(rows, VoteRow(a, t0[a].conf.balance, items[i], round));
      assert VoteRow(a, t0[a].conf.balance, items[i],
              round).round == round by { VoteRowRound(a, t0[a].conf.balance, items[i], round); }
    }
  }

  lemma VoteRowRound(a: Address, balance: int, item: string, round: int)
    ensures VoteRow(a, balance, item, round).round == round
    ensures VoteRow(a, balance, item, round).delegate == KeyOf(item)
  {
  }

  lemma Overwritten(r: AccountRow, c: KeyColumn, ks: seq<PublicKey>, ks': seq<PublicKey>)
    ensures SetKeyList(SetKeyList(r, c, ks), c, ks') == SetKeyList(r, c, ks')
  {
  }

  lemma KeysEnd(t0: AccountTable, rows0: seq<RoundRow>, t: AccountTable, rows: seq<RoundRow>, saved: Option<Saved>,
                roundRewards: seq<RewardRow>, blocks: seq<Block>, flags: set<Address>,
                a: Address, c: KeyColumn, items: seq<string>, round: int)
    requires KeysDone(t0, rows0, t, rows, a, c, items, round, |items|)
    ensures NodeOf(t, rows, saved, roundRewards, blocks, flags) ==
            MergeField(NodeOf(t0, rows0, saved, roundRewards, blocks, flags), a, Keys(c, items), round)
  {
    hide AcctsOf, VotesOf, PendingOf, AccrueVotes, RoundsOf, ApplyDiff, Row;
    assert items[..|items|] == items;
    WriteKeys(t0, a, c, KeyListOf(t[a], c), items, rows0);
    BooksRows(t, rows, rows0);
    EntryConf(t0, a);
  }

  lemma BooksRows(t: AccountTable, rows: seq<RoundRow>, rows0: seq<RoundRow>)
    ensures BooksOf(t, rows) == BooksOf(t, rows0).(pending := PendingOf(rows))
  {
  }

  lemma EntryConf(t: AccountTable, a: Address)
    ensures Row(AcctsOf(t).conf, a) == SideOf(Fetch(t, a).conf)
    ensures Row(AcctsOf(t).unconf, a) == SideOf(Fetch(t, a).unconf)
  {
    EntryAt(t, a);
  }

  lemma NumberNode(t: AccountTable, rows: seq<RoundRow>, rows': seq<RoundRow>, saved: Option<Saved>,
      roundRewards: seq<RewardRow>,
                   blocks: seq<Block>, flags: set<Address>, a: Address, c: NumberColumn, x: int, round: int)
    requires a in t
    requires rows' == if c.Balance? then rows + AmountRows(a, x, t[a].conf.delegates, round) else rows
    ensures NodeOf(t[a := SetNumber(t[a], c, NumberOf(t[a], c) + x)], rows', saved, roundRewards, blocks, flags) ==
            MergeField(NodeOf(t, rows, saved, roundRewards, blocks, flags), a, Number(c, x), round)
  {
    hide AcctsOf, VotesOf, PendingOf, Accrue, RoundsOf, Row, AddNumber;
    WriteNumber(t, a, c, x, rows);
    BooksRows(t[a := SetNumber(t[a], c, NumberOf(t[a], c) + x)], rows', rows);
    EntryConf(t, a);
    if c.Balance? { AmountRowsAccrue(rows, a, x, t[a].conf.delegates, round); }
  }

  lemma NumberKeepsKeys(r: AccountRow, c: NumberColumn, x: int)
    ensures SetNumber(r, c, x).conf.delegates == r.conf.delegates
    ensures SetNumber(r, c, NumberOf(r, c) + 0) == r
  {
  }

  lemma LinkedAmount(t: AccountTable, rows: seq<RoundRow>, saved: Option<Saved>, blocks: seq<Block>,
                     a: Address, c: NumberColumn, x: int, y: int, round: int)
    requires Linked(t, rows, saved, blocks) && a in t
    ensures Linked(t[a := SetNumber(t[a], c, x)], rows, saved, blocks)
    ensures Linked(t[a := SetNumber(t[a], c, x)], rows + AmountRows(a, y, t[a].conf.delegates, round), saved, blocks)
  {
    assert KeysLinked(t, t[a].conf.delegates);
    NumberKeepsKeys(t[a], c, x);
    LinkedPut(t, rows, saved, blocks, a, SetNumber(t[a], c, x));
  }

  lemma NumberLinked(t: AccountTable, c: NumberColumn, x: int)
    ensures DiffLinked(t, [Number(c, x)])
  {
  }

  lemma MergeFieldsStep(n: Node, a: Address, diff: seq<Field>, i: nat, round: int)
    requires i < |diff|
    ensures MergeFields(n, a, diff[..i + 1], round) ==
            MergeField(MergeFields(n, a, diff[..i], round), a, diff[i], round)
  {
    hide MergeField;
    assert diff[..i + 1][..i] == diff[..i];
  }

  predicate DiffLinked(t: AccountTable, diff: seq<Field>) {
    forall i :: 0 <= i < |diff| ==> FieldLinked(t, diff[i])
  }

  // ---------- single assignments to a row ----------

  lemma ConfNode(t: AccountTable, rows: seq<RoundRow>, saved: Option<Saved>, roundRewards: seq<RewardRow>,
                 blocks: seq<Block>, flags: set<Address>, a: Address, h: HalfRow)
    requires a in t && h.delegates == t[a].conf.delegates
    ensures var n := NodeOf(t, rows, saved, roundRewards, blocks, flags);
            NodeOf(t[a := t[a].(conf := h)], rows, saved, roundRewards, blocks, flags) ==
            n.(books := EditConf(n.books, a, SideOf(h)))
    ensures var n := NodeOf(t, rows, saved, roundRewards, blocks, flags);
            NodeOf(t[a := t[a].(conf := h, vote := 0)], rows, saved, roundRewards, blocks, flags) ==
            n.(books := EditConf(n.books, a, SideOf(h)).(votes := n.books.votes[a := 0]))
    ensures Linked(t, rows, saved, blocks) ==>
              Linked(t[a := t[a].(conf := h)], rows, saved, blocks)
                  && Linked(t[a := t[a].(conf := h, vote := 0)], rows, saved, blocks)
  {
    hide ConfOf, UnconfOf, KeysOf, VotesOf, ProducedOf, FeesColumn, RewardsColumn, PendingOf;
    WriteConf(t, a, h, rows);
    PutRow(t, a, t[a].(conf := h, vote := 0));
    SameEntry(t, a);
    if Linked(t, rows, saved, blocks) {
      assert KeysLinked(t, t[a].conf.delegates);
      LinkedPut(t, rows, saved, blocks, a, t[a].(conf := h));
      LinkedPut(t, rows, saved, blocks, a, t[a].(conf := h, vote := 0));
    }
  }

  lemma SecondKeyNode(t: AccountTable, rows: seq<RoundRow>, saved: Option<Saved>, roundRewards: seq<RewardRow>,
                      blocks: seq<Block>, flags: set<Address>, a: Address, on: bool, key: Option<PublicKey>)
    requires a in t
    ensures var n := NodeOf(t, rows, saved, roundRewards, blocks, flags);
            var h := t[a].conf.(secondSignature := on);
            NodeOf(t[a := t[a].(conf := h, secondKey := key)], rows, saved, roundRewards, blocks, flags) ==
            n.(books := SetSecondKey(EditConf(n.books, a, SideOf(h)), a, key))
    ensures Linked(t, rows, saved, blocks) ==>
              Linked(t[a := t[a].(conf := t[a].conf.(secondSignature := on), secondKey := key)], rows, saved, blocks)
  {
    hide ConfOf, UnconfOf, KeysOf, VotesOf, ProducedOf, FeesColumn, RewardsColumn, PendingOf;
    var row := t[a].(conf := t[a].conf.(secondSignature := on), secondKey := key);
    PutRow(t, a, row);
    SameEntry(t, a);
    if Linked(t, rows, saved, blocks) {
      assert KeysLinked(t, t[a].conf.delegates);
      LinkedPut(t, rows, saved, blocks, a, row);
    }
  }

  lemma UnconfNode(t: AccountTable, rows: seq<RoundRow>, saved: Option<Saved>, roundRewards: seq<RewardRow>,
                   blocks: seq<Block>, flags: set<Address>, a: Address, h: HalfRow)
    requires a in t
    ensures var n := NodeOf(t, rows, saved, roundRewards, blocks, flags);
            NodeOf(t[a := t[a].(unconf := h)], rows, saved, roundRewards, blocks, flags) ==
            n.(books := EditUnconf(n.books, a, SideOf(h)))
    ensures Linked(t, rows, saved, blocks) ==> Linked(t[a := t[a].(unconf := h)], rows, saved, blocks)
  {
    hide ConfOf, UnconfOf, KeysOf, VotesOf, ProducedOf, FeesColumn, RewardsColumn, PendingOf;
    WriteUnconf(t, a, h, rows);
    if Linked(t, rows, saved, blocks) {
      assert KeysLinked(t, t[a].conf.delegates);
      LinkedPut(t, rows, saved, blocks, a, t[a].(unconf := h));
    }
  }

  // ---------- queries ----------

  /** The accounts query of checkDelegates: the registered delegates among the voted addresses. */
  function FoundRows(t: AccountTable, votes: seq<string>): set<Address> {
    set i | 0 <= i < |votes| && Fetch(t, OfKey(Tail(votes[i]))).conf.isDelegate :: OfKey(Tail(votes[i]))
  }

  lemma FoundRowsSame(t: AccountTable, votes: seq<string>)
    ensures FoundRows(t, votes) == Found(AcctsOf(t).conf, votes)
  {
    forall b: Address ensures Row(AcctsOf(t).conf, b).isDelegate == Fetch(t, b).conf.isDelegate { EntryConf(t, b); }
    hide AcctsOf, Row, Fetch, Tail;
  }

  lemma FoundRowsIs(t: AccountTable, rows: seq<RoundRow>, votes: seq<string>)
    ensures FoundRows(t, votes) == Found(AcctsOf(t).conf, votes)
    ensures AllSigned(votes) && |FoundRows(t, votes)| >= |votes| ==> ItemsLinked(t, votes)
  {
    hide AcctsOf, Row, FoundRows, Found;
    FoundRowsSame(t, votes);
    if AllSigned(votes) && |FoundRows(t, votes)| >= |votes| {
      FoundAll(AcctsOf(t).conf, votes);
      forall i | 0 <= i < |votes| ensures OfKey(KeyOf(votes[i])) in t { EntryConf(t, OfKey(KeyOf(votes[i]))); }
    }
  }

  predicate NameTaken(t: AccountTable, username: string) {
    exists a :: a in t && t[a].conf.username == Some(username)
  }

  predicate UnconfirmedNameTaken(t: AccountTable, username: string) {
    exists a :: a in t && t[a].unconf.username == Some(username)
  }

  lemma NameTakenIs(t: AccountTable, username: string)
    ensures NameTaken(t, username) <==> !UsernameFree(AcctsOf(t).conf, username)
    ensures UnconfirmedNameTaken(t, username) <==> !UsernameFree(AcctsOf(t).unconf, username)
  {
    forall a: Address
      ensures Row(AcctsOf(t).conf, a).username == Fetch(t, a).conf.username
      ensures Row(AcctsOf(t).unconf, a).username == Fetch(t, a).unconf.username
    {
      EntryConf(t, a);
    }
    hide AcctsOf, Row;
    if NameTaken(t, username) {
      var a :| a in t && t[a].conf.username == Some(username);
      assert Row(AcctsOf(t).conf, a).username == Some(username);
    }
    if UnconfirmedNameTaken(t, username) {
      var a :| a in t && t[a].unconf.username == Some(username);
      assert Row(AcctsOf(t).unconf, a).username == Some(username);
    }
    if !UsernameFree(AcctsOf(t).conf, username) {
      var a: Address :| Row(AcctsOf(t).conf, a).username == Some(username);
      assert a in t;
    }
    if !UsernameFree(AcctsOf(t).unconf, username) {
      var a: Address :| Row(AcctsOf(t).unconf, a).username == Some(username);
      assert a in t;
    }
  }

  lemma ReversedLinked(t: AccountTable, votes: seq<string>)
    requires AllSigned(votes) && ItemsLinked(t, votes)
    ensures ItemsLinked(t, Reversed(votes))
  {
    forall i | 0 <= i < |votes| ensures OfKey(KeyOf(Reversed(votes)[i])) in t { assert Signed(votes[i]); }
  }

  lemma NodeParts(t: AccountTable, rows: seq<RoundRow>, saved: Option<Saved>, roundRewards: seq<RewardRow>,
                  blocks: seq<Block>, flags: set<Address>)
    ensures var n := NodeOf(t, rows, saved, roundRewards, blocks, flags);
            && n.books == Books(AcctsOf(t), VotesOf(t), PendingOf(rows))
            && n.flags == flags && n.blocks == blocks && n.rounds == RoundsOf(rows)
            && n.rewardRows == roundRewards && n.snapshot == SnapshotView(saved)
  {
  }

  lemma FlagNode(t: AccountTable, rows: seq<RoundRow>, saved: Option<Saved>, roundRewards: seq<RewardRow>,
                 blocks: seq<Block>, flags: set<Address>, flags': set<Address>)
    ensures NodeOf(t, rows, saved, roundRewards, blocks, flags') == NodeOf(t, rows, saved, roundRewards, blocks,
            flags).(flags := flags')
  {
  }

  lemma FoundEnough(found: set<Address>, existing: multiset<PublicKey>, votes: seq<string>)
    requires CheckFound(found, existing, votes)
    ensures AllSigned(votes) && |found| >= |votes|
  {
  }

  lemma ChargeUnconfirmedIs(n: Node, tx: Transaction, x: int)
    ensures MergeFields(n, tx.From(), [Number(UBalance, x)], 0) == ChargeUnconfirmed(n, tx, x)
    ensures ChargeUnconfirmed(n, tx, x).books.accts.conf == n.books.accts.conf
    ensures ChargeUnconfirmed(n, tx, x).flags == n.flags
  {
    OneField(n, tx.From(), Number(UBalance, x), 0);
    hide MergeFields;
  }

  lemma ChargeIs(n: Node, round: int, tx: Transaction, x: int)
    ensures MergeFields(n, tx.From(), [Number(Balance, x)], round) == Charge(n, round, tx, x)
  {
    OneField(n, tx.From(), Number(Balance, x), round);
    hide MergeFields;
  }

  lemma RowNode(t: AccountTable, rows: seq<RoundRow>, saved: Option<Saved>, roundRewards: seq<RewardRow>,
                blocks: seq<Block>, flags: set<Address>, a: Address)
    requires a in t
    ensures var n := NodeOf(t, rows, saved, roundRewards, blocks, flags);
            && Row(n.books.accts.conf, a) == SideOf(t[a].conf)
            && Row(n.books.accts.unconf, a) == SideOf(t[a].unconf)
            && SideOf(t[a].conf).balance == t[a].conf.balance
            && SideOf(t[a].unconf).balance == t[a].unconf.balance
            && n.flags == flags
  {
    EntryConf(t, a);
  }

  lemma FullNode(t: AccountTable, rows: seq<RoundRow>, saved: Option<Saved>, roundRewards: seq<RewardRow>,
                 blocks: seq<Block>, flags: set<Address>)
    ensures var b := NodeOf(t, rows, saved, roundRewards, blocks, flags).books;
            b.accts.Wf() && Full(b.votes) && FullPending(b.pending)
  {
    hide AcctsOf, VotesOf, PendingOf;
    FullBooks(t, rows);
  }

  // ---------- paying out a round ----------

  function Payments(backwards: bool, delegates: seq<PublicKey>, rewards: seq<int>, fees: nat): seq<Payout>
    requires |delegates| == |rewards|
  {
    if backwards then BackwardPayouts(delegates, rewards, fees) else ForwardPayouts(delegates, rewards, fees)
  }

  /** The shares in the order the loop makes them, without the remainder. */
  function EqualShares(backwards: bool, delegates: seq<PublicKey>, rewards: seq<int>, fees: nat): seq<Payout>
    requires |delegates| == |rewards|
  {
    if backwards then Negated(Shares(delegates, rewards, fees)) else Shares(delegates, rewards, fees)
  }

  function ShareOf(backwards: bool, delegate: PublicKey, changes: Changes): Payout {
    if backwards then Payout(delegate, -changes.fees, -changes.rewards) else Payout(delegate, changes.fees,
        changes.rewards)
  }

  function RemainderOf(backwards: bool, delegate: PublicKey, fees: nat): Payout {
    Payout(delegate, if backwards then -ChangesAt(fees, 0).feesRemaining else ChangesAt(fees, 0).feesRemaining, 0)
  }

  /** After the reversals, position i of the two arrays is what the loop pays at step i. */
  lemma ShareAt(backwards: bool, delegates: seq<PublicKey>, rewards: seq<int>, fees: nat, i: nat)
    requires |delegates| == |rewards| && i < |delegates|
    ensures var ds := if backwards then Backwards(delegates) else delegates;
            var rs := if backwards then Backwards(rewards) else rewards;
            EqualShares(backwards, delegates, rewards, fees)[i] == ShareOf(backwards, ds[i], ChangesAt(fees, rs[i]))
  {
  }

  lemma PaymentsSplit(backwards: bool, delegates: seq<PublicKey>, rewards: seq<int>, fees: nat)
    requires |delegates| == |rewards| > 0
    ensures var shares := EqualShares(backwards, delegates, rewards, fees);
            Payments(backwards, delegates, rewards, fees) ==
            if ChangesAt(fees, 0).feesRemaining > 0 then shares + [RemainderOf(backwards, delegates[|delegates| - 1],
                fees)] else shares
    ensures |EqualShares(backwards, delegates, rewards, fees)| == |delegates|
  {
  }

  lemma SharesLength(backwards: bool, delegates: seq<PublicKey>, rewards: seq<int>, fees: nat)
    requires |delegates| == |rewards|
    ensures |EqualShares(backwards, delegates, rewards, fees)| == |delegates|
  {
  }

  lemma ReversedKeys(t: AccountTable, backwards: bool, ds: seq<PublicKey>, rs: seq<int>, fees: nat)
    requires |ds| == |rs| > 0 && KeysLinked(t, ds)
    ensures KeysLinked(t, if backwards then Backwards(ds) else ds)
    ensures (if backwards then Backwards(ds) else ds)[if backwards then 0 else |ds| - 1] == ds[|ds| - 1]
    ensures OfKey(ds[|ds| - 1]) in t && |Backwards(ds)| == |ds| && |Backwards(rs)| == |rs|
  {
  }

  lemma RemainderIs(backwards: bool, delegate: PublicKey, fees: nat, reward: int)
    ensures ChangesAt(fees, reward).feesRemaining == ChangesAt(fees, 0).feesRemaining
    ensures var p := RemainderOf(backwards, delegate, fees);
            p.to == delegate && p.reward == 0 && p == Payout(delegate, p.fee, 0) &&
            (!backwards ==> p.fee == ChangesAt(fees, 0).feesRemaining)
  {
  }

  lemma PayAllLast(b: Books, round: int, ps: seq<Payout>, p: Payout)
    ensures PayAll(b, round, ps + [p]) == PayOut(PayAll(b, round, ps), round, p)
  {
    hide PayOut;
    assert (ps + [p])[..|ps|] == ps;
  }

  /** The node after some payouts: only the books, and rows of this round, are new. */
  ghost predicate PaidSoFar(n: Node, m: Node, round: int, ps: seq<Payout>) {
    && m == n.(books := PayAll(n.books, round, ps), rounds := m.rounds)
    && n.rounds <= m.rounds <= n.rounds + {round}
  }

  lemma PaidStart(n: Node, round: int)
    ensures PaidSoFar(n, n, round, [])
  {
  }

  lemma PaidNext(n: Node, m: Node, round: int, ps: seq<Payout>, p: Payout)
    requires PaidSoFar(n, m, round, ps)
    ensures PaidSoFar(n, PaidNode(m, round, p), round, ps + [p])
  {
    hide PayAll, PayOut, Row;
    PayAllLast(n.books, round, ps, p);
  }

  lemma PaidRewards(n: Node, m: Node, round: int, ps: seq<Payout>, rows: seq<RewardRow>)
    requires PaidSoFar(n, m, round, ps)
    ensures PaidSoFar(n.(rewardRows := rows), m.(rewardRows := rows), round, ps)
  {
    hide PayAll;
  }

  /** The rows collected for the first `i` forgers. */
  predicate RowsCollected(rows: seq<RewardRow>, timestamp: int, round: int, ds: seq<PublicKey>, rs: seq<int>,
      fees: nat, i: nat)
    requires |ds| == |rs|
  {
    && |rows| == i <= |ds|
    && forall k :: 0 <= k < i ==> rows[k] == RewardRow(timestamp, ChangesAt(fees, rs[k]).fees, rs[k], round, ds[k])
  }

  lemma RowsComplete(rows: seq<RewardRow>, timestamp: int, round: int, ds: seq<PublicKey>, rs: seq<int>, fees: nat)
    requires |ds| == |rs| > 0 && RowsCollected(rows, timestamp, round, ds, rs, fees, |ds|)
    ensures |rows| == |ds|
    ensures var last, rem := rows[|rows| - 1], ChangesAt(fees, 0).feesRemaining;
            RewardRows(timestamp, round, ds, rs, fees) ==
            if rem > 0 then rows[|rows| - 1 := last.(fees := last.fees + rem)] else rows
  {
    var rem, n := ChangesAt(fees, 0).feesRemaining, |rows|;
    var last := rows[n - 1];
    var out := if rem > 0 then rows[n - 1 := last.(fees := last.fees + rem)] else rows;
    var spec := RewardRows(timestamp, round, ds, rs, fees);
    forall k | 0 <= k < n ensures out[k] == spec[k] { }
  }

  lemma PayoutDiffLinked(t: AccountTable, p: Payout)
    ensures DiffLinked(t, PayoutDiff(p))
    ensures DiffLinked(t, RemainderDiff(p.fee))
  {
  }

  // ---------- vote sums, flush and snapshots ----------

  /** The sums of getVotes over the first `i` rows. */
  ghost predicate Grouped(sums: map<PublicKey, int>, rows: seq<RoundRow>, round: int, i: nat)
    requires i <= |rows|
  {
    forall d: PublicKey :: SumRows(rows[..i], round, d) == if d in sums then sums[d] else 0
  }

  lemma GroupedNext(sums: map<PublicKey, int>, sums': map<PublicKey, int>, rows: seq<RoundRow>, round: int, i: nat)
    requires i < |rows| && Grouped(sums, rows, round, i)
    requires sums' == if rows[i].round == round
                      then sums[rows[i].delegate :=
                                  (if rows[i].delegate in sums then sums[rows[i].delegate] else 0) + rows[i].amount]
                      else sums
    ensures Grouped(sums', rows, round, i + 1)
  {
    assert rows[..i + 1][..i] == rows[..i];
    forall d: PublicKey ensures SumRows(rows[..i + 1], round, d) == if d in sums' then sums'[d] else 0 {
      assert SumRows(rows[..i], round, d) == if d in sums then sums[d] else 0;
    }
  }

  lemma NothingGrouped(rows: seq<RoundRow>, round: int)
    ensures Grouped(map[], rows, round, 0)
  {
  }

  predicate KeysWithin(sums: map<PublicKey, int>, t: AccountTable) { forall d :: d in sums ==> OfKey(d) in t }

  /** The table when the sums of the keys not in `left` have been added. */
  ghost predicate VotesAdded(t0: AccountTable, t: AccountTable, sums: map<PublicKey, int>, left: set<PublicKey>) {
    && t.Keys == t0.Keys
    && forall a :: a in t0 ==>
         t[a] == if a.OfKey? && a.key in sums && a.key !in left then t0[a].(vote := t0[a].vote + sums[a.key]) else t0[a]
  }

  lemma KeptKeys(t0: AccountTable, t: AccountTable, sums: map<PublicKey, int>)
    requires VotesAdded(t0, t, sums, {})
    ensures t.Keys == t0.Keys
  {
  }

  lemma NoneAdded(t: AccountTable, sums: map<PublicKey, int>)
    ensures VotesAdded(t, t, sums, sums.Keys)
  {
  }

  lemma AddedNext(t0: AccountTable, t: AccountTable, sums: map<PublicKey, int>, left: set<PublicKey>, d: PublicKey)
    requires VotesAdded(t0, t, sums, left) && KeysWithin(sums, t0) && d in left && left <= sums.Keys
    ensures OfKey(d) in t
    ensures VotesAdded(t0, t[OfKey(d) := t[OfKey(d)].(vote := t[OfKey(d)].vote + sums[d])], sums, left - {d})
  {
    assert OfKey(d) in t0;
  }

  lemma VotesNode(t0: AccountTable, t: AccountTable, sums: map<PublicKey, int>, rows: seq<RoundRow>, round: int)
    requires VotesAdded(t0, t, sums, {}) && Grouped(sums, rows, round, |rows|) && KeysWithin(sums, t0)
    ensures BooksOf(t, rows) == BooksOf(t0, rows).(votes := UpdateVotes(VotesOf(t0), PendingOf(rows), round))
  {
    assert rows[..|rows|] == rows;
    assert forall a: Address :: Fetch(t, a) == Fetch(t0, a).(vote := Fetch(t, a).vote);
    forall a: Address ensures VotesOf(t)[a] == UpdateVotes(VotesOf(t0), PendingOf(rows), round)[a] {
      if a.OfKey? {
        assert SumRows(rows, round, a.key) == if a.key in sums then sums[a.key] else 0;
      }
    }
    assert VotesOf(t) == UpdateVotes(VotesOf(t0), PendingOf(rows), round);
    hide Fetch, SumRows, PendingOf, UpdateVotes, ConfOf, UnconfOf, KeysOf, VotesOf, ProducedOf, FeesColumn,
         RewardsColumn;
    SameSides(t0, t);
    SameNumbers(t0, t);
    SameEarnings(t0, t);
  }

  lemma VotesLinked(t0: AccountTable, t: AccountTable, sums: map<PublicKey, int>, left: set<PublicKey>,
                    rows: seq<RoundRow>, saved: Option<Saved>, blocks: seq<Block>)
    requires Linked(t0, rows, saved, blocks) && VotesAdded(t0, t, sums, left)
    ensures Linked(t, rows, saved, blocks)
  {
    SameDelegatesLinked(t0, t, rows, saved, blocks);
  }

  lemma SameDelegatesLinked(t0: AccountTable, t: AccountTable, rows: seq<RoundRow>, saved: Option<Saved>,
      blocks: seq<Block>)
    requires Linked(t0, rows, saved, blocks) && t.Keys == t0.Keys
    requires forall a :: a in t0 ==> t[a].conf.delegates == t0[a].conf.delegates
    ensures Linked(t, rows, saved, blocks)
  {
    assert forall a :: a in t0 <==> a in t;
    forall a | a in t ensures KeysLinked(t, t[a].conf.delegates) {
      assert KeysLinked(t0, t0[a].conf.delegates);
    }
    forall i | 0 <= i < |blocks| ensures BlockLinked(t, blocks[i]) { BlockStaysLinked(t0, t, blocks[i]); }
  }

  lemma {:induction false} DropLinked(t: AccountTable, rows: seq<RoundRow>, round: int)
    requires RowsLinked(t, rows)
    ensures RowsLinked(t, DropRound(rows, round))
  {
    if rows != [] { DropLinked(t, rows[..|rows| - 1], round); }
  }

  /** performVotesSnapshot: vote and producedBlocks of every registered delegate. */
  function DelegateRows(t: AccountTable): map<Address, (int, int)> {
    map a | a in t && t[a].conf.isDelegate :: (t[a].vote, t[a].producedBlocks)
  }

  lemma SnapshotTaken(t: AccountTable, rows: seq<RoundRow>, saved: Option<Saved>, roundRewards: seq<RewardRow>,
                      blocks: seq<Block>, flags: set<Address>)
    ensures var n := NodeOf(t, rows, saved, roundRewards, blocks, flags);
            NodeOf(t, rows, Some(Saved(rows, DelegateRows(t))), roundRewards, blocks,
                flags) == n.(snapshot := Some(TakeSnapshot(n)))
    ensures Linked(t, rows, saved, blocks) ==> Linked(t, rows, Some(Saved(rows, DelegateRows(t))), blocks)
  {
    hide AcctsOf, VotesOf, PendingOf, RoundsOf, Row, Get, DelegateRows, RowsLinked, KeysLinked, BlockLinked;
    SnapshotColumns(t, rows);
    assert DelegateRows(t).Keys <= t.Keys by { DelegatesAreAccounts(t); }
  }

  lemma DelegatesNow(t: AccountTable, rows: seq<RoundRow>, saved: Option<Saved>, roundRewards: seq<RewardRow>,
                     blocks: seq<Block>, flags: set<Address>)
    ensures VotesNow(NodeOf(t, rows, saved, roundRewards, blocks, flags)) == VotesIn(DelegateRows(t))
  {
    hide BooksOf, RoundsOf, TakeSnapshot, DelegateRows, VotesIn, PendingOf;
    SnapshotTaken(t, rows, saved, roundRewards, blocks, flags);
    VotesInSaved(Saved(rows, DelegateRows(t)));
  }

  lemma DelegatesAreAccounts(t: AccountTable)
    ensures DelegateRows(t).Keys <= t.Keys
  {
  }

  lemma SnapshotColumns(t: AccountTable, rows: seq<RoundRow>)
    ensures var s, b := SnapshotOfSaved(Saved(rows, DelegateRows(t))), BooksOf(t, rows);
            && s.votes == (imap a: Address | Row(b.accts.conf, a).isDelegate :: Get(b.votes, a))
            && s.produced == (imap a: Address | Row(b.accts.conf, a).isDelegate :: Get(b.accts.produced, a))
  {
    hide PendingOf, RoundsOf, AcctsOf, VotesOf, DelegateRows, Row, Get;
    forall a: Address { SavedAt(t, a); }
  }

  lemma SavedAt(t: AccountTable, a: Address)
    ensures a in DelegateRows(t) <==> Row(AcctsOf(t).conf, a).isDelegate
    ensures a in DelegateRows(t) ==>
              DelegateRows(t)[a] == (Get(VotesOf(t), a), Get(AcctsOf(t).produced, a))
  {
    EntryAt(t, a);
  }

  /** restoreVotesSnapshot: the saved columns are written back to the rows they were taken from. */
  function RestoredTable(t: AccountTable, d: map<Address, (int, int)>): AccountTable {
    map a | a in t :: if a in d then t[a].(vote := d[a].0, producedBlocks := d[a].1) else t[a]
  }

  lemma RestoredBooks(t: AccountTable, s: Saved, rows: seq<RoundRow>)
    requires s.delegates.Keys <= t.Keys
    ensures var b, v := BooksOf(t, rows), SnapshotOfSaved(s);
            BooksOf(RestoredTable(t, s.delegates), rows) ==
            b.(accts := b.accts.(produced := Overwrite(b.accts.produced, v.produced)),
                votes := Overwrite(b.votes, v.votes))
  {
    var t', v := RestoredTable(t, s.delegates), SnapshotOfSaved(s);
    forall a: Address
      ensures Fetch(t', a) == Fetch(t, a).(vote := Fetch(t', a).vote, producedBlocks := Fetch(t', a).producedBlocks)
      ensures VotesOf(t')[a] == Overwrite(VotesOf(t), v.votes)[a]
      ensures ProducedOf(t')[a] == Overwrite(ProducedOf(t), v.produced)[a]
    {
      if a in s.delegates { assert a in t; }
    }
    assert VotesOf(t') == Overwrite(VotesOf(t), v.votes);
    assert ProducedOf(t') == Overwrite(ProducedOf(t), v.produced);
    hide Fetch, RestoredTable, Overwrite, ConfOf, UnconfOf, KeysOf, VotesOf, ProducedOf, FeesColumn, RewardsColumn;
    SameSides(t, t');
    SameEarnings(t, t');
  }

  lemma RestoredLinked(t: AccountTable, s: Saved, rows: seq<RoundRow>, blocks: seq<Block>)
    requires Linked(t, rows, Some(s), blocks)
    ensures Linked(RestoredTable(t, s.delegates), rows + s.rows, Some(s), blocks)
  {
    SameDelegatesLinked(t, RestoredTable(t, s.delegates), rows + s.rows, Some(s), blocks);
  }

  // ---------- ticks ----------

  lemma ForgersLinked(t: AccountTable, blocks: seq<Block>)
    requires |blocks| > 0 && forall i :: 0 <= i < |blocks| ==> BlockLinked(t, blocks[i])
    ensures KeysLinked(t, SumRound(blocks).delegates)
    ensures |SumRound(blocks).delegates| > 0
  {
    hide TotalFees, TxLinked;
    var ds := SumRound(blocks).delegates;
    if |blocks| == 1 {
      assert BlockLinked(t, blocks[0]);
    } else {
      var lo := (CalcRound(|blocks|) - 1) * ACTIVE_DELEGATES;
      forall i | 0 <= i < |ds| ensures OfKey(ds[i]) in t {
        assert ds[i] == blocks[lo + i].generator;
        assert BlockLinked(t, blocks[lo + i]);
      }
    }
  }

  lemma LandIs(n: Node, m: Node, round: int, s: RoundSum)
    requires |n.blocks| > 0 && s == SumRound(n.blocks) && round == CalcRound(|n.blocks|)
    requires PaidSoFar(n.(rewardRows := m.rewardRows), m, round, Payments(false, s.delegates, s.rewards, s.fees))
    requires m.rewardRows == n.rewardRows + RewardRows(n.blocks[|n.blocks| - 1].timestamp, round, s.delegates,
            s.rewards, s.fees)
    ensures Land(n) == m.(books := Books(m.books.accts, UpdateVotes(m.books.votes, m.books.pending, round),
            Flush(m.books.pending, round)),
                          rounds := m.rounds - {round})
  {
    hide PayAll, ForwardPayouts, UpdateVotes, Flush, SumRound, RewardRows;
    assert m.rounds - {round} == n.rounds - {round};
  }

  lemma BackwardLandIs(n: Node, m: Node, round: int, s: RoundSum)
    requires |n.blocks| > 1 && s == SumRound(n.blocks) && round == CalcRound(|n.blocks|)
    requires PaidSoFar(n, m, round, Payments(true, s.delegates, s.rewards, s.fees))
    requires SnapshotAvailable(n.snapshot, round)
    ensures var v := n.snapshot.value;
            BackwardLand(n) == Attempt(
              m.(books := Books(m.books.accts.(produced := Overwrite(m.books.accts.produced, v.produced)),
                                Overwrite(m.books.votes, v.votes),
                                AddPending(Flush(m.books.pending, round), v.pending)),
                 rounds := m.rounds - {round} + v.rounds,
                 rewardRows := SelectOtherRounds(n.rewardRows, round)), true)
  {
    hide PayAll, BackwardPayouts, Overwrite, AddPending, Flush, SumRound, SelectOtherRounds;
    assert m.rounds - {round} == n.rounds - {round};
  }

  lemma RestoredNode(t: AccountTable, rows: seq<RoundRow>, s: Saved, roundRewards: seq<RewardRow>, blocks: seq<Block>,
                     flags: set<Address>, roundRewards': seq<RewardRow>)
    requires s.delegates.Keys <= t.Keys
    ensures var n, v := NodeOf(t, rows, Some(s), roundRewards, blocks, flags), SnapshotOfSaved(s);
            NodeOf(RestoredTable(t, s.delegates), rows + s.rows, Some(s), roundRewards', blocks, flags) ==
            n.(books := Books(n.books.accts.(produced := Overwrite(n.books.accts.produced, v.produced)),
                              Overwrite(n.books.votes, v.votes),
                              AddPending(n.books.pending, v.pending)),
               rounds := n.rounds + v.rounds, rewardRows := roundRewards')
  {
    RestoredBooks(t, s, rows);
    RestoredRows(rows, s.rows);
    BooksRows(RestoredTable(t, s.delegates), rows + s.rows, rows);
    hide AcctsOf, VotesOf, PendingOf, RoundsOf, Overwrite, AddPending, RestoredTable;
  }

  lemma AvailableIs(saved: Option<Saved>, round: int)
    ensures SnapshotAvailable(SnapshotView(saved), round) <==>
            saved.Some? && ((exists i :: 0 <= i < |saved.value.rows| && saved.value.rows[i].round == round)
                || saved.value.rows == [])
  {
    if saved.Some? {
      var rows := saved.value.rows;
      if rows != [] { assert rows[0].round in RoundsOf(rows); }
    }
  }

  lemma CountBlockIs(n: Node, round: int, delta: int)
    requires |n.blocks| > 0
    ensures MergeFields(n, OfKey(n.blocks[|n.blocks| - 1].generator), [Number(ProducedBlocks, delta)],
            round) == CountBlock(n, delta)
  {
    OneField(n, OfKey(n.blocks[|n.blocks| - 1].generator), Number(ProducedBlocks, delta), round);
    hide MergeFields, Add;
  }

  lemma RoundLength()
    ensures ACTIVE_DELEGATES > 0
  {
  }

  lemma TickIs(n: Node)
    requires |n.blocks| > 0
    ensures var h := |n.blocks|;
            var n1 := CountBlock(n, 1);
            var n2 := if CalcRound(h) != CalcRound(h + 1) || h == 1 || h == 101 then Land(n1) else n1;
            Tick(n) == if (h + 1) % ACTIVE_DELEGATES == 0 then n2.(snapshot := Some(TakeSnapshot(n2))) else n2
  {
    hide CountBlock, Land, TakeSnapshot;
  }

  lemma BackwardTickIs(n: Node)
    requires |n.blocks| > 1
    ensures var h := |n.blocks|;
            var n1 := CountBlock(n, -1);
            BackwardTick(n) ==
            if (CalcRound(h - 1) == CalcRound(h) && CalcRound(h + 1) != CalcRound(h)) || h == 1 || h == 101
            then BackwardLand(n1) else Attempt(n1, true)
  {
    hide CountBlock, BackwardLand;
  }

  lemma FailedLanding(n: Node)
    requires |n.blocks| > 1
    ensures BackwardLand(n).ok <==> SnapshotAvailable(n.snapshot, CalcRound(|n.blocks|))
  {
    hide SnapshotAvailable, SumRound, PayAll;
  }

  lemma SavedWithin(t: AccountTable, rows: seq<RoundRow>, saved: Option<Saved>, blocks: seq<Block>)
    requires Linked(t, rows, saved, blocks) && saved.Some?
    ensures saved.value.delegates.Keys <= t.Keys
  {
  }

  lemma SameKeys(t: AccountTable, d: map<Address, (int, int)>)
    ensures RestoredTable(t, d).Keys == t.Keys
  {
  }

  lemma GeneratorKnown(t: AccountTable, rows: seq<RoundRow>, saved: Option<Saved>, blocks: seq<Block>)
    requires Linked(t, rows, saved, blocks) && |blocks| > 0
    ensures OfKey(blocks[|blocks| - 1].generator) in t
  {
    assert BlockLinked(t, blocks[|blocks| - 1]);
  }

  // ---------- blocks ----------

  lemma {:induction false} UAllStops(n: Node, txs: seq<Transaction>, k: nat)
    requires k <= |txs| && !UAll(n, txs[..k]).ok
    ensures UAll(n, txs) == UAll(n, txs[..k])
  {
    hide UAllowed, UStep;
    if k == |txs| {
      assert txs[..k] == txs;
    } else {
      var pre := txs[..|txs| - 1];
      assert pre[..k] == txs[..k];
      UAllStops(n, pre, k);
    }
  }

  lemma {:induction false} CAllStops(n: Node, round: int, txs: seq<Transaction>, k: nat)
    requires k <= |txs| && !CAll(n, round, txs[..k]).ok
    ensures CAll(n, round, txs) == CAll(n, round, txs[..k])
  {
    hide CAllowed, CStep;
    if k == |txs| {
      assert txs[..k] == txs;
    } else {
      var pre := txs[..|txs| - 1];
      assert pre[..k] == txs[..k];
      CAllStops(n, round, pre, k);
    }
  }

  lemma UAllNext(n: Node, txs: seq<Transaction>, i: nat)
    requires i < |txs| && UAll(n, txs[..i]).ok
    ensures var u := UAll(n, txs[..i]).node;
            UAll(n, txs[..i + 1]) ==
            if UAllowed(u.books.accts, u.flags, txs[i], false) then Attempt(UStep(u, txs[i]), true)
            else Attempt(u, false)
  {
    hide UAllowed, UStep;
    assert txs[..i + 1][..i] == txs[..i];
  }

  lemma CAllNext(n: Node, round: int, txs: seq<Transaction>, i: nat)
    requires i < |txs| && CAll(n, round, txs[..i]).ok
    ensures var c := CAll(n, round, txs[..i]).node;
            CAll(n, round, txs[..i + 1]) ==
            if CAllowed(c.books.accts, txs[i], false) then Attempt(CStep(c, round, txs[i]), true) else Attempt(c, false)
  {
    hide CAllowed, CStep;
    assert txs[..i + 1][..i] == txs[..i];
  }

  lemma NoneApplied(n: Node, round: int, txs: seq<Transaction>)
    ensures txs[..0] == [] && UAll(n, txs[..0]) == Attempt(n, true) && CAll(n, round, txs[..0]) == Attempt(n, true)
  {
  }

  lemma UndoNext(n: Node, round: int, txs: seq<Transaction>, k: nat)
    requires 0 < k <= |txs|
    ensures UndoAll(n, round, txs[..k]) == UndoAll(UndoStep(n, round, txs[k - 1]), round, txs[..k - 1])
  {
    hide UndoStep;
    assert txs[..k][..k - 1] == txs[..k - 1];
  }

  predicate SendersKnown(t: AccountTable, txs: seq<Transaction>, k: nat) {
    k <= |txs| && forall i :: 0 <= i < k ==> txs[i].From() in t
  }

  predicate AllLinked(t: AccountTable, txs: seq<Transaction>, k: nat) {
    k <= |txs| && forall i :: 0 <= i < k ==> TxLinked(t, txs[i])
  }

  lemma StillLinked(t: AccountTable, t': AccountTable, txs: seq<Transaction>, k: nat)
    requires t.Keys <= t'.Keys
    ensures AllLinked(t, txs, k) ==> AllLinked(t', txs, k)
    ensures SendersKnown(t, txs, k) ==> SendersKnown(t', txs, k)
  {
    assert forall x :: x in t ==> x in t';
    if AllLinked(t, txs, k) {
      forall i | 0 <= i < k ensures TxLinked(t', txs[i]) { assert TxLinked(t, txs[i]); }
    }
  }

  lemma OneMoreLinked(t: AccountTable, txs: seq<Transaction>, k: nat)
    requires k < |txs| && AllLinked(t, txs, k) && TxLinked(t, txs[k])
    ensures AllLinked(t, txs, k + 1)
  {
    hide TxLinked;
  }

  lemma BlockAppended(t: AccountTable, rows: seq<RoundRow>, saved: Option<Saved>, roundRewards: seq<RewardRow>,
                      blocks: seq<Block>, flags: set<Address>, b: Block)
    requires Linked(t, rows, saved, blocks) && OfKey(b.generator) in t && AllLinked(t, b.transactions, |b.transactions|)
    ensures Linked(t, rows, saved, blocks + [b])
    ensures var n := NodeOf(t, rows, saved, roundRewards, blocks, flags);
            NodeOf(t, rows, saved, roundRewards, blocks + [b], flags) == n.(blocks := n.blocks + [b])
  {
    hide TxLinked, BooksOf, RoundsOf, SnapshotView, TableLinked, RowsLinked, SavedLinked;
    assert BlockLinked(t, b);
    hide BlockLinked;
  }

  lemma BlockRemoved(t: AccountTable, rows: seq<RoundRow>, saved: Option<Saved>, roundRewards: seq<RewardRow>,
                     blocks: seq<Block>, flags: set<Address>)
    requires Linked(t, rows, saved, blocks) && |blocks| > 0
    ensures Linked(t, rows, saved, blocks[..|blocks| - 1])
    ensures var n := NodeOf(t, rows, saved, roundRewards, blocks, flags);
            NodeOf(t, rows, saved, roundRewards, blocks[..|blocks| - 1],
                flags) == n.(blocks := n.blocks[..|n.blocks| - 1])
  {
    hide BlockLinked;
  }

  lemma LastLinked(t: AccountTable, rows: seq<RoundRow>, saved: Option<Saved>, blocks: seq<Block>)
    requires Linked(t, rows, saved, blocks) && |blocks| > 0
    ensures var txs := blocks[|blocks| - 1].transactions; AllLinked(t, txs, |txs|)
  {
    hide TxLinked;
    assert BlockLinked(t, blocks[|blocks| - 1]);
  }

  lemma ApplyIs(n: Node, b: Block)
    ensures var round := CalcRound(|n.blocks| + 1);
            var u := UAll(n, b.transactions);
            var c := CAll(u.node, round, b.transactions);
            ApplyBlock(n, b) ==
            if !u.ok then Attempt(n.(flags := u.node.flags), false)
            else if !c.ok then Attempt(n.(flags := c.node.flags), false)
            else Attempt(Tick(c.node.(blocks := n.blocks + [b])), true)
  {
    hide UAll, CAll, Tick;
  }

  lemma PopIs(n: Node)
    requires |n.blocks| > 1
    ensures var undone := UndoAll(n, CalcRound(|n.blocks|), n.blocks[|n.blocks| - 1].transactions);
            var t := BackwardTick(undone);
            PopBlock(n) ==
            if !t.ok then Attempt(n.(flags := undone.flags), false)
            else Attempt(t.node.(blocks := n.blocks[..|n.blocks| - 1]), true)
  {
    hide UndoAll, BackwardTick;
  }

  lemma GenesisStays(n: Node)
    requires |n.blocks| == 1
    ensures PopBlock(n) == Attempt(n, false)
  {
    hide UndoAll, BackwardTick;
  }

  lemma NobodyYet(t: AccountTable, txs: seq<Transaction>)
    ensures SendersKnown(t, txs, 0) && AllLinked(t, txs, 0)
  {
  }

  lemma SenderAdded(t: AccountTable, txs: seq<Transaction>, k: nat)
    requires k < |txs| && SendersKnown(t, txs, k) && txs[k].From() in t
    ensures SendersKnown(t, txs, k + 1)
  {
  }

  lemma SenderIs(t: AccountTable, txs: seq<Transaction>, k: nat)
    requires k < |txs| && SendersKnown(t, txs, |txs|)
    ensures txs[k].From() in t
  {
  }

  lemma BackwardsAt(txs: seq<Transaction>, i: nat)
    requires i < |txs|
    ensures Backwards(txs)[i] == txs[|txs| - 1 - i]
  {
  }

  lemma LinkedAt(t: AccountTable, txs: seq<Transaction>, k: nat)
    requires k < |txs| && AllLinked(t, txs, |txs|)
    ensures TxLinked(t, txs[k]) && txs[k].From() in t
  {
  }

  lemma LinkedSender(t: AccountTable, t': AccountTable, tx: Transaction)
    requires TxLinked(t, tx) && t.Keys <= t'.Keys
    ensures tx.From() in t'
  {
  }

  lemma NothingLeft(n: Node, round: int, txs: seq<Transaction>)
    ensures UndoAll(n, round, txs[..0]) == n
  {
  }

  lemma EmptyFetch(a: Address)
    ensures Fetch(map[], a) == NEW_ROW && SideOf(EMPTY_HALF) == EMPTY_SIDE
  {
  }

  lemma EmptySides()
    ensures ConfOf(map[]) == EmptyBooks().accts.conf && UnconfOf(map[]) == EmptyBooks().accts.unconf
    ensures KeysOf(map[]) == EmptyBooks().accts.secondKeys
  {
    hide Fetch, SideOf;
    forall a: Address { EmptyFetch(a); }
  }

  lemma EmptyColumns()
    ensures ProducedOf(map[]) == ZeroColumn() && FeesColumn(map[]) == ZeroColumn()
    ensures RewardsColumn(map[]) == ZeroColumn()
    ensures VotesOf(map[]) == ZeroColumn() && PendingOf([]) == EmptyBooks().pending && RoundsOf([]) == {}
  {
    hide Fetch;
    forall a: Address { EmptyFetch(a); }
  }

  lemma EmptyTables()
    ensures BooksOf(map[], []) == EmptyBooks()
    ensures RoundsOf([]) == {}
  {
    EmptySides();
    EmptyColumns();
    hide ConfOf, UnconfOf, KeysOf, ProducedOf, FeesColumn, RewardsColumn, VotesOf, PendingOf, RoundsOf, ZeroColumn;
  }

  lemma GenesisNext(txs: seq<Transaction>, i: nat)
    requires i < |txs| && GenesisAll(txs[..i]).ok
    ensures var g := GenesisAll(txs[..i]).node;
            GenesisAll(txs[..i + 1]) ==
            if !UAllowed(g.books.accts, g.flags, txs[i], true) then Attempt(g, false)
            else if !CAllowed(UStep(g, txs[i]).books.accts, txs[i], true) then Attempt(UStep(g, txs[i]), false)
            else Attempt(CStep(UStep(g, txs[i]), 1, txs[i]), true)
  {
    hide UAllowed, CAllowed, UStep, CStep, EmptyNode;
    assert txs[..i + 1][..i] == txs[..i];
  }

  lemma {:induction false} GenesisStops(txs: seq<Transaction>, k: nat)
    requires k <= |txs| && !GenesisAll(txs[..k]).ok
    ensures !GenesisAll(txs).ok
  {
    hide UAllowed, CAllowed, UStep, CStep, EmptyNode;
    if k == |txs| {
      assert txs[..k] == txs;
    } else {
      var pre := txs[..|txs| - 1];
      assert pre[..k] == txs[..k];
      GenesisStops(pre, k);
    }
  }

  lemma AuthorKnown(t: AccountTable, b: Block)
    requires AllLinked(t, b.transactions, |b.transactions|)
    requires exists i :: 0 <= i < |b.transactions| && b.transactions[i].sender == b.generator
    ensures OfKey(b.generator) in t
  {
    var i :| 0 <= i < |b.transactions| && b.transactions[i].sender == b.generator;
    LinkedAt(t, b.transactions, i);
  }

  lemma GenesisStart(txs: seq<Transaction>)
    ensures txs[..0] == [] && GenesisAll(txs[..0]) == Attempt(EmptyNode(), true)
  {
  }

  lemma GenesisIs(b: Block)
    ensures var g := GenesisAll(b.transactions);
            && ApplyGenesis(b).ok == g.ok
            && (g.ok ==> ApplyGenesis(b).node == Tick(g.node.(blocks := [b])))
  {
    hide GenesisAll, Tick;
  }

  lemma {:induction false} GenesisNoBlocks(txs: seq<Transaction>)
    ensures GenesisAll(txs).node.blocks == []
  {
    hide UAllowed, CAllowed, UEffect, CEffect, CPending, TxRounds, EmptyBooks;
    if txs != [] { GenesisNoBlocks(txs[..|txs| - 1]); }
  }

  class LedgerNode {
    var accounts: AccountTable
    var memRound: seq<RoundRow>
    var saved: Option<Saved>
    var roundRewards: seq<RewardRow>
    var blocks: seq<Block>
    var unconfirmedSignatures: set<Address>

    ghost function View(): Node reads this {
      NodeOf(accounts, memRound, saved, roundRewards, blocks, unconfirmedSignatures)
    }

    ghost predicate Valid() reads this { Linked(accounts, memRound, saved, blocks) }

    /** Empty tables. */
    constructor ()
      ensures Valid() && View() == EmptyNode()
      ensures accounts == map[] && blocks == []
    {
      accounts, memRound, saved, roundRewards, blocks, unconfirmedSignatures := map[], [], None, [], [], {};
      new;
      hide BooksOf, EmptyBooks;
      EmptyTables();
    }

    /** account.set with nothing but the address: the row is created when it is missing. */
    method SetAccount(a: Address)
      requires Valid()
      modifies this`accounts
      ensures Valid() && View() == old(View())
      ensures accounts.Keys == old(accounts.Keys) + {a}
      ensures forall b :: b in old(accounts) ==> b in accounts && accounts[b] == old(accounts)[b]
    {
      hide NodeOf, Linked;
      if a !in accounts {
        NewRowNode(accounts, memRound, saved, roundRewards, blocks, unconfirmedSignatures, a);
        accounts := accounts[a := NEW_ROW];
      }
    }

    /** The Array case of account.merge, one item at a time. */
    method MergeKeys(a: Address, column: KeyColumn, items: seq<string>, round: int)
      requires Valid() && a in accounts
      requires column.Delegates? ==> ItemsLinked(accounts, items)
      modifies this`accounts, this`memRound
      ensures Valid() && accounts.Keys == old(accounts.Keys)
      ensures View() == MergeField(old(View()), a, Keys(column, items), round)
    {
      hide MergeField, NodeOf, Linked, KeysDone, ChangeKeys, VoteRow;
      ghost var t0, rows0 := accounts, memRound;
      var balance := accounts[a].conf.balance;
      KeysStart(t0, rows0, a, column, items, round);
      var i := 0;
      while i < |items|
        invariant 0 <= i <= |items|
        invariant Valid() && accounts.Keys == t0.Keys
        invariant KeysDone(t0, rows0, accounts, memRound, a, column, items, round, i)
      {
        ghost var rows := memRound;
        ChangedLinked(accounts, memRound, saved, blocks, a, column, items[i]);
        var row := SetKeyList(accounts[a], column, ChangeKeys(KeyListOf(accounts[a], column), items[i]));
        if column.Delegates? {
          VoteRowRound(a, balance, items[i], round);
          LinkedRow(accounts[a := row], memRound, saved, blocks, VoteRow(a, balance, items[i], round));
          memRound := memRound + [VoteRow(a, balance, items[i], round)];
        }
        KeysNext(t0, rows0, accounts, rows, memRound, a, column, items, round, i);
        accounts := accounts[a := row];
        i := i + 1;
      }
      KeysEnd(t0, rows0, accounts, memRound, saved, roundRewards, blocks, unconfirmedSignatures, a, column, items,
              round);
    }

    /** The Number case of account.merge: an increment or a decrement, and for the balance one
        mem_round row per delegate of the account. */
    method MergeNumber(a: Address, column: NumberColumn, value: int, round: int)
      requires Valid() && a in accounts
      modifies this`accounts, this`memRound
      ensures Valid() && accounts.Keys == old(accounts.Keys)
      ensures View() == MergeField(old(View()), a, Number(column, value), round)
    {
      hide MergeField, NodeOf, Linked, AmountRows;
      var row := accounts[a];
      ghost var t0, rows0 := accounts, memRound;
      LinkedAmount(accounts, memRound, saved, blocks, a, column, NumberOf(row, column) + value, value, round);
      NumberKeepsKeys(row, column, 0);
      if value > 0 {
        accounts := accounts[a := SetNumber(row, column, NumberOf(row, column) + value)];
      } else if value < 0 {
        accounts := accounts[a := SetNumber(row, column, NumberOf(row, column) - -value)];
      }
      assert accounts == t0[a := SetNumber(t0[a], column, NumberOf(t0[a], column) + value)];
      if column.Balance? {
        memRound := memRound + AmountRows(a, value, row.conf.delegates, round);
      }
      NumberNode(t0, rows0, memRound, saved, roundRewards, blocks, unconfirmedSignatures, a, column, value, round);
    }

    /** account.merge: every field of the diff in turn. */
    method Merge(a: Address, diff: seq<Field>, round: int)
      requires Valid() && a in accounts && DiffLinked(accounts, diff)
      modifies this`accounts, this`memRound
      ensures Valid() && accounts.Keys == old(accounts.Keys)
      ensures View() == MergeFields(old(View()), a, diff, round)
    {
      hide MergeField, NodeOf, Linked;
      ghost var n := View();
      var i := 0;
      assert diff[..0] == [];
      while i < |diff|
        invariant 0 <= i <= |diff|
        invariant Valid() && accounts.Keys == old(accounts.Keys)
        invariant View() == MergeFields(n, a, diff[..i], round)
      {
        assert FieldLinked(old(accounts), diff[i]);
        MergeFieldsStep(n, a, diff, i, round);
        match diff[i] {
          case Number(column, value) => MergeNumber(a, column, value, round);
          case Keys(column, items) => MergeKeys(a, column, items, round);
        }
        i := i + 1;
      }
      assert diff[..|diff|] == diff;
    }

    // ---------- the transaction types ----------

    /** applyUnconfirmed of the transaction type. */
    method ApplyUnconfirmedType(tx: Transaction) returns (ok: bool)
      requires Valid() && tx.From() in accounts
      modifies this`accounts, this`memRound, this`unconfirmedSignatures
      ensures Valid() && accounts.Keys == old(accounts.Keys)
      ensures ok <==> UTypeAllowed(old(View()).books.accts, old(unconfirmedSignatures), tx)
      ensures View() == if ok then UTypeStep(old(View()), tx) else old(View())
    {
      hide Linked, AcctsOf, CheckFound, Found, FoundRows, ApplyDiff, UsernameFree, NameTaken, UnconfirmedNameTaken,
           VotesOf, PendingOf, RoundsOf, Accrue, SnapshotView, NodeOf, MergeField, MergeFields, Row;
      var a := tx.From();
      var sender := accounts[a].unconf;
      ghost var n := View();
      NodeParts(accounts, memRound, saved, roundRewards, blocks, unconfirmedSignatures);
      EntryConf(accounts, a);
      ok := true;
      match tx.asset {
        case Send(_) =>
          UnconfNode(accounts, memRound, saved, roundRewards, blocks, unconfirmedSignatures, a, sender);
          assert accounts[a := accounts[a].(unconf := sender)] == accounts;
        case SecondSignature(_) =>
          if sender.secondSignature || accounts[a].conf.secondSignature { return false; }
          var h := sender.(secondSignature := true);
          UnconfNode(accounts, memRound, saved, roundRewards, blocks, unconfirmedSignatures, a, h);
          accounts := accounts[a := accounts[a].(unconf := h)];
        case Registration(username) =>
          NameTakenIs(accounts, username);
          if sender.isDelegate || UnconfirmedNameTaken(accounts, username) { return false; }
          var h := sender.(isDelegate := true, username := Some(username));
          UnconfNode(accounts, memRound, saved, roundRewards, blocks, unconfirmedSignatures, a, h);
          accounts := accounts[a := accounts[a].(unconf := h)];
        case Votes(votes) =>
          FoundRowsIs(accounts, memRound, votes);
          if !CheckFound(FoundRows(accounts, votes), multiset(sender.delegates), votes) { return false; }
          UVotesIs(n, tx, votes, 0);
          MergeKeys(a, UDelegates, votes, 0);
        case Multisignature(keysgroup, min, lifetime) =>
          if a in unconfirmedSignatures { return false; }
          UGroupIs(n, tx, keysgroup, min, lifetime, 0);
          FlagNode(accounts, memRound, saved, roundRewards, blocks, unconfirmedSignatures, unconfirmedSignatures + {a});
          unconfirmedSignatures := unconfirmedSignatures + {a};
          Merge(a, [Keys(UMultisignatures, keysgroup), Number(UMultimin, min), Number(UMultilifetime, lifetime)], 0);
      }
    }

    /** undoUnconfirmed of the transaction type; it has nothing to check. */
    method UndoUnconfirmedType(tx: Transaction)
      requires Valid() && tx.From() in accounts
      modifies this`accounts, this`memRound, this`unconfirmedSignatures
      ensures Valid() && accounts.Keys == old(accounts.Keys)
      ensures View() == UTypeUndo(old(View()), tx)
    {
      hide Linked, AcctsOf, ApplyDiff, VotesOf, PendingOf, RoundsOf, Accrue, SnapshotView, Reversed, NodeOf,
           MergeField, MergeFields, Row;
      var a := tx.From();
      var sender := accounts[a].unconf;
      ghost var n := View();
      NodeParts(accounts, memRound, saved, roundRewards, blocks, unconfirmedSignatures);
      EntryConf(accounts, a);
      match tx.asset {
        case Send(_) =>
          UnconfNode(accounts, memRound, saved, roundRewards, blocks, unconfirmedSignatures, a, sender);
          assert accounts[a := accounts[a].(unconf := sender)] == accounts;
        case SecondSignature(_) =>
          var h := sender.(secondSignature := false);
          UnconfNode(accounts, memRound, saved, roundRewards, blocks, unconfirmedSignatures, a, h);
          accounts := accounts[a := accounts[a].(unconf := h)];
        case Registration(_) =>
          var h := sender.(isDelegate := false, username := None);
          UnconfNode(accounts, memRound, saved, roundRewards, blocks, unconfirmedSignatures, a, h);
          accounts := accounts[a := accounts[a].(unconf := h)];
        case Votes(votes) =>
          UVotesIs(n, tx, votes, 0);
          var votesInvert := Reverse(votes);
          MergeKeys(a, UDelegates, votesInvert, 0);
        case Multisignature(keysgroup, min, lifetime) =>
          UGroupUndoIs(n, tx, keysgroup, min, lifetime, 0);
          var multiInvert := Reverse(keysgroup);
          FlagNode(accounts, memRound, saved, roundRewards, blocks, unconfirmedSignatures, unconfirmedSignatures - {a});
          unconfirmedSignatures := unconfirmedSignatures - {a};
          Merge(a, [Keys(UMultisignatures, multiInvert), Number(UMultimin, -min),
                    Number(UMultilifetime, -lifetime)], 0);
      }
    }

    /** applyConfirmed of the transaction type. */
    method ApplyConfirmedType(tx: Transaction, round: int) returns (ok: bool)
      requires Valid() && tx.From() in accounts
      modifies this`accounts, this`memRound, this`unconfirmedSignatures
      ensures Valid() && accounts.Keys >= old(accounts.Keys)
      ensures ok <==> CTypeAllowed(old(View()).books.accts, tx)
      ensures ok ==> TxLinked(accounts, tx)
      ensures View() == if ok then CTypeStep(old(View()), round, tx) else old(View())
    {
      hide Linked, AcctsOf, CheckFound, Found, FoundRows, ApplyDiff, UsernameFree, NameTaken, UnconfirmedNameTaken,
           VotesOf, PendingOf, RoundsOf, Accrue, SnapshotView, MergeFields, MergeField, NodeOf, Row;
      var a := tx.From();
      var sender := accounts[a].conf;
      NodeParts(accounts, memRound, saved, roundRewards, blocks, unconfirmedSignatures);
      EntryConf(accounts, a);
      ok := true;
      match tx.asset {
        case Send(recipient) =>
          SetAccount(recipient);
          Merge(recipient, [Number(Balance, tx.amount), Number(UBalance, tx.amount)], round);
        case SecondSignature(key) =>
          SecondKeyNode(accounts, memRound, saved, roundRewards, blocks, unconfirmedSignatures, a, true, Some(key));
          accounts := accounts[a := accounts[a].(conf := sender.(secondSignature := true), secondKey := Some(key))];
        case Registration(username) =>
          NameTakenIs(accounts, username);
          if sender.isDelegate || NameTaken(accounts, username) { return false; }
          var h := sender.(isDelegate := true, username := Some(username));
          ConfNode(accounts, memRound, saved, roundRewards, blocks, unconfirmedSignatures, a, h);
          accounts := accounts[a := accounts[a].(conf := h, vote := 0)];
        case Votes(votes) =>
          FoundRowsIs(accounts, memRound, votes);
          if !CheckFound(FoundRows(accounts, votes), multiset(sender.delegates), votes) { return false; }
          FoundEnough(FoundRows(accounts, votes), multiset(sender.delegates), votes);
          MergeKeys(a, Delegates, votes, round);
        case Multisignature(keysgroup, min, lifetime) =>
          FlagNode(accounts, memRound, saved, roundRewards, blocks, unconfirmedSignatures, unconfirmedSignatures - {a});
          unconfirmedSignatures := unconfirmedSignatures - {a};
          Merge(a, [Keys(Multisignatures, keysgroup), Number(Multimin, min), Number(Multilifetime, lifetime)], round);
          CreateAccounts(keysgroup);
      }
    }

    /** The accounts of a new group's members are created. */
    method CreateAccounts(keysgroup: seq<string>)
      requires Valid()
      modifies this`accounts
      ensures Valid() && accounts.Keys >= old(accounts.Keys) && View() == old(View())
    {
      var i := 0;
      while i < |keysgroup|
        invariant 0 <= i <= |keysgroup|
        invariant Valid() && accounts.Keys >= old(accounts.Keys) && View() == old(View())
      {
        SetAccount(OfKey(Tail(keysgroup[i])));
        i := i + 1;
      }
    }

    /** undoConfirmed of the transaction type. */
    method UndoConfirmedType(tx: Transaction, round: int)
      requires Valid() && TxLinked(accounts, tx)
      modifies this`accounts, this`memRound, this`unconfirmedSignatures
      ensures Valid() && accounts.Keys >= old(accounts.Keys)
      ensures View() == CTypeUndo(old(View()), round, tx)
    {
      hide Linked, AcctsOf, ApplyDiff, VotesOf, PendingOf, RoundsOf, Accrue, SnapshotView, Reversed, MergeFields,
           MergeField, NodeOf, Row;
      var a := tx.From();
      var sender := accounts[a].conf;
      NodeParts(accounts, memRound, saved, roundRewards, blocks, unconfirmedSignatures);
      EntryConf(accounts, a);
      match tx.asset {
        case Send(recipient) =>
          SetAccount(recipient);
          Merge(recipient, [Number(Balance, -tx.amount), Number(UBalance, -tx.amount)], round);
        case SecondSignature(_) =>
          SecondKeyNode(accounts, memRound, saved, roundRewards, blocks, unconfirmedSignatures, a, false, None);
          accounts := accounts[a := accounts[a].(conf := sender.(secondSignature := false), secondKey := None)];
        case Registration(_) =>
          var h := sender.(isDelegate := false, username := None);
          ConfNode(accounts, memRound, saved, roundRewards, blocks, unconfirmedSignatures, a, h);
          accounts := accounts[a := accounts[a].(conf := h, vote := 0)];
        case Votes(votes) =>
          ReversedLinked(accounts, votes);
          var votesInvert := Reverse(votes);
          MergeKeys(a, Delegates, votesInvert, round);
        case Multisignature(keysgroup, min, lifetime) =>
          var multiInvert := Reverse(keysgroup);
          FlagNode(accounts, memRound, saved, roundRewards, blocks, unconfirmedSignatures, unconfirmedSignatures + {a});
          unconfirmedSignatures := unconfirmedSignatures + {a};
          Merge(a, [Keys(Multisignatures, multiInvert), Number(Multimin, -min), Number(Multilifetime, -lifetime)],
                round);
      }
    }

    // ---------- logic/transaction.js ----------

    /** The cost is taken first and given back when the type refuses the transaction. */
    method ApplyUnconfirmed(tx: Transaction, genesis: bool) returns (ok: bool)
      requires Valid() && tx.From() in accounts
      modifies this`accounts, this`memRound, this`unconfirmedSignatures
      ensures Valid() && accounts.Keys == old(accounts.Keys)
      ensures ok <==> UAllowed(old(View()).books.accts, old(View()).flags, tx, genesis)
      ensures View() == if ok then UStep(old(View()), tx) else old(View())
    {
      hide NodeOf, Linked, MergeFields, UTypeStep, UTypeAllowed, ChargeUnconfirmed, UAllowed, UStep, Row, SideOf,
           Full, FieldLinked;
      var a, amount := tx.From(), tx.Cost();
      ghost var n := View();
      RowNode(accounts, memRound, saved, roundRewards, blocks, unconfirmedSignatures, a);
      UStepIs(n, tx);
      ChargeUnconfirmedIs(n, tx, -amount);
      if !genesis && accounts[a].unconf.balance < amount { return false; }
      NumberLinked(accounts, UBalance, -amount);
      Merge(a, [Number(UBalance, -amount)], 0);
      ok := ApplyUnconfirmedType(tx);
      if !ok {
        ChargeUnconfirmedIs(View(), tx, amount);
        NumberLinked(accounts, UBalance, amount);
        Merge(a, [Number(UBalance, amount)], 0);
        FullNode(old(accounts), old(memRound), saved, roundRewards, blocks, old(unconfirmedSignatures));
        RefundUnconfirmed(n, tx, amount);
      }
    }

    method UndoUnconfirmed(tx: Transaction)
      requires Valid() && tx.From() in accounts
      modifies this`accounts, this`memRound, this`unconfirmedSignatures
      ensures Valid() && accounts.Keys == old(accounts.Keys)
      ensures View() == UTypeUndo(ChargeUnconfirmed(old(View()), tx, tx.Cost()), tx)
    {
      hide NodeOf, Linked, MergeFields, UTypeUndo, ChargeUnconfirmed;
      ChargeUnconfirmedIs(View(), tx, tx.Cost());
      Merge(tx.From(), [Number(UBalance, tx.Cost())], 0);
      UndoUnconfirmedType(tx);
    }

    /** A refused transaction leaves everything but possibly two cancelling groups of mem_round rows. */
    method ApplyConfirmed(tx: Transaction, round: int, genesis: bool) returns (ok: bool)
      requires Valid() && tx.From() in accounts
      modifies this`accounts, this`memRound, this`unconfirmedSignatures
      ensures Valid() && accounts.Keys >= old(accounts.Keys)
      ensures ok <==> CAllowed(old(View()).books.accts, tx, genesis)
      ensures var sender := Row(old(View()).books.accts.conf, tx.From());
              && (ok ==> Countersigned(sender, tx))
              && (tx.asset.Send? ==>
                    (ok <==> (genesis || sender.balance >= tx.amount + tx.fee) && Countersigned(sender, tx)))
              && (tx.asset.Multisignature? ==>
                    (ok <==> (genesis || sender.balance >= tx.amount + tx.fee) && Countersigned(sender, tx)))
      ensures ok ==> View() == CStep(old(View()), round, tx) && TxLinked(accounts, tx)
      ensures !ok ==> && View() == old(View()).(rounds := View().rounds)
                      && old(View()).rounds <= View().rounds <= old(View()).rounds + {round}
    {
      hide NodeOf, Linked, MergeFields, CTypeStep, CTypeAllowed, Charge, CAllowed, CStep, Ready, TxLinked, Row,
           SideOf, Full, FieldLinked, FullPending, Countersigned;
      var a, amount := tx.From(), tx.Cost();
      ghost var n := View();
      RowNode(accounts, memRound, saved, roundRewards, blocks, unconfirmedSignatures, a);
      CStepIs(n, round, tx);
      CAllowedIs(n, round, tx, genesis);
      ConfirmedSigned(n.books.accts, tx, genesis);
      ChargeIs(n, round, tx, -amount);
      if !Ready(SideOf(accounts[a].conf), tx) { return false; }
      if !genesis && accounts[a].conf.balance < amount { return false; }
      NumberLinked(accounts, Balance, -amount);
      Merge(a, [Number(Balance, -amount)], round);
      ok := ApplyConfirmedType(tx, round);
      if !ok {
        ChargeIs(View(), round, tx, amount);
        NumberLinked(accounts, Balance, amount);
        Merge(a, [Number(Balance, amount)], round);
        FullNode(old(accounts), old(memRound), saved, roundRewards, blocks, old(unconfirmedSignatures));
        Refund(n, round, tx, amount);
      }
    }

    method UndoConfirmed(tx: Transaction, round: int)
      requires Valid() && TxLinked(accounts, tx)
      modifies this`accounts, this`memRound, this`unconfirmedSignatures
      ensures Valid() && accounts.Keys >= old(accounts.Keys)
      ensures View() == CTypeUndo(Charge(old(View()), round, tx, tx.Cost()), round, tx)
    {
      hide NodeOf, Linked, MergeFields, CTypeUndo, Charge;
      ChargeIs(View(), round, tx, tx.Cost());
      Merge(tx.From(), [Number(Balance, tx.Cost())], round);
      UndoConfirmedType(tx, round);
    }

    // ---------- logic/round.js ----------

    /** applyRound: both arrays are reversed in place when going backwards; the changes see it
        because they share the reward array. */
    method ApplyRound(backwards: bool, round: int, timestamp: int, roundFees: nat,
                      roundDelegates: array<PublicKey>, rewards: array<int>)
      requires Valid() && roundDelegates.Length == rewards.Length > 0
      requires KeysLinked(accounts, roundDelegates[..])
      modifies this`accounts, this`memRound, this`roundRewards, roundDelegates, rewards
      ensures Valid() && accounts.Keys == old(accounts.Keys)
      ensures var ds, rs := old(roundDelegates[..]), old(rewards[..]);
              && PaidSoFar(old(View()).(rewardRows := roundRewards), View(), round,
                  Payments(backwards, ds, rs, roundFees))
              && roundRewards == old(roundRewards) + if backwards then [] else RewardRows(timestamp, round, ds, rs,
                  roundFees)
    {
      hide *;
      ghost var ds0, rs0 := roundDelegates[..], rewards[..];
      ghost var n, payments := View(), Payments(backwards, ds0, rs0, roundFees);
      var roundChanges := new RoundChanges(roundFees, rewards);
      var delegates := roundDelegates;
      if backwards {
        ReverseInPlace(roundDelegates);
        ReverseInPlace(rewards);
      }
      ReversedKeys(accounts, backwards, ds0, rs0, roundFees);
      var rows := ApplyShares(backwards, round, timestamp, roundChanges, roundDelegates, ds0, rs0);
      var remainderIndex := if backwards then 0 else delegates.Length - 1;
      var remainderDelegate := delegates[remainderIndex];
      var changes := roundChanges.At(remainderIndex);
      if !backwards { RowsComplete(rows, timestamp, round, ds0, rs0, roundFees); }
      if changes.feesRemaining > 0 {
        var remainder := RemainderOf(backwards, remainderDelegate, roundFees);
        RemainderIs(backwards, remainderDelegate, roundFees, rewards[remainderIndex]);
        PayoutDiffLinked(accounts, remainder);
        FullNow();
        RemainderMerge(View(), round, remainderDelegate, remainder.fee);
        PaidNext(n, View(), round, EqualShares(backwards, ds0, rs0, roundFees), remainder);
        Merge(OfKey(remainderDelegate), RemainderDiff(remainder.fee), round);
        if !backwards {
          rows := rows[|rows| - 1 := rows[|rows| - 1].(fees := rows[|rows| - 1].fees + remainder.fee)];
        }
      } else {
        RemainderIs(backwards, remainderDelegate, roundFees, rewards[remainderIndex]);
      }
      PaymentsSplit(backwards, ds0, rs0, roundFees);
      PaidRewards(n, View(), round, payments, roundRewards + rows);
      InsertRoundRewards(rows);
    }

    lemma FullNow()
      ensures Full(View().books.accts.rewards)
    {
      FullNode(accounts, memRound, saved, roundRewards, blocks, unconfirmedSignatures);
    }

    method InsertRoundRewards(rows: seq<RewardRow>)
      modifies this`roundRewards
      ensures roundRewards == old(roundRewards) + rows && View() == old(View()).(rewardRows := old(roundRewards) + rows)
      ensures old(Valid()) ==> Valid()
    {
      hide BooksOf, RoundsOf, SnapshotView, Linked;
      roundRewards := roundRewards + rows;
    }

    /** The loop of applyRound: every forger's share, and going forward the rows that record them. */
    method ApplyShares(backwards: bool, round: int, timestamp: int, roundChanges: RoundChanges,
                       roundDelegates: array<PublicKey>, ghost ds: seq<PublicKey>, ghost rs: seq<int>)
      returns (rows: seq<RewardRow>)
      requires Valid() && |ds| == |rs| == roundDelegates.Length == roundChanges.roundRewards.Length
      requires KeysLinked(accounts, roundDelegates[..])
      requires roundDelegates[..] == (if backwards then Backwards(ds) else ds)
      requires roundChanges.roundRewards[..] == if backwards then Backwards(rs) else rs
      modifies this`accounts, this`memRound
      ensures Valid() && accounts.Keys == old(accounts.Keys)
      ensures PaidSoFar(old(View()), View(), round, EqualShares(backwards, ds, rs, roundChanges.roundFees))
      ensures if backwards then rows == [] else RowsCollected(rows, timestamp, round, ds, rs, roundChanges.roundFees,
              |ds|)
    {
      hide NodeOf, Linked, MergeFields, PaidSoFar, PaidNode, EqualShares, DiffLinked, PayoutDiff;
      ghost var n, shares := View(), EqualShares(backwards, ds, rs, roundChanges.roundFees);
      SharesLength(backwards, ds, rs, roundChanges.roundFees);
      rows := [];
      PaidStart(n, round);
      assert shares[..0] == [];
      var i := 0;
      while i < roundDelegates.Length
        invariant 0 <= i <= roundDelegates.Length
        invariant Valid() && accounts.Keys == old(accounts.Keys)
        invariant PaidSoFar(n, View(), round, shares[..i])
        invariant if backwards then rows == [] else RowsCollected(rows, timestamp, round, ds, rs,
                roundChanges.roundFees, i)
      {
        var delegate := roundDelegates[i];
        var changes := roundChanges.At(i);
        var share := ShareOf(backwards, delegate, changes);
        ShareAt(backwards, ds, rs, roundChanges.roundFees, i);
        PayoutDiffLinked(accounts, share);
        PayoutMerge(View(), round, share);
        PaidNext(n, View(), round, shares[..i], share);
        assert shares[..i] + [share] == shares[..i + 1];
        Merge(OfKey(delegate), PayoutDiff(share), round);
        if !backwards {
          rows := rows + [RewardRow(timestamp, changes.fees, changes.rewards, round, delegate)];
        }
        i := i + 1;
      }
      assert shares[..i] == shares;
    }

    /** getVotes: the rows of the round, summed by delegate. */
    method GetVotes(round: int) returns (sums: map<PublicKey, int>)
      requires Valid()
      ensures Grouped(sums, memRound, round, |memRound|) && KeysWithin(sums, accounts)
    {
      hide Grouped, BlockLinked, TableLinked, SavedLinked;
      sums := map[];
      var i := 0;
      assert Grouped(sums, memRound, round, 0) by { NothingGrouped(memRound, round); }
      while i < |memRound|
        invariant 0 <= i <= |memRound|
        invariant Grouped(sums, memRound, round, i) && KeysWithin(sums, accounts)
      {
        var row := memRound[i];
        ghost var before := sums;
        if row.round == round {
          sums := sums[row.delegate := (if row.delegate in sums then sums[row.delegate] else 0) + row.amount];
        }
        GroupedNext(before, sums, memRound, round, i);
        i := i + 1;
      }
    }

    /** updateVotes: each sum is added to the vote column of its delegate. */
    method UpdateVoteColumn(round: int)
      requires Valid()
      modifies this`accounts
      ensures Valid() && accounts.Keys == old(accounts.Keys)
      ensures var n := old(View());
              View() == n.(books := n.books.(votes := UpdateVotes(n.books.votes, n.books.pending, round)))
    {
      hide Linked, Grouped, UpdateVotes, PendingOf, AcctsOf, VotesOf, RoundsOf, VotesAdded, KeysWithin;
      ghost var t0 := accounts;
      var sums := GetVotes(round);
      var left := sums.Keys;
      NoneAdded(t0, sums);
      while left != {}
        invariant left <= sums.Keys
        invariant VotesAdded(t0, accounts, sums, left)
        decreases |left|
      {
        var d :| d in left;
        AddedNext(t0, accounts, sums, left, d);
        var row := accounts[OfKey(d)];
        accounts := accounts[OfKey(d) := row.(vote := row.vote + sums[d])];
        left := left - {d};
      }
      KeptKeys(t0, accounts, sums);
      VotesNode(t0, accounts, sums, memRound, round);
      VotesLinked(t0, accounts, sums, {}, memRound, saved, blocks);
    }

    method FlushRound(round: int)
      requires Valid()
      modifies this`memRound
      ensures Valid()
      ensures var n := old(View());
              View() == n.(books := n.books.(pending := Flush(n.books.pending, round)), rounds := n.rounds - {round})
    {
      hide DropRound, PendingOf, RoundsOf, Flush, AcctsOf, VotesOf, BlockLinked, TableLinked, SavedLinked;
      DropRoundIsFlush(memRound, round);
      DropLinked(accounts, memRound, round);
      memRound := DropRound(memRound, round);
    }

    /** The snapshot tables are dropped and filled again. */
    method PerformSnapshot()
      requires Valid()
      modifies this`saved
      ensures Valid() && View() == old(View()).(snapshot := Some(TakeSnapshot(old(View()))))
    {
      hide NodeOf, Linked, TakeSnapshot, DelegateRows;
      SnapshotTaken(accounts, memRound, saved, roundRewards, blocks, unconfirmedSignatures);
      saved := Some(Saved(memRound, DelegateRows(accounts)));
    }

    /** getKeysSortByVote: the registered delegates with most votes. */
    method KeysSortByVote() returns (list: seq<PublicKey>)
      ensures TopOf(VotesNow(View()), list)
    {
      hide NodeOf, TopOf, VotesNow, DelegateRows;
      DelegatesNow(accounts, memRound, saved, roundRewards, blocks, unconfirmedSignatures);
      list := SortByVote(DelegateRows(accounts));
    }

    /** getDelegatesFromPreviousRound: the same of the snapshot; there may be none. */
    method DelegatesSnapshot() returns (list: Option<seq<PublicKey>>)
      ensures list.Some? <==> View().snapshot.Some?
      ensures list.Some? ==> TopOf(View().snapshot.value.votes, list.value)
    {
      hide AcctsOf, VotesOf, PendingOf, RoundsOf, TopOf;
      if saved.None? { return None; }
      VotesInSaved(saved.value);
      var keys := SortByVote(saved.value.delegates);
      list := Some(keys);
    }

    /** checkSnapshotAvailability: rows of the round, or no rows at all. */
    method CheckSnapshotAvailability(round: int) returns (available: bool)
      ensures available <==> SnapshotAvailable(View().snapshot, round)
      ensures available ==> saved.Some?
    {
      hide AcctsOf, VotesOf, PendingOf, SnapshotAvailable;
      AvailableIs(saved, round);
      available := saved.Some? &&
        ((exists i :: 0 <= i < |saved.value.rows| && saved.value.rows[i].round == round) || saved.value.rows == []);
    }

    /** sumRound: fees, rewards and forgers of the round that ends with the head. */
    method SumRoundBlocks() returns (fees: nat, delegates: array<PublicKey>, rewards: array<int>)
      requires Valid() && |blocks| > 0
      ensures fresh(delegates) && fresh(rewards) && delegates.Length == rewards.Length > 0
      ensures RoundSum(fees, rewards[..], delegates[..]) == SumRound(blocks)
      ensures KeysLinked(accounts, delegates[..])
    {
      var s := SumRound(blocks);
      ForgersLinked(accounts, blocks);
      hide SumRound, Linked, KeysLinked;
      fees := s.fees;
      delegates := new PublicKey[|s.delegates|](i requires 0 <= i < |s.delegates| => s.delegates[i]);
      rewards := new int[|s.rewards|](i requires 0 <= i < |s.rewards| => s.rewards[i]);
      assert delegates[..] == s.delegates;
      assert rewards[..] == s.rewards;
    }

    lemma ViewIs()
      ensures View().blocks == blocks && View().rewardRows == roundRewards
      ensures View().snapshot == SnapshotView(saved) && View().flags == unconfirmedSignatures
    {
    }

    lemma LinkedNow()
      requires Valid()
      ensures saved.Some? ==> saved.value.delegates.Keys <= accounts.Keys
      ensures |blocks| > 0 ==> OfKey(blocks[|blocks| - 1].generator) in accounts
    {
      if saved.Some? { SavedWithin(accounts, memRound, saved, blocks); }
      if |blocks| > 0 { GeneratorKnown(accounts, memRound, saved, blocks); }
    }

    /** land: pay, move the pending votes into the vote column, drop the round's rows. */
    method LandRound()
      requires Valid() && |blocks| > 0
      modifies this`accounts, this`memRound, this`roundRewards
      ensures Valid() && accounts.Keys == old(accounts.Keys)
      ensures |old(View()).blocks| > 0 && View() == Land(old(View()))
    {
      hide *;
      ghost var n := View();
      ViewIs();
      var round := CalcRound(|blocks|);
      var fees, delegates, rewards := SumRoundBlocks();
      ghost var ds, rs := delegates[..], rewards[..];
      ApplyRound(false, round, blocks[|blocks| - 1].timestamp, fees, delegates, rewards);
      ViewIs();
      LandIs(n, View(), round, RoundSum(fees, rs, ds));
      UpdateVoteColumn(round);
      FlushRound(round);
    }

    /** restoreRoundSnapshot, restoreVotesSnapshot and deleteRoundRewards. */
    method RestoreSnapshots(round: int)
      requires Valid() && saved.Some?
      modifies this`accounts, this`memRound, this`roundRewards
      ensures Valid() && accounts.Keys == old(accounts.Keys)
      ensures var n := old(View());
              n.snapshot.Some? &&
              var v := n.snapshot.value;
              View() == n.(books := Books(n.books.accts.(produced := Overwrite(n.books.accts.produced, v.produced)),
                                          Overwrite(n.books.votes, v.votes),
                                          AddPending(n.books.pending, v.pending)),
                           rounds := n.rounds + v.rounds, rewardRows := SelectOtherRounds(n.rewardRows, round))
    {
      hide NodeOf, Linked, RestoredTable, SelectOtherRounds, Overwrite, AddPending, SnapshotOfSaved;
      ViewIs();
      LinkedNow();
      RestoredNode(accounts, memRound, saved.value, roundRewards, blocks, unconfirmedSignatures,
          SelectOtherRounds(roundRewards, round));
      RestoredLinked(accounts, saved.value, memRound, blocks);
      SameKeys(accounts, saved.value.delegates);
      memRound := memRound + saved.value.rows;
      accounts := RestoredTable(accounts, saved.value.delegates);
      roundRewards := SelectOtherRounds(roundRewards, round);
    }

    /** backwardLand: fails when the snapshot is of another round; the caller rolls everything back. */
    method BackwardLandRound() returns (ok: bool)
      requires Valid() && |blocks| > 1
      modifies this`accounts, this`memRound, this`roundRewards
      ensures accounts.Keys == old(accounts.Keys)
      ensures |old(View()).blocks| > 1 && (ok <==> BackwardLand(old(View())).ok)
      ensures ok ==> Valid() && View() == BackwardLand(old(View())).node
    {
      hide *;
      ghost var n := View();
      ViewIs();
      var round := CalcRound(|blocks|);
      var fees, delegates, rewards := SumRoundBlocks();
      ghost var s := RoundSum(fees, rewards[..], delegates[..]);
      ApplyRound(true, round, blocks[|blocks| - 1].timestamp, fees, delegates, rewards);
      assert roundRewards == old(roundRewards);
      assert n.(rewardRows := roundRewards) == n;
      ghost var m := View();
      FlushRound(round);
      ViewIs();
      ok := CheckSnapshotAvailability(round);
      FailedLanding(n);
      if ok {
        BackwardLandIs(n, m, round, s);
        RestoreSnapshots(round);
      }
    }

    /** modules/rounds.js tick: count the block, land at the end of a round, and take the snapshot one
        block before it. */
    method TickForward()
      requires Valid() && |blocks| > 0
      modifies this`accounts, this`memRound, this`roundRewards, this`saved
      ensures Valid() && accounts.Keys == old(accounts.Keys)
      ensures |old(View()).blocks| > 0 && View() == Tick(old(View()))
    {
      hide *;
      var height := |blocks|;
      var round, nextRound := CalcRound(height), CalcRound(height + 1);
      var finishRound := round != nextRound || height == 1 || height == 101;
      var generator := OfKey(blocks[height - 1].generator);
      ViewIs();
      LinkedNow();
      TickIs(View());
      CountBlockIs(View(), round, 1);
      NumberLinked(accounts, ProducedBlocks, 1);
      Merge(generator, [Number(ProducedBlocks, 1)], round);
      if finishRound { LandRound(); }
      RoundLength();
      if (height + 1) % ACTIVE_DELEGATES == 0 { PerformSnapshot(); }
    }

    /** modules/rounds.js backwardTick. */
    method TickBackward() returns (ok: bool)
      requires Valid() && |blocks| > 1
      modifies this`accounts, this`memRound, this`roundRewards
      ensures accounts.Keys == old(accounts.Keys)
      ensures |old(View()).blocks| > 1 && (ok <==> BackwardTick(old(View())).ok)
      ensures ok ==> Valid() && View() == BackwardTick(old(View())).node
    {
      hide *;
      var height := |blocks|;
      var round, prevRound, nextRound := CalcRound(height), CalcRound(height - 1), CalcRound(height + 1);
      var finishRound := (prevRound == round && nextRound != round) || height == 1 || height == 101;
      var generator := OfKey(blocks[height - 1].generator);
      ViewIs();
      LinkedNow();
      BackwardTickIs(View());
      CountBlockIs(View(), round, -1);
      NumberLinked(accounts, ProducedBlocks, -1);
      Merge(generator, [Number(ProducedBlocks, -1)], round);
      ok := true;
      if finishRound { ok := BackwardLandRound(); }
    }

    // ---------- modules/blocks/chain.js ----------

    method ApplyUnconfirmedStep(txs: seq<Transaction>) returns (ok: bool)
      requires Valid()
      modifies this`accounts, this`memRound, this`unconfirmedSignatures
      ensures Valid() && accounts.Keys >= old(accounts.Keys)
      ensures var u := UAll(old(View()), txs);
              && ok == u.ok && unconfirmedSignatures == u.node.flags
              && (ok ==> View() == u.node && SendersKnown(accounts, txs, |txs|))
    {
      hide *;
      ghost var n := View();
      NoneApplied(n, 0, txs);
      NobodyYet(accounts, txs);
      var i := 0;
      while i < |txs|
        invariant 0 <= i <= |txs|
        invariant Valid() && accounts.Keys >= old(accounts.Keys)
        invariant UAll(n, txs[..i]) == Attempt(View(), true)
        invariant SendersKnown(accounts, txs, i)
      {
        ghost var t0 := accounts;
        SetAccount(txs[i].From());
        StillLinked(t0, accounts, txs, i);
        SenderAdded(accounts, txs, i);
        UAllNext(n, txs, i);
        ghost var t1 := accounts;
        ok := ApplyUnconfirmed(txs[i], false);
        StillLinked(t1, accounts, txs, i + 1);
        ViewIs();
        if !ok {
          UAllStops(n, txs, i + 1);
          return;
        }
        i := i + 1;
      }
      assert txs[..|txs|] == txs;
      ViewIs();
      ok := true;
    }

    method ApplyConfirmedStep(txs: seq<Transaction>, round: int) returns (ok: bool)
      requires Valid() && SendersKnown(accounts, txs, |txs|)
      modifies this`accounts, this`memRound, this`unconfirmedSignatures
      ensures Valid() && accounts.Keys >= old(accounts.Keys)
      ensures var c := CAll(old(View()), round, txs);
              && ok == c.ok && unconfirmedSignatures == c.node.flags
              && (ok ==> View() == c.node && AllLinked(accounts, txs, |txs|))
    {
      hide *;
      ghost var n := View();
      NoneApplied(n, round, txs);
      NobodyYet(accounts, txs);
      var i := 0;
      while i < |txs|
        invariant 0 <= i <= |txs|
        invariant Valid() && accounts.Keys >= old(accounts.Keys)
        invariant CAll(n, round, txs[..i]) == Attempt(View(), true)
        invariant SendersKnown(accounts, txs, |txs|) && AllLinked(accounts, txs, i)
      {
        ghost var t0 := accounts;
        SenderIs(accounts, txs, i);
        CAllNext(n, round, txs, i);
        ViewIs();
        ghost var before := View();
        ok := ApplyConfirmed(txs[i], round, false);
        StillLinked(t0, accounts, txs, i);
        StillLinked(t0, accounts, txs, |txs|);
        ViewIs();
        if !ok {
          CAllStops(n, round, txs, i + 1);
          return;
        }
        OneMoreLinked(accounts, txs, i);
        i := i + 1;
      }
      assert txs[..|txs|] == txs;
      ViewIs();
      ok := true;
    }

    method ApplyGenesisTransactions(txs: seq<Transaction>) returns (ok: bool)
      requires Valid() && View() == EmptyNode()
      modifies this`accounts, this`memRound, this`unconfirmedSignatures
      ensures ok == GenesisAll(txs).ok
      ensures ok ==> Valid() && View() == GenesisAll(txs).node && AllLinked(accounts, txs, |txs|)
    {
      hide *;
      GenesisStart(txs);
      NobodyYet(accounts, txs);
      var i := 0;
      while i < |txs|
        invariant 0 <= i <= |txs|
        invariant Valid() && AllLinked(accounts, txs, i)
        invariant GenesisAll(txs[..i]) == Attempt(View(), true)
      {
        ghost var t0 := accounts;
        GenesisNext(txs, i);
        SetAccount(txs[i].From());
        ok := ApplyUnconfirmed(txs[i], true);
        if !ok {
          GenesisStops(txs, i + 1);
          return;
        }
        ok := ApplyConfirmed(txs[i], 1, true);
        if !ok {
          GenesisStops(txs, i + 1);
          return;
        }
        StillLinked(t0, accounts, txs, i);
        OneMoreLinked(accounts, txs, i);
        i := i + 1;
      }
      assert txs[..|txs|] == txs;
      ok := true;
    }

    /** applyGenesisBlock: every transaction is applied to both halves, without balance checks, and the
        first round is ticked.  The node does not survive a failure here. */
    method ApplyGenesisBlock(b: Block) returns (ok: bool)
      requires Valid() && View() == EmptyNode() && blocks == []
      requires exists i :: 0 <= i < |b.transactions| && b.transactions[i].sender == b.generator
      modifies this
      ensures ok == ApplyGenesis(b).ok
      ensures ok ==> Valid() && View() == ApplyGenesis(b).node
    {
      hide *;
      GenesisIs(b);
      ok := ApplyGenesisTransactions(b.transactions);
      if ok {
        AuthorKnown(accounts, b);
        GenesisNoBlocks(b.transactions);
        assert [] + [b] == [b];
        SaveBlock(b);
        TickForward();
      }
    }

    /** saveBlock. */
    method SaveBlock(b: Block)
      requires Valid() && OfKey(b.generator) in accounts && AllLinked(accounts, b.transactions, |b.transactions|)
      modifies this`blocks
      ensures Valid() && blocks == old(blocks) + [b]
      ensures View() == old(View()).(blocks := old(View()).blocks + [b])
    {
      hide NodeOf, Linked, AllLinked;
      BlockAppended(accounts, memRound, saved, roundRewards, blocks, unconfirmedSignatures, b);
      blocks := blocks + [b];
    }

    lemma State()
      ensures View() == NodeOf(accounts, memRound, saved, roundRewards, blocks, unconfirmedSignatures)
      ensures Valid() <==> Linked(accounts, memRound, saved, blocks)
    {
      hide NodeOf, Linked;
    }

    /** applyBlock: everything inside one database transaction, so a failure leaves only the
        in-memory flags behind. */
    method Apply(b: Block) returns (ok: bool)
      requires Valid() && OfKey(b.generator) in accounts
      modifies this
      ensures Valid() && accounts.Keys >= old(accounts.Keys)
      ensures ok == ApplyBlock(old(View()), b).ok && View() == ApplyBlock(old(View()), b).node
    {
      hide *;
      ghost var n := View();
      ViewIs();
      ApplyIs(n, b);
      State();
      var accounts0, memRound0 := accounts, memRound;
      var round := CalcRound(|blocks| + 1);
      ok := ApplyUnconfirmedStep(b.transactions);
      if ok {
        ok := ApplyConfirmedStep(b.transactions, round);
      }
      if ok {
        ViewIs();
        SaveBlock(b);
        TickForward();
      } else {
        FlagNode(accounts0, memRound0, saved, roundRewards, blocks, old(unconfirmedSignatures), unconfirmedSignatures);
        accounts, memRound := accounts0, memRound0;
        State();
      }
    }

    /** popLastBlock: the transactions are reversed in place and undone one by one, confirmed half
        first; then the tick is undone and the block deleted, all in one database transaction. */
    method Pop(transactions: array<Transaction>) returns (ok: bool)
      requires Valid() && |blocks| > 1 && transactions[..] == blocks[|blocks| - 1].transactions
      modifies this, transactions
      ensures Valid() && |old(View()).blocks| > 1 && accounts.Keys >= old(accounts.Keys)
      ensures ok == PopBlock(old(View())).ok && View() == PopBlock(old(View())).node
      ensures transactions[..] == Backwards(old(transactions[..]))
    {
      hide *;
      ghost var n, txs := View(), transactions[..];
      ViewIs();
      PopIs(n);
      State();
      var accounts0, memRound0, roundRewards0 := accounts, memRound, roundRewards;
      var round := CalcRound(|blocks|);
      LastTransactions();
      ReverseInPlace(transactions);
      var i := 0;
      assert txs[..|txs|] == txs;
      while i < transactions.Length
        modifies this`accounts, this`memRound, this`unconfirmedSignatures
        invariant 0 <= i <= transactions.Length
        invariant Valid() && AllLinked(accounts, txs, |txs|) && accounts.Keys >= old(accounts.Keys)
        invariant UndoAll(View(), round, txs[..|txs| - i]) == UndoAll(n, round, txs)
      {
        var tx := transactions[i];
        BackwardsAt(txs, i);
        UndoNext(View(), round, txs, |txs| - i);
        UndoStepIs(View(), round, tx);
        LinkedAt(accounts, txs, |txs| - 1 - i);
        ghost var t0 := accounts;
        UndoConfirmed(tx, round);
        LinkedSender(t0, accounts, tx);
        UndoUnconfirmed(tx);
        StillLinked(t0, accounts, txs, |txs|);
        i := i + 1;
      }
      NothingLeft(View(), round, txs);
      ghost var undone := View();
      ViewIs();
      ok := TickBackward();
      if ok {
        ViewIs();
        DeleteBlock();
      } else {
        FlagNode(accounts0, memRound0, saved, roundRewards0, blocks, old(unconfirmedSignatures), unconfirmedSignatures);
        accounts, memRound, roundRewards := accounts0, memRound0, roundRewards0;
        State();
      }
    }

    lemma LastTransactions()
      requires Valid() && |blocks| > 0
      ensures AllLinked(accounts, blocks[|blocks| - 1].transactions, |blocks[|blocks| - 1].transactions|)
    {
      LastLinked(accounts, memRound, saved, blocks);
    }

    method DeleteBlock()
      requires Valid() && |blocks| > 0
      modifies this`blocks
      ensures Valid() && |old(View()).blocks| > 0
      ensures View() == old(View()).(blocks := old(View()).blocks[..|old(View()).blocks| - 1])
    {
      hide Linked, BooksOf, SnapshotView, RoundsOf;
      BlockRemoved(accounts, memRound, saved, roundRewards, blocks, unconfirmedSignatures);
      blocks := blocks[..|blocks| - 1];
    }

    /** deleteLastBlock: the genesis block is refused, and the transactions of a deleted block come
        back in their original order. */
    method DeleteLastBlock() returns (ok: bool, deletedBlockTransactions: seq<Transaction>)
      requires Valid() && |blocks| > 0
      modifies this
      ensures Valid() && |old(View()).blocks| > 0 && accounts.Keys >= old(accounts.Keys)
      ensures ok == PopBlock(old(View())).ok && View() == PopBlock(old(View())).node
      ensures deletedBlockTransactions == if ok then old(blocks[|blocks| - 1].transactions) else []
    {
      hide *;
      ghost var n := View();
      ViewIs();
      deletedBlockTransactions := [];
      if |blocks| == 1 {
        GenesisStays(n);
        return false, [];
      }
      var last := blocks[|blocks| - 1].transactions;
      var transactions := new Transaction[|last|](i requires 0 <= i < |last| => last[i]);
      assert transactions[..] == last;
      ok := Pop(transactions);
      if ok {
        BackwardsTwice(last);
        ReverseInPlace(transactions);
        deletedBlockTransactions := transactions[..];
      }
    }
  }
}
