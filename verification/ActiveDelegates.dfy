/** Who may forge a block: the registered delegates in the order of their votes, reordered for the round
    (modules/delegates.js, validateBlockSlot of modules/blocks/process.js). */
module ActiveDelegates {
  import opened Base
  import opened Accounts
  import opened Payouts
  import opened Ledger
  import opened ForkChoice
  import opened Delegates

  /** More votes first; on the same votes the smaller key. */
  ghost predicate Outranks(votes: Column, d: PublicKey, e: PublicKey) {
    var x, y := Get(votes, OfKey(d)), Get(votes, OfKey(e));
    x > y || (x == y && Less(d, e))
  }

  /** The answer to getKeysSortByVote: the first 101 of the keys the column has an entry for. */
  ghost predicate TopOf(votes: Column, list: seq<PublicKey>) {
    && |list| <= ACTIVE_DELEGATES
    && (forall i :: 0 <= i < |list| ==> OfKey(list[i]) in votes)
    && (forall i, j :: 0 <= i < j < |list| ==> Outranks(votes, list[i], list[j]))
    && (forall d: PublicKey :: OfKey(d) in votes && d !in list ==> AllOutrank(votes, list, d))
  }

  ghost predicate AllOutrank(votes: Column, list: seq<PublicKey>, d: PublicKey) {
    |list| == ACTIVE_DELEGATES && forall i :: 0 <= i < |list| ==> Outranks(votes, list[i], d)
  }

  /** validateBlockSlot with this vote column. */
  ghost predicate OwnsSlot(votes: Column, height: nat, hash: Digest -> Digest, b: Block) {
    exists list: seq<PublicKey> :: TopOf(votes, list) && SlotAccepted(DelegateList(list, CalcRound(height), hash),
        b.timestamp, b.generator)
  }

  /** The registered delegates and their votes. */
  ghost function VotesNow(n: Node): Column { TakeSnapshot(n).votes }

  /** processBlock asks for the owner of the slot by the votes of this moment. */
  ghost predicate ForgerOk(n: Node, b: Block, hash: Digest -> Digest) {
    OwnsSlot(VotesNow(n), |n.blocks| + 1, hash, b)
  }

  /** A block of this height is of a later round than the head, or the head ends its round. */
  predicate AfterRound(head: nat, height: nat) {
    head % ACTIVE_DELEGATES == 0 || CalcRound(head) < CalcRound(height)
  }

  /** A fork's block is then checked against the snapshot's votes. */
  ghost predicate ForkForgerOk(n: Node, b: Block, height: nat, hash: Digest -> Digest) {
    if AfterRound(|n.blocks|, height)
    then n.snapshot.Some? && OwnsSlot(n.snapshot.value.votes, height, hash, b)
    else OwnsSlot(VotesNow(n), height, hash, b)
  }

  // ---------- there is one such list ----------

  lemma OutranksOrder(votes: Column, d: PublicKey, e: PublicKey, f: PublicKey)
    ensures !(Outranks(votes, d, e) && Outranks(votes, e, d))
    ensures d != e ==> Outranks(votes, d, e) || Outranks(votes, e, d)
    ensures Outranks(votes, d, e) && Outranks(votes, e, f) ==> Outranks(votes, d, f)
  {
    LessIrreflexive(d);
    LessTotal(d, e);
    if Less(d, e) && Less(e, d) { LessTransitive(d, e, d); }
    if Less(d, e) && Less(e, f) { LessTransitive(d, e, f); }
  }

  lemma TopDistinct(votes: Column, list: seq<PublicKey>)
    requires TopOf(votes, list)
    ensures Distinct(list)
  {
    hide Outranks;
    forall i, j | 0 <= i < j < |list| ensures list[i] != list[j] { OutranksOrder(votes, list[i], list[j], list[j]); }
  }

  function Members(list: seq<PublicKey>): set<PublicKey> { set d | d in list }

  lemma {:induction false} MemberCount(list: seq<PublicKey>)
    requires Distinct(list)
    ensures |Members(list)| == |list|
  {
    if list != [] {
      var n := |list| - 1;
      MemberCount(list[..n]);
      assert list == list[..n] + [list[n]];
      assert Members(list) == Members(list[..n]) + {list[n]};
      assert list[n] !in Members(list[..n]);
    }
  }

  lemma TopMembers(votes: Column, list: seq<PublicKey>, other: seq<PublicKey>, d: PublicKey)
    requires TopOf(votes, list) && TopOf(votes, other) && d in list
    ensures d in other
  {
    hide Outranks;
    if d !in other {
      var i :| 0 <= i < |list| && list[i] == d;
      assert AllOutrank(votes, other, d);
      TopDistinct(votes, list);
      TopDistinct(votes, other);
      MemberCount(list);
      MemberCount(other);
      if Members(other) <= Members(list) {
        Smaller(Members(other), Members(list), d);
        assert false;
      } else {
        var e :| e in Members(other) && e !in Members(list);
        var j :| 0 <= j < |other| && other[j] == e;
        assert AllOutrank(votes, list, e);
        assert Outranks(votes, list[i], e) && Outranks(votes, other[j], d);
        OutranksOrder(votes, d, e, d);
      }
    }
  }

  lemma Smaller(a: set<PublicKey>, b: set<PublicKey>, d: PublicKey)
    requires a <= b && d in b && d !in a
    ensures |a| < |b|
  {
    assert |b| == |a| + |b - a|;
    assert d in b - a;
  }

  lemma TopUnique(votes: Column, list: seq<PublicKey>, other: seq<PublicKey>)
    requires TopOf(votes, list) && TopOf(votes, other)
    ensures list == other
  {
    hide Outranks;
    forall d: PublicKey ensures d in list <==> d in other {
      if d in list { TopMembers(votes, list, other, d); }
      if d in other { TopMembers(votes, other, list, d); }
    }
    SameOrder(votes, list, other);
  }

  lemma {:induction false} SameOrder(votes: Column, list: seq<PublicKey>, other: seq<PublicKey>)
    requires forall d: PublicKey :: d in list <==> d in other
    requires forall i, j :: 0 <= i < j < |list| ==> Outranks(votes, list[i], list[j])
    requires forall i, j :: 0 <= i < j < |other| ==> Outranks(votes, other[i], other[j])
    ensures list == other
    decreases |list|
  {
    hide Outranks;
    if list == [] || other == [] {
      var d := if list != [] then list[0] else if other != [] then other[0] else "";
      assert d in list <==> d in other;
    } else {
      SameFirst(votes, list, other);
      var x, y := list[1..], other[1..];
      forall d: PublicKey ensures d in x <==> d in y {
        NotFirst(votes, list, d);
        NotFirst(votes, other, d);
      }
      SameOrder(votes, x, y);
      assert list == [list[0]] + x && other == [other[0]] + y;
    }
  }

  lemma SameFirst(votes: Column, list: seq<PublicKey>, other: seq<PublicKey>)
    requires list != [] && other != [] && list[0] in other && other[0] in list
    requires forall i, j :: 0 <= i < j < |list| ==> Outranks(votes, list[i], list[j])
    requires forall i, j :: 0 <= i < j < |other| ==> Outranks(votes, other[i], other[j])
    ensures list[0] == other[0]
  {
    hide Outranks;
    var i :| 0 <= i < |other| && other[i] == list[0];
    var j :| 0 <= j < |list| && list[j] == other[0];
    OutranksOrder(votes, list[0], other[0], list[0]);
  }

  lemma NotFirst(votes: Column, list: seq<PublicKey>, d: PublicKey)
    requires list != [] && forall i, j :: 0 <= i < j < |list| ==> Outranks(votes, list[i], list[j])
    ensures d in list[1..] <==> d in list && d != list[0]
  {
    hide Outranks;
    assert list == [list[0]] + list[1..];
    if d in list[1..] {
      var i :| 0 <= i < |list[1..]| && list[1..][i] == d;
      OutranksOrder(votes, list[0], list[i + 1], list[0]);
    }
  }

  /** So a forger is tested against the one list there is. */
  lemma OwnsSlotIff(votes: Column, height: nat, hash: Digest -> Digest, b: Block, list: seq<PublicKey>)
    requires TopOf(votes, list)
    ensures OwnsSlot(votes, height, hash, b) <==>
            SlotAccepted(DelegateList(list, CalcRound(height), hash), b.timestamp, b.generator)
  {
    hide TopOf, SlotAccepted, DelegateList;
    forall other | TopOf(votes, other) ensures other == list { TopUnique(votes, list, other); }
  }

  /** Whose slot it is depends on a block's forger and time alone. */
  lemma SameOwner(n: Node, b: Block, c: Block, height: nat, hash: Digest -> Digest)
    requires b.timestamp == c.timestamp && b.generator == c.generator
    ensures ForkForgerOk(n, b, height, hash) <==> ForkForgerOk(n, c, height, hash)
  {
    hide TopOf, VotesNow, DelegateList;
  }

  /** A delegate on its own has every slot that is a multiple of 101, whatever the hash and the round. */
  lemma OnlyDelegateOwns(votes: Column, height: nat, hash: Digest -> Digest, b: Block, d: PublicKey)
    requires d != "" && (forall e: PublicKey :: OfKey(e) in votes <==> e == d) && b.generator == d
    ensures OwnsSlot(votes, height, hash, b) <==> SlotNumber(b.timestamp) % ACTIVE_DELEGATES == 0
  {
    hide DelegateList;
    assert TopOf(votes, [d]);
    OwnsSlotIff(votes, height, hash, b, [d]);
    ListPermutes([d], CalcRound(height), hash);
    var list := DelegateList([d], CalcRound(height), hash);
    assert list[0] in multiset(list);
    assert list == [d];
  }

  /** Whoever owns a slot is registered. */
  lemma ForgerIsDelegate(n: Node, b: Block, hash: Digest -> Digest)
    requires ForgerOk(n, b, hash)
    ensures Row(n.books.accts.conf, OfKey(b.generator)).isDelegate
  {
    hide DelegateList, Row, Outranks;
    var height := |n.blocks| + 1;
    var list: seq<PublicKey> :| TopOf(VotesNow(n), list)
      && SlotAccepted(DelegateList(list, CalcRound(height), hash), b.timestamp, b.generator);
    ListPermutes(list, CalcRound(height), hash);
    assert b.generator in multiset(DelegateList(list, CalcRound(height), hash));
    assert b.generator in multiset(list);
  }

  // ---------- the query ----------

  /** The votes of the rows that a query for delegates finds. */
  ghost function VotesIn(rows: map<Address, (int, int)>): Column { imap a: Address | a in rows :: rows[a].0 }

  /** The best of the keys. */
  method Best(rows: map<Address, (int, int)>, keys: set<PublicKey>) returns (best: PublicKey)
    requires keys != {} && forall d :: d in keys ==> OfKey(d) in rows
    ensures best in keys && forall d :: d in keys && d != best ==> Outranks(VotesIn(rows), best, d)
  {
    hide Outranks;
    var first :| first in keys;
    best := first;
    var rest := keys - {first};
    while rest != {}
      invariant rest <= keys && best in keys && best !in rest
      invariant forall d :: d in keys && d !in rest && d != best ==> Outranks(VotesIn(rows), best, d)
      decreases |rest|
    {
      var d :| d in rest;
      var x, y := rows[OfKey(d)].0, rows[OfKey(best)].0;
      OutranksIs(rows, d, best);
      OutranksIs(rows, best, d);
      OutranksOrder(VotesIn(rows), d, best, d);
      ghost var previous := best;
      if x > y || (x == y && Less(d, best)) { best := d; }
      forall e | e in keys && e !in rest - {d} && e != best ensures Outranks(VotesIn(rows), best, e) {
        OutranksOrder(VotesIn(rows), d, previous, e);
      }
      rest := rest - {d};
    }
  }

  lemma OutranksIs(rows: map<Address, (int, int)>, d: PublicKey, e: PublicKey)
    requires OfKey(d) in rows && OfKey(e) in rows
    ensures Outranks(VotesIn(rows), d, e) <==>
            rows[OfKey(d)].0 > rows[OfKey(e)].0 || (rows[OfKey(d)].0 == rows[OfKey(e)].0 && Less(d, e))
  {
  }

  /** The row of this key has more votes, or as many and the key comes first. */
  predicate MoreVotes(rows: map<Address, (int, int)>, d: PublicKey, e: PublicKey) {
    && OfKey(d) in rows && OfKey(e) in rows && rows[OfKey(d)].0 >= rows[OfKey(e)].0
    && (rows[OfKey(d)].0 == rows[OfKey(e)].0 ==> Less(d, e))
  }

  lemma MoreVotesIs(rows: map<Address, (int, int)>, d: PublicKey, e: PublicKey)
    requires OfKey(d) in rows && OfKey(e) in rows
    ensures MoreVotes(rows, d, e) <==>
            rows[OfKey(d)].0 > rows[OfKey(e)].0 || (rows[OfKey(d)].0 == rows[OfKey(e)].0 && Less(d, e))
  {
  }

  /** getKeysSortByVote and getDelegatesFromPreviousRound: by vote descending, then by key, at most 101. */
  method SortByVote(rows: map<Address, (int, int)>) returns (list: seq<PublicKey>)
    ensures TopOf(VotesIn(rows), list)
    ensures |list| <= 101 && forall i :: 0 <= i < |list| ==> OfKey(list[i]) in rows
    ensures forall i, j :: 0 <= i < j < |list| ==> MoreVotes(rows, list[i], list[j])
    ensures forall d :: OfKey(d) in rows && d !in list ==>
              |list| == 101 && forall i :: 0 <= i < |list| ==> MoreVotes(rows, list[i], d)
  {
    hide Outranks, MoreVotes;
    list := [];
    var rest := set a | a in rows && a.OfKey? :: a.key;
    assert forall d :: d in rest <==> OfKey(d) in rows;
    while rest != {} && |list| < ACTIVE_DELEGATES
      invariant |list| <= ACTIVE_DELEGATES
      invariant forall d :: d in rest || d in list <==> OfKey(d) in rows
      invariant forall i :: 0 <= i < |list| ==> OfKey(list[i]) in rows
      invariant forall i, j :: 0 <= i < j < |list| ==> Outranks(VotesIn(rows), list[i], list[j])
      invariant forall i, d :: 0 <= i < |list| && d in rest ==> Outranks(VotesIn(rows), list[i], d)
      decreases |rest|
    {
      var best := Best(rows, rest);
      list, rest := list + [best], rest - {best};
    }
    forall d, e | OfKey(d) in rows && OfKey(e) in rows && Outranks(VotesIn(rows), d, e) ensures MoreVotes(rows, d, e) {
      OutranksIs(rows, d, e);
      MoreVotesIs(rows, d, e);
    }
  }
}
