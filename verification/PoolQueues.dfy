/** One queue of the transaction pool (logic/transaction_pool.js): an array in which a removed entry
    leaves a tombstone, and an index from transaction id to position. */
module PoolQueues {
  import opened Base
  import opened Accounts
  import opened RoundChanging

  /** A transaction as the pool holds it. */
  datatype Pooled = Pooled(tx: Transaction, bundled: bool, ready: bool, receivedAt: int)
  {
    function Id(): string { tx.id }
  }

  /** filter(Boolean): the entries that are left, in order. */
  function Live(ts: seq<Option<Pooled>>): seq<Pooled> {
    if ts == [] then []
    else
      var pre, last := Live(ts[..|ts| - 1]), ts[|ts| - 1];
      if last.Some? then pre + [last.value] else pre
  }

  function Ids(ps: seq<Pooled>): set<string> { set i | 0 <= i < |ps| :: ps[i].Id() }

  predicate DistinctIds(ps: seq<Pooled>) {
    forall i, j :: 0 <= i < j < |ps| ==> ps[i].Id() != ps[j].Id()
  }

  /** The list without the entries of one id. */
  function Drop(ps: seq<Pooled>, id: string): seq<Pooled> {
    if ps == [] then []
    else
      var pre, last := Drop(ps[..|ps| - 1], id), ps[|ps| - 1];
      if last.Id() == id then pre else pre + [last]
  }

  /** The index maps an id to a position exactly when the entry alive there has that id. */
  predicate Indexed(ts: seq<Option<Pooled>>, index: map<string, nat>) {
    && (forall id :: id in index ==> index[id] < |ts| && ts[index[id]].Some? && ts[index[id]].value.Id() == id)
    && (forall i :: 0 <= i < |ts| && ts[i].Some? ==> ts[i].value.Id() in index && index[ts[i].value.Id()] == i)
  }

  lemma LivePush(ts: seq<Option<Pooled>>, p: Option<Pooled>)
    ensures Live(ts + [p]) == if p.Some? then Live(ts) + [p.value] else Live(ts)
  {
    assert (ts + [p])[..|ts|] == ts;
  }

  lemma IdsPush(ps: seq<Pooled>, p: Pooled)
    ensures Ids(ps + [p]) == Ids(ps) + {p.Id()}
    ensures DistinctIds(ps + [p]) <==> DistinctIds(ps) && p.Id() !in Ids(ps)
  {
    var qs := ps + [p];
    forall x | x in Ids(ps) ensures x in Ids(qs) {
      var i :| 0 <= i < |ps| && ps[i].Id() == x;
      assert qs[i].Id() == x;
    }
    assert qs[|ps|].Id() in Ids(qs);
    if p.Id() in Ids(ps) {
      var i :| 0 <= i < |ps| && ps[i].Id() == p.Id();
      assert qs[i].Id() == qs[|ps|].Id();
    }
    if !DistinctIds(ps) {
      var i, j :| 0 <= i < j < |ps| && ps[i].Id() == ps[j].Id();
      assert qs[i].Id() == qs[j].Id();
    }
    if DistinctIds(ps) && p.Id() !in Ids(ps) {
      forall i, j | 0 <= i < j < |qs| ensures qs[i].Id() != qs[j].Id() {
        if j == |ps| { assert ps[i].Id() in Ids(ps); }
      }
    }
  }

  /** The ids alive in an indexed array are exactly the index's keys, each alive once. */
  lemma {:induction false} LiveIds(ts: seq<Option<Pooled>>, index: map<string, nat>)
    requires Indexed(ts, index)
    ensures Ids(Live(ts)) == index.Keys && DistinctIds(Live(ts))
  {
    if ts == [] {
      assert index.Keys == {};
    } else {
      var pre, last := ts[..|ts| - 1], ts[|ts| - 1];
      assert ts == pre + [last];
      LivePush(pre, last);
      if last.Some? {
        var id := last.value.Id();
        var smaller := index - {id};
        assert Indexed(pre, smaller);
        LiveIds(pre, smaller);
        IdsPush(Live(pre), last.value);
        assert index.Keys == smaller.Keys + {id};
      } else {
        LiveIds(pre, index);
      }
    }
  }

  lemma {:induction false} IdCount(ps: seq<Pooled>)
    requires DistinctIds(ps)
    ensures |Ids(ps)| == |ps|
  {
    if ps != [] {
      var pre, last := ps[..|ps| - 1], ps[|ps| - 1];
      assert ps == pre + [last];
      IdsPush(pre, last);
      IdCount(pre);
    } else {
      assert Ids(ps) == {};
    }
  }

  lemma {:induction false} DropAbsent(ps: seq<Pooled>, id: string)
    ensures id !in Ids(ps) ==> Drop(ps, id) == ps
    ensures Ids(Drop(ps, id)) == Ids(ps) - {id}
    ensures DistinctIds(ps) ==> DistinctIds(Drop(ps, id))
    ensures |Drop(ps, id)| <= |ps|
  {
    if ps != [] {
      var pre, last := ps[..|ps| - 1], ps[|ps| - 1];
      assert ps == pre + [last];
      IdsPush(pre, last);
      DropAbsent(pre, id);
      if last.Id() != id { IdsPush(Drop(pre, id), last); }
    }
  }

  lemma {:induction false} DropSublist(ps: seq<Pooled>, id: string)
    ensures forall p :: p in Drop(ps, id) <==> p in ps && p.Id() != id
  {
    if ps != [] {
      DropSublist(ps[..|ps| - 1], id);
      assert ps == ps[..|ps| - 1] + [ps[|ps| - 1]];
    }
  }

  lemma IdIn(ps: seq<Pooled>, p: Pooled)
    requires p in ps
    ensures p.Id() in Ids(ps)
  {
    var i :| 0 <= i < |ps| && ps[i] == p;
    assert ps[i].Id() in Ids(ps);
  }

  lemma NoIds()
    ensures Ids([]) == {}
  {
  }

  /** The index without the last entry of the array. */
  lemma ShorterIndexed(ts: seq<Option<Pooled>>, index: map<string, nat>)
    requires Indexed(ts, index) && ts != []
    ensures var last := ts[|ts| - 1];
            Indexed(ts[..|ts| - 1], if last.Some? then index - {last.value.Id()} else index)
  {
  }

  lemma DropLast(ps: seq<Pooled>, p: Pooled, id: string)
    ensures Drop(ps + [p], id) == if p.Id() == id then Drop(ps, id) else Drop(ps, id) + [p]
  {
    assert (ps + [p])[..|ps|] == ps;
  }

  lemma {:induction false} LiveTombstone(ts: seq<Option<Pooled>>, index: map<string, nat>, i: nat)
    requires Indexed(ts, index) && i < |ts| && ts[i].Some?
    ensures Live(ts[i := None]) == Drop(Live(ts), ts[i].value.Id())
  {
    hide Live, Drop;
    var pre, last, id := ts[..|ts| - 1], ts[|ts| - 1], ts[i].value.Id();
    var smaller := if last.Some? then index - {last.value.Id()} else index;
    assert ts == pre + [last];
    ShorterIndexed(ts, index);
    LivePush(pre, last);
    if last.Some? { DropLast(Live(pre), last.value, id); }
    if i == |ts| - 1 {
      assert ts[i := None] == pre + [None];
      LivePush(pre, None);
      LiveIds(pre, smaller);
      DropAbsent(Live(pre), id);
    } else {
      assert ts[i := None] == pre[i := None] + [last];
      LivePush(pre[i := None], last);
      LiveTombstone(pre, smaller, i);
      assert last.Some? ==> last.value.Id() != id;
    }
  }

  lemma RemovedIndexed(ts: seq<Option<Pooled>>, index: map<string, nat>, id: string)
    requires Indexed(ts, index) && id in index
    ensures Indexed(ts[index[id] := None], index - {id})
  {
  }

  /** The listing order of getTransactionList: reversed on request, cut at a non-zero limit. */
  function Listed(ps: seq<Pooled>, reverse: bool, limit: nat): (r: seq<Pooled>)
    ensures |r| <= |ps| && (limit > 0 ==> |r| <= limit)
    ensures forall i :: 0 <= i < |r| ==> r[i] in ps
  {
    var all := if reverse then Backwards(ps) else ps;
    if 0 < limit < |all| then all[..limit] else all
  }

  lemma SameMembers(ps: seq<Pooled>)
    requires DistinctIds(ps)
    ensures var r := Listed(ps, true, 0);
            DistinctIds(r) && (forall p :: p in r <==> p in ps)
  {
    var r := Listed(ps, true, 0);
    forall p | p in ps ensures p in r {
      var i :| 0 <= i < |ps| && ps[i] == p;
      assert r[|ps| - 1 - i] == p;
    }
  }

  lemma ListedCut(ps: seq<Pooled>, limit: nat)
    requires DistinctIds(ps)
    ensures DistinctIds(Listed(ps, true, limit))
    ensures forall i :: 0 <= i < |Listed(ps, true, limit)| ==> Listed(ps, true, limit)[i] in ps
  {
    SameMembers(ps);
  }

  /** The list after processing has set fields of the transaction object `p`, which make it `q`. */
  function Renew(ps: seq<Pooled>, p: Pooled, q: Pooled): (r: seq<Pooled>)
    ensures |r| == |ps| && forall i :: 0 <= i < |ps| ==> r[i] == if ps[i] == p then q else ps[i]
  {
    seq(|ps|, i requires 0 <= i < |ps| => if ps[i] == p then q else ps[i])
  }

  function RenewAll(ts: seq<Option<Pooled>>, p: Pooled, q: Pooled): seq<Option<Pooled>> {
    seq(|ts|, i requires 0 <= i < |ts| => if ts[i] == Some(p) then Some(q) else ts[i])
  }

  lemma RenewKeeps(ps: seq<Pooled>, p: Pooled, q: Pooled)
    requires p.Id() == q.Id()
    ensures Ids(Renew(ps, p, q)) == Ids(ps) && (DistinctIds(ps) ==> DistinctIds(Renew(ps, p, q)))
    ensures forall x: Pooled :: x.Id() != p.Id() ==> (x in Renew(ps, p, q) <==> x in ps)
    ensures p in ps ==> q in Renew(ps, p, q)
    ensures DistinctIds(ps) && p in ps ==> forall x: Pooled :: x in Renew(ps, p, q) && x.Id() == p.Id() ==> x == q
  {
    var r := Renew(ps, p, q);
    assert forall i :: 0 <= i < |ps| ==> r[i].Id() == ps[i].Id();
    forall id | id in Ids(ps) ensures id in Ids(r) {
      var i :| 0 <= i < |ps| && ps[i].Id() == id;
      assert r[i].Id() == id;
    }
    forall x: Pooled | x.Id() != p.Id() && x in ps ensures x in r {
      var i :| 0 <= i < |ps| && ps[i] == x;
      assert r[i] == x;
    }
  }

  lemma RenewNothing(ps: seq<Pooled>, p: Pooled, q: Pooled)
    ensures p !in ps || p == q ==> Renew(ps, p, q) == ps
  {
  }

  lemma {:induction false} LiveRenewed(ts: seq<Option<Pooled>>, p: Pooled, q: Pooled)
    ensures Live(RenewAll(ts, p, q)) == Renew(Live(ts), p, q)
  {
    if ts != [] {
      var pre, last := ts[..|ts| - 1], ts[|ts| - 1];
      LiveRenewed(pre, p, q);
      assert RenewAll(ts, p, q)[..|ts| - 1] == RenewAll(pre, p, q);
    }
  }

  /** Only the position the index gives can hold the object. */
  lemma RenewOne(ts: seq<Option<Pooled>>, index: map<string, nat>, p: Pooled, q: Pooled)
    requires Indexed(ts, index) && p.Id() == q.Id()
    ensures var id := p.Id();
            if id in index && ts[index[id]] == Some(p)
            then RenewAll(ts, p, q) == ts[index[id] := Some(q)] && Indexed(ts[index[id] := Some(q)], index)
            else RenewAll(ts, p, q) == ts
  {
  }

  class Queue {
    var transactions: seq<Option<Pooled>>
    var index: map<string, nat>

    predicate Valid() reads this { Indexed(transactions, index) }

    /** The queue as a list. */
    function Entries(): seq<Pooled> reads this { Live(transactions) }

    constructor ()
      ensures Valid() && Entries() == []
    {
      transactions, index := [], map[];
    }

    method Count() returns (n: nat)
      requires Valid()
      ensures n == |Entries()|
    {
      LiveIds(transactions, index);
      IdCount(Live(transactions));
      n := |index.Keys|;
    }

    method Has(id: string) returns (b: bool)
      requires Valid()
      ensures b <==> id in Ids(Entries())
    {
      LiveIds(transactions, index);
      b := id in index;
    }

    /** Adds at the end unless the id is there already. */
    method Add(p: Pooled)
      requires Valid()
      modifies this
      ensures Valid() && DistinctIds(Entries())
      ensures Entries() == if p.Id() in Ids(old(Entries())) then old(Entries()) else old(Entries()) + [p]
    {
      LiveIds(transactions, index);
      if p.Id() !in index {
        LivePush(transactions, Some(p));
        transactions := transactions + [Some(p)];
        var i := IndexOf(transactions, p);
        index := index[p.Id() := i];
      }
      LiveIds(transactions, index);
    }

    /** Leaves a tombstone. */
    method Remove(id: string)
      requires Valid()
      modifies this
      ensures Valid() && Entries() == Drop(old(Entries()), id)
    {
      LiveIds(transactions, index);
      if id in index {
        LiveTombstone(transactions, index, index[id]);
        RemovedIndexed(transactions, index, id);
        transactions := transactions[index[id] := None];
        index := index - {id};
      } else {
        DropAbsent(Live(transactions), id);
      }
    }

    /** The transaction object `p`, if it is in the queue, has become `q`. */
    method RenewEntry(p: Pooled, q: Pooled)
      requires Valid() && p.Id() == q.Id()
      modifies this
      ensures Valid() && Entries() == Renew(old(Entries()), p, q)
    {
      LiveRenewed(transactions, p, q);
      RenewOne(transactions, index, p, q);
      if p.Id() in index && transactions[index[p.Id()]] == Some(p) {
        transactions := transactions[index[p.Id()] := Some(q)];
      }
    }

    /** Drops the tombstones and numbers the rest again. */
    method Reindex()
      requires Valid()
      modifies this
      ensures Valid() && Entries() == old(Entries())
      ensures |transactions| == |Entries()| && forall i :: 0 <= i < |transactions| ==>
              transactions[i] == Some(Entries()[i])
    {
      LiveIds(transactions, index);
      var kept := List(false, 0);
      LiveWrap(kept);
      index := map[];
      transactions := Wrap(kept);
      var i := 0;
      while i < |transactions|
        invariant 0 <= i <= |transactions|
        invariant transactions == Wrap(kept)
        invariant Indexed(Wrap(kept)[..i], index)
      {
        var k := IndexOf(transactions, kept[i]);
        FirstIsOnly(kept, i, k);
        IndexNext(kept, index, i);
        index := index[kept[i].Id() := k];
        i := i + 1;
      }
      assert Wrap(kept)[..i] == Wrap(kept);
    }

    /** getTransactionList. */
    method List(reverse: bool, limit: nat) returns (r: seq<Pooled>)
      ensures r == Listed(Entries(), reverse, limit)
    {
      r := [];
      var i := 0;
      while i < |transactions|
        invariant 0 <= i <= |transactions|
        invariant r == Live(transactions[..i])
      {
        assert transactions[..i + 1] == transactions[..i] + [transactions[i]];
        LivePush(transactions[..i], transactions[i]);
        if transactions[i].Some? { r := r + [transactions[i].value]; }
        i := i + 1;
      }
      assert transactions[..i] == transactions;
      if reverse { r := Backwards(r); }
      if limit > 0 && limit < |r| { r := r[..limit]; }
    }
  }

  /** Array.prototype.indexOf for an entry that is there. */
  method IndexOf(ts: seq<Option<Pooled>>, p: Pooled) returns (i: nat)
    requires Some(p) in ts
    ensures i < |ts| && ts[i] == Some(p) && forall k :: 0 <= k < i ==> ts[k] != Some(p)
  {
    i := 0;
    while ts[i] != Some(p)
      invariant i < |ts| && forall k :: 0 <= k < i ==> ts[k] != Some(p)
      decreases |ts| - i
    {
      i := i + 1;
    }
  }

  lemma FirstIsOnly(ps: seq<Pooled>, i: nat, k: nat)
    requires DistinctIds(ps) && i < |ps| && k < |ps| && ps[k] == ps[i]
    ensures k == i
  {
  }

  lemma IndexNext(ps: seq<Pooled>, index: map<string, nat>, i: nat)
    requires DistinctIds(ps) && i < |ps| && Indexed(Wrap(ps)[..i], index)
    ensures Indexed(Wrap(ps)[..i + 1], index[ps[i].Id() := i])
  {
    var before, after := Wrap(ps)[..i], Wrap(ps)[..i + 1];
    forall k | 0 <= k < i ensures ps[k].Id() != ps[i].Id() && after[k] == before[k] { }
  }

  function Wrap(ps: seq<Pooled>): (r: seq<Option<Pooled>>)
    ensures |r| == |ps|
    ensures forall i :: 0 <= i < |ps| ==> r[i] == Some(ps[i])
  {
    seq(|ps|, i requires 0 <= i < |ps| => Some(ps[i]))
  }

  lemma {:induction false} LiveWrap(ps: seq<Pooled>)
    ensures Live(Wrap(ps)) == ps
  {
    if ps != [] {
      var n := |ps| - 1;
      LiveWrap(ps[..n]);
      assert Wrap(ps) == Wrap(ps[..n]) + [Some(ps[n])];
      LivePush(Wrap(ps[..n]), Some(ps[n]));
    }
  }
}
