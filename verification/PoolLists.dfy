/** The four queues of the pool as lists, and what every operation keeps of them. */
module PoolLists {
  import opened Base
  import opened Accounts
  import opened PoolQueues

  const MAX_TRANSACTIONS_PER_BLOCK: nat := 25
  const MULTISIGNATURES_LIMIT: nat := 5

  datatype Lists = Lists(
    unconfirmed: seq<Pooled>, bundled: seq<Pooled>, queued: seq<Pooled>, multisignature: seq<Pooled>)
  {
    /** transactionInPool. */
    predicate Has(id: string) {
      id in Ids(unconfirmed) || id in Ids(bundled) || id in Ids(queued) || id in Ids(multisignature)
    }

    predicate Distinct() {
      DistinctIds(unconfirmed) && DistinctIds(bundled) && DistinctIds(queued) && DistinctIds(multisignature)
    }

    /** No id is alive in two queues. */
    predicate Disjoint() {
      && Ids(unconfirmed) !! Ids(bundled) && Ids(unconfirmed) !! Ids(queued) && Ids(unconfirmed) !! Ids(multisignature)
      && Ids(bundled) !! Ids(queued) && Ids(bundled) !! Ids(multisignature) && Ids(queued) !! Ids(multisignature)
    }

    predicate Within(max: nat) {
      && |unconfirmed| <= MAX_TRANSACTIONS_PER_BLOCK
      && |bundled| <= max && |queued| <= max && |multisignature| <= max
    }
  }

  function Enqueue(ps: seq<Pooled>, p: Pooled): seq<Pooled> {
    if p.Id() in Ids(ps) then ps else ps + [p]
  }

  /** The lists hold the transaction objects themselves: what processing sets on one of them shows in the list in which
      it waits. */
  function Renewed(l: Lists, p: Pooled, q: Pooled): Lists {
    l.(queued := Renew(l.queued, p, q), multisignature := Renew(l.multisignature, p, q))
  }

  /** addUnconfirmedTransaction: taken from the multisignature or the queued list, by the sender's
      status at this moment. */
  function Promoted(l: Lists, p: Pooled, multi: bool): Lists {
    var l1 := if multi then l.(multisignature := Drop(l.multisignature, p.Id())) else l.(queued := Drop(l.queued,
        p.Id()));
    l1.(unconfirmed := Enqueue(l.unconfirmed, p))
  }

  /** removeUnconfirmedTransaction also removes the id from the other two lists. */
  function Removed(l: Lists, id: string): Lists {
    l.(unconfirmed := Drop(l.unconfirmed, id), queued := Drop(l.queued, id),
       multisignature := Drop(l.multisignature, id))
  }

  /** queueTransaction; None when the list it belongs to is full. */
  function Queued(l: Lists, p: Pooled, multi: bool, max: nat): Option<Lists> {
    if p.bundled then
      if |l.bundled| >= max then None else Some(l.(bundled := Enqueue(l.bundled, p)))
    else if multi then
      if |l.multisignature| >= max then None else Some(l.(multisignature := Enqueue(l.multisignature, p)))
    else if |l.queued| >= max then None else Some(l.(queued := Enqueue(l.queued, p)))
  }

  lemma EnqueueIds(ps: seq<Pooled>, p: Pooled)
    ensures Ids(Enqueue(ps, p)) == Ids(ps) + {p.Id()}
    ensures DistinctIds(ps) ==> DistinctIds(Enqueue(ps, p))
    ensures |Enqueue(ps, p)| <= |ps| + 1
  {
    IdsPush(ps, p);
  }

  lemma QueuedKeeps(l: Lists, p: Pooled, multi: bool, max: nat)
    requires Queued(l, p, multi, max).Some? && l.Distinct() && l.Within(max)
    ensures var l' := Queued(l, p, multi, max).value;
            && l'.Distinct() && l'.Within(max) && l'.unconfirmed == l.unconfirmed
            && (l.Disjoint() && !l.Has(p.Id()) ==> l'.Disjoint())
            && l'.Has(p.Id())
            && forall id :: l'.Has(id) <==> l.Has(id) || id == p.Id()
  {
    hide Ids, DistinctIds, Enqueue;
    EnqueueIds(l.bundled, p);
    EnqueueIds(l.queued, p);
    EnqueueIds(l.multisignature, p);
  }

  lemma RemovedKeeps(l: Lists, id: string, max: nat)
    requires l.Distinct()
    ensures Removed(l, id).Distinct()
    ensures l.Within(max) ==> Removed(l, id).Within(max)
    ensures l.Disjoint() ==> Removed(l, id).Disjoint() && (id !in Ids(l.bundled) ==> !Removed(l, id).Has(id))
    ensures forall x :: Removed(l, id).Has(x) ==> l.Has(x)
  {
    hide Ids, DistinctIds, Drop;
    DropAbsent(l.unconfirmed, id);
    DropAbsent(l.queued, id);
    DropAbsent(l.multisignature, id);
  }

  /** Promoting keeps an id in one list only exactly when it is taken out of the list it waits in:
      when the sender's multisignature status is still what it was when it was queued. */
  lemma PromotedKeeps(l: Lists, p: Pooled, multi: bool, max: nat)
    requires l.Distinct() && l.Within(max) && l.Disjoint()
    requires p.Id() in Ids(l.queued) || p.Id() in Ids(l.multisignature)
    ensures Promoted(l, p, multi).Distinct()
    ensures |l.unconfirmed| < MAX_TRANSACTIONS_PER_BLOCK ==> Promoted(l, p, multi).Within(max)
    ensures Promoted(l, p, multi).Disjoint() <==> (multi <==> p.Id() in Ids(l.multisignature))
  {
    hide Ids, DistinctIds, Drop, Enqueue;
    EnqueueIds(l.unconfirmed, p);
    DropAbsent(l.queued, p.Id());
    DropAbsent(l.multisignature, p.Id());
    var l' := Promoted(l, p, multi);
    assert p.Id() in Ids(l'.unconfirmed);
  }

  lemma RenewedKeeps(l: Lists, p: Pooled, q: Pooled, max: nat)
    requires p.Id() == q.Id()
    ensures var r := Renewed(l, p, q);
            && Ids(r.queued) == Ids(l.queued) && Ids(r.multisignature) == Ids(l.multisignature)
            && (l.Distinct() ==> r.Distinct()) && (l.Within(max) ==> r.Within(max)) && (l.Disjoint() ==> r.Disjoint())
            && (p in l.queued ==> q in r.queued) && (p in l.multisignature ==> q in r.multisignature)
            && forall x: Pooled :: x.Id() != p.Id() ==>
                 (x in r.queued <==> x in l.queued) && (x in r.multisignature <==> x in l.multisignature)
  {
    hide Ids, DistinctIds, Renew;
    RenewKeeps(l.queued, p, q);
    RenewKeeps(l.multisignature, p, q);
  }

  // ---------- fillPool ----------

  function ReadyOnes(ps: seq<Pooled>): seq<Pooled> {
    if ps == [] then []
    else
      var pre, last := ReadyOnes(ps[..|ps| - 1]), ps[|ps| - 1];
      if last.ready then pre + [last] else pre
  }

  function Cut(ps: seq<Pooled>, n: nat): seq<Pooled> { if n < |ps| then ps[..n] else ps }

  /** The transactions fillPool tries: up to 5 ready multisignature ones when there is room for 5, then
      queued ones, never more than a block has room for. */
  function Chosen(l: Lists): (r: (seq<Pooled>, seq<Pooled>)) {
    var spare := MAX_TRANSACTIONS_PER_BLOCK - |l.unconfirmed|;
    if spare <= 0 then ([], []) else
    var spareMulti := if spare >= MULTISIGNATURES_LIMIT then MULTISIGNATURES_LIMIT else 0;
    var multis := Cut(ReadyOnes(Listed(l.multisignature, true, 0)), spareMulti);
    var rest := spare - |multis|;
    (multis, Cut(Listed(l.queued, true, MAX_TRANSACTIONS_PER_BLOCK), if rest < 0 then -rest else rest))
  }

  lemma {:induction false} ReadyIn(ps: seq<Pooled>)
    ensures |ReadyOnes(ps)| <= |ps|
    ensures forall p :: p in ReadyOnes(ps) ==> p in ps && p.ready
  {
    if ps != [] { ReadyIn(ps[..|ps| - 1]); }
  }

  lemma ChosenFits(l: Lists)
    ensures |Chosen(l).0| + |Chosen(l).1| + |l.unconfirmed| <= MAX_TRANSACTIONS_PER_BLOCK || Chosen(l) == ([], [])
    ensures forall p :: p in Chosen(l).0 ==> p in l.multisignature && p.ready
    ensures forall p :: p in Chosen(l).1 ==> p in l.queued
  {
    ReadyIn(Listed(l.multisignature, true, 0));
    hide Listed, ReadyOnes;
    assert forall p :: p in Listed(l.multisignature, true, 0) ==> p in l.multisignature;
    assert forall p :: p in Listed(l.queued, true, MAX_TRANSACTIONS_PER_BLOCK) ==> p in l.queued;
  }

  lemma {:induction false} ReadyDistinct(ps: seq<Pooled>)
    requires DistinctIds(ps)
    ensures DistinctIds(ReadyOnes(ps)) && Ids(ReadyOnes(ps)) <= Ids(ps)
  {
    if ps != [] {
      var pre, last := ps[..|ps| - 1], ps[|ps| - 1];
      assert ps == pre + [last];
      ReadyDistinct(pre);
      IdsPush(pre, last);
      if last.ready { IdsPush(ReadyOnes(pre), last); }
    }
  }

  /** No id is chosen twice. */
  lemma ChosenDistinct(l: Lists)
    requires l.Distinct() && Ids(l.queued) !! Ids(l.multisignature)
    ensures DistinctIds(Chosen(l).0 + Chosen(l).1)
  {
    var ms, qs := Chosen(l).0, Chosen(l).1;
    var all := Listed(l.multisignature, true, 0);
    SameMembers(l.multisignature);
    SameMembers(l.queued);
    ReadyDistinct(all);
    ListedCut(l.queued, MAX_TRANSACTIONS_PER_BLOCK);
    assert DistinctIds(ms) && DistinctIds(qs);
    ChosenFits(l);
    hide Listed, Chosen;
    var cs := ms + qs;
    forall i, j | 0 <= i < j < |cs| ensures cs[i].Id() != cs[j].Id() {
      if i < |ms| && j >= |ms| {
        assert ms[i] in ms && qs[j - |ms|] in qs;
        IdIn(l.multisignature, ms[i]);
        IdIn(l.queued, qs[j - |ms|]);
      } else if i >= |ms| {
        assert qs[i - |ms|].Id() != qs[j - |ms|].Id();
      } else {
        assert ms[i].Id() != ms[j].Id();
      }
    }
  }

  // ---------- the same by positions ----------

  /** Entries at these positions, newer ones first, all of them ready. */
  predicate Picks(ps: seq<Pooled>, at: seq<nat>, ms: seq<Pooled>) {
    && |ms| == |at|
    && (forall k :: 0 <= k < |at| ==> at[k] < |ps| && ms[k] == ps[at[k]] && ps[at[k]].ready)
    && forall j, k :: 0 <= j < k < |at| ==> at[j] > at[k]
  }

  /** A ready entry is only left out when there are five newer ones. */
  predicate LeavesOlder(ps: seq<Pooled>, at: seq<nat>) {
    |at| <= 5 &&
    forall i :: 0 <= i < |ps| && ps[i].ready && i !in at ==> |at| == 5 && forall k :: 0 <= k < |at| ==> at[k] > i
  }

  /** What fillPool has to try: with room for five, the newest ready multisignature transactions, up to five; then the
      newest queued ones, as many as there is room left for. */
  ghost predicate ToTry(l: Lists, ms: seq<Pooled>, qs: seq<Pooled>) {
    var room, n := 25 - |l.unconfirmed|, |l.queued|;
    if room <= 0 then ms == [] && qs == [] else
    && (if room < 5 then ms == []
        else exists at: seq<nat> :: Picks(l.multisignature, at, ms) && LeavesOlder(l.multisignature, at))
    && |qs| == (if room - |ms| < n then room - |ms| else n)
    && forall k :: 0 <= k < |qs| ==> qs[k] == l.queued[n - 1 - k]
  }

  function ReadyAt(ps: seq<Pooled>): seq<nat> {
    if ps == [] then []
    else
      var pre, n := ReadyAt(ps[..|ps| - 1]), |ps| - 1;
      if ps[n].ready then pre + [n] else pre
  }

  lemma {:induction false} ReadyAtIs(ps: seq<Pooled>)
    ensures var at := ReadyAt(ps);
            && |at| == |ReadyOnes(ps)|
            && (forall k :: 0 <= k < |at| ==> at[k] < |ps| && ReadyOnes(ps)[k] == ps[at[k]] && ps[at[k]].ready)
            && (forall j, k :: 0 <= j < k < |at| ==> at[j] < at[k])
            && forall i :: 0 <= i < |ps| && ps[i].ready ==> i in at
  {
    if ps != [] {
      var pre, n := ps[..|ps| - 1], |ps| - 1;
      ReadyAtIs(pre);
      forall i | 0 <= i < |ps| && ps[i].ready ensures i in ReadyAt(ps) {
        if i < n {
          assert pre[i].ready;
          assert i in ReadyAt(pre);
        }
      }
    }
  }

  lemma NewestFirst(ps: seq<Pooled>)
    ensures var all := Listed(ps, true, 0);
            |all| == |ps| && forall k :: 0 <= k < |ps| ==> all[k] == ps[|ps| - 1 - k]
  {
  }

  function Mirror(at: seq<nat>, n: nat, limit: nat): (r: seq<nat>)
    requires forall k :: 0 <= k < |at| ==> at[k] < n
    ensures |r| == if limit < |at| then limit else |at|
    ensures forall k :: 0 <= k < |r| ==> r[k] == n - 1 - at[k]
  {
    seq(if limit < |at| then limit else |at|, k requires 0 <= k < |at| => n - 1 - at[k])
  }

  /** The first five ready ones of the list from the newest on. */
  lemma NewestReady(ps: seq<Pooled>) returns (at: seq<nat>)
    ensures var ms := Cut(ReadyOnes(Listed(ps, true, 0)), 5);
            Picks(ps, at, ms) && LeavesOlder(ps, at)
  {
    hide ReadyOnes, ReadyAt, Listed, Picks, LeavesOlder, Mirror;
    var all := Listed(ps, true, 0);
    NewestFirst(ps);
    ReadyAtIs(all);
    at := Mirror(ReadyAt(all), |ps|, 5);
    MirrorPicks(ps, all, ReadyAt(all), ReadyOnes(all));
    MirrorLeaves(ps, all, ReadyAt(all));
  }

  lemma MirrorPicks(ps: seq<Pooled>, all: seq<Pooled>, from: seq<nat>, ready: seq<Pooled>)
    requires |all| == |ps| && forall k :: 0 <= k < |ps| ==> all[k] == ps[|ps| - 1 - k]
    requires |from| == |ready|
    requires forall k :: 0 <= k < |from| ==> from[k] < |all| && ready[k] == all[from[k]] && all[from[k]].ready
    requires forall j, k :: 0 <= j < k < |from| ==> from[j] < from[k]
    ensures Picks(ps, Mirror(from, |ps|, 5), Cut(ready, 5))
  {
    hide Mirror;
  }

  lemma MirrorLeaves(ps: seq<Pooled>, all: seq<Pooled>, from: seq<nat>)
    requires |all| == |ps| && forall k :: 0 <= k < |ps| ==> all[k] == ps[|ps| - 1 - k]
    requires forall k :: 0 <= k < |from| ==> from[k] < |all|
    requires forall j, k :: 0 <= j < k < |from| ==> from[j] < from[k]
    requires forall i :: 0 <= i < |all| && all[i].ready ==> i in from
    ensures LeavesOlder(ps, Mirror(from, |ps|, 5))
  {
    hide Mirror;
    var at := Mirror(from, |ps|, 5);
    forall i | 0 <= i < |ps| && ps[i].ready && i !in at
      ensures |at| == 5 && forall k :: 0 <= k < |at| ==> at[k] > i
    {
      assert all[|ps| - 1 - i].ready;
      var j :| 0 <= j < |from| && from[j] == |ps| - 1 - i;
      forall k | 0 <= k < |at| ensures from[k] != |ps| - 1 - i { assert at[k] in at; }
      assert j >= |at|;
    }
  }

  /** There is one way to pick them. */
  lemma {:induction false} OnePick(ps: seq<Pooled>, at: seq<nat>, ms: seq<Pooled>, at': seq<nat>, ms': seq<Pooled>,
      k: nat)
    requires Picks(ps, at, ms) && LeavesOlder(ps, at) && Picks(ps, at', ms') && LeavesOlder(ps, at')
    requires k <= |at| && k <= |at'|
    ensures at[..k] == at'[..k]
  {
    if k > 0 {
      OnePick(ps, at, ms, at', ms', k - 1);
      var i, j := at[k - 1], at'[k - 1];
      assert at[..k - 1] == at'[..k - 1];
      if i > j { NotAmong(at, at', k - 1); } else if j > i { NotAmong(at', at, k - 1); }
      assert at[..k] == at[..k - 1] + [i] && at'[..k] == at'[..k - 1] + [j];
    }
  }

  lemma NotAmong(at: seq<nat>, at': seq<nat>, k: nat)
    requires k < |at| && k < |at'| && at[..k] == at'[..k] && at[k] > at'[k]
    requires forall i, j :: 0 <= i < j < |at| ==> at[i] > at[j]
    requires forall i, j :: 0 <= i < j < |at'| ==> at'[i] > at'[j]
    ensures at[k] !in at'
  {
    forall j | 0 <= j < |at'| ensures at'[j] != at[k] {
      if j < k { assert at'[j] == at'[..k][j] == at[..k][j] == at[j]; }
    }
  }

  lemma SameLength(ps: seq<Pooled>, at: seq<nat>, ms: seq<Pooled>, at': seq<nat>, ms': seq<Pooled>)
    requires Picks(ps, at, ms) && LeavesOlder(ps, at) && Picks(ps, at', ms') && LeavesOlder(ps, at')
    ensures |at| >= |at'|
  {
    if |at| < |at'| {
      OnePick(ps, at, ms, at', ms', |at|);
      NextNotAmong(at, at');
    }
  }

  lemma NextNotAmong(at: seq<nat>, at': seq<nat>)
    requires |at| < |at'| && at[..|at|] == at'[..|at|]
    requires forall i, j :: 0 <= i < j < |at'| ==> at'[i] > at'[j]
    ensures at'[|at|] !in at
  {
    forall k | 0 <= k < |at| ensures at[k] != at'[|at|] { assert at[..|at|][k] == at'[..|at|][k]; }
  }

  /** fillPool tries exactly these. */
  lemma ChosenIff(l: Lists, ms: seq<Pooled>, qs: seq<Pooled>)
    ensures ToTry(l, ms, qs) <==> (ms, qs) == Chosen(l)
  {
    hide Picks, LeavesOlder, ReadyOnes, Listed;
    var ps, n := l.multisignature, |l.queued|;
    var at := NewestReady(ps);
    var best := Cut(ReadyOnes(Listed(ps, true, 0)), 5);
    PickIs(ps, at, best, at, best);
    forall at' | Picks(ps, at', ms) && LeavesOlder(ps, at') ensures ms == best { PickIs(ps, at, best, at', ms); }
    var room := 25 - |l.unconfirmed|;
    if room > 0 {
      var first := if room < 5 then [] else best;
      if ms == first { QueuedPart(l.queued, room - |ms|, qs); }
    }
  }

  lemma QueuedPart(queued: seq<Pooled>, room: nat, qs: seq<Pooled>)
    requires room <= 25
    ensures var n := |queued|;
            && |qs| == (if room < n then room else n) && (forall k :: 0 <= k < |qs| ==> qs[k] == queued[n - 1 - k]) <==>
            qs == Cut(Listed(queued, true, 25), room)
  {
  }

  lemma PickIs(ps: seq<Pooled>, at: seq<nat>, ms: seq<Pooled>, at': seq<nat>, ms': seq<Pooled>)
    requires Picks(ps, at, ms) && LeavesOlder(ps, at) && Picks(ps, at', ms') && LeavesOlder(ps, at')
    ensures ms == ms' && |ms| <= 5
  {
    SameLength(ps, at, ms, at', ms');
    SameLength(ps, at', ms', at, ms);
    OnePick(ps, at, ms, at', ms', |at|);
    assert at[..|at|] == at && at'[..|at|] == at';
  }

  // ---------- expiry ----------

  const UNCONFIRMED_TRANSACTION_TIMEOUT: int := 10800
  const HOUR_IN_SECONDS: int := 3600

  function TimeOut(tx: Transaction): int {
    if tx.asset.Multisignature? then tx.asset.lifetime * HOUR_IN_SECONDS
    else if tx.signatures.Some? then UNCONFIRMED_TRANSACTION_TIMEOUT * 8
    else UNCONFIRMED_TRANSACTION_TIMEOUT
  }

  function IsExpired(p: Pooled, now: int): bool { now - p.receivedAt > TimeOut(p.tx) }

  /** No waiting transaction expires while one with its id stays unconfirmed. */
  ghost predicate NoStray(l: Lists, now: int) {
    forall p, q | (p in l.queued || p in l.multisignature) && IsExpired(p, now)
                  && q in l.unconfirmed && q.Id() == p.Id() :: IsExpired(q, now)
  }

  /** Every id is one transaction object: a list has it once, it is in no other list while it is bundled, it waits in
      one list only, and a waiting entry with the id of an unconfirmed one is the same object. */
  ghost predicate OneObject(l: Lists) {
    && l.Distinct()
    && Ids(l.bundled) !! Ids(l.unconfirmed) && Ids(l.bundled) !! Ids(l.queued)
    && Ids(l.bundled) !! Ids(l.multisignature) && Ids(l.queued) !! Ids(l.multisignature)
    && forall p, q | p in l.unconfirmed && (q in l.queued || q in l.multisignature) && p.Id() == q.Id() :: p == q
  }

  /** One object has one time of receipt and one time-out. */
  lemma OneObjectStrays(l: Lists, now: int)
    requires OneObject(l)
    ensures NoStray(l, now)
  {
    hide IsExpired, Ids, DistinctIds;
  }
}
