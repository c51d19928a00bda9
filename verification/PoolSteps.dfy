/**
  What every operation of the pool comes to, as functions of the ledger and the four lists
  (logic/transaction_pool.js).  `Settings` holds what the pool is configured with, and the checks that
  look at no account: signatures, ids, schemas, timestamps.
 */
module PoolSteps {
  import opened Base
  import opened Diff
  import opened Accounts
  import opened Ledger
  import opened Steps
  import opened PoolQueues
  import opened PoolLists
  import opened PoolBalances

  datatype Settings = Settings(genesisKey: PublicKey, max: nat, outside: Transaction -> bool)

  /** The account half of a multisignature sender's test. */
  ghost predicate GroupAccount(n: Node, tx: Transaction) {
    Row(n.books.accts.conf, tx.From()).multisignatures != multiset{}
  }

  ghost predicate IsMulti(n: Node, tx: Transaction) { tx.asset.Multisignature? || GroupAccount(n, tx) }

  /** Every waiting transaction is in the list its sender's status asks for. */
  ghost predicate Placed(n: Node, l: Lists) {
    && (forall i :: 0 <= i < |l.queued| ==> !IsMulti(n, l.queued[i].tx))
    && (forall i :: 0 <= i < |l.multisignature| ==> IsMulti(n, l.multisignature[i].tx))
  }

  /** What processing leaves of a transaction: a signature array for a multisignature account, and the
      time it was received. */
  function Received(p: Pooled, group: bool, now: int): Pooled {
    p.(receivedAt := now,
       tx := if group && p.tx.signatures.None? then p.tx.(signatures := Some(0)) else p.tx)
  }

  /** processVerifyTransaction lets it through. */
  ghost predicate Passes(n: Node, l: Lists, p: Pooled, e: Settings) {
    p.Id() !in Ids(l.unconfirmed) && e.outside(p.tx) && Verified(n.books.accts, e.genesisKey, p.tx)
  }

  // ---------- taking transactions in ----------

  /** processUnconfirmedTransaction; None when it is refused. */
  ghost function Taken(n: Node, l: Lists, p: Pooled, now: int, e: Settings): Option<Lists> {
    if l.Has(p.Id()) then None
    else if p.bundled then Queued(l, p.(receivedAt := now), false, e.max)
    else if !Passes(n, l, p, e) then None
    else Queued(l, Received(p, GroupAccount(n, p.tx), now), IsMulti(n, p.tx), e.max)
  }

  function OrElse(r: Option<Lists>, l: Lists): Lists { if r.Some? then r.value else l }

  /** receiveTransactions: it stops at the first one that is refused. */
  ghost function AllTaken(n: Node, l: Lists, ps: seq<Pooled>, now: int, e: Settings): (Lists, bool) {
    if ps == [] then (l, true)
    else
      var pre := AllTaken(n, l, ps[..|ps| - 1], now, e);
      if !pre.1 then pre
      else
        var r := Taken(n, pre.0, ps[|ps| - 1], now, e);
        (OrElse(r, pre.0), r.Some?)
  }

  /** One transaction of processBundled. */
  ghost function Unbundled(n: Node, l: Lists, p: Pooled, now: int, e: Settings): Lists {
    var l1 := l.(bundled := Drop(l.bundled, p.Id()));
    if !Passes(n, l, p, e) then l1
    else OrElse(Queued(l1, Received(p, GroupAccount(n, p.tx), now).(bundled := false), IsMulti(n, p.tx), e.max), l1)
  }

  ghost function AllUnbundled(n: Node, l: Lists, ps: seq<Pooled>, now: int, e: Settings): Lists {
    if ps == [] then l else Unbundled(n, AllUnbundled(n, l, ps[..|ps| - 1], now, e), ps[|ps| - 1], now, e)
  }

  // ---------- taking the unconfirmed list off ----------

  /** undoUnconfirmedList: each transaction leaves the lists and is offered to them again. */
  ghost function Requeued(n: Node, l: Lists, ps: seq<Pooled>, now: int, e: Settings): Lists {
    if ps == [] then l
    else
      var l1 := Removed(Requeued(n, l, ps[..|ps| - 1], now, e), ps[|ps| - 1].Id());
      OrElse(Taken(n, l1, ps[|ps| - 1], now, e), l1)
  }

  function Expired(l: Lists, ps: seq<Pooled>, now: int): Lists {
    if ps == [] then l
    else
      var pre, last := Expired(l, ps[..|ps| - 1], now), ps[|ps| - 1];
      if IsExpired(last, now) then Removed(pre, last.Id()) else pre
  }

  ghost function UndoneExpired(n: Node, ps: seq<Pooled>, now: int): Node {
    if ps == [] then n
    else
      var pre, last := UndoneExpired(n, ps[..|ps| - 1], now), ps[|ps| - 1];
      if IsExpired(last, now) then UndoneOne(pre, last.tx) else pre
  }

  /** expireTransactions: the unconfirmed list, then the queued one, then the multisignature one. */
  function AllExpired(l: Lists, now: int): Lists {
    var l1 := Expired(l, Listed(l.unconfirmed, true, 0), now);
    var l2 := Expired(l1, Listed(l1.queued, true, 0), now);
    Expired(l2, Listed(l2.multisignature, true, 0), now)
  }

  // ---------- filling the unconfirmed list ----------

  /** What processVerifyTransaction makes of a waiting transaction, whether it lets it through or not. */
  ghost function Processed(n: Node, l: Lists, p: Pooled): Pooled {
    if p.Id() in Ids(l.unconfirmed) then p else Received(p, GroupAccount(n, p.tx), p.receivedAt)
  }

  /** One transaction of applyUnconfirmedList. */
  ghost function Tried(n: Node, l: Lists, p: Pooled, e: Settings): (Node, Lists) {
    var q := Processed(n, l, p);
    var l1 := Renewed(l, p, q);
    if Passes(n, l, p, e) && UAllowed(n.books.accts, n.flags, q.tx, false)
    then (UStep(n, q.tx), Promoted(l1, q, IsMulti(n, p.tx)))
    else (n, l1.(queued := Drop(l1.queued, p.Id())))
  }

  ghost function AllTried(n: Node, l: Lists, ps: seq<Pooled>, e: Settings): (Node, Lists) {
    if ps == [] then (n, l)
    else
      var pre := AllTried(n, l, ps[..|ps| - 1], e);
      Tried(pre.0, pre.1, ps[|ps| - 1], e)
  }

  // ---------- unfolding ----------

  lemma Next<T>(ps: seq<T>, i: nat)
    requires i < |ps|
    ensures ps[..i + 1] == ps[..i] + [ps[i]] && ps[..i + 1] != [] && ps[..i + 1][..i] == ps[..i]
  {
  }

  lemma AllTakenNext(n: Node, l: Lists, ps: seq<Pooled>, i: nat, now: int, e: Settings)
    requires i < |ps| && AllTaken(n, l, ps[..i], now, e).1
    ensures var l1 := AllTaken(n, l, ps[..i], now, e).0;
            var r := Taken(n, l1, ps[i], now, e);
            AllTaken(n, l, ps[..i + 1], now, e) == (OrElse(r, l1), r.Some?)
  {
    hide Taken;
    Next(ps, i);
  }

  /** Once one is refused nothing more is taken. */
  lemma {:induction false} AllTakenStops(n: Node, l: Lists, ps: seq<Pooled>, i: nat, now: int, e: Settings)
    requires i <= |ps| && !AllTaken(n, l, ps[..i], now, e).1
    ensures AllTaken(n, l, ps, now, e) == AllTaken(n, l, ps[..i], now, e)
    decreases |ps|
  {
    hide Taken;
    if i < |ps| {
      assert ps[..|ps| - 1][..i] == ps[..i];
      AllTakenStops(n, l, ps[..|ps| - 1], i, now, e);
    } else {
      assert ps[..i] == ps;
    }
  }

  lemma AllUnbundledNext(n: Node, l: Lists, ps: seq<Pooled>, i: nat, now: int, e: Settings)
    requires i < |ps|
    ensures AllUnbundled(n, l, ps[..i + 1], now, e) == Unbundled(n, AllUnbundled(n, l, ps[..i], now, e), ps[i], now, e)
  {
    hide Unbundled;
    Next(ps, i);
  }

  lemma RequeuedNext(n: Node, l: Lists, ps: seq<Pooled>, i: nat, now: int, e: Settings)
    requires i < |ps|
    ensures var l1 := Removed(Requeued(n, l, ps[..i], now, e), ps[i].Id());
            Requeued(n, l, ps[..i + 1], now, e) == OrElse(Taken(n, l1, ps[i], now, e), l1)
  {
    hide Taken, Removed;
    Next(ps, i);
  }

  lemma ExpiredNext(n: Node, l: Lists, ps: seq<Pooled>, i: nat, now: int)
    requires i < |ps|
    ensures var l1 := Expired(l, ps[..i], now);
            Expired(l, ps[..i + 1], now) == if IsExpired(ps[i], now) then Removed(l1, ps[i].Id()) else l1
    ensures var n1 := UndoneExpired(n, ps[..i], now);
            UndoneExpired(n, ps[..i + 1], now) == if IsExpired(ps[i], now) then UndoneOne(n1, ps[i].tx) else n1
  {
    hide Removed, UndoneOne, IsExpired;
    Next(ps, i);
  }

  lemma TakenUnconfirmed(n: Node, l: Lists, p: Pooled, now: int, e: Settings)
    ensures OrElse(Taken(n, l, p, now, e), l).unconfirmed == l.unconfirmed
  {
    hide Passes, IsMulti, GroupAccount, Enqueue;
  }

  lemma {:induction false} AllTakenUnconfirmed(n: Node, l: Lists, ps: seq<Pooled>, now: int, e: Settings)
    ensures AllTaken(n, l, ps, now, e).0.unconfirmed == l.unconfirmed
  {
    hide Taken;
    if ps != [] {
      AllTakenUnconfirmed(n, l, ps[..|ps| - 1], now, e);
      TakenUnconfirmed(n, AllTaken(n, l, ps[..|ps| - 1], now, e).0, ps[|ps| - 1], now, e);
    }
  }

  /** No entry of the list expires with this id. */
  ghost predicate Spared(ps: seq<Pooled>, id: string, now: int) {
    forall p :: p in ps && IsExpired(p, now) ==> p.Id() != id
  }

  /** What the expiry of a list leaves: the entries of all three lists whose id does not expire in it. */
  lemma {:induction false} ExpiredIs(l: Lists, ps: seq<Pooled>, now: int)
    ensures var r := Expired(l, ps, now);
            && (forall p :: p in r.unconfirmed <==> p in l.unconfirmed && Spared(ps, p.Id(), now))
            && (forall p :: p in r.queued <==> p in l.queued && Spared(ps, p.Id(), now))
            && (forall p :: p in r.multisignature <==> p in l.multisignature && Spared(ps, p.Id(), now))
  {
    hide Drop, IsExpired;
    if ps != [] {
      var before, last := ps[..|ps| - 1], ps[|ps| - 1];
      var pre := Expired(l, before, now);
      ExpiredIs(l, before, now);
      DropSublist(pre.unconfirmed, last.Id());
      DropSublist(pre.queued, last.Id());
      DropSublist(pre.multisignature, last.Id());
      forall id: string
        ensures Spared(ps, id, now) <==> Spared(before, id, now) && (IsExpired(last, now) ==> last.Id() != id)
      {
        assert ps == before + [last];
      }
    }
  }

  lemma ProcessedIs(n: Node, l: Lists, p: Pooled)
    ensures var q := Processed(n, l, p);
            && q == Received(p, p.Id() !in Ids(l.unconfirmed) && GroupAccount(n, p.tx), p.receivedAt)
            && q.Id() == p.Id() && q.tx.From() == p.tx.From() && (IsMulti(n, q.tx) <==> IsMulti(n, p.tx))
  {
    hide Ids;
  }

  lemma RenewedUnconfirmed(l: Lists, p: Pooled, q: Pooled)
    ensures Renewed(l, p, q).unconfirmed == l.unconfirmed && Renewed(l, p, q).bundled == l.bundled
  {
    hide Renew;
  }

  lemma TriedIs(n: Node, l: Lists, p: Pooled, e: Settings)
    ensures var q := Processed(n, l, p);
            var l1 := Renewed(l, p, q);
            && Tried(n, l, p, e) ==
               (if Passes(n, l, p, e) && UAllowed(n.books.accts, n.flags, q.tx, false)
                then (UStep(n, q.tx), Promoted(l1, q, IsMulti(n, p.tx)))
                else (n, l1.(queued := Drop(l1.queued, p.Id()))))
            && (Passes(n, l, p, e) ==> p.Id() !in Ids(l.unconfirmed) && Verified(n.books.accts, e.genesisKey, p.tx))
  {
    hide Processed, Renewed, UAllowed, UStep, Promoted, Drop, Verified;
  }

  lemma AllTriedNext(n: Node, l: Lists, ps: seq<Pooled>, i: nat, e: Settings)
    requires i < |ps|
    ensures var pre := AllTried(n, l, ps[..i], e);
            AllTried(n, l, ps[..i + 1], e) == Tried(pre.0, pre.1, ps[i], e)
  {
    hide Tried;
    Next(ps, i);
  }

  /** Whether a transaction is taken in depends on confirmed accounts only. */
  lemma TakenByConf(n: Node, m: Node, l: Lists, p: Pooled, now: int, e: Settings)
    requires n.books.accts.conf == m.books.accts.conf
    ensures Taken(n, l, p, now, e) == Taken(m, l, p, now, e)
  {
    assert Verified(n.books.accts, e.genesisKey, p.tx) <==> Verified(m.books.accts, e.genesisKey, p.tx) by {
      hide *;
      VerifiedByConf(n.books.accts, m.books.accts, e.genesisKey, p.tx);
    }
    hide Verified, Queued, Lists.Has;
  }

  lemma VerifiedByConf(s: Accts, s': Accts, genesisKey: PublicKey, tx: Transaction)
    requires s.conf == s'.conf
    ensures Verified(s, genesisKey, tx) <==> Verified(s', genesisKey, tx)
  {
  }
}
