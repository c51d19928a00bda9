/**
  What a running node does, receipt by receipt and job by job, is made of the moves of SystemRuns, so what
  holds over every sequence of moves holds of the node.
 */
module SystemActions {
  import opened Base
  import opened Diff
  import opened Accounts
  import opened Tally
  import opened Payouts
  import opened Ledger
  import opened Invariants
  import opened PopBlocks
  import opened Landing
  import opened History
  import opened RunAccounts
  import opened Conservation
  import opened PoolQueues
  import opened PoolLists
  import opened PoolBalances
  import opened PoolSteps
  import opened PoolObjects
  import opened PoolUndoing
  import opened PoolPops
  import opened ForkChoice
  import opened ChainSteps
  import opened SystemRuns
  import LastIds
  import opened ConfirmedRuns

  /** onReceiveBlock, processBlock of a forged block, receiveTransactions, processBundled, fillPool,
      expireTransactions, validateOwnChain, and recoverChain. */
  datatype Action =
    | Receive(block: Block, height: int)
    | Forge(made: Block)
    | Take(taken: seq<Pooled>)
    | Unbundle(limit: nat)
    | Fill
    | Expire
    | Repair(valid: (Block, Block) -> bool)
    | Recover

  ghost function Acted(s: Chained, a: Action, e: Circumstances): Chained
    requires e.rewards.Valid() && |s.node.blocks| > 0
  {
    var l := s.pool;
    match a
    case Receive(b, h) => Receiving(s, b, h, e).0
    case Forge(b) => Processing(s, b, e).0
    case Take(ps) => s.(pool := AllTaken(s.node, l, ps, e.now, e.settings).0)
    case Unbundle(limit) => s.(pool := AllUnbundled(s.node, l, Listed(l.bundled, true, limit), e.now, e.settings))
    case Fill =>
      var r := AllTried(s.node, l, Chosen(l).0 + Chosen(l).1, e.settings);
      s.(node := r.0, pool := r.1)
    case Expire =>
      s.(node := UndoneExpired(s.node, Listed(l.unconfirmed, true, 0), e.now), pool := AllExpired(l, e.now))
    case Repair(valid) => if |s.node.blocks| >= 2 then OwnChain(s, valid, e).0 else s
    case Recover => Deleting(s, e).0
  }

  // ---------- their moves ----------

  function With(ms: seq<Move>, e: Circumstances): (r: seq<(Move, Circumstances)>)
    ensures |r| == |ms| && forall i :: 0 <= i < |r| ==> r[i] == (ms[i], e)
  {
    seq(|ms|, i requires 0 <= i < |ms| => (ms[i], e))
  }

  ghost function ReceiptMoves(s: Chained, b: Block, height: int, e: Circumstances): seq<Move>
    requires e.rewards.Valid() && |s.node.blocks| > 0
  {
    var chain := s.node.blocks;
    var d := Deleting(s, e);
    if b.previousBlock == Head(chain).id && |chain| + 1 == height then [Process(b)]
    else if !(ForkOne(chain, b, height) || ForkFive(chain, b, height))
         || !Contends(s.node, s.lastIds, b, if ForkOne(chain, b, height) then |chain| + 1 else |chain|, e) then []
    else if !d.1 || |d.0.node.blocks| == 0 then [Delete]
    else if ForkOne(chain, b, height) then [Delete, Delete]
    else [Delete, Process(b)]
  }

  function Tries(ps: seq<Pooled>): (r: seq<Move>)
    ensures |r| == |ps| && forall i :: 0 <= i < |r| ==> r[i] == Try(ps[i])
  {
    seq(|ps|, i requires 0 <= i < |ps| => Try(ps[i]))
  }

  function Discards(ps: seq<Pooled>, now: int): seq<Move> {
    if ps == [] then []
    else Discards(ps[..|ps| - 1], now) + if IsExpired(ps[|ps| - 1], now) then [Discard(ps[|ps| - 1])] else []
  }

  function Forgets(ps: seq<Pooled>, now: int): seq<Move> {
    if ps == [] then []
    else Forgets(ps[..|ps| - 1], now) + if IsExpired(ps[|ps| - 1], now) then [Forget(ps[|ps| - 1].Id())] else []
  }

  ghost function ExpiryMoves(l: Lists, now: int): seq<Move> {
    var l1 := Expired(l, Listed(l.unconfirmed, true, 0), now);
    var l2 := Expired(l1, Listed(l1.queued, true, 0), now);
    Discards(Listed(l.unconfirmed, true, 0), now) + Forgets(Listed(l1.queued, true, 0), now) +
    Forgets(Listed(l2.multisignature, true, 0), now)
  }

  ghost function RepairMoves(s: Chained, valid: (Block, Block) -> bool, e: Circumstances): seq<Move>
    requires |s.node.blocks| > 0
    decreases |s.node.blocks|
  {
    var bs := s.node.blocks;
    if |bs| < 2 || valid(bs[|bs| - 1], bs[|bs| - 2]) then []
    else
      var d := Deleting(s, e);
      if d.1 && 0 < |d.0.node.blocks| < |bs| then [Delete] + RepairMoves(d.0, valid, e) else [Delete]
  }

  ghost function MovesOf(s: Chained, a: Action, e: Circumstances): seq<Move>
    requires e.rewards.Valid() && |s.node.blocks| > 0
  {
    match a
    case Receive(b, h) => ReceiptMoves(s, b, h, e)
    case Forge(b) => [Process(b)]
    case Take(ps) => [Waiting(AllTaken(s.node, s.pool, ps, e.now, e.settings).0)]
    case Unbundle(limit) =>
      [Waiting(AllUnbundled(s.node, s.pool, Listed(s.pool.bundled, true, limit), e.now, e.settings))]
    case Fill => Tries(Chosen(s.pool).0 + Chosen(s.pool).1)
    case Expire => ExpiryMoves(s.pool, e.now)
    case Recover => [Delete]
    case Repair(valid) =>
      var bs, low := s.node.blocks, LowestHeight(|s.node.blocks|);
      if |bs| < 2 || valid(bs[|bs| - 1], bs[|bs| - 2]) || !valid(bs[low - 1], bs[low - 2]) then []
      else RepairMoves(s, valid, e)
  }

  // ---------- each action is its moves ----------

  lemma NoMove(s: Chained, e: Circumstances)
    requires e.rewards.Valid() && |s.node.blocks| > 0
    ensures AfterMoves(s, With([], e)) == s
  {
  }

  lemma OneMove(s: Chained, m: Move, e: Circumstances)
    requires e.rewards.Valid() && |s.node.blocks| > 0
    ensures AfterMoves(s, With([m], e)) == AfterMove(s, m, e)
  {
    hide AfterMove;
    var ms := With([m], e);
    assert ms[..0] == [];
    assert AfterMoves(s, ms[..0]) == s;
  }

  lemma {:induction false} MovedConcat(s: Chained, ms: seq<(Move, Circumstances)>, ks: seq<(Move, Circumstances)>)
    requires |s.node.blocks| > 0 && forall i :: 0 <= i < |ms| ==> ms[i].1.rewards.Valid()
    requires forall i :: 0 <= i < |ks| ==> ks[i].1.rewards.Valid()
    ensures forall i :: 0 <= i < |ms + ks| ==> (ms + ks)[i].1.rewards.Valid()
    ensures AfterMoves(s, ms + ks) == AfterMoves(AfterMoves(s, ms), ks)
  {
    hide AfterMove;
    if ks == [] {
      assert ms + ks == ms;
    } else {
      MovedConcat(s, ms, ks[..|ks| - 1]);
      assert (ms + ks)[..|ms + ks| - 1] == ms + ks[..|ks| - 1];
    }
  }

  lemma TwoParts(s: Chained, ms: seq<Move>, ks: seq<Move>, e: Circumstances)
    requires e.rewards.Valid() && |s.node.blocks| > 0
    ensures AfterMoves(s, With(ms + ks, e)) == AfterMoves(AfterMoves(s, With(ms, e)), With(ks, e))
  {
    hide AfterMoves;
    assert With(ms + ks, e) == With(ms, e) + With(ks, e);
    MovedConcat(s, With(ms, e), With(ks, e));
  }

  lemma ReceiptIsMoves(s: Chained, b: Block, height: int, e: Circumstances)
    requires e.rewards.Valid() && |s.node.blocks| > 0
    ensures AfterMoves(s, With(ReceiptMoves(s, b, height, e), e)) == Receiving(s, b, height, e).0
  {
    hide Processing, Deleting, AfterMoves, With, Contends;
    var d := Deleting(s, e);
    NoMove(s, e);
    OneMove(s, Process(b), e);
    OneMove(s, Delete, e);
    if |d.0.node.blocks| > 0 {
      TwoParts(s, [Delete], [Delete], e);
      TwoParts(s, [Delete], [Process(b)], e);
      OneMove(d.0, Delete, e);
      OneMove(d.0, Process(b), e);
      assert [Delete] + [Delete] == [Delete, Delete];
      assert [Delete] + [Process(b)] == [Delete, Process(b)];
    }
  }

  lemma {:induction false} RepairIsMoves(s: Chained, valid: (Block, Block) -> bool, e: Circumstances)
    requires e.rewards.Valid() && |s.node.blocks| > 0
    ensures AfterMoves(s, With(RepairMoves(s, valid, e), e)) == Repairing(s, valid, e).0
    decreases |s.node.blocks|
  {
    hide Deleting, AfterMoves, With;
    var d := Deleting(s, e);
    NoMove(s, e);
    OneMove(s, Delete, e);
    var bs := s.node.blocks;
    if |bs| >= 2 && !valid(bs[|bs| - 1], bs[|bs| - 2]) && d.1 && 0 < |d.0.node.blocks| < |bs| {
      RepairIsMoves(d.0, valid, e);
      TwoParts(s, [Delete], RepairMoves(d.0, valid, e), e);
    }
  }

  lemma {:induction false} TriesAreMoves(s: Chained, ps: seq<Pooled>, e: Circumstances)
    requires e.rewards.Valid() && |s.node.blocks| > 0
    ensures var r := AllTried(s.node, s.pool, ps, e.settings);
            AfterMoves(s, With(Tries(ps), e)) == s.(node := r.0, pool := r.1)
  {
    hide Tried, AfterMoves, With;
    if ps == [] {
      NoMove(s, e);
    } else {
      var pre, p := ps[..|ps| - 1], ps[|ps| - 1];
      assert Tries(ps) == Tries(pre) + [Try(p)];
      TriesAreMoves(s, pre, e);
      TwoParts(s, Tries(pre), [Try(p)], e);
      OneMove(AfterMoves(s, With(Tries(pre), e)), Try(p), e);
    }
  }

  lemma NotBefore(ps: seq<Pooled>, p: Pooled, now: int)
    requires p.Id() !in Ids(ps)
    ensures Spared(ps, p.Id(), now)
  {
    hide IsExpired;
    forall r | r in ps && IsExpired(r, now) ensures r.Id() != p.Id() { IdIn(ps, r); }
  }

  lemma {:induction false} DiscardsAreMoves(s: Chained, ps: seq<Pooled>, e: Circumstances)
    requires e.rewards.Valid() && |s.node.blocks| > 0
    requires DistinctIds(ps) && forall p :: p in ps ==> p in s.pool.unconfirmed
    ensures AfterMoves(s, With(Discards(ps, e.now), e)) ==
            s.(node := UndoneExpired(s.node, ps, e.now), pool := Expired(s.pool, ps, e.now))
  {
    hide UndoneOne, AfterMoves, With, Removed, IsExpired, Ids, DistinctIds;
    if ps == [] {
      NoMove(s, e);
    } else {
      var pre, p := ps[..|ps| - 1], ps[|ps| - 1];
      assert pre + [p] == ps;
      IdsPush(pre, p);
      DiscardsAreMoves(s, pre, e);
      if IsExpired(p, e.now) {
        ExpiredIs(s.pool, pre, e.now);
        NotBefore(pre, p, e.now);
        TwoParts(s, Discards(pre, e.now), [Discard(p)], e);
        OneMove(AfterMoves(s, With(Discards(pre, e.now), e)), Discard(p), e);
      } else {
        assert Discards(pre, e.now) + [] == Discards(pre, e.now);
      }
    }
  }

  lemma {:induction false} ForgetsAreMoves(s: Chained, ps: seq<Pooled>, e: Circumstances)
    requires e.rewards.Valid() && |s.node.blocks| > 0
    ensures AfterMoves(s, With(Forgets(ps, e.now), e)) == s.(pool := Expired(s.pool, ps, e.now))
  {
    hide AfterMoves, With, Removed, IsExpired;
    if ps == [] {
      NoMove(s, e);
    } else {
      var pre, p := ps[..|ps| - 1], ps[|ps| - 1];
      ForgetsAreMoves(s, pre, e);
      if IsExpired(p, e.now) {
        TwoParts(s, Forgets(pre, e.now), [Forget(p.Id())], e);
        OneMove(AfterMoves(s, With(Forgets(pre, e.now), e)), Forget(p.Id()), e);
      } else {
        assert Forgets(pre, e.now) + [] == Forgets(pre, e.now);
      }
    }
  }

  lemma ExpiryIsMoves(s: Chained, e: Circumstances)
    requires e.rewards.Valid() && |s.node.blocks| > 0 && DistinctIds(s.pool.unconfirmed)
    ensures AfterMoves(s, With(ExpiryMoves(s.pool, e.now), e)) ==
            s.(node := UndoneExpired(s.node, Listed(s.pool.unconfirmed, true, 0), e.now),
               pool := AllExpired(s.pool, e.now))
  {
    hide AfterMoves, With, Expired, UndoneExpired, Discards, Forgets, Listed, DistinctIds;
    var l := s.pool;
    var ps := Listed(l.unconfirmed, true, 0);
    SameMembers(l.unconfirmed);
    DiscardsAreMoves(s, ps, e);
    ExpiredBlocks(s.node, ps, e.now);
    var s1 := s.(node := UndoneExpired(s.node, ps, e.now), pool := Expired(l, ps, e.now));
    var qs := Listed(s1.pool.queued, true, 0);
    ForgetsAreMoves(s1, qs, e);
    var s2 := s1.(pool := Expired(s1.pool, qs, e.now));
    var rs := Listed(s2.pool.multisignature, true, 0);
    ForgetsAreMoves(s2, rs, e);
    TwoParts(s, Discards(ps, e.now), Forgets(qs, e.now), e);
    TwoParts(s, Discards(ps, e.now) + Forgets(qs, e.now), Forgets(rs, e.now), e);
  }

  lemma {:induction false} ExpiredBlocks(n: Node, ps: seq<Pooled>, now: int)
    ensures UndoneExpired(n, ps, now).blocks == n.blocks
  {
    hide UndoneOne, IsExpired;
    if ps != [] {
      ExpiredBlocks(n, ps[..|ps| - 1], now);
      UndoneOneConf(UndoneExpired(n, ps[..|ps| - 1], now), ps[|ps| - 1].tx);
    }
  }

  lemma WaitingIsMove(s: Chained, l: Lists, e: Circumstances)
    requires e.rewards.Valid() && |s.node.blocks| > 0 && l.unconfirmed == s.pool.unconfirmed
    ensures AfterMoves(s, With([Waiting(l)], e)) == s.(pool := l)
  {
    hide AfterMoves, With;
    OneMove(s, Waiting(l), e);
  }

  lemma {:induction false} UnbundledUnconfirmed(n: Node, l: Lists, ps: seq<Pooled>, now: int, e: Settings)
    ensures AllUnbundled(n, l, ps, now, e).unconfirmed == l.unconfirmed
  {
    hide Passes, IsMulti, GroupAccount, Enqueue, Drop;
    if ps != [] { UnbundledUnconfirmed(n, l, ps[..|ps| - 1], now, e); }
  }

  lemma ActionIsMoves(s: Chained, a: Action, e: Circumstances)
    requires e.rewards.Valid() && |s.node.blocks| > 0 && DistinctIds(s.pool.unconfirmed)
    ensures AfterMoves(s, With(MovesOf(s, a, e), e)) == Acted(s, a, e)
  {
    hide AfterMoves, With, Receiving, ReceiptMoves, Processing, AllTaken, AllUnbundled, AllTried, Chosen, Tries,
         Expired, UndoneExpired, AllExpired, ExpiryMoves, Repairing, RepairMoves, Deleting, DistinctIds, Listed;
    match a
    case Receive(b, h) => ReceiptIsMoves(s, b, h, e);
    case Forge(b) => OneMove(s, Process(b), e);
    case Take(ps) =>
      AllTakenUnconfirmed(s.node, s.pool, ps, e.now, e.settings);
      WaitingIsMove(s, AllTaken(s.node, s.pool, ps, e.now, e.settings).0, e);
    case Unbundle(limit) =>
      var ps := Listed(s.pool.bundled, true, limit);
      UnbundledUnconfirmed(s.node, s.pool, ps, e.now, e.settings);
      WaitingIsMove(s, AllUnbundled(s.node, s.pool, ps, e.now, e.settings), e);
    case Fill => TriesAreMoves(s, Chosen(s.pool).0 + Chosen(s.pool).1, e);
    case Expire => ExpiryIsMoves(s, e);
    case Recover => OneMove(s, Delete, e);
    case Repair(valid) =>
      NoMove(s, e);
      RepairIsMoves(s, valid, e);
  }

  // ---------- whole runs of a node ----------

  ghost function ActedAll(s: Chained, acts: seq<(Action, Circumstances)>): (r: Chained)
    requires |s.node.blocks| > 0 && forall i :: 0 <= i < |acts| ==> acts[i].1.rewards.Valid()
    ensures |r.node.blocks| > 0
  {
    if acts == [] then s
    else
      var pre := ActedAll(s, acts[..|acts| - 1]);
      var r := Acted(pre, acts[|acts| - 1].0, acts[|acts| - 1].1);
      if |r.node.blocks| > 0 then r else pre
  }

  ghost function AllMoves(s: Chained, acts: seq<(Action, Circumstances)>): (ms: seq<(Move, Circumstances)>)
    requires |s.node.blocks| > 0 && forall i :: 0 <= i < |acts| ==> acts[i].1.rewards.Valid()
    ensures forall i :: 0 <= i < |ms| ==> ms[i].1.rewards.Valid()
  {
    if acts == [] then []
    else
      var pre, a, e := acts[..|acts| - 1], acts[|acts| - 1].0, acts[|acts| - 1].1;
      AllMoves(s, pre) + With(MovesOf(ActedAll(s, pre), a, e), e)
  }

  /** The node after a run of actions is the node after their moves. */
  lemma {:induction false} ActionsAreMoves(s0: Chained, acts: seq<(Action, Circumstances)>)
    requires |s0.node.blocks| > 0 && Starts(s0) && forall i :: 0 <= i < |acts| ==> acts[i].1.rewards.Valid()
    ensures AfterMoves(s0, AllMoves(s0, acts)) == ActedAll(s0, acts)
  {
    hide AfterMoves, Starts, Acted, MovesOf, With;
    if acts == [] {
      NoMoves(s0);
    } else {
      var pre, a, e := acts[..|acts| - 1], acts[|acts| - 1].0, acts[|acts| - 1].1;
      ActionsAreMoves(s0, pre);
      DistinctAlways(s0, AllMoves(s0, pre));
      ActionIsMoves(ActedAll(s0, pre), a, e);
      MovedConcat(s0, AllMoves(s0, pre), With(MovesOf(ActedAll(s0, pre), a, e), e));
    }
  }

  lemma NoMoves(s: Chained)
    requires |s.node.blocks| > 0
    ensures AfterMoves(s, []) == s && Lost(s, []) == []
  {
  }

  lemma DistinctAlways(s0: Chained, ms: seq<(Move, Circumstances)>)
    requires |s0.node.blocks| > 0 && Starts(s0) && forall i :: 0 <= i < |ms| ==> ms[i].1.rewards.Valid()
    ensures DistinctIds(AfterMoves(s0, ms).pool.unconfirmed)
  {
    hide Starts, AfterMoves, Lost, AccountedAt, DistinctIds, Costly;
    AlwaysAccounted(s0, ms);
  }

  // ---------- when balances stay in step ----------

  lemma {:induction false} LostConcat(s: Chained, ms: seq<(Move, Circumstances)>, ks: seq<(Move, Circumstances)>)
    requires |s.node.blocks| > 0 && forall i :: 0 <= i < |ms| ==> ms[i].1.rewards.Valid()
    requires forall i :: 0 <= i < |ks| ==> ks[i].1.rewards.Valid()
    ensures forall i :: 0 <= i < |ms + ks| ==> (ms + ks)[i].1.rewards.Valid()
    ensures Lost(s, ms + ks) == Lost(s, ms) + Lost(AfterMoves(s, ms), ks)
  {
    hide AfterMove, LostBy, AfterMoves;
    if ks == [] {
      assert ms + ks == ms;
    } else {
      LostConcat(s, ms, ks[..|ks| - 1]);
      MovedConcat(s, ms, ks[..|ks| - 1]);
      assert (ms + ks)[..|ms + ks| - 1] == ms + ks[..|ks| - 1];
    }
  }

  lemma {:induction false} OnlyForgetsLose(s: Chained, ms: seq<Move>, e: Circumstances)
    requires e.rewards.Valid() && |s.node.blocks| > 0 && forall i :: 0 <= i < |ms| ==> !ms[i].Forget?
    ensures Lost(s, With(ms, e)) == []
  {
    hide AfterMoves;
    if ms != [] {
      assert With(ms, e)[..|ms| - 1] == With(ms[..|ms| - 1], e);
      OnlyForgetsLose(s, ms[..|ms| - 1], e);
    }
  }

  lemma {:induction false} RepairForgetsNothing(s: Chained, valid: (Block, Block) -> bool, e: Circumstances)
    requires |s.node.blocks| > 0
    ensures forall i :: 0 <= i < |RepairMoves(s, valid, e)| ==> RepairMoves(s, valid, e)[i] == Delete
    decreases |s.node.blocks|
  {
    hide Deleting;
    var d := Deleting(s, e);
    if d.1 && 0 < |d.0.node.blocks| < |s.node.blocks| { RepairForgetsNothing(d.0, valid, e); }
  }

  lemma {:induction false} DiscardsForgetNothing(ps: seq<Pooled>, now: int)
    ensures forall i :: 0 <= i < |Discards(ps, now)| ==> !Discards(ps, now)[i].Forget?
  {
    hide IsExpired;
    if ps != [] { DiscardsForgetNothing(ps[..|ps| - 1], now); }
  }

  /** What the expiry of a waiting list loses: something if and only if an id that expires is unconfirmed. */
  lemma {:induction false} ForgetsLose(s: Chained, ps: seq<Pooled>, e: Circumstances)
    requires e.rewards.Valid() && |s.node.blocks| > 0
    ensures Lost(s, With(Forgets(ps, e.now), e)) == [] <==>
            forall p :: p in ps && IsExpired(p, e.now) ==> p.Id() !in Ids(s.pool.unconfirmed)
    ensures Lost(s, With(Forgets(ps, e.now), e)) == [] ==>
              AfterMoves(s, With(Forgets(ps, e.now), e)).pool.unconfirmed == s.pool.unconfirmed
  {
    hide AfterMoves, With, IsExpired, Ids, Lost, Picked;
    if ps == [] {
      NoMoves(s);
    } else {
      var pre, p := ps[..|ps| - 1], ps[|ps| - 1];
      assert ps == pre + [p];
      ForgetsLose(s, pre, e);
      if IsExpired(p, e.now) {
        var t := AfterMoves(s, With(Forgets(pre, e.now), e));
        OneForgetLoses(t, p.Id(), e);
        assert With(Forgets(ps, e.now), e) == With(Forgets(pre, e.now), e) + With([Forget(p.Id())], e);
        LostConcat(s, With(Forgets(pre, e.now), e), With([Forget(p.Id())], e));
        MovedConcat(s, With(Forgets(pre, e.now), e), With([Forget(p.Id())], e));
      } else {
        assert Forgets(ps, e.now) == Forgets(pre, e.now);
      }
    }
  }

  lemma OneForgetLoses(t: Chained, id: string, e: Circumstances)
    requires e.rewards.Valid() && |t.node.blocks| > 0
    ensures Lost(t, With([Forget(id)], e)) == [] <==> id !in Ids(t.pool.unconfirmed)
    ensures id !in Ids(t.pool.unconfirmed) ==>
              AfterMoves(t, With([Forget(id)], e)).pool.unconfirmed == t.pool.unconfirmed
  {
    hide Ids, Picked, Drop, AfterMoves, With;
    OneMove(t, Forget(id), e);
    PickedNone(t.pool.unconfirmed, id);
    DropAbsent(t.pool.unconfirmed, id);
    LostOne(t, Forget(id), e);
  }

  lemma LostOne(t: Chained, m: Move, e: Circumstances)
    requires e.rewards.Valid() && |t.node.blocks| > 0
    ensures Lost(t, With([m], e)) == LostBy(t, m)
  {
    hide LostBy;
    var ms := With([m], e);
    assert ms[..0] == [];
    NoMoves(t);
    assert [] + LostBy(t, m) == LostBy(t, m);
  }

  /** The expiry job loses nothing from the unconfirmed list if and only if no waiting transaction expires while
      one with its id stays unconfirmed. */
  lemma ExpiryLosesIff(s: Chained, e: Circumstances)
    requires e.rewards.Valid() && |s.node.blocks| > 0 && DistinctIds(s.pool.unconfirmed)
    ensures Lost(s, With(ExpiryMoves(s.pool, e.now), e)) == [] <==> NoStray(s.pool, e.now)
  {
    hide AfterMoves, With, Expired, UndoneExpired, Discards, Forgets, Listed, DistinctIds, IsExpired, Ids, Lost,
         NoStray, Spared;
    var l, now := s.pool, e.now;
    var ps := Listed(l.unconfirmed, true, 0);
    SameMembers(l.unconfirmed);
    DiscardsAreMoves(s, ps, e);
    DiscardsForgetNothing(ps, now);
    OnlyForgetsLose(s, Discards(ps, now), e);
    ExpiredBlocks(s.node, ps, now);
    var s1 := s.(node := UndoneExpired(s.node, ps, now), pool := Expired(l, ps, now));
    var qs := Listed(s1.pool.queued, true, 0);
    ForgetsAreMoves(s1, qs, e);
    ForgetsLose(s1, qs, e);
    var s2 := s1.(pool := Expired(s1.pool, qs, now));
    var rs := Listed(s2.pool.multisignature, true, 0);
    ForgetsLose(s2, rs, e);
    LostTwice(s, Discards(ps, now), Forgets(qs, now), e);
    LostTwice(s, Discards(ps, now) + Forgets(qs, now), Forgets(rs, now), e);
    TwoParts(s, Discards(ps, now), Forgets(qs, now), e);
    ListedMembers(s1.pool.queued);
    ListedMembers(s2.pool.multisignature);
    StrayIff(l, ps, qs, rs, now);
  }

  lemma LostTwice(s: Chained, ms: seq<Move>, ks: seq<Move>, e: Circumstances)
    requires e.rewards.Valid() && |s.node.blocks| > 0
    ensures Lost(s, With(ms + ks, e)) == Lost(s, With(ms, e)) + Lost(AfterMoves(s, With(ms, e)), With(ks, e))
  {
    hide AfterMoves, Lost;
    assert With(ms + ks, e) == With(ms, e) + With(ks, e);
    LostConcat(s, With(ms, e), With(ks, e));
  }

  lemma ListedMembers(ps: seq<Pooled>)
    ensures forall p :: p in Listed(ps, true, 0) <==> p in ps
  {
    var r := Listed(ps, true, 0);
    forall p | p in ps ensures p in r {
      var i :| 0 <= i < |ps| && ps[i] == p;
      assert r[|ps| - 1 - i] == p;
    }
  }

  /** The three passes of the expiry, seen from the lists before it. */
  lemma StrayIff(l: Lists, ps: seq<Pooled>, qs: seq<Pooled>, rs: seq<Pooled>, now: int)
    requires DistinctIds(l.unconfirmed) && forall p :: p in ps <==> p in l.unconfirmed
    requires var l1 := Expired(l, ps, now);
             && (forall p :: p in qs <==> p in l1.queued)
             && (forall p :: p in rs <==> p in Expired(l1, qs, now).multisignature)
    ensures var us := Expired(l, ps, now).unconfirmed;
            NoStray(l, now) <==>
            && (forall p :: p in qs && IsExpired(p, now) ==> p.Id() !in Ids(us))
            && (forall p :: p in rs && IsExpired(p, now) ==> p.Id() !in Ids(us))
  {
    hide Expired, IsExpired, Ids;
    var l1 := Expired(l, ps, now);
    var us := l1.unconfirmed;
    ExpiredIs(l, ps, now);
    ExpiredIs(l1, qs, now);
    forall id: string ensures id in Ids(us) <==> exists q :: q in l.unconfirmed && q.Id() == id && !IsExpired(q, now) {
      LeftIff(l, ps, us, id, now);
    }
    if NoStray(l, now) {
      forall p | (p in qs || p in rs) && IsExpired(p, now) ensures p.Id() !in Ids(us) { }
    } else {
      var p, q :| (p in l.queued || p in l.multisignature) && IsExpired(p, now) && q in l.unconfirmed
          && q.Id() == p.Id()
                  && !IsExpired(q, now);
      assert p.Id() in Ids(us);
      OneOfEach(l.unconfirmed, ps, q, now);
      assert Spared(ps, p.Id(), now);
      if p in l.queued {
        assert p in qs;
      } else if !Spared(qs, p.Id(), now) {
        var r :| r in qs && IsExpired(r, now) && r.Id() == p.Id();
      } else {
        assert p in rs;
      }
    }
  }

  lemma OneOfEach(us: seq<Pooled>, ps: seq<Pooled>, q: Pooled, now: int)
    requires DistinctIds(us) && q in us && !IsExpired(q, now) && forall p :: p in ps <==> p in us
    ensures Spared(ps, q.Id(), now)
  {
    hide IsExpired;
    forall r | r in ps && IsExpired(r, now) ensures r.Id() != q.Id() {
      var i :| 0 <= i < |us| && us[i] == r;
      var j :| 0 <= j < |us| && us[j] == q;
    }
  }

  lemma LeftIff(l: Lists, ps: seq<Pooled>, us: seq<Pooled>, id: string, now: int)
    requires DistinctIds(l.unconfirmed) && forall p :: p in ps <==> p in l.unconfirmed
    requires forall p :: p in us <==> p in l.unconfirmed && Spared(ps, p.Id(), now)
    ensures id in Ids(us) <==> exists q :: q in l.unconfirmed && q.Id() == id && !IsExpired(q, now)
  {
    hide IsExpired, DistinctIds;
    if id in Ids(us) {
      var i :| 0 <= i < |us| && us[i].Id() == id;
      assert us[i] in us;
    }
    if q :| q in l.unconfirmed && q.Id() == id && !IsExpired(q, now) {
      OneOfEach(l.unconfirmed, ps, q, now);
      IdIn(us, q);
    }
  }

  lemma ActionLosesIff(s: Chained, a: Action, e: Circumstances)
    requires e.rewards.Valid() && |s.node.blocks| > 0 && DistinctIds(s.pool.unconfirmed)
    ensures Lost(s, With(MovesOf(s, a, e), e)) == [] <==> (a.Expire? ==> NoStray(s.pool, e.now))
  {
    hide Lost, With, ExpiryMoves, NoStray, RepairMoves, Deleting, Contends, AllTaken, AllUnbundled, Chosen, DistinctIds;
    if a.Expire? {
      ExpiryLosesIff(s, e);
    } else {
      match a {
        case Repair(valid) => RepairForgetsNothing(s, valid, e);
        case _ =>
      }
      OnlyForgetsLose(s, MovesOf(s, a, e), e);
    }
  }

  // ---------- the lists share their objects ----------

  lemma {:induction false} AllRemovedOne(l: Lists, txs: seq<Transaction>)
    requires OneObject(l)
    ensures OneObject(AllRemoved(l, txs))
  {
    hide OneObject, Removed;
    if txs != [] {
      AllRemovedOne(l, txs[..|txs| - 1]);
      RemovedOne(AllRemoved(l, txs[..|txs| - 1]), txs[|txs| - 1].id);
    }
  }

  lemma ProcessingOne(s: Chained, b: Block, e: Circumstances)
    requires e.rewards.Valid() && |s.node.blocks| > 0 && OneObject(s.pool)
    ensures OneObject(Processing(s, b, e).0.pool)
  {
    hide OneObject, ApplyBlock, UndoneList, BlockPasses, Requeued, AllRemoved, LastIds.PushId;
    RequeuedOne(s.node, s.pool, s.pool.unconfirmed, e.now, e.settings);
    AllRemovedOne(Requeued(s.node, s.pool, s.pool.unconfirmed, e.now, e.settings), b.transactions);
  }

  lemma DeletingOne(s: Chained, e: Circumstances)
    requires |s.node.blocks| > 0 && OneObject(s.pool)
    ensures OneObject(Deleting(s, e).0.pool)
  {
    hide OneObject, PopBlock, AllTaken, Offered;
    AllTakenOne(PopBlock(s.node).node, s.pool, Offered(Head(s.node.blocks).transactions, e.now), e.now, e.settings);
  }

  lemma ReceivingOne(s: Chained, b: Block, height: int, e: Circumstances)
    requires e.rewards.Valid() && |s.node.blocks| > 0 && OneObject(s.pool)
    ensures OneObject(Receiving(s, b, height, e).0.pool)
  {
    hide OneObject, Processing, Deleting, Contends;
    ProcessingOne(s, b, e);
    DeletingOne(s, e);
    var d := Deleting(s, e).0;
    if |d.node.blocks| > 0 {
      ProcessingOne(d, b, e);
      DeletingOne(d, e);
    }
  }

  lemma {:induction false} RepairingOne(s: Chained, valid: (Block, Block) -> bool, e: Circumstances)
    requires |s.node.blocks| > 0 && OneObject(s.pool)
    ensures OneObject(Repairing(s, valid, e).0.pool)
    decreases |s.node.blocks|
  {
    hide OneObject, Deleting;
    DeletingOne(s, e);
    var d := Deleting(s, e);
    if d.1 && 0 < |d.0.node.blocks| < |s.node.blocks| { RepairingOne(d.0, valid, e); }
  }

  lemma ActionOne(s: Chained, a: Action, e: Circumstances)
    requires e.rewards.Valid() && |s.node.blocks| > 0 && OneObject(s.pool)
    ensures OneObject(Acted(s, a, e).pool)
  {
    hide OneObject, Receiving, Processing, Deleting, Repairing, AllTaken, AllUnbundled, AllTried, AllExpired, Chosen,
         Listed, UndoneExpired, LowestHeight;
    match a
    case Receive(b, h) => ReceivingOne(s, b, h, e);
    case Forge(b) => ProcessingOne(s, b, e);
    case Take(ps) => AllTakenOne(s.node, s.pool, ps, e.now, e.settings);
    case Unbundle(limit) => BundleOne(s.node, s.pool, limit, e.now, e.settings);
    case Fill => FillOne(s.node, s.pool, e.settings);
    case Expire => AllExpiredOne(s.pool, e.now);
    case Repair(valid) => RepairingOne(s, valid, e);
    case Recover => DeletingOne(s, e);
  }

  /** Over every run of actions: each id of the pool is one object, bundled alone, waiting in one list only, and a
      waiting entry with the id of an unconfirmed one is that one. */
  lemma {:induction false} AlwaysOneObject(s0: Chained, acts: seq<(Action, Circumstances)>)
    requires |s0.node.blocks| > 0 && OneObject(s0.pool) && forall i :: 0 <= i < |acts| ==> acts[i].1.rewards.Valid()
    ensures OneObject(ActedAll(s0, acts).pool)
  {
    hide OneObject, Acted;
    if acts != [] {
      AlwaysOneObject(s0, acts[..|acts| - 1]);
      ActionOne(ActedAll(s0, acts[..|acts| - 1]), acts[|acts| - 1].0, acts[|acts| - 1].1);
    }
  }

  /** An empty pool has it. */
  lemma EmptyPoolOne()
    ensures OneObject(Lists([], [], [], []))
  {
    NoIds();
  }

  /** So nothing ever leaves the unconfirmed list unundone. */
  lemma {:induction false} NothingLost(s0: Chained, acts: seq<(Action, Circumstances)>)
    requires |s0.node.blocks| > 0 && Starts(s0) && OneObject(s0.pool)
    requires forall i :: 0 <= i < |acts| ==> acts[i].1.rewards.Valid()
    ensures Lost(s0, AllMoves(s0, acts)) == []
  {
    hide AfterMoves, Starts, Acted, MovesOf, With, NoStray, OneObject, Lost, DistinctIds, ActedAll;
    if acts == [] {
      NoMoves(s0);
    } else {
      var pre, a, e := acts[..|acts| - 1], acts[|acts| - 1].0, acts[|acts| - 1].1;
      NothingLost(s0, pre);
      ActionsAreMoves(s0, pre);
      DistinctAlways(s0, AllMoves(s0, pre));
      LostConcat(s0, AllMoves(s0, pre), With(MovesOf(ActedAll(s0, pre), a, e), e));
      AlwaysOneObject(s0, pre);
      OneObjectStrays(ActedAll(s0, pre).pool, e.now);
      ActionLosesIff(ActedAll(s0, pre), a, e);
    }
  }

  /** After any run of receipts, forging, pool jobs, repairs and recoveries: every unconfirmed balance is its confirmed
      balance less what the account's unconfirmed transactions cost. */
  lemma NodeInStep(s0: Chained, acts: seq<(Action, Circumstances)>)
    requires |s0.node.blocks| > 0 && Starts(s0) && OneObject(s0.pool)
    requires forall i :: 0 <= i < |acts| ==> acts[i].1.rewards.Valid()
    ensures var s := ActedAll(s0, acts);
            Mirrored(s.node.books.accts, s.pool.unconfirmed)
  {
    hide *;
    ActionsAreMoves(s0, acts);
    NothingLost(s0, acts);
    InStepIff(s0, AllMoves(s0, acts));
  }

  // ---------- what the ledger of a running node keeps ----------

  /** The actions happen on one network. */
  predicate OneNetwork(acts: seq<(Action, Circumstances)>, genesisKey: PublicKey) {
    forall i :: 0 <= i < |acts| ==> acts[i].1.rewards.Valid() && acts[i].1.settings.genesisKey == genesisKey
  }

  lemma {:induction false} MovesConfigured(s0: Chained, acts: seq<(Action, Circumstances)>, genesisKey: PublicKey)
    requires |s0.node.blocks| > 0 && OneNetwork(acts, genesisKey)
    ensures Configured(AllMoves(s0, acts), genesisKey)
  {
    hide MovesOf, ActedAll;
    if acts != [] { MovesConfigured(s0, acts[..|acts| - 1], genesisKey); }
  }

  /** The events of a run of actions. */
  ghost function EventsIn(s: Chained, acts: seq<(Action, Circumstances)>): seq<Event>
    requires |s.node.blocks| > 0 && forall i :: 0 <= i < |acts| ==> acts[i].1.rewards.Valid()
  {
    Events(s, AllMoves(s, acts))
  }

  /** No block of the run is deleted while it shares a vote with what is unconfirmed then. */
  ghost predicate NoVoteShared(s: Chained, acts: seq<(Action, Circumstances)>)
    requires |s.node.blocks| > 0 && forall i :: 0 <= i < |acts| ==> acts[i].1.rewards.Valid()
  {
    AllApart(s, AllMoves(s, acts))
  }

  lemma GentleIffApart(s0: Chained, acts: seq<(Action, Circumstances)>)
    requires |s0.node.blocks| > 0 && Starts(s0) && OneObject(s0.pool)
    requires forall i :: 0 <= i < |acts| ==> acts[i].1.rewards.Valid()
    ensures AllGentle(s0, AllMoves(s0, acts)) <==> NoVoteShared(s0, acts)
  {
    hide Starts, AllMoves, AllGentle, AllApart, Lost, OneObject;
    NothingLost(s0, acts);
    GentleIffKept(s0, AllMoves(s0, acts));
  }

  /** Exactly then every state of the run undoes to the node of a run of blocks alone, after each step of its
      actions. */
  lemma NodeIsRunIff(s0: Chained, acts: seq<(Action, Circumstances)>, genesisKey: PublicKey)
    requires |s0.node.blocks| > 0 && Starts(s0) && OneObject(s0.pool) && OneNetwork(acts, genesisKey)
    ensures forall i :: 0 <= i < |AllMoves(s0, acts)| ==> AllMoves(s0, acts)[i].1.rewards.Valid()
    ensures AllExact(s0, AllMoves(s0, acts), genesisKey) <==> NoVoteShared(s0, acts)
  {
    hide Starts, AllMoves, AllExact, AllGentle, NoVoteShared, OneObject, Configured;
    MovesConfigured(s0, acts, genesisKey);
    SystemIsRunIff(s0, AllMoves(s0, acts), genesisKey);
    GentleIffApart(s0, acts);
  }

  /** And then the unconfirmed list is pending above that node. */
  lemma NodeIsRun(s0: Chained, acts: seq<(Action, Circumstances)>, genesisKey: PublicKey)
    requires |s0.node.blocks| > 0 && Starts(s0) && OneObject(s0.pool) && OneNetwork(acts, genesisKey)
    requires NoVoteShared(s0, acts)
    ensures var s, m := ActedAll(s0, acts), Run(s0.node, genesisKey, EventsIn(s0, acts)).node;
            && Above(s.node, Txs(s.pool.unconfirmed), m)
            && UndoneList(s.node, s.pool.unconfirmed) == m
  {
    hide Starts, AllMoves, Events, AllGentle, NoVoteShared, AfterMoves, Above, Run, ActedAll, UndoneList, DistinctIds,
         Configured, OneObject;
    ActionsAreMoves(s0, acts);
    MovesConfigured(s0, acts, genesisKey);
    GentleIffApart(s0, acts);
    SystemOver(s0, AllMoves(s0, acts), genesisKey);
    var s := ActedAll(s0, acts);
    AboveGives(s.node, s.pool.unconfirmed, Run(s0.node, genesisKey, EventsIn(s0, acts)).node);
  }

  /** The blocks and deletions of the run that went through. */
  ghost function PassedIn(s: Chained, acts: seq<(Action, Circumstances)>): seq<Event>
    requires |s.node.blocks| > 0 && forall i :: 0 <= i < |acts| ==> acts[i].1.rewards.Valid()
  {
    Passed(s, AllMoves(s, acts))
  }

  /** After any run of actions at all the ledger is that of the run of those, in everything but the unconfirmed columns
      and the flags. */
  lemma NodeIsConfirmedRun(s0: Chained, acts: seq<(Action, Circumstances)>, genesisKey: PublicKey)
    requires |s0.node.blocks| > 0 && Starts(s0) && OneNetwork(acts, genesisKey)
    ensures var n, m := ActedAll(s0, acts).node, Run(s0.node, genesisKey, PassedIn(s0, acts)).node;
            && SameBase(n, m) && n.blocks == m.blocks && n.books.accts.conf == m.books.accts.conf
            && n.books.votes == m.books.votes && n.books.pending == m.books.pending
  {
    hide Starts, AllMoves, Passed, AfterMoves, SameBase, Run, ActedAll, Configured;
    ActionsAreMoves(s0, acts);
    MovesConfigured(s0, acts, genesisKey);
    ConfirmedIsRun(s0, AllMoves(s0, acts), genesisKey);
    var n, m := ActedAll(s0, acts).node, Run(s0.node, genesisKey, PassedIn(s0, acts)).node;
    VerifiedBase(n, m, genesisKey, s0.node.blocks[0]);
  }

  /** So after any run of the node its confirmed accounts are those of replaying its chain, the coins are all there,
      and nobody but the genesis sender owes any. */
  lemma NodeConserves(s0: Chained, acts: seq<(Action, Circumstances)>, genesisKey: PublicKey, U: set<Address>)
    requires |s0.node.blocks| > 0 && Starts(s0) && OneNetwork(acts, genesisKey)
    ensures |s0.node.blocks| == 1
    ensures var n := ActedAll(s0, acts).node;
            && Replayable(s0.node, genesisKey, Chain(n))
            && n.books.accts.conf == Replay(s0.node, Chain(n)).books.accts.conf
    ensures var n := ActedAll(s0, acts).node;
            Covers(U, n.blocks) ==>
              Total(U, n.books) + OpenFees(n.blocks) + BurnedIn(Chain(n)) ==
              Total(U, s0.node.books) + OpenFees(s0.node.blocks) + LandedRewards(n.blocks)
    ensures NonNegative(s0.node.books.accts.conf, genesisKey) ==>
              NonNegative(ActedAll(s0, acts).node.books.accts.conf, genesisKey)
  {
    hide PassedIn, SameBase, Run, ActedAll, Covers, OpenFees, BurnedIn, LandedRewards, NonNegative, Genesis, Replay,
         Replayable;
    NodeIsConfirmedRun(s0, acts, genesisKey);
    var n, es := ActedAll(s0, acts).node, PassedIn(s0, acts);
    AccountsAreReplayed(s0.node, genesisKey, es);
    if Covers(U, n.blocks) { CoinsConserved(U, s0.node, genesisKey, es); }
    if NonNegative(s0.node.books.accts.conf, genesisKey) { NoNegativeBalances(s0.node, genesisKey, es); }
  }

  /** And a delegate's votes plus its pending rows are the sum of its voters' confirmed balances, unless a pop was
      given a stale snapshot. */
  lemma NodeTallied(s0: Chained, acts: seq<(Action, Circumstances)>, genesisKey: PublicKey, U: set<Address>,
      d: PublicKey)
    requires |s0.node.blocks| > 0 && Starts(s0) && OneNetwork(acts, genesisKey)
    requires NoStalePop(s0.node, genesisKey, PassedIn(s0, acts))
    requires Supports(U, ActedAll(s0, acts).node.books.accts.conf)
    ensures var n := ActedAll(s0, acts).node;
            Get(n.books.votes, OfKey(d)) + PendingAt(n.books.pending, NextRound(n), d) ==
            Backing(U, n.books.accts.conf, d)
  {
    hide PassedIn, SameBase, Run, ActedAll, Genesis, Backing, NoStalePop, Supports;
    NodeIsConfirmedRun(s0, acts, genesisKey);
    TallyAlwaysRight(s0.node, genesisKey, PassedIn(s0, acts), U, d);
  }
}
