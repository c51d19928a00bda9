/**
  Runs of a whole node.  Pool transactions come and go between blocks; blocks are applied after the pool was
  undone; a pop leaves the pool alone; an expired waiting entry takes its id out of the unconfirmed list too.
 */
module SystemRuns {
  import opened Base
  import opened Diff
  import opened Accounts
  import opened Voting
  import opened Payouts
  import opened Ledger
  import opened Storage
  import opened Steps
  import opened Rollback
  import opened Invariants
  import opened Landing
  import opened History
  import opened RunAccounts
  import opened PoolQueues
  import opened PoolLists
  import opened PoolBalances
  import opened PoolSteps
  import opened PoolUndoing
  import opened PoolPops
  import opened ForkChoice
  import opened ChainSteps
  import LastIds

  /** What a node does, one piece at a time: the waiting lists change in any way; a transaction is tried by
      applyUnconfirmedList; an unconfirmed one is undone and removed; removeUnconfirmedTransaction is called for
      an id; a block is processed; the last block is deleted. */
  datatype Move =
    | Waiting(lists: Lists)
    | Try(p: Pooled)
    | Discard(p: Pooled)
    | Forget(id: string)
    | Process(b: Block)
    | Delete

  ghost function AfterMove(s: Chained, m: Move, e: Circumstances): (r: Chained)
    requires e.rewards.Valid() && |s.node.blocks| > 0
    ensures |r.node.blocks| > 0
  {
    match m
    case Waiting(l) => s.(pool := l.(unconfirmed := s.pool.unconfirmed))
    case Try(p) =>
      var r := Tried(s.node, s.pool, p, e.settings);
      TriedBlocks(s.node, s.pool, p, e.settings);
      s.(node := r.0, pool := r.1)
    case Discard(p) =>
      UndoneOneConf(s.node, p.tx);
      if p in s.pool.unconfirmed then s.(node := UndoneOne(s.node, p.tx), pool := Removed(s.pool, p.Id())) else s
    case Forget(id) => s.(pool := Removed(s.pool, id))
    case Process(b) =>
      ProcessingBlocks(s, b, e);
      Processing(s, b, e).0
    case Delete =>
      DeletingBlocks(s, e);
      Deleting(s, e).0
  }

  /** The transaction as applyUnconfirmedList keeps it, and whether it takes it. */
  ghost function Entry(n: Node, p: Pooled): Pooled { Received(p, GroupAccount(n, p.tx), p.receivedAt) }

  ghost predicate Accepted(n: Node, l: Lists, p: Pooled, e: Settings) {
    Passes(n, l, p, e) && UAllowed(n.books.accts, n.flags, Entry(n, p).tx, false)
  }

  lemma TriedBlocks(n: Node, l: Lists, p: Pooled, e: Settings)
    ensures Tried(n, l, p, e).0.blocks == n.blocks
  {
    hide UEffect, Passes, UAllowed, Promoted, IsMulti;
  }

  /** The moves of a run, each with its own clock and outcomes, on one network. */
  predicate Configured(ms: seq<(Move, Circumstances)>, genesisKey: PublicKey) {
    forall i :: 0 <= i < |ms| ==> ms[i].1.rewards.Valid() && ms[i].1.settings.genesisKey == genesisKey
  }

  ghost function AfterMoves(s: Chained, ms: seq<(Move, Circumstances)>): (r: Chained)
    requires |s.node.blocks| > 0 && forall i :: 0 <= i < |ms| ==> ms[i].1.rewards.Valid()
    ensures |r.node.blocks| > 0
  {
    if ms == [] then s else AfterMove(AfterMoves(s, ms[..|ms| - 1]), ms[|ms| - 1].0, ms[|ms| - 1].1)
  }

  /** A node that starts from its genesis block, with nothing unconfirmed. */
  ghost predicate Starts(s: Chained) { Genesis(s.node) && |s.node.blocks| > 0 && s.pool.unconfirmed == [] }

  // ---------- the unconfirmed list ----------

  /** The entries of one id. */
  function Picked(ps: seq<Pooled>, id: string): seq<Pooled> {
    if ps == [] then []
    else
      var pre, last := Picked(ps[..|ps| - 1], id), ps[|ps| - 1];
      if last.Id() == id then pre + [last] else pre
  }

  /** Requeueing a list takes its ids out of the unconfirmed one and puts nothing there. */
  lemma {:induction false} RequeuedUnconfirmed(n: Node, l: Lists, ps: seq<Pooled>, now: int, e: Settings)
    ensures forall p :: p in Requeued(n, l, ps, now, e).unconfirmed ==> p in l.unconfirmed && p.Id() !in Ids(ps)
  {
    hide Taken, Drop;
    if ps != [] {
      var pre, last := ps[..|ps| - 1], ps[|ps| - 1];
      RequeuedUnconfirmed(n, l, pre, now, e);
      var l0 := Requeued(n, l, pre, now, e);
      var l1 := Removed(l0, last.Id());
      TakenUnconfirmed(n, l1, last, now, e);
      DropSublist(l0.unconfirmed, last.Id());
      assert pre + [last] == ps;
      IdsPush(pre, last);
    }
  }

  lemma NothingLeft(n: Node, l: Lists, now: int, e: Settings)
    ensures Requeued(n, l, l.unconfirmed, now, e).unconfirmed == []
  {
    hide Requeued, Ids;
    RequeuedUnconfirmed(n, l, l.unconfirmed, now, e);
    var r := Requeued(n, l, l.unconfirmed, now, e).unconfirmed;
    if r != [] {
      assert r[0] in r;
      IdIn(l.unconfirmed, r[0]);
      assert false;
    }
  }

  lemma {:induction false} StillNothing(l: Lists, txs: seq<Transaction>)
    requires l.unconfirmed == []
    ensures AllRemoved(l, txs).unconfirmed == []
  {
    if txs != [] { StillNothing(l, txs[..|txs| - 1]); }
  }

  /** What each move does to the unconfirmed list. */
  lemma UnconfirmedAfter(s: Chained, m: Move, e: Circumstances)
    requires e.rewards.Valid() && |s.node.blocks| > 0
    ensures var us, us' := s.pool.unconfirmed, AfterMove(s, m, e).pool.unconfirmed;
            match m
            case Waiting(_) => us' == us
            case Try(p) =>
              us' == if Accepted(s.node, s.pool, p, e.settings) then us + [Entry(s.node, p)] else us
            case Discard(p) => us' == if p in us then Drop(us, p.Id()) else us
            case Forget(id) => us' == Drop(us, id)
            case Process(b) => us' == if BlockPasses(s.node, b, e) then [] else us
            case Delete => us' == us
  {
    hide Tried, UndoneOne, ApplyBlock, UndoneList, BlockPasses, PopBlock, AllTaken, Requeued, AllRemoved, Drop,
         Taken, LastIds.PushId;
    match m
    case Try(p) => TriedUnconfirmed(s.node, s.pool, p, e.settings);
    case Process(b) =>
      NothingLeft(s.node, s.pool, e.now, e.settings);
      StillNothing(Requeued(s.node, s.pool, s.pool.unconfirmed, e.now, e.settings), b.transactions);
    case Delete =>
      AllTakenUnconfirmed(PopBlock(s.node).node, s.pool, Offered(Head(s.node.blocks).transactions, e.now), e.now,
                          e.settings);
    case _ =>
  }

  lemma TriedUnconfirmed(n: Node, l: Lists, p: Pooled, e: Settings)
    ensures Tried(n, l, p, e).0 == if Accepted(n, l, p, e) then UStep(n, Entry(n, p).tx) else n
    ensures Tried(n, l, p, e).1.unconfirmed ==
            if Accepted(n, l, p, e) then l.unconfirmed + [Entry(n, p)] else l.unconfirmed
  {
    hide UEffect, UAllowed, IsMulti, Verified, Drop, Ids, GroupAccount;
  }

  // ---------- what every unconfirmed balance is behind by ----------

  /** How far an account's unconfirmed balance is behind its confirmed one. */
  ghost function Gap(s: Accts, a: Address): int { Row(s.conf, a).balance - Row(s.unconf, a).balance }

  predicate Costly(ps: seq<Pooled>) { forall i :: 0 <= i < |ps| ==> ps[i].tx.Cost() > 0 }

  lemma {:induction false} OwedSplit(ps: seq<Pooled>, id: string, a: Address)
    ensures Owed(ps, a) == Owed(Drop(ps, id), a) + Owed(Picked(ps, id), a)
  {
    hide Owed;
    if ps != [] {
      var pre, last := ps[..|ps| - 1], ps[|ps| - 1];
      assert pre + [last] == ps;
      OwedSplit(pre, id, a);
      OwedPush(pre, last, a);
      OwedPush(Picked(pre, id), last, a);
      OwedPush(Drop(pre, id), last, a);
    } else {
      OwedNone(a);
    }
  }

  lemma {:induction false} PickedNone(ps: seq<Pooled>, id: string)
    ensures Picked(ps, id) == [] <==> id !in Ids(ps)
    ensures forall p :: p in Picked(ps, id) ==> p in ps
  {
    hide Ids;
    if ps != [] {
      var pre, last := ps[..|ps| - 1], ps[|ps| - 1];
      assert pre + [last] == ps;
      PickedNone(pre, id);
      IdsPush(pre, last);
    } else {
      NoIds();
    }
  }

  lemma CostlyParts(ps: seq<Pooled>, id: string)
    requires Costly(ps)
    ensures Costly(Drop(ps, id)) && Costly(Picked(ps, id))
  {
    hide Drop, Picked;
    DropSublist(ps, id);
    PickedNone(ps, id);
    forall i | 0 <= i < |Drop(ps, id)| ensures Drop(ps, id)[i].tx.Cost() > 0 { assert Drop(ps, id)[i] in ps; }
    forall i | 0 <= i < |Picked(ps, id)| ensures Picked(ps, id)[i].tx.Cost() > 0 { assert Picked(ps, id)[i] in ps; }
  }

  lemma {:induction false} OwedConcat(ps: seq<Pooled>, qs: seq<Pooled>, a: Address)
    ensures Owed(ps + qs, a) == Owed(ps, a) + Owed(qs, a)
  {
    if qs == [] {
      assert ps + qs == ps;
    } else {
      OwedConcat(ps, qs[..|qs| - 1], a);
      assert ps + qs == (ps + qs[..|qs| - 1]) + [qs[|qs| - 1]];
      OwedPush(ps + qs[..|qs| - 1], qs[|qs| - 1], a);
    }
  }

  lemma {:induction false} OwedPositive(ps: seq<Pooled>, a: Address)
    requires Costly(ps)
    ensures Owed(ps, a) >= 0
    ensures ps != [] && ps[|ps| - 1].tx.From() == a ==> Owed(ps, a) > 0
  {
    if ps != [] { OwedPositive(ps[..|ps| - 1], a); }
  }

  lemma GapOfTouch(n: Node, tx: Transaction, a: Address)
    ensures Gap(UStep(n, tx).books.accts, a) == Gap(n.books.accts, a) + if tx.From() == a then tx.Cost() else 0
    ensures Gap(UndoneOne(n, tx).books.accts, a) == Gap(n.books.accts, a) - if tx.From() == a then tx.Cost() else 0
  {
    hide Touch, Untouch, UTypeUndo, ChargeUnconfirmed, Row;
    UUndoIs(n, tx);
    TouchBalance(n.books.accts.unconf, tx, a);
  }

  lemma {:induction false} GapOfList(n: Node, ps: seq<Pooled>, a: Address)
    ensures Gap(UndoneList(n, ps).books.accts, a) == Gap(n.books.accts, a) - Owed(ps, a)
    decreases |ps|
  {
    hide UndoneOne, Gap, Owed, UndoneList;
    OwedNone(a);
    if ps == [] {
      NothingUndone(n);
    } else {
      UndoneListStep(n, ps);
      GapOfTouch(n, ps[0].tx, a);
      GapOfList(UndoneOne(n, ps[0].tx), ps[1..], a);
      assert [ps[0]] + ps[1..] == ps && [] + [ps[0]] == [ps[0]];
      OwedConcat([ps[0]], ps[1..], a);
      OwedPush([], ps[0], a);
    }
  }

  /** What a move takes out of the unconfirmed list without undoing it. */
  function LostBy(s: Chained, m: Move): seq<Pooled> { if m.Forget? then Picked(s.pool.unconfirmed, m.id) else [] }

  ghost function Lost(s: Chained, ms: seq<(Move, Circumstances)>): seq<Pooled>
    requires |s.node.blocks| > 0 && forall i :: 0 <= i < |ms| ==> ms[i].1.rewards.Valid()
  {
    if ms == [] then [] else Lost(s, ms[..|ms| - 1]) + LostBy(AfterMoves(s, ms[..|ms| - 1]), ms[|ms| - 1].0)
  }

  /** An unconfirmed balance is behind by what the account's unconfirmed and lost transactions cost. */
  ghost predicate AccountedAt(s: Chained, lost: seq<Pooled>, a: Address) {
    Gap(s.node.books.accts, a) == Owed(s.pool.unconfirmed, a) + Owed(lost, a)
  }

  ghost predicate Accounted(s: Chained, lost: seq<Pooled>) {
    && DistinctIds(s.pool.unconfirmed) && Costly(s.pool.unconfirmed) && Costly(lost)
    && forall a: Address :: AccountedAt(s, lost, a)
  }

  lemma EntryCosts(n: Node, l: Lists, p: Pooled, e: Settings)
    requires Accepted(n, l, p, e)
    ensures Entry(n, p).Id() == p.Id() && p.Id() !in Ids(l.unconfirmed)
    ensures Entry(n, p).tx.Cost() > 0 && Entry(n, p).tx.From() == p.tx.From()
    ensures Verified(n.books.accts, e.genesisKey, Entry(n, p).tx)
  {
    hide UAllowed, CheckDelegates, UsernameFree, DistinctKeys, GroupAccount, Row, Ids;
  }

  lemma AccountedAfter(s: Chained, m: Move, e: Circumstances, lost: seq<Pooled>)
    requires e.rewards.Valid() && |s.node.blocks| > 0 && Accounted(s, lost)
    ensures Accounted(AfterMove(s, m, e), lost + LostBy(s, m))
  {
    hide AccountedAt, AfterMove, LostBy, DistinctIds, Costly;
    ListAfter(s, m, e, lost);
    forall a: Address
      ensures AccountedAt(AfterMove(s, m, e), lost + LostBy(s, m), a)
    {
      AccountedAtAfter(s, m, e, lost, a);
    }
  }

  lemma ListAfter(s: Chained, m: Move, e: Circumstances, lost: seq<Pooled>)
    requires e.rewards.Valid() && |s.node.blocks| > 0
    requires DistinctIds(s.pool.unconfirmed) && Costly(s.pool.unconfirmed) && Costly(lost)
    ensures var us := AfterMove(s, m, e).pool.unconfirmed; DistinctIds(us) && Costly(us) && Costly(lost + LostBy(s, m))
  {
    hide *;
    var us := s.pool.unconfirmed;
    UnconfirmedAfter(s, m, e);
    LostByIs(s, m);
    NoEntries();
    if !m.Forget? { assert lost + LostBy(s, m) == lost; }
    match m
    case Try(p) =>
      if Accepted(s.node, s.pool, p, e.settings) {
        EntryCosts(s.node, s.pool, p, e.settings);
        IdsPush(us, Entry(s.node, p));
        CostlyPush(us, Entry(s.node, p));
      }
    case Discard(p) =>
      DropAbsent(us, p.Id());
      CostlyParts(us, p.Id());
    case Forget(id) =>
      DropAbsent(us, id);
      CostlyParts(us, id);
      CostlyConcat(lost, Picked(us, id));
    case _ =>
  }

  lemma AccountedAtAfter(s: Chained, m: Move, e: Circumstances, lost: seq<Pooled>, a: Address)
    requires e.rewards.Valid() && |s.node.blocks| > 0 && DistinctIds(s.pool.unconfirmed) && AccountedAt(s, lost, a)
    ensures AccountedAt(AfterMove(s, m, e), lost + LostBy(s, m), a)
  {
    hide *;
    var s', us := AfterMove(s, m, e), s.pool.unconfirmed;
    AccountedIs(s, lost, a);
    AccountedIs(s', lost + LostBy(s, m), a);
    MovedIs(s, m, e);
    UnconfirmedAfter(s, m, e);
    LostByIs(s, m);
    OwedConcat(lost, LostBy(s, m), a);
    OwedNone(a);
    match m
    case Waiting(_) =>
    case Try(p) =>
      TriedUnconfirmed(s.node, s.pool, p, e.settings);
      GapOfTouch(s.node, Entry(s.node, p).tx, a);
      OwedPush(us, Entry(s.node, p), a);
    case Discard(p) =>
      if p in us {
        var i :| 0 <= i < |us| && us[i] == p;
        GapOfTouch(s.node, p.tx, a);
        OwedDrop(us, i, a);
      }
    case Forget(id) => OwedSplit(us, id, a);
    case Process(b) =>
      ProcessedNode(s, b, e);
      GapOfList(s.node, us, a);
      BlockGap(UndoneList(s.node, us), b);
      SameGapAt(UndoneList(s.node, us).books.accts, ApplyBlock(UndoneList(s.node, us), b).node.books.accts, a);
    case Delete =>
      DeletedNode(s, e);
      PopGap(s.node);
      SameGapAt(s.node.books.accts, PopBlock(s.node).node.books.accts, a);
  }

  lemma AccountedIs(s: Chained, lost: seq<Pooled>, a: Address)
    ensures AccountedAt(s, lost, a) <==> Gap(s.node.books.accts, a) == Owed(s.pool.unconfirmed, a) + Owed(lost, a)
  {
    hide Gap, Owed;
  }

  lemma MovedIs(s: Chained, m: Move, e: Circumstances)
    requires e.rewards.Valid() && |s.node.blocks| > 0
    ensures var s' := AfterMove(s, m, e);
            match m
            case Waiting(_) => s'.node == s.node
            case Try(p) => s'.node == Tried(s.node, s.pool, p, e.settings).0
            case Discard(p) => s'.node == if p in s.pool.unconfirmed then UndoneOne(s.node, p.tx) else s.node
            case Forget(_) => s'.node == s.node
            case Process(b) => s' == Processing(s, b, e).0
            case Delete => s' == Deleting(s, e).0
  {
    hide Tried, UndoneOne, Processing, Deleting;
  }

  lemma LostByIs(s: Chained, m: Move)
    ensures LostBy(s, m) == if m.Forget? then Picked(s.pool.unconfirmed, m.id) else []
  {
  }

  lemma ProcessedNode(s: Chained, b: Block, e: Circumstances)
    requires e.rewards.Valid() && |s.node.blocks| > 0
    ensures Processing(s, b, e).0.node ==
            if BlockPasses(s.node, b, e) then ApplyBlock(UndoneList(s.node, s.pool.unconfirmed), b).node else s.node
  {
    hide ApplyBlock, UndoneList, BlockPasses, Requeued, AllRemoved, LastIds.PushId;
  }

  lemma DeletedNode(s: Chained, e: Circumstances)
    requires |s.node.blocks| > 0
    ensures Deleting(s, e).0.node == PopBlock(s.node).node
  {
    hide PopBlock, AllTaken, Offered;
  }

  lemma SameGapAt(s: Accts, s': Accts, a: Address)
    requires SameGap(s, s')
    ensures Gap(s', a) == Gap(s, a)
  {
    hide Row;
  }

  lemma CostlyPush(ps: seq<Pooled>, p: Pooled)
    requires Costly(ps) && p.tx.Cost() > 0
    ensures Costly(ps + [p])
  {
  }

  lemma CostlyConcat(ps: seq<Pooled>, qs: seq<Pooled>)
    requires Costly(ps) && Costly(qs)
    ensures Costly(ps + qs)
  {
  }

  lemma NoEntries()
    ensures DistinctIds([]) && Costly([])
  {
  }

  lemma OwedNone(a: Address)
    ensures Owed([], a) == 0
  {
  }

  /** In every state of every run: each account's unconfirmed balance is its confirmed balance less amount and fee
      of its transactions in the unconfirmed list, and of those of its transactions that left it unundone. */
  lemma {:induction false} AlwaysAccounted(s0: Chained, ms: seq<(Move, Circumstances)>)
    requires |s0.node.blocks| > 0 && Starts(s0) && forall i :: 0 <= i < |ms| ==> ms[i].1.rewards.Valid()
    ensures Accounted(AfterMoves(s0, ms), Lost(s0, ms))
  {
    hide Starts, Accounted, AfterMove, LostBy;
    if ms == [] {
      StartAccounted(s0);
    } else {
      var pre, m := ms[..|ms| - 1], ms[|ms| - 1];
      AlwaysAccounted(s0, pre);
      AccountedAfter(AfterMoves(s0, pre), m.0, m.1, Lost(s0, pre));
    }
  }

  lemma StartAccounted(s0: Chained)
    requires Starts(s0)
    ensures Accounted(s0, [])
  {
    hide RowSane, PendingSane, Tallied;
  }

  /** The unconfirmed balances are in step with the unconfirmed list if and only if nothing was ever lost from it:
      no waiting transaction expired while a transaction with its id was unconfirmed. */
  lemma InStepIff(s0: Chained, ms: seq<(Move, Circumstances)>)
    requires |s0.node.blocks| > 0 && Starts(s0) && forall i :: 0 <= i < |ms| ==> ms[i].1.rewards.Valid()
    ensures var s := AfterMoves(s0, ms);
            Mirrored(s.node.books.accts, s.pool.unconfirmed) <==> Lost(s0, ms) == []
  {
    hide Starts, AfterMoves, Lost, DistinctIds, Owed;
    AlwaysAccounted(s0, ms);
    var s, lost := AfterMoves(s0, ms), Lost(s0, ms);
    if lost != [] {
      var a := lost[|lost| - 1].tx.From();
      OwedPositive(lost, a);
      assert AccountedAt(s, lost, a);
    } else {
      forall a: Address ensures Gap(s.node.books.accts, a) == Owed(s.pool.unconfirmed, a) {
        assert AccountedAt(s, lost, a);
        OwedNone(a);
      }
    }
  }

  // ---------- the ledger below the pool is a plain run ----------

  /** What the chain sees of a move. */
  ghost function EventsOf(s: Chained, m: Move, e: Circumstances): seq<Event>
    requires e.rewards.Valid() && |s.node.blocks| > 0
  {
    match m
    case Process(b) => if BlockPasses(s.node, b, e) then [Extend(b)] else []
    case Delete => [Pop]
    case _ => []
  }

  ghost function Events(s: Chained, ms: seq<(Move, Circumstances)>): seq<Event>
    requires |s.node.blocks| > 0 && forall i :: 0 <= i < |ms| ==> ms[i].1.rewards.Valid()
  {
    if ms == [] then []
    else Events(s, ms[..|ms| - 1]) + EventsOf(AfterMoves(s, ms[..|ms| - 1]), ms[|ms| - 1].0, ms[|ms| - 1].1)
  }

  /** Nothing unconfirmed is lost, and no deleted block shares a vote with what is unconfirmed. */
  ghost predicate Gentle(s: Chained, m: Move)
    requires |s.node.blocks| > 0
  {
    match m
    case Forget(id) => id !in Ids(s.pool.unconfirmed)
    case Delete => PopBlock(s.node).ok ==> NoSharedVotes(Head(s.node.blocks).transactions, Txs(s.pool.unconfirmed))
    case _ => true
  }

  ghost predicate AllGentle(s: Chained, ms: seq<(Move, Circumstances)>)
    requires |s.node.blocks| > 0 && forall i :: 0 <= i < |ms| ==> ms[i].1.rewards.Valid()
  {
    ms == [] || (AllGentle(s, ms[..|ms| - 1]) && Gentle(AfterMoves(s, ms[..|ms| - 1]), ms[|ms| - 1].0))
  }

  /** Undoing what is unconfirmed gives the node that a run of the blocks alone ends with. */
  ghost predicate Exact(s: Chained, ms: seq<(Move, Circumstances)>, genesisKey: PublicKey)
    requires |s.node.blocks| > 0 && forall i :: 0 <= i < |ms| ==> ms[i].1.rewards.Valid()
  {
    var t := AfterMoves(s, ms);
    UndoneList(t.node, t.pool.unconfirmed) == Run(s.node, genesisKey, Events(s, ms)).node
  }

  ghost predicate AllExact(s: Chained, ms: seq<(Move, Circumstances)>, genesisKey: PublicKey)
    requires |s.node.blocks| > 0 && forall i :: 0 <= i < |ms| ==> ms[i].1.rewards.Valid()
  {
    Exact(s, ms, genesisKey) && (ms == [] || AllExact(s, ms[..|ms| - 1], genesisKey))
  }

  /** The unconfirmed list is pending on the node above `m`. */
  ghost predicate Over(s: Chained, m: Node) {
    DistinctIds(s.pool.unconfirmed) && Above(s.node, Txs(s.pool.unconfirmed), m)
  }

  ghost function Stepped(m: Node, genesisKey: PublicKey, es: seq<Event>): Node
    requires |m.blocks| > 0
  {
    if es == [] then m else Step(Trace(m, None), genesisKey, es[0]).node
  }

  lemma AcceptedAbove(n: Node, us: seq<Transaction>, m: Node, n0: Node, genesisKey: PublicKey, tx: Transaction)
    requires Above(n, us, m) && AcctsReplayed(m, n0, genesisKey)
    requires Verified(n.books.accts, genesisKey, tx) && UAllowed(n.books.accts, n.flags, tx, false)
    ensures Above(UStep(n, tx), us + [tx], m)
  {
    hide AcctsReplayed, Ahead, Cleared, Verified, UAllowed, UStep, NewGroup, Settled;
    ReplayedSettled(m, n0, genesisKey);
    var r := Replay(n0, Chain(m));
    ClearedConf(n, us);
    ApplyAhead(n, us, genesisKey, r.books, NextRound(r), tx);
    VerifiedNewGroup(n.books.accts, genesisKey, tx);
  }

  lemma ReplayedSettled(m: Node, n0: Node, genesisKey: PublicKey)
    requires AcctsReplayed(m, n0, genesisKey)
    ensures |n0.blocks| == 1 && |m.blocks| > 0
    ensures var r := Replay(n0, Chain(m)); Settled(r.books, NextRound(r)) && r.books.accts.conf == m.books.accts.conf
    ensures m.books.accts.conf == m.books.accts.unconf && Full(m.books.accts.conf)
  {
    hide Genesis, Replay, Replayable, Settled;
    OneGenesis(m, n0, genesisKey);
    ReplayFacts(n0, genesisKey, Chain(m));
    HalvesAgree(m, n0, genesisKey);
    ReplayedFull(m, n0, genesisKey);
  }

  lemma DiscardedAbove(n: Node, ps: seq<Pooled>, m: Node, i: nat)
    requires DistinctIds(ps) && i < |ps| && Above(n, Txs(ps), m)
    ensures DistinctIds(Drop(ps, ps[i].Id())) && Above(UndoneOne(n, ps[i].tx), Txs(Drop(ps, ps[i].Id())), m)
  {
    hide Ahead, Cleared, UndoneOne, NewGroup, DistinctIds, Drop;
    assert Txs(ps)[i] == ps[i].tx;
    UndoAhead(n, Txs(ps), i);
    DropIsOmit(ps, i);
    DropAbsent(ps, ps[i].Id());
    assert forall j :: 0 <= j < |Omit(Txs(ps), i)| ==> Omit(Txs(ps), i)[j] in Txs(ps);
  }

  lemma BareAbove(m: Node, n0: Node, genesisKey: PublicKey)
    requires AcctsReplayed(m, n0, genesisKey)
    ensures Above(m, Txs([]), m)
  {
    hide AcctsReplayed;
    ReplayedSettled(m, n0, genesisKey);
    assert Txs([]) == [];
    assert m.flags - {} == m.flags;
  }

  lemma VerifiedUnder(n: Node, us: seq<Transaction>, m: Node, genesisKey: PublicKey, b: Block)
    requires Above(n, us, m)
    ensures BlockVerified(n, genesisKey, b) <==> BlockVerified(m, genesisKey, b)
    ensures n.blocks == m.blocks && n.books.accts.conf == m.books.accts.conf
  {
    hide Verified, SumFees, Ahead, NewGroup, GroupSenders;
    forall tx: Transaction
      ensures Verified(n.books.accts, genesisKey, tx) <==> Verified(m.books.accts, genesisKey, tx)
    {
      VerifiedByConf(n.books.accts, m.books.accts, genesisKey, tx);
    }
  }

  /** A gentle move keeps the list pending above the run of the blocks. */
  lemma OverAfter(s: Chained, m: Move, e: Circumstances, t: Node, n0: Node)
    requires e.rewards.Valid() && |s.node.blocks| > 0 && |t.blocks| > 0
    requires Over(s, t) && AcctsReplayed(t, n0, e.settings.genesisKey) && Gentle(s, m)
    ensures Over(AfterMove(s, m, e), Stepped(t, e.settings.genesisKey, EventsOf(s, m, e)))
  {
    hide *;
    var us, s', key := s.pool.unconfirmed, AfterMove(s, m, e), e.settings.genesisKey;
    OverIs(s, t);
    MovedIs(s, m, e);
    UnconfirmedAfter(s, m, e);
    EventsAre(s, m, e, t);
    NoEntries();
    match m {
      case Waiting(_) =>
      case Try(p) =>
        TriedUnconfirmed(s.node, s.pool, p, e.settings);
        if Accepted(s.node, s.pool, p, e.settings) {
          var q := Entry(s.node, p);
          EntryCosts(s.node, s.pool, p, e.settings);
          EntryAllowed(s.node, s.pool, p, e.settings);
          AcceptedAbove(s.node, Txs(us), t, n0, key, q.tx);
          TxsPush(us, q);
          IdsPush(us, q);
        }
      case Discard(p) =>
        if p in us {
          var i :| 0 <= i < |us| && us[i] == p;
          DiscardedAbove(s.node, us, t, i);
        }
      case Forget(id) =>
        GentleIs(s, m);
        DropAbsent(us, id);
      case Process(b) =>
        ProcessedNode(s, b, e);
        if BlockPasses(s.node, b, e) {
          PassesVerified(s.node, b, e);
          VerifiedUnder(s.node, Txs(us), t, key, b);
          AboveGives(s.node, us, t);
          ExtendReplayed(Trace(t, None), n0, key, b);
          StepExtends(t, key, b);
          BareAbove(ApplyBlock(t, b).node, n0, key);
        }
      case Delete =>
        GentleIs(s, m);
        DeletedNode(s, e);
        SameHead(s.node, Txs(us), t);
        PopAbove(s.node, Txs(us), t, n0, key);
    }
    OverIs(s', Stepped(t, key, EventsOf(s, m, e)));
  }

  lemma OverIs(s: Chained, m: Node)
    ensures Over(s, m) <==> DistinctIds(s.pool.unconfirmed) && Above(s.node, Txs(s.pool.unconfirmed), m)
  {
  }

  lemma GentleIs(s: Chained, m: Move)
    requires |s.node.blocks| > 0
    ensures m.Forget? ==> (Gentle(s, m) <==> m.id !in Ids(s.pool.unconfirmed))
    ensures m.Delete? ==> (Gentle(s, m) <==>
              (PopBlock(s.node).ok ==> NoSharedVotes(Head(s.node.blocks).transactions, Txs(s.pool.unconfirmed))))
    ensures !m.Forget? && !m.Delete? ==> Gentle(s, m)
  {
    hide PopBlock, NoSharedVotes, Ids;
  }

  lemma EntryAllowed(n: Node, l: Lists, p: Pooled, e: Settings)
    requires Accepted(n, l, p, e)
    ensures UAllowed(n.books.accts, n.flags, Entry(n, p).tx, false)
  {
  }

  lemma PassesVerified(n: Node, b: Block, e: Circumstances)
    requires e.rewards.Valid() && |n.blocks| > 0 && BlockPasses(n, b, e)
    ensures BlockVerified(n, e.settings.genesisKey, b)
  {
    hide BlockVerified, Follows;
  }

  lemma StepExtends(m: Node, genesisKey: PublicKey, b: Block)
    requires |m.blocks| > 0 && BlockVerified(m, genesisKey, b)
    ensures Step(Trace(m, None), genesisKey, Extend(b)).node == ApplyBlock(m, b).node
  {
    hide ApplyBlock, BlockVerified;
  }

  lemma EventsAre(s: Chained, m: Move, e: Circumstances, t: Node)
    requires e.rewards.Valid() && |s.node.blocks| > 0 && |t.blocks| > 0
    ensures var r := Stepped(t, e.settings.genesisKey, EventsOf(s, m, e));
            match m
            case Process(b) =>
              if BlockPasses(s.node, b, e) then r == Step(Trace(t, None), e.settings.genesisKey, Extend(b)).node
              else r == t
            case Delete => r == PopBlock(t).node
            case _ => r == t
  {
    hide BlockPasses, PopBlock, ApplyBlock, BlockVerified;
  }

  /** After any other move, undoing the list does not give the node of the run. */
  lemma NotExactAfter(s: Chained, m: Move, e: Circumstances, t: Node, n0: Node)
    requires e.rewards.Valid() && |s.node.blocks| > 0 && |t.blocks| > 0
    requires Over(s, t) && AcctsReplayed(t, n0, e.settings.genesisKey) && Costly(s.pool.unconfirmed) && !Gentle(s, m)
    ensures var s' := AfterMove(s, m, e);
            UndoneList(s'.node, s'.pool.unconfirmed) != Stepped(t, e.settings.genesisKey, EventsOf(s, m, e))
  {
    hide *;
    var us, key := s.pool.unconfirmed, e.settings.genesisKey;
    OverIs(s, t);
    MovedIs(s, m, e);
    UnconfirmedAfter(s, m, e);
    EventsAre(s, m, e, t);
    GentleIs(s, m);
    match m
    case Forget(id) => ForgottenShows(s.node, us, id, t);
    case Delete =>
      DeletedNode(s, e);
      PopUnderPoolIff(s.node, us, t, n0, key);
      SameHead(s.node, Txs(us), t);
  }

  lemma SameHead(n: Node, us: seq<Transaction>, m: Node)
    requires Above(n, us, m)
    ensures n.blocks == m.blocks
  {
    hide Ahead, NewGroups;
  }

  /** What was lost is still paid for once the rest is undone. */
  lemma ForgottenShows(n: Node, us: seq<Pooled>, id: string, m: Node)
    requires Above(n, Txs(us), m) && Costly(us) && id in Ids(us)
    ensures UndoneList(n, Drop(us, id)) != m
  {
    hide Above, Owed, Drop, Picked, Ids, Costly, UndoneList;
    CostlyParts(us, id);
    PickedNone(us, id);
    var gone := Picked(us, id);
    var a := gone[|gone| - 1].tx.From();
    AboveGives(n, us, m);
    GapOfList(n, us, a);
    GapOfList(n, Drop(us, id), a);
    OwedSplit(us, id, a);
    OwedPositive(gone, a);
  }

  lemma StepNode(t: Trace, genesisKey: PublicKey, e: Event)
    requires |t.node.blocks| > 0
    ensures Step(t, genesisKey, e).node == Step(Trace(t.node, None), genesisKey, e).node
  {
    hide ApplyBlock, PopBlock, BlockVerified;
  }

  lemma RunOneMore(n0: Node, genesisKey: PublicKey, es: seq<Event>, more: seq<Event>)
    requires Genesis(n0) && |n0.blocks| > 0 && |more| <= 1
    ensures Run(n0, genesisKey, es + more).node == Stepped(Run(n0, genesisKey, es).node, genesisKey, more)
  {
    hide Genesis, Step, Run, AcctsReplayed;
    if more == [] {
      assert es + more == es;
    } else {
      var t := Run(n0, genesisKey, es);
      assert more == [more[0]];
      AccountsAreReplayed(n0, genesisKey, es);
      match more[0] {
        case Extend(b) => ExtendReplayed(t, n0, genesisKey, b);
        case Pop => PopReplayed(t, n0, genesisKey);
      }
      NonEmpty(Step(t, genesisKey, more[0]).node, n0, genesisKey);
      RunPush(n0, genesisKey, es, more[0]);
      StepNode(t, genesisKey, more[0]);
    }
  }

  lemma FewEvents(s: Chained, m: Move, e: Circumstances)
    requires e.rewards.Valid() && |s.node.blocks| > 0
    ensures |EventsOf(s, m, e)| <= 1
  {
    hide BlockPasses;
  }

  lemma GentlePrefix(s: Chained, ms: seq<(Move, Circumstances)>)
    requires |s.node.blocks| > 0 && forall i :: 0 <= i < |ms| ==> ms[i].1.rewards.Valid()
    requires ms != []
    ensures var pre, m := ms[..|ms| - 1], ms[|ms| - 1].0;
            AllGentle(s, ms) <==> AllGentle(s, pre) && Gentle(AfterMoves(s, pre), m)
  {
    hide AfterMoves, Gentle;
  }

  lemma ExactPrefix(s: Chained, ms: seq<(Move, Circumstances)>, genesisKey: PublicKey)
    requires |s.node.blocks| > 0 && forall i :: 0 <= i < |ms| ==> ms[i].1.rewards.Valid()
    requires ms != []
    ensures AllExact(s, ms, genesisKey) <==> AllExact(s, ms[..|ms| - 1], genesisKey) && Exact(s, ms, genesisKey)
  {
    hide Exact;
  }

  /** The second half of being gentle. */
  ghost predicate Apart(s: Chained, m: Move)
    requires |s.node.blocks| > 0
  {
    m.Delete? && PopBlock(s.node).ok ==> NoSharedVotes(Head(s.node.blocks).transactions, Txs(s.pool.unconfirmed))
  }

  ghost predicate AllApart(s: Chained, ms: seq<(Move, Circumstances)>)
    requires |s.node.blocks| > 0 && forall i :: 0 <= i < |ms| ==> ms[i].1.rewards.Valid()
  {
    ms == [] || (AllApart(s, ms[..|ms| - 1]) && Apart(AfterMoves(s, ms[..|ms| - 1]), ms[|ms| - 1].0))
  }

  lemma OneGentle(s: Chained, m: Move)
    requires |s.node.blocks| > 0
    ensures Gentle(s, m) <==> LostBy(s, m) == [] && Apart(s, m)
  {
    hide PopBlock, NoSharedVotes, Ids, Picked;
    if m.Forget? { PickedNone(s.pool.unconfirmed, m.id); }
  }

  /** A run is gentle if and only if it loses nothing and deletes no block that shares a vote. */
  lemma {:induction false} GentleIffKept(s: Chained, ms: seq<(Move, Circumstances)>)
    requires |s.node.blocks| > 0 && forall i :: 0 <= i < |ms| ==> ms[i].1.rewards.Valid()
    ensures AllGentle(s, ms) <==> Lost(s, ms) == [] && AllApart(s, ms)
  {
    hide AfterMoves, Gentle, LostBy, Apart;
    if ms != [] {
      GentleIffKept(s, ms[..|ms| - 1]);
      OneGentle(AfterMoves(s, ms[..|ms| - 1]), ms[|ms| - 1].0);
    }
  }

  /** As long as nothing is lost and no deleted block shares a vote with what is unconfirmed, the unconfirmed list
      is pending above the run of the blocks alone: taken off in any order, it leaves the node of that run. */
  lemma {:induction false} SystemOver(s0: Chained, ms: seq<(Move, Circumstances)>, genesisKey: PublicKey)
    requires |s0.node.blocks| > 0 && Starts(s0) && Configured(ms, genesisKey) && AllGentle(s0, ms)
    ensures Over(AfterMoves(s0, ms), Run(s0.node, genesisKey, Events(s0, ms)).node)
  {
    hide *;
    ConfiguredIs(ms, genesisKey);
    StartsIs(s0);
    if ms == [] {
      NothingMoved(s0, ms, genesisKey);
      StartReplayed(s0.node, genesisKey);
      BareAbove(s0.node, s0.node, genesisKey);
      NoEntries();
      OverIs(s0, s0.node);
    } else {
      var pre, m, e := ms[..|ms| - 1], ms[|ms| - 1].0, ms[|ms| - 1].1;
      ConfiguredIs(pre, genesisKey);
      GentlePrefix(s0, ms);
      SystemOver(s0, pre, genesisKey);
      OneMoved(s0, ms);
      var s, es := AfterMoves(s0, pre), Events(s0, pre);
      AccountsAreReplayed(s0.node, genesisKey, es);
      FewEvents(s, m, e);
      RunOneMore(s0.node, genesisKey, es, EventsOf(s, m, e));
      OverAfter(s, m, e, Run(s0.node, genesisKey, es).node, s0.node);
    }
  }

  lemma ConfiguredIs(ms: seq<(Move, Circumstances)>, genesisKey: PublicKey)
    ensures Configured(ms, genesisKey) <==>
            forall i :: 0 <= i < |ms| ==> ms[i].1.rewards.Valid() && ms[i].1.settings.genesisKey == genesisKey
  {
  }

  lemma StartsIs(s: Chained)
    requires Starts(s)
    ensures Genesis(s.node) && |s.node.blocks| > 0 && s.pool.unconfirmed == []
  {
    hide Genesis;
  }

  lemma NothingMoved(s0: Chained, ms: seq<(Move, Circumstances)>, genesisKey: PublicKey)
    requires |s0.node.blocks| > 0 && ms == []
    ensures AfterMoves(s0, ms) == s0 && Events(s0, ms) == [] && Run(s0.node, genesisKey, []).node == s0.node
  {
  }

  lemma OneMoved(s0: Chained, ms: seq<(Move, Circumstances)>)
    requires |s0.node.blocks| > 0 && forall i :: 0 <= i < |ms| ==> ms[i].1.rewards.Valid()
    requires ms != []
    ensures var pre, m, e := ms[..|ms| - 1], ms[|ms| - 1].0, ms[|ms| - 1].1;
            && AfterMoves(s0, ms) == AfterMove(AfterMoves(s0, pre), m, e)
            && Events(s0, ms) == Events(s0, pre) + EventsOf(AfterMoves(s0, pre), m, e)
  {
    hide AfterMove, EventsOf;
  }

  /** Exactly then: in every state of a run undoing what is unconfirmed gives the node of the run of its blocks
      alone, if and only if nothing unconfirmed is lost and no deleted block shares a vote with what is unconfirmed
      at that moment. */
  lemma {:induction false} SystemIsRunIff(s0: Chained, ms: seq<(Move, Circumstances)>, genesisKey: PublicKey)
    requires |s0.node.blocks| > 0 && Starts(s0) && Configured(ms, genesisKey)
    ensures AllExact(s0, ms, genesisKey) <==> AllGentle(s0, ms)
  {
    hide *;
    ConfiguredIs(ms, genesisKey);
    StartsIs(s0);
    if ms == [] {
      NothingMoved(s0, ms, genesisKey);
      NothingWrong(s0, ms, genesisKey);
    } else {
      var pre, m, e := ms[..|ms| - 1], ms[|ms| - 1].0, ms[|ms| - 1].1;
      ConfiguredIs(pre, genesisKey);
      GentlePrefix(s0, ms);
      ExactPrefix(s0, ms, genesisKey);
      SystemIsRunIff(s0, pre, genesisKey);
      if AllGentle(s0, pre) {
        if Gentle(AfterMoves(s0, pre), m) { ExactNow(s0, ms, genesisKey); } else { NotExactNow(s0, ms, genesisKey); }
      }
    }
  }

  lemma NothingWrong(s0: Chained, ms: seq<(Move, Circumstances)>, genesisKey: PublicKey)
    requires |s0.node.blocks| > 0 && ms == [] && s0.pool.unconfirmed == []
    ensures AllExact(s0, ms, genesisKey) && AllGentle(s0, ms)
  {
    NothingMoved(s0, ms, genesisKey);
  }

  lemma ExactNow(s0: Chained, ms: seq<(Move, Circumstances)>, genesisKey: PublicKey)
    requires |s0.node.blocks| > 0 && Starts(s0) && Configured(ms, genesisKey) && AllGentle(s0, ms)
    ensures Exact(s0, ms, genesisKey)
  {
    hide Starts, AllGentle, AfterMoves, Events, Run, Above, DistinctIds, UndoneList;
    SystemOver(s0, ms, genesisKey);
    var t := AfterMoves(s0, ms);
    AboveGives(t.node, t.pool.unconfirmed, Run(s0.node, genesisKey, Events(s0, ms)).node);
  }

  lemma NotExactNow(s0: Chained, ms: seq<(Move, Circumstances)>, genesisKey: PublicKey)
    requires |s0.node.blocks| > 0 && Starts(s0) && Configured(ms, genesisKey) && ms != []
    requires AllGentle(s0, ms[..|ms| - 1]) && !Gentle(AfterMoves(s0, ms[..|ms| - 1]), ms[|ms| - 1].0)
    ensures !Exact(s0, ms, genesisKey)
  {
    hide *;
    var pre, m, e := ms[..|ms| - 1], ms[|ms| - 1].0, ms[|ms| - 1].1;
    ConfiguredIs(ms, genesisKey);
    ConfiguredIs(pre, genesisKey);
    StartsIs(s0);
    SystemOver(s0, pre, genesisKey);
    OneMoved(s0, ms);
    var s, es := AfterMoves(s0, pre), Events(s0, pre);
    AccountsAreReplayed(s0.node, genesisKey, es);
    FewEvents(s, m, e);
    RunOneMore(s0.node, genesisKey, es, EventsOf(s, m, e));
    AlwaysAccounted(s0, pre);
    CostlyNow(s, Lost(s0, pre));
    NotExactAfter(s, m, e, Run(s0.node, genesisKey, es).node, s0.node);
    ExactIs(s0, ms, genesisKey);
  }

  lemma CostlyNow(s: Chained, lost: seq<Pooled>)
    requires Accounted(s, lost)
    ensures Costly(s.pool.unconfirmed)
  {
    hide AccountedAt, DistinctIds, Costly;
  }

  lemma ExactIs(s: Chained, ms: seq<(Move, Circumstances)>, genesisKey: PublicKey)
    requires |s.node.blocks| > 0 && forall i :: 0 <= i < |ms| ==> ms[i].1.rewards.Valid()
    ensures Exact(s, ms, genesisKey) <==>
            var t := AfterMoves(s, ms);
            UndoneList(t.node, t.pool.unconfirmed) == Run(s.node, genesisKey, Events(s, ms)).node
  {
    hide AfterMoves, UndoneList, Run, Events;
  }
}
