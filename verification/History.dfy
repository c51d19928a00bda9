/**
  Runs of applied and popped blocks.  Whatever a run does, the books it ends with are the books of
  replaying the chain it ends with, as long as no pop restores an empty snapshot that was taken
  later than the head.
 */
module History {
  import opened Base
  import opened Diff
  import opened Accounts
  import opened Tally
  import opened Payouts
  import opened Ledger
  import opened Rollback
  import opened Invariants
  import opened BlockRules
  import opened PopBlocks
  import opened Landing

  datatype Event = Extend(block: Block) | Pop

  /** A node, and the non-genesis blocks its chain had when the snapshot was taken. */
  datatype Trace = Trace(node: Node, saved: Option<seq<Block>>)

  ghost function Step(t: Trace, genesisKey: PublicKey, e: Event): Trace
    requires |t.node.blocks| > 0
  {
    match e
    case Extend(b) =>
      if !BlockVerified(t.node, genesisKey, b) then t else
      var a := ApplyBlock(t.node, b);
      Trace(a.node, if a.ok && (|a.node.blocks| + 1) % ACTIVE_DELEGATES == 0 then Some(a.node.blocks[1..]) else t.saved)
    case Pop => Trace(PopBlock(t.node).node, t.saved)
  }

  /** The node right after the genesis block was applied and landed. */
  ghost predicate Genesis(n: Node) {
    && |n.blocks| == 1 && n.flags == {} && n.rounds == {} && n.snapshot == None
    && Settled(n.books, NextRound(n)) && Tallied(n.books, NextRound(n))
  }

  // ---------- replay ----------

  ghost function Replay(n0: Node, bs: seq<Block>): (r: Node)
    requires |n0.blocks| == 1
    ensures |r.blocks| > 0
  {
    if bs == [] then n0
    else
      var r := Replay(n0, bs[..|bs| - 1]);
      var a := ApplyBlock(r, bs[|bs| - 1]).node;
      if |a.blocks| > 0 then a else r
  }

  ghost predicate Replayable(n0: Node, genesisKey: PublicKey, bs: seq<Block>)
    requires |n0.blocks| == 1
  {
    bs == [] || (
      var pre, b := bs[..|bs| - 1], bs[|bs| - 1];
      && Replayable(n0, genesisKey, pre)
      && BlockVerified(Replay(n0, pre), genesisKey, b)
      && ApplyBlock(Replay(n0, pre), b).ok)
  }

  lemma AppliedBlocks(n: Node, b: Block)
    requires |n.blocks| > 0 && ApplyBlock(n, b).ok
    ensures Applied(n, b).blocks == n.blocks + [b]
    ensures Applied(n, b).flags == n.flags - GroupSenders(b.transactions)
  {
    hide ApplyBlock;
    if (|n.blocks| + 1) % ACTIVE_DELEGATES == 0 { AppliedAtEnd(n, b); } else { AppliedInside(n, b); }
  }

  /** Replaying verified blocks keeps every invariant and leaves no flag set. */
  lemma {:induction false} ReplayFacts(n0: Node, genesisKey: PublicKey, bs: seq<Block>)
    requires Genesis(n0) && Replayable(n0, genesisKey, bs)
    ensures var r := Replay(n0, bs);
            && r.blocks == n0.blocks + bs && r.flags == {}
            && Settled(r.books, NextRound(r)) && Tallied(r.books, NextRound(r))
    ensures bs != [] ==> Replay(n0, bs) == Applied(Replay(n0, bs[..|bs| - 1]), bs[|bs| - 1])
  {
    hide Settled, Tallied, BlockVerified, ApplyBlock;
    if bs == [] {
      assert n0.blocks + bs == n0.blocks;
    } else {
      var pre, b := bs[..|bs| - 1], bs[|bs| - 1];
      ReplayFacts(n0, genesisKey, pre);
      AppliedBlocks(Replay(n0, pre), b);
      BlockKeeps(Replay(n0, pre), genesisKey, b);
    }
  }

  // ---------- a node that differs only in flags, rows and snapshot does the same ----------

  ghost predicate Like(n: Node, m: Node) {
    n.blocks == m.blocks && n.books == m.books && m.flags <= n.flags
  }

  lemma {:induction false} UAllLike(n: Node, m: Node, txs: seq<Transaction>)
    requires Like(n, m) && UAll(n, txs).ok
    ensures UAll(m, txs).ok && Like(UAll(n, txs).node, UAll(m, txs).node)
  {
    hide UEffect;
    if txs != [] { UAllLike(n, m, txs[..|txs| - 1]); }
  }

  lemma {:induction false} CAllLike(n: Node, m: Node, round: int, txs: seq<Transaction>)
    requires Like(n, m) && CAll(n, round, txs).ok
    ensures CAll(m, round, txs).ok && Like(CAll(n, round, txs).node, CAll(m, round, txs).node)
  {
    hide CEffect, CAllowed, CPending, TxRounds;
    if txs != [] { CAllLike(n, m, round, txs[..|txs| - 1]); }
  }

  lemma TickLike(n: Node, m: Node)
    requires Like(n, m) && |n.blocks| > 0
    ensures Like(Tick(n), Tick(m))
  {
    hide SumRound, PayAll, UpdateVotes, Flush, Add, RewardRows, Row;
  }

  lemma ApplyLike(n: Node, m: Node, b: Block)
    requires |n.blocks| > 0 && Like(n, m) && ApplyBlock(n, b).ok
    ensures ApplyBlock(m, b).ok && Like(Applied(n, b), Applied(m, b))
  {
    hide UAll, CAll, Tick;
    var round := CalcRound(|n.blocks| + 1);
    UAllLike(n, m, b.transactions);
    CAllLike(UAll(n, b.transactions).node, UAll(m, b.transactions).node, round, b.transactions);
    TickLike(CAll(UAll(n, b.transactions).node, round, b.transactions).node.(blocks := n.blocks + [b]),
             CAll(UAll(m, b.transactions).node, round, b.transactions).node.(blocks := m.blocks + [b]));
  }

  // ---------- which rounds have rows ----------

  /** Rows left in mem_round are of the next block's round or, after pops, of a later one. */
  ghost predicate RowsAhead(n: Node) { forall r :: r in n.rounds ==> r >= NextRound(n) }

  lemma {:induction false} CAllRounds(n: Node, round: int, txs: seq<Transaction>)
    ensures CAll(n, round, txs).node.rounds <= n.rounds + {round}
  {
    hide CEffect, CAllowed, CPending, Row;
    if txs != [] { CAllRounds(n, round, txs[..|txs| - 1]); }
  }

  lemma {:induction false} UAllRounds(n: Node, txs: seq<Transaction>)
    ensures UAll(n, txs).node.rounds == n.rounds
    ensures UAll(n, txs).node.blocks == n.blocks
  {
    hide UEffect, UAllowed;
    if txs != [] { UAllRounds(n, txs[..|txs| - 1]); }
  }

  lemma ApplyRows(n: Node, b: Block)
    requires |n.blocks| > 0 && ApplyBlock(n, b).ok && RowsAhead(n)
    ensures RowsAhead(Applied(n, b))
  {
    hide UAll, CAll, Add, PayAll, Row, TakeSnapshot, SumRound, RewardRows;
    var round := CalcRound(|n.blocks| + 1);
    var u := UAll(n, b.transactions).node;
    UAllRounds(n, b.transactions);
    CAllRounds(u, round, b.transactions);
    AppliedBlocks(n, b);
    var c := CAll(u, round, b.transactions).node;
    assert forall r :: r in c.rounds ==> r >= round;
  }

  // ---------- the invariant of a run ----------

  ghost function Chain(n: Node): seq<Block> requires |n.blocks| > 0 { n.blocks[1..] }

  ghost predicate SavedRight(t: Trace, n0: Node, genesisKey: PublicKey)
    requires |n0.blocks| == 1 && |t.node.blocks| > 0
  {
    && (t.saved.Some? <==> t.node.snapshot.Some?)
    && (|t.node.blocks| >= ACTIVE_DELEGATES - 1 ==> t.saved.Some?)
    && (t.saved.Some? ==>
          var sc := t.saved.value;
          && (|sc| + 2) % ACTIVE_DELEGATES == 0
          && Replayable(n0, genesisKey, sc)
          && SnapshotOf(t.node.snapshot, Replay(n0, sc))
          && (forall r :: r in t.node.snapshot.value.rounds ==> r >= CalcRound(|sc| + 2))
          && (|sc| <= |Chain(t.node)| ==>
                sc == Chain(t.node)[..|sc|] && |Chain(t.node)| < |sc| + ACTIVE_DELEGATES))
  }

  ghost predicate TraceInv(t: Trace, n0: Node, genesisKey: PublicKey) {
    && Genesis(n0)
    && |t.node.blocks| > 0
    && t.node.blocks == n0.blocks + Chain(t.node)
    && Replayable(n0, genesisKey, Chain(t.node))
    && t.node.books == Replay(n0, Chain(t.node)).books
    && RowsAhead(t.node)
    && SavedRight(t, n0, genesisKey)
  }

  /** The one pop that is not exact: an empty snapshot taken later than the head is accepted. */
  predicate StaleEmpty(t: Trace) {
    && t.node.snapshot.Some? && t.node.snapshot.value.rounds == {}
    && t.saved.Some? && |t.saved.value| + 1 > |t.node.blocks|
  }

  predicate AtRoundEnd(n: Node) { |n.blocks| > 1 && |n.blocks| % ACTIVE_DELEGATES == 0 }

  lemma GenesisTrace(n0: Node, genesisKey: PublicKey)
    requires Genesis(n0)
    ensures TraceInv(Trace(n0, None), n0, genesisKey)
  {
    hide Settled, Tallied;
    assert Chain(n0) == [];
    assert n0.blocks + [] == n0.blocks;
  }

  lemma LikeReplay(t: Trace, n0: Node, genesisKey: PublicKey)
    requires TraceInv(t, n0, genesisKey)
    ensures Like(t.node, Replay(n0, Chain(t.node)))
    ensures Settled(t.node.books, NextRound(t.node)) && Tallied(t.node.books, NextRound(t.node))
  {
    hide Settled, Tallied;
    ReplayFacts(n0, genesisKey, Chain(t.node));
  }

  lemma ReplayExtend(n0: Node, genesisKey: PublicKey, c: seq<Block>, b: Block)
    requires |n0.blocks| == 1 && Replayable(n0, genesisKey, c)
    requires BlockVerified(Replay(n0, c), genesisKey, b) && ApplyBlock(Replay(n0, c), b).ok
    ensures Replayable(n0, genesisKey, c + [b]) && Replay(n0, c + [b]) == Applied(Replay(n0, c), b)
  {
    hide BlockVerified, ApplyBlock;
    assert (c + [b])[..|c + [b]| - 1] == c;
    AppliedBlocks(Replay(n0, c), b);
  }

  lemma ExtendKeeps(t: Trace, n0: Node, genesisKey: PublicKey, b: Block)
    requires TraceInv(t, n0, genesisKey)
    ensures TraceInv(Step(t, genesisKey, Extend(b)), n0, genesisKey)
  {
    hide Genesis, Replay, Replayable, BlockVerified, ApplyBlock, SnapshotOf;
    if BlockVerified(t.node, genesisKey, b) && ApplyBlock(t.node, b).ok {
      ExtendGoesThrough(t, n0, genesisKey, b);
    } else if BlockVerified(t.node, genesisKey, b) {
      hide TraceInv;
      FailedApply(t.node, b);
      FlagsFree(t, Step(t, genesisKey, Extend(b)), n0, genesisKey);
    }
  }

  /** Nothing in the invariant looks at the flags. */
  lemma FlagsFree(t: Trace, t': Trace, n0: Node, genesisKey: PublicKey)
    requires TraceInv(t, n0, genesisKey)
    requires t'.node == t.node.(flags := t'.node.flags) && t'.saved == t.saved
    ensures TraceInv(t', n0, genesisKey)
  {
    hide Genesis, Replay, Replayable, SnapshotOf;
  }

  lemma ExtendGoesThrough(t: Trace, n0: Node, genesisKey: PublicKey, b: Block)
    requires TraceInv(t, n0, genesisKey)
    requires BlockVerified(t.node, genesisKey, b) && ApplyBlock(t.node, b).ok
    ensures TraceInv(Step(t, genesisKey, Extend(b)), n0, genesisKey)
  {
    hide Settled, Tallied, BlockVerified, ApplyBlock, RowsAhead, Replay, Replayable, SavedRight;
    var t' := Step(t, genesisKey, Extend(b));
    var c := Chain(t.node);
    var m := Replay(n0, c);
    LikeReplay(t, n0, genesisKey);
    ApplyLike(t.node, m, b);
    VerifiedLike(t.node, m, genesisKey, b);
    AppliedBlocks(t.node, b);
    ApplyRows(t.node, b);
    ReplayExtend(n0, genesisKey, c, b);
    assert Chain(t'.node) == c + [b];
    assert t'.node.blocks == n0.blocks + (c + [b]);
    if (|t.node.blocks| + 2) % ACTIVE_DELEGATES == 0 {
      ExtendSnaps(t, t', n0, genesisKey, b);
    } else {
      ExtendKeepsSaved(t, t', n0, genesisKey, b);
    }
  }

  lemma VerifiedLike(n: Node, m: Node, genesisKey: PublicKey, b: Block)
    requires n.books == m.books
    ensures BlockVerified(n, genesisKey, b) == BlockVerified(m, genesisKey, b)
  {
    hide Verified;
  }

  lemma FailedApply(n: Node, b: Block)
    requires !ApplyBlock(n, b).ok
    ensures ApplyBlock(n, b).node == n.(flags := ApplyBlock(n, b).node.flags)
  {
    hide UAll, CAll, Tick;
  }

  /** The step put one more block on the chain, and the new chain replays to the new books. */
  ghost predicate Extended(t: Trace, t': Trace, n0: Node, genesisKey: PublicKey, b: Block) {
    && |n0.blocks| == 1 && |t.node.blocks| > 0 && |t'.node.blocks| > 0
    && ApplyBlock(t.node, b).ok && t'.node == Applied(t.node, b)
    && t'.node.blocks == t.node.blocks + [b]
    && Chain(t'.node) == Chain(t.node) + [b]
    && Replayable(n0, genesisKey, Chain(t'.node))
    && t'.node.books == Replay(n0, Chain(t'.node)).books
    && RowsAhead(t'.node)
  }

  /** One block before the end of a round the snapshot is that of the new head. */
  lemma ExtendSnaps(t: Trace, t': Trace, n0: Node, genesisKey: PublicKey, b: Block)
    requires Extended(t, t', n0, genesisKey, b)
    requires (|t.node.blocks| + 2) % ACTIVE_DELEGATES == 0 && t'.saved == Some(Chain(t'.node))
    ensures SavedRight(t', n0, genesisKey)
  {
    hide ApplyBlock, Replayable, Replay, SnapshotOf;
    var c' := Chain(t'.node);
    AppliedInside(t.node, b);
    SnapshotSame(t'.node, Replay(n0, c'));
    assert c'[..|c'|] == c';
  }

  lemma SnapshotUntouched(n: Node, b: Block)
    requires |n.blocks| > 0 && ApplyBlock(n, b).ok && (|n.blocks| + 2) % ACTIVE_DELEGATES != 0
    ensures Applied(n, b).snapshot == n.snapshot
  {
    hide ApplyBlock, LandedBooks, BooksFold, SnapshotOf, SumRound, RewardRows, Add;
    if (|n.blocks| + 1) % ACTIVE_DELEGATES == 0 { AppliedAtEnd(n, b); } else { AppliedInside(n, b); }
  }

  lemma ExtendKeepsSaved(t: Trace, t': Trace, n0: Node, genesisKey: PublicKey, b: Block)
    requires Extended(t, t', n0, genesisKey, b) && SavedRight(t, n0, genesisKey)
    requires (|t.node.blocks| + 2) % ACTIVE_DELEGATES != 0 && t'.saved == t.saved
    ensures SavedRight(t', n0, genesisKey)
  {
    hide ApplyBlock, Replayable, Replay, SnapshotOf, RowsAhead, Applied;
    var c, c' := Chain(t.node), Chain(t'.node);
    SnapshotUntouched(t.node, b);
    if t.saved.Some? && |t.saved.value| <= |c'| {
      var sc := t.saved.value;
      if |sc| <= |c| {
        assert c'[..|sc|] == c[..|sc|];
        Spacing(|sc|, |c|);
      }
    }
  }

  lemma Spacing(s: nat, c: nat)
    requires (s + 2) % ACTIVE_DELEGATES == 0 && s <= c < s + ACTIVE_DELEGATES
    requires (c + 3) % ACTIVE_DELEGATES != 0
    ensures c + 1 < s + ACTIVE_DELEGATES
  {
  }

  lemma SnapshotSame(n: Node, m: Node)
    requires SnapshotOf(n.snapshot, n) && n.books == m.books
    ensures SnapshotOf(n.snapshot, m)
  {
  }

  // ---------- pops ----------

  lemma PopMatchesInside(a: Node, round: nat, txs: seq<Transaction>)
    requires |a.blocks| > 1 && |a.blocks| % ACTIVE_DELEGATES != 0 && round == CalcRound(|a.blocks|)
    requires txs == a.blocks[|a.blocks| - 1].transactions
    ensures var p, u := PopBlock(a), UndoAll(a, round, txs);
            && p.ok && p.node.blocks == a.blocks[..|a.blocks| - 1]
            && p.node.books == WithProduced(u.books,
                Add(u.books.accts.produced, OfKey(a.blocks[|a.blocks| - 1].generator), -1))
            && p.node.snapshot == a.snapshot && p.node.rounds == u.rounds && p.node.rewardRows == a.rewardRows
  {
    hide UndoAll, Add, BackwardLand;
  }

  /** Two nodes with the same chain and books pop to the same books inside a round. */
  lemma PopInsideSame(n: Node, a: Node)
    requires |n.blocks| > 1 && |n.blocks| % ACTIVE_DELEGATES != 0
    requires n.blocks == a.blocks && n.books == a.books
    ensures PopBlock(n).ok && PopBlock(a).ok && PopBlock(n).node.books == PopBlock(a).node.books
  {
    hide PopBlock, UndoAll, BooksUndoFold, Add;
    var round, txs := CalcRound(|n.blocks|), n.blocks[|n.blocks| - 1].transactions;
    PopMatchesInside(n, round, txs);
    PopMatchesInside(a, round, txs);
    UndoAllBooks(n, round, txs);
    UndoAllBooks(a, round, txs);
  }

  /** At the end of a round the pop depends on the books and on the three parts of the snapshot. */
  lemma PopEndBooks(n: Node, m: Node, genesisKey: PublicKey, b: Block)
    requires |m.blocks| > 0 && BlockVerified(m, genesisKey, b) && ApplyBlock(m, b).ok
    requires Settled(m.books, NextRound(m))
    requires (|m.blocks| + 1) % ACTIVE_DELEGATES == 0
    requires n.blocks == m.blocks + [b] && n.books == Applied(m, b).books
    requires PopBlock(n).ok && SnapshotOf(n.snapshot, m)
    ensures PopBlock(n).node.books == m.books
  {
    hide PopBlock, UndoAll, BooksUndoFold, Add, PayAll, SumRound, BackwardPayouts, Restored, ApplyBlock,
         BlockVerified, Settled, SnapshotOf, LandedBooks, RewardRows;
    var round, txs := CalcRound(|n.blocks|), b.transactions;
    AppliedAtEnd(m, b);
    PopMatches(n, round, txs);
    UndoAllBooks(n, round, txs);
    TakenBackIs(m, b);
    RestoredExactly(m, genesisKey, b, n.snapshot);
  }

  lemma PopRows(n: Node)
    requires |n.blocks| > 1 && PopBlock(n).ok && RowsAhead(n)
    requires |n.blocks| % ACTIVE_DELEGATES == 0 && n.snapshot.Some? ==>
               forall r :: r in n.snapshot.value.rounds ==> r >= CalcRound(|n.blocks|)
    ensures RowsAhead(PopBlock(n).node)
  {
    hide PopBlock, UndoAll, BooksUndoFold, Add, PayAll, SumRound, BackwardPayouts, Restored;
    var round, txs := CalcRound(|n.blocks|), n.blocks[|n.blocks| - 1].transactions;
    UndoAllBooks(n, round, txs);
    if |n.blocks| % ACTIVE_DELEGATES == 0 { PopMatches(n, round, txs); } else { PopMatchesInside(n, round, txs); }
  }

  /** The exact pop: the books are those of replaying the chain without its last block. */
  lemma {:induction false} PopIsReplay(t: Trace, n0: Node, genesisKey: PublicKey)
    requires TraceInv(t, n0, genesisKey)
    requires |t.node.blocks| > 1 && PopBlock(t.node).ok
    requires AtRoundEnd(t.node) ==> !StaleEmpty(t)
    ensures var c := Chain(t.node);
            && Replayable(n0, genesisKey, c[..|c| - 1])
            && PopBlock(t.node).node.books == Replay(n0, c[..|c| - 1]).books
            && PopBlock(t.node).node.blocks == n0.blocks + c[..|c| - 1]
  {
    hide Settled, Tallied, BlockVerified, ApplyBlock, PopBlock, RowsAhead, SnapshotOf, Genesis;
    var c := Chain(t.node);
    var pre, b := c[..|c| - 1], c[|c| - 1];
    var m := Replay(n0, pre);
    PreviousFacts(n0, genesisKey, c);
    var a := Applied(m, b);
    assert a.blocks == t.node.blocks;
    assert t.node.blocks[..|t.node.blocks| - 1] == n0.blocks + pre;
    var round, txs := CalcRound(|t.node.blocks|), b.transactions;
    assert t.node.blocks[|t.node.blocks| - 1] == b;
    if |t.node.blocks| % ACTIVE_DELEGATES != 0 {
      InsideMeansNotFinishing(|t.node.blocks|);
      PopInsideRound(m, genesisKey, b);
      PopInsideSame(t.node, a);
      PopMatchesInside(t.node, round, txs);
    } else {
      PopMatches(t.node, round, txs);
      SavedIsPrevious(t, n0, genesisKey);
      PopEndBooks(t.node, m, genesisKey, b);
    }
  }

  lemma InsideMeansNotFinishing(h: nat)
    requires h > 1 && h % ACTIVE_DELEGATES != 0
    ensures !Finishes(h)
  {
  }

  lemma PreviousFacts(n0: Node, genesisKey: PublicKey, c: seq<Block>)
    requires Genesis(n0) && Replayable(n0, genesisKey, c) && c != []
    ensures var pre, b := c[..|c| - 1], c[|c| - 1];
            var m := Replay(n0, pre);
            && Replayable(n0, genesisKey, pre) && BlockVerified(m, genesisKey, b) && ApplyBlock(m, b).ok
            && Replay(n0, c) == Applied(m, b)
            && m.blocks == n0.blocks + pre && m.flags == {}
            && Settled(m.books, NextRound(m)) && Tallied(m.books, NextRound(m))
            && Applied(m, b).blocks == m.blocks + [b]
  {
    hide Settled, Tallied, BlockVerified, ApplyBlock;
    ReplayFacts(n0, genesisKey, c);
    ReplayFacts(n0, genesisKey, c[..|c| - 1]);
    AppliedBlocks(Replay(n0, c[..|c| - 1]), c[|c| - 1]);
  }

  /** At the end of a round an accepted snapshot that is not a stale empty one is the previous block's. */
  lemma SavedIsPrevious(t: Trace, n0: Node, genesisKey: PublicKey)
    requires TraceInv(t, n0, genesisKey) && AtRoundEnd(t.node) && !StaleEmpty(t)
    requires SnapshotAvailable(t.node.snapshot, CalcRound(|t.node.blocks|))
    ensures var c := Chain(t.node);
            t.saved == Some(c[..|c| - 1]) && SnapshotOf(t.node.snapshot, Replay(n0, c[..|c| - 1]))
  {
    hide Genesis, Replay, Replayable, SnapshotOf, RowsAhead;
    var c, sc := Chain(t.node), t.saved.value;
    if |sc| > |c| {
      LaterRound(|sc|, |c|);
      assert false;
    } else {
      OnlyPrevious(|sc|, |c|);
    }
  }

  lemma LaterRound(s: nat, c: nat)
    requires (c + 1) % ACTIVE_DELEGATES == 0 && s > c
    ensures CalcRound(s + 2) > CalcRound(c + 1)
  {
  }

  lemma OnlyPrevious(s: nat, c: nat)
    requires (s + 2) % ACTIVE_DELEGATES == 0 && (c + 1) % ACTIVE_DELEGATES == 0
    requires s <= c < s + ACTIVE_DELEGATES
    ensures s == c - 1
  {
  }

  lemma PopSavedRight(t: Trace, t': Trace, n0: Node, genesisKey: PublicKey)
    requires |n0.blocks| == 1 && |t.node.blocks| > 1 && SavedRight(t, n0, genesisKey)
    requires |t'.node.blocks| == |t.node.blocks| - 1 && t'.node.blocks == t.node.blocks[..|t.node.blocks| - 1]
    requires t'.saved == t.saved && t'.node.snapshot == t.node.snapshot
    ensures SavedRight(t', n0, genesisKey)
  {
    hide Replay, Replayable, SnapshotOf;
    var c, c' := Chain(t.node), Chain(t'.node);
    assert c' == c[..|c| - 1];
    if t.saved.Some? && |t.saved.value| <= |c'| {
      assert c'[..|t.saved.value|] == c[..|t.saved.value|];
    }
  }

  lemma PopFails(n: Node)
    requires |n.blocks| > 0 && !PopBlock(n).ok
    ensures PopBlock(n).node == n.(flags := PopBlock(n).node.flags)
  {
    hide PopBlock;
    if |n.blocks| > 1 {
      var round, txs := CalcRound(|n.blocks|), n.blocks[|n.blocks| - 1].transactions;
      if |n.blocks| % ACTIVE_DELEGATES == 0 { PopMatches(n, round, txs); } else { PopMatchesInside(n, round, txs); }
    } else {
      PopGenesis(n);
    }
  }

  /** The genesis block is never removed. */
  lemma PopGenesis(n: Node)
    requires |n.blocks| == 1
    ensures PopBlock(n) == Attempt(n, false)
  {
  }

  lemma PopKeepsSnapshot(n: Node)
    requires |n.blocks| > 1 && PopBlock(n).ok
    ensures PopBlock(n).node.snapshot == n.snapshot && PopBlock(n).node.blocks == n.blocks[..|n.blocks| - 1]
  {
    hide PopBlock;
    var round, txs := CalcRound(|n.blocks|), n.blocks[|n.blocks| - 1].transactions;
    if |n.blocks| % ACTIVE_DELEGATES == 0 { PopMatches(n, round, txs); } else { PopMatchesInside(n, round, txs); }
  }

  lemma PopKeeps(t: Trace, n0: Node, genesisKey: PublicKey)
    requires TraceInv(t, n0, genesisKey)
    requires AtRoundEnd(t.node) ==> !StaleEmpty(t)
    ensures TraceInv(Step(t, genesisKey, Pop), n0, genesisKey)
  {
    hide Genesis, Replay, Replayable, SnapshotOf, PopBlock;
    var t' := Step(t, genesisKey, Pop);
    if PopBlock(t.node).ok {
      if |t.node.blocks| == 1 {
        PopGenesis(t.node);
        assert false;
      }
      PopIsReplay(t, n0, genesisKey);
      PopKeepsSnapshot(t.node);
      PopSavedRight(t, t', n0, genesisKey);
      SnapshotRowsAhead(t, n0, genesisKey);
      PopRows(t.node);
      var c := Chain(t.node);
      GenesisOne(t, n0, genesisKey);
      assert Chain(t'.node) == c[..|c| - 1];
    } else {
      PopFails(t.node);
    }
  }

  lemma GenesisOne(t: Trace, n0: Node, genesisKey: PublicKey)
    requires TraceInv(t, n0, genesisKey)
    ensures |n0.blocks| == 1
  {
    hide Settled, Tallied;
  }

  lemma SnapshotRowsAhead(t: Trace, n0: Node, genesisKey: PublicKey)
    requires TraceInv(t, n0, genesisKey) && |t.node.blocks| > 1
    ensures |t.node.blocks| % ACTIVE_DELEGATES == 0 && t.node.snapshot.Some? ==>
              forall r :: r in t.node.snapshot.value.rounds ==> r >= CalcRound(|t.node.blocks|)
  {
    hide Genesis, Replay, Replayable, SnapshotOf, RowsAhead;
    if |t.node.blocks| % ACTIVE_DELEGATES == 0 {
      var c, sc := Chain(t.node), t.saved.value;
      if |sc| > |c| { LaterRound(|sc|, |c|); } else { OnlyPrevious(|sc|, |c|); }
    }
  }

  // ---------- whole runs ----------

  ghost function Run(n0: Node, genesisKey: PublicKey, es: seq<Event>): (t: Trace)
    requires |n0.blocks| > 0
    ensures |t.node.blocks| > 0
  {
    if es == [] then Trace(n0, None)
    else
      var t := Run(n0, genesisKey, es[..|es| - 1]);
      var t' := Step(t, genesisKey, es[|es| - 1]);
      if |t'.node.blocks| > 0 then t' else t
  }

  /** No pop of the run is at the end of a round with an empty snapshot from above the head. */
  ghost predicate NoStalePop(n0: Node, genesisKey: PublicKey, es: seq<Event>)
    requires |n0.blocks| > 0
  {
    forall k :: 0 <= k < |es| && es[k].Pop? ==>
      var t := Run(n0, genesisKey, es[..k]);
      AtRoundEnd(t.node) ==> !StaleEmpty(t)
  }

  lemma {:induction false} RunKeeps(n0: Node, genesisKey: PublicKey, es: seq<Event>)
    requires Genesis(n0) && NoStalePop(n0, genesisKey, es)
    ensures TraceInv(Run(n0, genesisKey, es), n0, genesisKey)
  {
    if es == [] {
      GenesisTrace(n0, genesisKey);
    } else {
      hide Genesis, TraceInv, Step;
      var pre, e := es[..|es| - 1], es[|es| - 1];
      GenesisBlock(n0);
      forall k | 0 <= k < |pre| && pre[k].Pop?
        ensures AtRoundEnd(Run(n0, genesisKey, pre[..k]).node) ==> !StaleEmpty(Run(n0, genesisKey, pre[..k]))
      {
        assert pre[..k] == es[..k] && es[k] == pre[k];
      }
      RunKeeps(n0, genesisKey, pre);
      var t := Run(n0, genesisKey, pre);
      match e
      case Extend(b) => ExtendKeeps(t, n0, genesisKey, b);
      case Pop => PopKeeps(t, n0, genesisKey);
      StepNonEmpty(t, n0, genesisKey, e);
    }
  }

  lemma GenesisBlock(n0: Node)
    requires Genesis(n0)
    ensures |n0.blocks| == 1
  {
    hide Settled, Tallied;
  }

  lemma StepNonEmpty(t: Trace, n0: Node, genesisKey: PublicKey, e: Event)
    requires |t.node.blocks| > 0
    requires TraceInv(Step(t, genesisKey, e), n0, genesisKey)
    ensures |Step(t, genesisKey, e).node.blocks| > 0
  {
    hide Genesis, Step, Replay, Replayable;
  }

  lemma NoStalePrefix(n0: Node, genesisKey: PublicKey, es: seq<Event>, e: Event)
    requires |n0.blocks| > 0 && NoStalePop(n0, genesisKey, es + [e])
    ensures NoStalePop(n0, genesisKey, es)
    ensures e.Pop? ==> (AtRoundEnd(Run(n0, genesisKey, es).node) ==> !StaleEmpty(Run(n0, genesisKey, es)))
  {
    hide Run, AtRoundEnd, StaleEmpty;
    var all := es + [e];
    forall k | 0 <= k < |es| && es[k].Pop?
      ensures AtRoundEnd(Run(n0, genesisKey, es[..k]).node) ==> !StaleEmpty(Run(n0, genesisKey, es[..k]))
    {
      assert all[..k] == es[..k] && all[k] == es[k];
    }
    if e.Pop? { assert all[..|es|] == es && all[|es|] == e; }
  }

  lemma RunPush(n0: Node, genesisKey: PublicKey, es: seq<Event>, e: Event)
    requires |n0.blocks| > 0
    requires |Step(Run(n0, genesisKey, es), genesisKey, e).node.blocks| > 0
    ensures Run(n0, genesisKey, es + [e]) == Step(Run(n0, genesisKey, es), genesisKey, e)
  {
    hide Step;
    assert (es + [e])[..|es|] == es;
  }

  /** The books at the end of any such run are those of replaying the chain it ends with: every
      invariant of forward application holds, whatever was popped on the way. */
  lemma RunIsReplay(n0: Node, genesisKey: PublicKey, es: seq<Event>)
    requires Genesis(n0) && NoStalePop(n0, genesisKey, es)
    ensures var n := Run(n0, genesisKey, es).node;
            && n.blocks == n0.blocks + Chain(n)
            && Replayable(n0, genesisKey, Chain(n))
            && n.books == Replay(n0, Chain(n)).books
            && Settled(n.books, NextRound(n))
  {
    hide Settled, Tallied, Replay, Replayable, Run;
    RunKeeps(n0, genesisKey, es);
    LikeReplay(Run(n0, genesisKey, es), n0, genesisKey);
  }

  /** In every state a run reaches, a delegate's votes plus its pending rows are the sum of its
      voters' balances. */
  lemma TallyAlwaysRight(n0: Node, genesisKey: PublicKey, es: seq<Event>, U: set<Address>, d: PublicKey)
    requires Genesis(n0) && NoStalePop(n0, genesisKey, es)
    requires Supports(U, Run(n0, genesisKey, es).node.books.accts.conf)
    ensures var n := Run(n0, genesisKey, es).node;
            Get(n.books.votes, OfKey(d)) + PendingAt(n.books.pending, NextRound(n), d) == Backing(U,
                n.books.accts.conf, d)
  {
    hide Settled, Replay, Replayable, Run, Backing;
    RunKeeps(n0, genesisKey, es);
    var n := Run(n0, genesisKey, es).node;
    LikeReplay(Run(n0, genesisKey, es), n0, genesisKey);
    assert TallyAt(n.books, NextRound(n), U, d);
  }

  // ---------- the stale pop ----------

  lemma RegistersOnlyNew(n: Node, genesisKey: PublicKey, b: Block, a: Address)
    requires BlockVerified(n, genesisKey, b) && ApplyBlock(n, b).ok && Settled(n.books, NextRound(n))
    requires Row(n.books.accts.conf, a).isDelegate
    ensures !Registers(b.transactions, a)
  {
    hide Settled, BlockVerified, ApplyBlock, BooksFold, Row;
    VerifiedRunOk(n, genesisKey, b);
    var txs := b.transactions;
    if i :| 0 <= i < |txs| && txs[i].asset.Registration? && txs[i].From() == a {
      assert TxOk(BooksFold(n.books, NextRound(n), txs[..i]), txs[i]);
      VotesOfFold(n.books, NextRound(n), txs[..i], a);
    }
  }

  /** The vote column a stale pop leaves: the snapshot's entry where it has one, the landed vote of
      any other delegate. */
  lemma StaleVotes(t: Trace, n0: Node, genesisKey: PublicKey, a: Address)
    requires TraceInv(t, n0, genesisKey) && AtRoundEnd(t.node) && StaleEmpty(t)
    ensures PopBlock(t.node).ok
    ensures var c, saved := Chain(t.node), t.node.snapshot.value.votes;
            var right := Replay(n0, c[..|c| - 1]).books;
            Get(PopBlock(t.node).node.books.votes, a) ==
              if a in saved then saved[a]
              else if Row(right.accts.conf, a).isDelegate then Get(t.node.books.votes, a) else Get(right.votes, a)
  {
    hide Settled, Tallied, BlockVerified, ApplyBlock, PopBlock, RowsAhead, SnapshotOf, Genesis, SumRound,
         BooksUndoFold, RewardRows, Row, Replay, Replayable, LandedBooks, TakenBack, Registers, Get, SavedRight,
         UndoAll, PayAll, Add, BackwardPayouts;
    var c := Chain(t.node);
    var b := c[|c| - 1];
    var m := Replay(n0, c[..|c| - 1]);
    PreviousFacts(n0, genesisKey, c);
    var round := CalcRound(|t.node.blocks|);
    assert t.node.blocks[|t.node.blocks| - 1] == b;
    PopMatches(t.node, round, b.transactions);
    VotesOfPop(t.node, a);
    AppliedAtEnd(m, b);
    TakenBackIs(m, b);
    assert t.node.blocks == m.blocks + [b];
    assert t.node.books == LandedBooks(m, b);
    if Row(m.books.accts.conf, a).isDelegate {
      RegistersOnlyNew(m, genesisKey, b, a);
    } else {
      TakenBackVotes(m, genesisKey, b, a);
      NonDelegateVotes(m.books, round, a);
      var s := SumRound(t.node.blocks);
      var u := BooksUndoFold(t.node.books, round, b.transactions);
      PayAllAccts(WithProduced(u, Add(u.accts.produced, OfKey(b.generator), -1)), round,
                  BackwardPayouts(s.delegates, s.rewards, s.fees));
      VotesOfUndo(t.node.books, round, b.transactions, a);
    }
  }

  /** The vote column after the pop of a round's last block. */
  lemma VotesOfPop(n: Node, a: Address)
    requires AtRoundEnd(n) && PopBlock(n).ok
    ensures n.snapshot.Some?
    ensures Get(PopBlock(n).node.books.votes, a) ==
            if a in n.snapshot.value.votes then n.snapshot.value.votes[a]
            else if Registers(n.blocks[|n.blocks| - 1].transactions, a) then 0 else Get(n.books.votes, a)
  {
    hide PopBlock, UndoAll, BooksUndoFold, Registers, PayAll, Add, SumRound, BackwardPayouts;
    var round, txs, s := CalcRound(|n.blocks|), n.blocks[|n.blocks| - 1].transactions, SumRound(n.blocks);
    PopMatches(n, round, txs);
    UndoAllBooks(n, round, txs);
    VotesOfUndo(n.books, round, txs, a);
    var u := BooksUndoFold(n.books, round, txs);
    PayAllAccts(WithProduced(u, Add(u.accts.produced, OfKey(n.blocks[|n.blocks| - 1].generator), -1)), round,
                BackwardPayouts(s.delegates, s.rewards, s.fees));
  }
}
