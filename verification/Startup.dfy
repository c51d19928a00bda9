/** How far the chain repair at startup (modules/loader.js validateOwnChain) can go. */
module Startup {
  import opened Base
  import opened Accounts
  import opened Payouts
  import opened Ledger
  import opened Rollback
  import opened Invariants
  import opened PopBlocks
  import opened Landing
  import opened History
  import opened ExactPops

  /** Deleting one block after the other, as far as that goes. */
  ghost function Pops(t: Trace, genesisKey: PublicKey, k: nat): Trace {
    if k == 0 then t
    else
      var s := Pops(t, genesisKey, k - 1);
      if |s.node.blocks| > 0 then Step(s, genesisKey, Pop) else s
  }

  lemma SnapshotStays(t: Trace, genesisKey: PublicKey)
    requires |t.node.blocks| > 0
    ensures Step(t, genesisKey, Pop).saved == t.saved && Step(t, genesisKey, Pop).node.snapshot == t.node.snapshot
  {
    hide PopBlock;
    if !PopBlock(t.node).ok {
      PopFails(t.node);
    } else if |t.node.blocks| > 1 {
      PopKeepsSnapshot(t.node);
    } else {
      PopGenesis(t.node);
    }
  }

  lemma NonEmptyTrace(t: Trace, n0: Node, genesisKey: PublicKey)
    requires TraceInv(t, n0, genesisKey)
    ensures |t.node.blocks| > 0
  {
    hide Genesis, Replay, Replayable, SavedRight, RowsAhead;
  }

  // ---------- every run ----------

  /** What every run keeps of its snapshot, whatever is popped: its rows are not of earlier rounds, it is renewed when
      the chain grows past it, and while it has rows the chain is at most 100 blocks below it. */
  ghost predicate SnapshotAhead(t: Trace) {
    && |t.node.blocks| > 0 && RowsAhead(t.node) && RoundsAhead(t)
    && (t.saved.Some? <==> t.node.snapshot.Some?)
    && (t.saved.Some? ==>
          && |t.node.blocks| < |t.saved.value| + 1 + ACTIVE_DELEGATES
          && (t.node.snapshot.value.rounds != {} ==> |t.node.blocks| + 99 >= |t.saved.value|))
  }

  lemma ExtendAhead(t: Trace, genesisKey: PublicKey, b: Block)
    requires SnapshotAhead(t)
    ensures SnapshotAhead(Step(t, genesisKey, Extend(b)))
  {
    hide BlockVerified, ApplyBlock, RowsAhead, SnapshotOf;
    if BlockVerified(t.node, genesisKey, b) {
      if ApplyBlock(t.node, b).ok {
        AppliedBlocks(t.node, b);
        ApplyRows(t.node, b);
        if (|t.node.blocks| + 2) % ACTIVE_DELEGATES == 0 {
          AppliedInside(t.node, b);
          SnapshotRows(Applied(t.node, b));
        } else {
          SnapshotUntouched(t.node, b);
          if t.saved.Some? { Grows(|t.saved.value|, |t.node.blocks|); }
        }
      } else {
        FailedApply(t.node, b);
        SameRowsAhead(t.node, ApplyBlock(t.node, b).node);
      }
    }
  }

  lemma SnapshotRows(n: Node)
    requires RowsAhead(n) && SnapshotOf(n.snapshot, n) && n.snapshot.value.rounds == n.rounds
    ensures n.snapshot.Some? && forall r :: r in n.snapshot.value.rounds ==> r >= CalcRound(|n.blocks| + 1)
  {
  }

  lemma SameRowsAhead(n: Node, m: Node)
    requires RowsAhead(n) && m.rounds == n.rounds && m.blocks == n.blocks
    ensures RowsAhead(m)
  {
  }

  lemma Grows(s: nat, h: nat)
    requires (s + 2) % ACTIVE_DELEGATES == 0 && h < s + 1 + ACTIVE_DELEGATES && (h + 2) % ACTIVE_DELEGATES != 0
    ensures h + 1 < s + 1 + ACTIVE_DELEGATES
  {
  }

  lemma PopAhead(t: Trace, genesisKey: PublicKey)
    requires SnapshotAhead(t)
    ensures SnapshotAhead(Step(t, genesisKey, Pop))
  {
    hide PopBlock, RowsAhead;
    if !PopBlock(t.node).ok {
      PopFails(t.node);
      SameRowsAhead(t.node, PopBlock(t.node).node);
    } else {
      if |t.node.blocks| == 1 {
        PopGenesis(t.node);
        assert false;
      }
      PopKeepsSnapshot(t.node);
      PopGoesThroughIff(t.node);
      if |t.node.blocks| % ACTIVE_DELEGATES == 0 { EndRows(t); }
      PopRows(t.node);
      if t.saved.Some? && |t.node.blocks| + 99 == |t.saved.value| && t.node.snapshot.value.rounds != {} {
        Below(|t.saved.value|, |t.node.blocks| - 1);
        SecondRoundEndStops(t);
        assert false;
      }
    }
  }

  /** At the end of a round no row of the snapshot is of an earlier one. */
  lemma EndRows(t: Trace)
    requires SnapshotAhead(t) && |t.node.blocks| > 1 && |t.node.blocks| % ACTIVE_DELEGATES == 0
    ensures t.node.snapshot.Some? ==> forall r :: r in t.node.snapshot.value.rounds ==> r >= CalcRound(|t.node.blocks|)
  {
    hide RowsAhead;
    if t.saved.Some? {
      var s, c := |t.saved.value|, |t.node.blocks| - 1;
      if s > c { LaterRound(s, c); } else { OnlyPrevious(s, c); }
    }
  }

  lemma StartAhead(n0: Node)
    requires Genesis(n0)
    ensures SnapshotAhead(Trace(n0, None))
  {
    hide Settled, Tallied;
  }

  lemma {:induction false} RunAhead(n0: Node, genesisKey: PublicKey, es: seq<Event>)
    requires Genesis(n0)
    ensures |n0.blocks| > 0 && SnapshotAhead(Run(n0, genesisKey, es))
  {
    hide Genesis, SnapshotAhead, Step;
    GenesisBlock(n0);
    if es == [] {
      StartAhead(n0);
    } else {
      var t := Run(n0, genesisKey, es[..|es| - 1]);
      RunAhead(n0, genesisKey, es[..|es| - 1]);
      match es[|es| - 1] {
        case Extend(b) => ExtendAhead(t, genesisKey, b);
        case Pop => PopAhead(t, genesisKey);
      }
      AheadNonEmpty(Step(t, genesisKey, es[|es| - 1]));
    }
  }

  lemma AheadNonEmpty(t: Trace)
    requires SnapshotAhead(t)
    ensures |t.node.blocks| > 0 && RoundsAhead(t)
  {
    hide RoundsAhead, RowsAhead;
  }

  lemma {:induction false} PopsAhead(t: Trace, genesisKey: PublicKey, k: nat)
    requires SnapshotAhead(t)
    ensures var s := Pops(t, genesisKey, k);
            SnapshotAhead(s) && s.saved == t.saved && s.node.snapshot == t.node.snapshot
  {
    hide Step, SnapshotAhead;
    if k > 0 {
      PopsAhead(t, genesisKey, k - 1);
      var s := Pops(t, genesisKey, k - 1);
      AheadNonEmpty(s);
      SnapshotStays(s, genesisKey);
      PopAhead(s, genesisKey);
    }
  }

  /** From any state of any run, wherever in its round the head is and whatever was popped before: while the
      snapshot has rows, no number of deletions gets below the end of the round before the one the snapshot is of. */
  lemma RepairIsBounded(n0: Node, genesisKey: PublicKey, es: seq<Event>, k: nat)
    requires Genesis(n0)
    ensures |n0.blocks| > 0
    ensures var t := Run(n0, genesisKey, es);
            t.node.snapshot.Some? && t.node.snapshot.value.rounds != {} ==>
              t.saved.Some? && |Pops(t, genesisKey, k).node.blocks| >= |t.saved.value| + 2 - ACTIVE_DELEGATES
  {
    hide Genesis, Run, Pops, RowsAhead, RoundsAhead;
    RunAhead(n0, genesisKey, es);
    PopsAhead(Run(n0, genesisKey, es), genesisKey, k);
  }

  /** And exactly when the snapshot is empty does deletion go on below that end. */
  lemma RoundEndBelowStops(n0: Node, genesisKey: PublicKey, es: seq<Event>)
    requires Genesis(n0)
    ensures |n0.blocks| > 0
    ensures var t := Run(n0, genesisKey, es);
            AtRoundEnd(t.node) && t.saved.Some? && |t.saved.value| + 1 > |t.node.blocks| ==>
              t.node.snapshot.Some? && (PopBlock(t.node).ok <==> t.node.snapshot.value.rounds == {})
  {
    hide Genesis, Run, PopBlock, SnapshotAhead;
    RunAhead(n0, genesisKey, es);
    var t := Run(n0, genesisKey, es);
    AheadNonEmpty(t);
    if AtRoundEnd(t.node) && t.saved.Some? && |t.saved.value| + 1 > |t.node.blocks| { SecondRoundEndStops(t); }
  }

  /** When no pop of the run was stale, every state on the way down is one of the chain that is left. */
  lemma {:induction false} RepairKeeps(n0: Node, genesisKey: PublicKey, t: Trace, k: nat)
    requires TraceInv(t, n0, genesisKey) && SavedNear(t) && t.saved.Some?
    requires t.node.snapshot.Some? && t.node.snapshot.value.rounds != {}
    ensures var s := Pops(t, genesisKey, k);
            TraceInv(s, n0, genesisKey) && SavedNear(s) && s.saved == t.saved && s.node.snapshot == t.node.snapshot
  {
    hide Step, TraceInv, AtRoundEnd;
    NonEmptyTrace(t, n0, genesisKey);
    if k > 0 {
      RepairKeeps(n0, genesisKey, t, k - 1);
      var s := Pops(t, genesisKey, k - 1);
      NonEmptyTrace(s, n0, genesisKey);
      SnapshotStays(s, genesisKey);
      PopNear(s, n0, genesisKey);
      PopKeeps(s, n0, genesisKey);
    }
  }
}
