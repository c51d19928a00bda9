/** helpers/round_changes.js, and reversing an array in place. */
module RoundChanging {
  import opened Payouts

  /** The changes read the caller's reward array, so reversing that array reverses them too. */
  class RoundChanges {
    const roundFees: nat
    const roundRewards: array<int>

    constructor (roundFees: nat, roundRewards: array<int>)
      ensures this.roundFees == roundFees && this.roundRewards == roundRewards
    {
      this.roundFees := roundFees;
      this.roundRewards := roundRewards;
    }

    /** An equal floor share of the fees, what is left of them, and the reward at this position. */
    method At(index: nat) returns (changes: Changes)
      requires index < roundRewards.Length
      ensures changes == ChangesAt(roundFees, roundRewards[index])
      ensures changes.fees * ACTIVE_DELEGATES + changes.feesRemaining == roundFees
      ensures 0 <= changes.feesRemaining < ACTIVE_DELEGATES
      ensures changes.balance == changes.fees + roundRewards[index]
    {
      var fees := roundFees / ACTIVE_DELEGATES;
      var feesRemaining := roundFees - fees * ACTIVE_DELEGATES;
      var rewards := roundRewards[index];
      changes := Changes(fees, feesRemaining, rewards, fees + rewards);
    }
  }

  function Backwards<T>(s: seq<T>): (r: seq<T>)
    ensures |r| == |s|
  {
    seq(|s|, i requires 0 <= i < |s| => s[|s| - 1 - i])
  }

  lemma BackwardsTwice<T>(s: seq<T>)
    ensures Backwards(Backwards(s)) == s
  {
  }

  method ReverseInPlace<T>(a: array<T>)
    modifies a
    ensures a[..] == Backwards(old(a[..]))
  {
    var i := 0;
    while i < a.Length / 2
      invariant 0 <= i <= a.Length / 2
      invariant forall k :: 0 <= k < i || a.Length - i <= k < a.Length ==> a[k] == old(a[a.Length - 1 - k])
      invariant forall k :: i <= k < a.Length - i ==> a[k] == old(a[k])
    {
      a[i], a[a.Length - 1 - i] := a[a.Length - 1 - i], a[i];
      i := i + 1;
    }
  }
}
