/** logic/block_reward.js: reward milestones and the coin supply. */
module BlockRewards {

  function Abs(x: int): nat { if x < 0 then -x else x }

  /** Math.trunc of a quotient. */
  function Trunc(x: int, y: int): int
    requires y > 0
  {
    if x < 0 then -(-x / y) else x / y
  }

  /** Reward settings: at least one milestone, and a distance of at least one block. */
  datatype Rewards = Rewards(milestones: seq<nat>, distance: nat, offset: int, totalAmount: nat)
  {
    predicate Valid() { |milestones| > 0 && distance > 0 }

    function CalcMilestone(height: int): (i: int)
      requires Valid()
      ensures i < |milestones|
      ensures Abs(height) >= offset ==> i >= 0
    {
      var location := Trunc(Abs(height) - offset, distance);
      if location > |milestones| - 1 then |milestones| - 1 else location
    }

    function CalcReward(height: int): nat
      requires Valid()
    {
      if Abs(height) < offset then 0 else milestones[CalcMilestone(height)]
    }

    /** The sum of the rewards of the blocks from `from` to `to`. */
    function RewardsBetween(from: int, to: int): nat
      requires Valid()
      decreases if to < from then 0 else to - from + 1
    {
      if to < from then 0 else RewardsBetween(from, to - 1) + RewardAt(to)
    }

    /** The reward at a height counted from the offset; heights of blocks are positive. */
    function RewardAt(height: int): nat
      requires Valid()
    {
      if height < offset then 0
      else
        var location := (height - offset) / distance;
        milestones[if location > |milestones| - 1 then |milestones| - 1 else location]
    }

    lemma RewardOfBlock(height: nat)
      requires Valid()
      ensures CalcReward(height) == RewardAt(height)
    {
    }

    /** All blocks of one milestone bring the same reward. */
    lemma {:induction false} SameMilestone(i: nat, from: int, to: int)
      requires Valid() && i < |milestones|
      requires offset + i * distance <= from <= to + 1
      requires i < |milestones| - 1 ==> to < offset + (i + 1) * distance
      ensures RewardsBetween(from, to) == (to - from + 1) * milestones[i]
      decreases if to < from then 0 else to - from + 1
    {
      hide RewardAt;
      if from <= to {
        SameMilestone(i, from, to - 1);
        MilestoneAt(i, to);
        OneMore(to - from, milestones[i]);
      }
    }

    lemma MilestoneAt(i: nat, height: int)
      requires Valid() && i < |milestones| && offset + i * distance <= height
      requires i < |milestones| - 1 ==> height < offset + (i + 1) * distance
      ensures RewardAt(height) == milestones[i]
    {
      var d := height - offset;
      if i < |milestones| - 1 {
        QuotientIs(d, distance, i);
      } else {
        QuotientAtLeast(d, distance, i);
      }
    }

    lemma {:induction false} RewardsSplit(from: int, mid: int, to: int)
      requires Valid() && from <= mid + 1 && mid <= to
      ensures RewardsBetween(from, to) == RewardsBetween(from, mid) + RewardsBetween(mid + 1, to)
      decreases if to < mid then 0 else to - mid
    {
      if mid < to { RewardsSplit(from, mid, to - 1); }
    }

    lemma {:induction false} NothingBefore(from: int, to: int)
      requires Valid() && to < offset
      ensures RewardsBetween(from, to) == 0
      decreases if to < from then 0 else to - from + 1
    {
      if from <= to { NothingBefore(from, to - 1); }
    }
  }

  lemma OneMore(x: int, y: int)
    ensures (x + 1) * y == x * y + y
  {
  }

  lemma QuotientIs(d: int, n: nat, i: nat)
    requires n > 0 && i * n <= d < (i + 1) * n
    ensures d / n == i
  {
    var q, r := d / n, d % n;
    assert d == q * n + r && 0 <= r < n;
    OneMore(q, n);
    if q < i { Scale(q + 1, i, n); }
    if q > i { Scale(i + 1, q, n); }
  }

  lemma QuotientAtLeast(d: int, n: nat, i: nat)
    requires n > 0 && i * n <= d
    ensures d / n >= i
  {
    var q, r := d / n, d % n;
    assert d == q * n + r && 0 <= r < n;
    OneMore(q, n);
    if q < i { Scale(q + 1, i, n); }
  }

  lemma Scale(x: int, y: int, n: nat)
    requires x <= y
    ensures x * n <= y * n
  {
  }

  /** What the entries of the rewards list are worth together. */
  function Worth(rewards: seq<(nat, nat)>): nat {
    if rewards == [] then 0
    else
      var (amount, multiplier) := rewards[|rewards| - 1];
      Worth(rewards[..|rewards| - 1]) + amount * multiplier
  }

  lemma WorthPush(rewards: seq<(nat, nat)>, amount: nat, multiplier: nat)
    ensures Worth(rewards + [(amount, multiplier)]) == Worth(rewards) + amount * multiplier
  {
    assert (rewards + [(amount, multiplier)])[..|rewards|] == rewards;
  }

  /** The rewards of the first `i` milestones, or all of them. */
  ghost predicate PaidFor(c: Rewards, height: nat, rewards: seq<(nat, nat)>, left: int, i: nat)
    requires c.Valid()
  {
    if i <= c.CalcMilestone(height)
    then left == height - c.offset + 1 - i * c.distance
        && Worth(rewards) == c.RewardsBetween(c.offset, c.offset + i * c.distance - 1)
    else Worth(rewards) == c.RewardsBetween(c.offset, height)
  }

  /** What one pass of the loop takes off the height, and what it pays for. */
  function Amount(c: Rewards, left: nat, i: nat): nat
    requires c.Valid()
  {
    if left < c.distance then left else if i == |c.milestones| - 1 then left else c.distance
  }

  lemma PassPays(c: Rewards, height: nat, rewards: seq<(nat, nat)>, left: nat, i: nat)
    requires c.Valid() && height >= c.offset && i < |c.milestones| && i <= c.CalcMilestone(height)
    requires PaidFor(c, height, rewards, left, i)
    ensures PaidFor(c, height, rewards + [(Amount(c, left, i), c.milestones[i])], left - c.distance, i + 1)
  {
    hide Worth;
    var start := c.offset + i * c.distance;
    var end := if i < c.CalcMilestone(height) then start + c.distance - 1 else height;
    LeftOver(c, height, i);
    OneMore(i, c.distance);
    WorthPush(rewards, Amount(c, left, i), c.milestones[i]);
    PassEnds(c, height, i);
    hide c.CalcMilestone, c.RewardsBetween;
    assert Amount(c, left, i) == end - start + 1;
    c.SameMilestone(i, start, end);
    c.RewardsSplit(c.offset, start - 1, end);
  }

  lemma PassEnds(c: Rewards, height: nat, i: nat)
    requires c.Valid() && height >= c.offset && i < |c.milestones| && i <= c.CalcMilestone(height)
    ensures c.offset + i * c.distance <= height
    ensures i == c.CalcMilestone(height) < |c.milestones| - 1 ==> height < c.offset + (i + 1) * c.distance
    ensures i * c.distance >= 0
  {
    hide c.CalcMilestone;
    LeftOver(c, height, i);
    OneMore(i, c.distance);
    Scale(0, i, c.distance);
  }

  /** The milestone loop: how many blocks each milestone has paid for.  Together they are worth all
      rewards from the offset to the height. */
  method MilestoneAmounts(c: Rewards, height: nat) returns (rewards: seq<(nat, nat)>)
    requires c.Valid() && height >= c.offset
    ensures Worth(rewards) == c.RewardsBetween(c.offset, height)
  {
    hide PaidFor, Worth;
    var milestone := c.CalcMilestone(height);
    rewards := [];
    var left := height - (c.offset - 1);
    assert PaidFor(c, height, rewards, left, 0) by { NothingPaid(c, height); }
    var i := 0;
    while i < |c.milestones| && milestone >= i
      invariant 0 <= i <= |c.milestones| && i <= milestone + 1
      invariant PaidFor(c, height, rewards, left, i)
    {
      var multiplier := c.milestones[i];
      var amount;
      ghost var before := left;
      LeftIs(c, height, rewards, left, i);
      PassPays(c, height, rewards, left, i);
      if left < c.distance {
        amount := left % c.distance;
      } else {
        amount := c.distance;
        left := left - c.distance;
        if left > 0 && i == |c.milestones| - 1 { amount := amount + left; }
      }
      assert amount == Amount(c, before, i);
      LeftIrrelevant(c, height, rewards + [(amount, multiplier)], before - c.distance, left, i);
      rewards := rewards + [(amount, multiplier)];
      i := i + 1;
    }
    PaidAll(c, height, rewards, left, i);
  }

  lemma NothingPaid(c: Rewards, height: nat)
    requires c.Valid() && height >= c.offset
    ensures PaidFor(c, height, [], height - (c.offset - 1), 0)
  {
  }

  lemma LeftIs(c: Rewards, height: nat, rewards: seq<(nat, nat)>, left: int, i: nat)
    requires c.Valid() && height >= c.offset && i < |c.milestones| && i <= c.CalcMilestone(height)
    requires PaidFor(c, height, rewards, left, i)
    ensures left >= 1 && (i < c.CalcMilestone(height) ==> left > c.distance)
  {
    LeftOver(c, height, i);
  }

  /** Only a pass that is not the last has to hand on what is left. */
  lemma LeftIrrelevant(c: Rewards, height: nat, rewards: seq<(nat, nat)>, left: int, left': int, i: nat)
    requires c.Valid() && PaidFor(c, height, rewards, left, i + 1)
    requires i < c.CalcMilestone(height) ==> left' == left
    ensures PaidFor(c, height, rewards, left', i + 1)
  {
    hide c.CalcMilestone, Worth, c.RewardsBetween;
  }

  lemma PaidAll(c: Rewards, height: nat, rewards: seq<(nat, nat)>, left: int, i: nat)
    requires c.Valid() && PaidFor(c, height, rewards, left, i) && i > c.CalcMilestone(height)
    ensures Worth(rewards) == c.RewardsBetween(c.offset, height)
  {
  }

  /** While milestones are left the height reaches past the current one. */
  lemma LeftOver(c: Rewards, height: nat, i: nat)
    requires c.Valid() && height >= c.offset && i <= c.CalcMilestone(height)
    ensures var left := height - c.offset + 1 - i * c.distance;
            && left >= 1
            && (i < c.CalcMilestone(height) ==> left > c.distance)
            && (i == c.CalcMilestone(height) < |c.milestones| - 1 ==> left <= c.distance)
  {
    var d := height - c.offset;
    var q, m := d / c.distance, c.CalcMilestone(height);
    assert d == q * c.distance + d % c.distance;
    Scale(i, q, c.distance);
    if i < m {
      Scale(i + 1, q, c.distance);
      assert (i + 1) * c.distance == i * c.distance + c.distance;
    }
    if i == m < |c.milestones| - 1 {
      assert q == i;
    }
  }

  /** calcSupply adds up the list into values it throws away, so it always answers the initial amount. */
  method CalcSupply(c: Rewards, height: int) returns (supply: nat)
    requires c.Valid()
    ensures supply == c.totalAmount
  {
    supply := c.totalAmount;
    if Abs(height) < c.offset { return; }
    var rewards := MilestoneAmounts(c, Abs(height));
    var i := 0;
    while i < |rewards|
      invariant 0 <= i <= |rewards| && supply == c.totalAmount
    {
      var unused := supply + rewards[i].0 * rewards[i].1;
      i := i + 1;
    }
  }

  /** What the supply should be. */
  function Supply(c: Rewards, height: nat): nat
    requires c.Valid()
  {
    c.totalAmount + c.RewardsBetween(1, height)
  }

  /** The milestone loop pays for exactly the blocks from 1 to the height if and only if nothing is due up
      to height 0, as with every offset of at least 1. */
  lemma LoopIsSupplyIff(c: Rewards, height: nat)
    requires c.Valid() && c.offset <= height
    ensures c.totalAmount + c.RewardsBetween(c.offset, height) == Supply(c, height) <==>
            c.RewardsBetween(c.offset, 0) == 0
    ensures c.offset >= 1 ==> c.RewardsBetween(c.offset, 0) == 0
  {
    if c.offset >= 1 {
      c.RewardsSplit(1, c.offset - 1, height);
      c.NothingBefore(1, c.offset - 1);
    } else {
      c.RewardsSplit(c.offset, 0, height);
    }
  }

  lemma {:induction false} NothingDueIff(c: Rewards, height: nat)
    requires c.Valid()
    ensures c.RewardsBetween(1, height) == 0 <==> forall h: nat :: 1 <= h <= height ==> c.CalcReward(h) == 0
    decreases height
  {
    hide c.CalcReward, c.RewardAt;
    if height > 0 {
      NothingDueIff(c, height - 1);
      c.RewardOfBlock(height);
    }
  }

  /** The answer of calcSupply is right exactly as long as no block has brought a reward; with positive
      milestones that is before the offset. */
  lemma SupplyRightIff(c: Rewards, height: nat)
    requires c.Valid()
    ensures c.totalAmount == Supply(c, height) <==> forall h: nat :: 1 <= h <= height ==> c.CalcReward(h) == 0
    ensures c.offset >= 1 && (forall i :: 0 <= i < |c.milestones| ==> c.milestones[i] > 0) ==>
              (c.totalAmount == Supply(c, height) <==> height < c.offset)
  {
    hide c.CalcReward;
    NothingDueIff(c, height);
    if c.offset >= 1 && forall i :: 0 <= i < |c.milestones| ==> c.milestones[i] > 0 {
      if height < c.offset { c.NothingBefore(1, height); } else { SomethingPaid(c, height); }
    }
  }

  lemma {:induction false} SomethingPaid(c: Rewards, height: nat)
    requires c.Valid() && 1 <= c.offset <= height && forall i :: 0 <= i < |c.milestones| ==> c.milestones[i] > 0
    ensures c.RewardsBetween(1, height) > 0
  {
  }

  /** On any settings, once the first reward is due calcSupply is short by it. */
  lemma SupplyShort(c: Rewards)
    requires c.Valid() && c.offset >= 1
    ensures Supply(c, c.offset) == c.totalAmount + c.milestones[0]
  {
    c.RewardsSplit(1, c.offset - 1, c.offset);
    c.NothingBefore(1, c.offset - 1);
    assert c.RewardsBetween(c.offset, c.offset) == c.RewardsBetween(c.offset, c.offset - 1) + c.RewardAt(c.offset);
    assert 0 / c.distance == 0;
  }

  predicate Decreasing(c: Rewards) {
    forall i, j :: 0 <= i < j < |c.milestones| ==> c.milestones[i] > c.milestones[j] > 0
  }

  /** The height is the first one of a milestone. */
  predicate StartsMilestone(c: Rewards, height: nat)
    requires c.Valid()
  {
    height >= c.offset && (height - c.offset) % c.distance == 0 && (height - c.offset) / c.distance < |c.milestones|
  }

  lemma QuotientBefore(d: int, n: nat)
    requires n > 0 && d > 0
    ensures (d - 1) / n == if d % n == 0 then d / n - 1 else d / n
  {
    var q, r := d / n, d % n;
    assert d == q * n + r;
    if r == 0 {
      OneMore(q - 1, n);
      QuotientIs(d - 1, n, q - 1);
    } else {
      OneMore(q, n);
      QuotientIs(d - 1, n, q);
    }
  }

  function Milestone(c: Rewards, location: int): nat
    requires c.Valid() && location >= 0
  {
    c.milestones[if location > |c.milestones| - 1 then |c.milestones| - 1 else location]
  }

  lemma MilestoneSteps(c: Rewards, location: nat)
    requires c.Valid() && Decreasing(c) && location > 0
    ensures Milestone(c, location - 1) == Milestone(c, location) <==> location >= |c.milestones|
  {
  }

  lemma RewardIsMilestone(c: Rewards, height: nat)
    requires c.Valid() && height >= c.offset
    ensures (height - c.offset) / c.distance >= 0
    ensures c.CalcReward(height) == Milestone(c, (height - c.offset) / c.distance)
  {
    var d := height - c.offset;
    QuotientAtLeast(d, c.distance, 0);
    TruncOf(d, c.distance);
    hide Trunc;
    assert c.CalcMilestone(height) ==
           if d / c.distance > |c.milestones| - 1 then |c.milestones| - 1 else d / c.distance;
  }

  lemma TruncOf(d: nat, n: nat)
    requires n > 0
    ensures Trunc(d, n) == d / n
  {
  }

  /** With positive decreasing milestones two neighbouring heights bring the same reward exactly when
      the second is not the first of a milestone. */
  lemma SameRewardIff(c: Rewards, height: nat)
    requires c.Valid() && Decreasing(c) && c.milestones[0] > 0 && c.offset >= 1
    ensures c.CalcReward(height) == c.CalcReward(height + 1) <==> !StartsMilestone(c, height + 1)
  {
    var d := height + 1 - c.offset;
    if d < 0 {
      assert c.CalcReward(height) == 0 == c.CalcReward(height + 1);
    } else if d == 0 {
      assert c.CalcReward(height) == 0;
      RewardIsMilestone(c, height + 1);
      assert Milestone(c, 0) == c.milestones[0];
      assert 0 / c.distance == 0 && 0 % c.distance == 0;
    } else {
      hide c.CalcReward, Decreasing;
      RewardIsMilestone(c, height);
      RewardIsMilestone(c, height + 1);
      QuotientBefore(d, c.distance);
      if d % c.distance == 0 {
        PositiveQuotient(d, c.distance);
        MilestoneSteps(c, d / c.distance);
      }
    }
  }

  lemma PositiveQuotient(d: int, n: nat)
    requires n > 0 && d > 0 && d % n == 0
    ensures d / n > 0
  {
    var q := d / n;
    assert d == q * n + d % n;
    if q <= 0 { Scale(q, 0, n); }
  }
}
