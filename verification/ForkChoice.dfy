/** Which block stays at the head (modules/blocks/process.js), on chains as lists of blocks. */
module ForkChoice {
  import opened Ledger

  // ---------- the order of ids ----------

  /** `a < b` on strings: the first different character decides, a prefix comes first. */
  predicate Less(a: string, b: string) {
    b != "" && (a == "" || a[0] < b[0] || (a[0] == b[0] && Less(a[1..], b[1..])))
  }

  /** The two agree up to some position, and there the first one ends or has the smaller character. */
  lemma {:induction false} LessIff(a: string, b: string)
    ensures Less(a, b) <==>
            exists k :: 0 <= k <= |a| && k < |b| && a[..k] == b[..k] && (k == |a| || a[k] < b[k])
  {
    if a == "" || b == "" {
      assert a[..0] == b[..0];
    } else {
      LessIff(a[1..], b[1..]);
      if a[0] < b[0] { assert a[..0] == b[..0]; }
      if k :| 0 <= k <= |a| && k < |b| && a[..k] == b[..k] && (k == |a| || a[k] < b[k]) {
        if k > 0 {
          assert a[..k][0] == b[..k][0];
          assert a[1..][..k - 1] == a[..k][1..] == b[..k][1..] == b[1..][..k - 1];
        }
      }
      if a[0] == b[0] && Less(a[1..], b[1..]) {
        var j :| 0 <= j <= |a[1..]| && j < |b[1..]| && a[1..][..j] == b[1..][..j]
                 && (j == |a[1..]| || a[1..][j] < b[1..][j]);
        assert a[..j + 1] == [a[0]] + a[1..][..j] && b[..j + 1] == [b[0]] + b[1..][..j];
      }
    }
  }

  lemma {:induction false} LessIrreflexive(a: string)
    ensures !Less(a, a)
  {
    if a != "" { LessIrreflexive(a[1..]); }
  }

  lemma {:induction false} LessTotal(a: string, b: string)
    ensures Less(a, b) || a == b || Less(b, a)
  {
    if a != "" && b != "" && a[0] == b[0] {
      LessTotal(a[1..], b[1..]);
      if a[1..] == b[1..] { assert a == [a[0]] + a[1..] && b == [b[0]] + b[1..]; }
    }
  }

  lemma {:induction false} LessTransitive(a: string, b: string, c: string)
    requires Less(a, b) && Less(b, c)
    ensures Less(a, c)
  {
    if a != "" && a[0] == b[0] == c[0] { LessTransitive(a[1..], b[1..], c[1..]); }
  }

  /** Older first, and on the same timestamp the smaller id first. */
  predicate Before(b: Block, c: Block) {
    b.timestamp < c.timestamp || (b.timestamp == c.timestamp && Less(b.id, c.id))
  }

  /** The received block is discarded: the head is older, or as old with a smaller id. */
  predicate HeadStands(b: Block, head: Block) {
    b.timestamp > head.timestamp || (b.timestamp == head.timestamp && Less(head.id, b.id))
  }

  lemma BeforeOrder(b: Block, c: Block, d: Block)
    ensures HeadStands(b, c) <==> Before(c, b)
    ensures !(Before(b, c) && Before(c, b))
    ensures Before(b, c) || Before(c, b) || (b.timestamp == c.timestamp && b.id == c.id)
    ensures Before(b, c) && Before(c, d) ==> Before(b, d)
  {
    LessIrreflexive(b.id);
    LessTotal(b.id, c.id);
    if Less(b.id, c.id) && Less(c.id, b.id) { LessTransitive(b.id, c.id, b.id); }
    if Less(b.id, c.id) && Less(c.id, d.id) { LessTransitive(b.id, c.id, d.id); }
  }

  // ---------- receiving a block ----------

  /** What the checks and deletions of one receipt came to. */
  datatype Outcome = Outcome(receiptOk: bool, firstPop: bool, secondPop: bool, processed: bool)

  function Head(chain: seq<Block>): Block
    requires |chain| > 0
  {
    chain[|chain| - 1]
  }

  function DropHead(chain: seq<Block>): seq<Block>
    requires |chain| > 0
  {
    chain[..|chain| - 1]
  }

  predicate ForkOne(chain: seq<Block>, b: Block, height: int)
    requires |chain| > 0
  {
    b.previousBlock != Head(chain).id && |chain| + 1 == height
  }

  predicate ForkFive(chain: seq<Block>, b: Block, height: int)
    requires |chain| > 0
  {
    b.previousBlock == Head(chain).previousBlock && height == |chain| && b.id != Head(chain).id
  }

  /** onReceiveBlock with receiveForkOne and receiveForkFive; genesis is never deleted. */
  function Receive(chain: seq<Block>, b: Block, height: int, o: Outcome): (r: seq<Block>)
    requires |chain| > 0
    ensures |r| > 0 && r[0] == chain[0]
  {
    var head := Head(chain);
    if b.previousBlock == head.id && |chain| + 1 == height then
      if o.processed then chain + [b] else chain
    else if ForkOne(chain, b, height) then
      if HeadStands(b, head) || !o.receiptOk || !o.firstPop || |chain| == 1 then chain
      else if !o.secondPop || |chain| == 2 then DropHead(chain)
      else DropHead(DropHead(chain))
    else if ForkFive(chain, b, height) then
      if HeadStands(b, head) || !o.receiptOk || !o.firstPop || |chain| == 1 then chain
      else if o.processed then DropHead(chain) + [b]
      else DropHead(chain)
    else chain
  }

  // ---------- the chain stays a chain ----------

  /** helpers/slots.js getSlotNumber: slots of 10 seconds. */
  function SlotNumber(timestamp: int): int { timestamp / 10 }

  /** Every block names its predecessor and has a later slot; heights are positions. */
  predicate ChainOk(chain: seq<Block>) {
    |chain| > 0 && forall i {:trigger chain[i]} :: 0 < i < |chain| ==> Follows(chain[i], chain[i - 1])
  }

  predicate Follows(b: Block, previous: Block) {
    b.previousBlock == previous.id && SlotNumber(b.timestamp) > SlotNumber(previous.timestamp)
  }

  lemma DropKeeps(chain: seq<Block>)
    requires ChainOk(chain) && |chain| > 1
    ensures ChainOk(DropHead(chain))
  {
    hide Follows;
  }

  lemma AppendKeeps(chain: seq<Block>, b: Block)
    requires ChainOk(chain) && Follows(b, Head(chain))
    ensures ChainOk(chain + [b])
  {
    hide Follows;
  }

  /** Whatever is received, and however its checks come out, the chain stays linked with increasing
      slots and keeps its genesis block, provided only following blocks are ever processed. */
  lemma ReceiveKeeps(chain: seq<Block>, b: Block, height: int, o: Outcome)
    requires ChainOk(chain)
    requires o.processed ==> Follows(b, if ForkFive(chain, b, height)
            && |chain| > 1 then Head(DropHead(chain)) else Head(chain))
    ensures ChainOk(Receive(chain, b, height, o)) && Receive(chain, b, height, o)[0] == chain[0]
    ensures |Receive(chain, b, height, o)| >= |chain| - 2
  {
    hide Follows;
    if |chain| > 1 {
      DropKeeps(chain);
      if |chain| > 2 { DropKeeps(DropHead(chain)); }
    }
    if o.processed {
      if ForkFive(chain, b, height) && |chain| > 1 { AppendKeeps(DropHead(chain), b); }
      if b.previousBlock == Head(chain).id && |chain| + 1 == height { AppendKeeps(chain, b); }
    }
  }

  // ---------- siblings ----------

  const PASSES := Outcome(true, true, true, true)

  /** Blocks on the same parent that pass all their checks, received one after the other. */
  function AfterSiblings(parent: seq<Block>, bs: seq<Block>): (r: seq<Block>)
    requires |parent| > 0
    ensures |r| > 0
  {
    if bs == [] then parent
    else Receive(AfterSiblings(parent, bs[..|bs| - 1]), bs[|bs| - 1], |parent| + 1, PASSES)
  }

  predicate Siblings(parent: seq<Block>, bs: seq<Block>)
    requires |parent| > 0
  {
    && (forall i :: 0 <= i < |bs| ==> bs[i].previousBlock == Head(parent).id)
    && (forall i, j :: 0 <= i < |bs| && 0 <= j < |bs| && bs[i].id == bs[j].id ==> bs[i] == bs[j])
  }

  /** The first block of the list in the order by timestamp and id. */
  predicate IsFirst(m: Block, bs: seq<Block>) {
    m in bs && forall i :: 0 <= i < |bs| ==> bs[i] == m || Before(m, bs[i])
  }

  lemma SiblingStep(parent: seq<Block>, h: Block, b: Block)
    requires |parent| > 0 && h.previousBlock == b.previousBlock == Head(parent).id
    ensures Receive(parent + [h], b, |parent| + 1, PASSES) == parent + [if b.id != h.id
            && !HeadStands(b, h) then b else h]
    ensures Receive(parent, b, |parent| + 1, PASSES) == parent + [b]
  {
    hide HeadStands;
    assert DropHead(parent + [h]) == parent;
  }

  lemma NewFirst(bs: seq<Block>, h: Block, b: Block)
    requires |bs| > 1 && IsFirst(h, bs[..|bs| - 1]) && b == bs[|bs| - 1] && Before(b, h)
    ensures IsFirst(b, bs)
  {
    hide Before;
    forall i | 0 <= i < |bs| ensures bs[i] == b || Before(b, bs[i]) {
      if i < |bs| - 1 {
        assert bs[..|bs| - 1][i] == bs[i];
        BeforeOrder(b, h, bs[i]);
      }
    }
  }

  lemma OldFirst(bs: seq<Block>, h: Block, b: Block)
    requires |bs| > 1 && IsFirst(h, bs[..|bs| - 1]) && b == bs[|bs| - 1] && (b == h || Before(h, b))
    ensures IsFirst(h, bs)
  {
    hide Before;
    var at :| 0 <= at < |bs| - 1 && bs[..|bs| - 1][at] == h;
    assert bs[at] == h;
    forall i | 0 <= i < |bs| ensures bs[i] == h || Before(h, bs[i]) {
      if i < |bs| - 1 { assert bs[..|bs| - 1][i] == bs[i]; }
    }
  }

  /** Whatever the order of arrival, the oldest sibling with the smallest id ends up at the head. */
  lemma {:induction false} FirstSiblingWins(parent: seq<Block>, bs: seq<Block>)
    requires |parent| > 0 && bs != [] && Siblings(parent, bs)
    ensures var r := AfterSiblings(parent, bs);
            && r == parent + [Head(r)] && IsFirst(Head(r), bs)
            && forall b :: b in bs ==>
                 && Head(r).timestamp <= b.timestamp
                 && (Head(r).timestamp == b.timestamp ==> Head(r).id == b.id || Less(Head(r).id, b.id))
  {
    hide Before, HeadStands, Receive, IsFirst;
    var n := |bs| - 1;
    var pre, b := bs[..n], bs[n];
    if n == 0 {
      SiblingStep(parent, b, b);
      assert AfterSiblings(parent, pre) == parent;
      OnlyOne(bs);
    } else {
      PrefixSiblings(parent, bs, n);
      FirstSiblingWins(parent, pre);
      var h := Head(AfterSiblings(parent, pre));
      InList(h, bs, pre);
      SiblingStep(parent, h, b);
      BeforeOrder(b, h, b);
      if b.id != h.id && !HeadStands(b, h) { NewFirst(bs, h, b); } else { OldFirst(bs, h, b); }
    }
    FirstIs(Head(AfterSiblings(parent, bs)), bs);
  }

  lemma FirstIs(m: Block, bs: seq<Block>)
    requires IsFirst(m, bs)
    ensures m in bs && forall b :: b in bs ==>
              m.timestamp <= b.timestamp && (m.timestamp == b.timestamp ==> m.id == b.id || Less(m.id, b.id))
  {
    hide Less;
  }

  lemma OnlyOne(bs: seq<Block>)
    requires |bs| == 1
    ensures IsFirst(bs[0], bs)
  {
  }

  lemma InList(h: Block, bs: seq<Block>, pre: seq<Block>)
    requires bs != [] && pre == bs[..|bs| - 1] && IsFirst(h, pre)
    ensures exists k :: 0 <= k < |bs| && bs[k] == h
  {
    var k :| 0 <= k < |pre| && pre[k] == h;
    assert bs[k] == h;
  }

  /** Two nodes that receive the same siblings in different orders end with the same chain. */
  lemma SiblingsConverge(parent: seq<Block>, bs: seq<Block>, cs: seq<Block>)
    requires |parent| > 0 && bs != [] && cs != [] && Siblings(parent, bs) && Siblings(parent, cs)
    requires forall b :: b in bs <==> b in cs
    ensures AfterSiblings(parent, bs) == AfterSiblings(parent, cs)
  {
    hide Before, AfterSiblings;
    FirstSiblingWins(parent, bs);
    FirstSiblingWins(parent, cs);
    var m, k := Head(AfterSiblings(parent, bs)), Head(AfterSiblings(parent, cs));
    assert m in cs && k in bs;
    BeforeOrder(m, k, m);
  }

  /** The head only ever moves to an earlier sibling: a block that was replaced never comes back. */
  lemma HeadsOnlyImprove(parent: seq<Block>, bs: seq<Block>, i: nat, j: nat)
    requires |parent| > 0 && Siblings(parent, bs) && 0 < i <= j <= |bs|
    ensures var h, k := Head(AfterSiblings(parent, bs[..i])), Head(AfterSiblings(parent, bs[..j]));
            h == k || (Before(k, h) && forall l :: j <= l <= |bs| ==> Head(AfterSiblings(parent, bs[..l])) != h)
  {
    hide Before, AfterSiblings, HeadStands;
    var h, k := Head(AfterSiblings(parent, bs[..i])), Head(AfterSiblings(parent, bs[..j]));
    PrefixSiblings(parent, bs, i);
    PrefixSiblings(parent, bs, j);
    FirstSiblingWins(parent, bs[..i]);
    FirstSiblingWins(parent, bs[..j]);
    InLonger(bs, i, j, h);
    if h != k {
      forall l | j <= l <= |bs| ensures Head(AfterSiblings(parent, bs[..l])) != h {
        PrefixSiblings(parent, bs, l);
        FirstSiblingWins(parent, bs[..l]);
        var e := Head(AfterSiblings(parent, bs[..l]));
        InLonger(bs, j, l, k);
        BeforeOrder(e, k, h);
        BeforeOrder(h, k, h);
      }
    }
  }

  lemma PrefixSiblings(parent: seq<Block>, bs: seq<Block>, i: nat)
    requires |parent| > 0 && Siblings(parent, bs) && i <= |bs|
    ensures Siblings(parent, bs[..i])
  {
    assert forall k :: 0 <= k < i ==> bs[..i][k] == bs[k];
  }

  lemma InLonger(bs: seq<Block>, i: nat, j: nat, b: Block)
    requires i <= j <= |bs| && b in bs[..i]
    ensures b in bs[..j]
  {
    var k :| 0 <= k < i && bs[..i][k] == b;
    assert bs[..j][k] == b;
  }
}
