/** The ids of the last blocks, which a received block is compared with (modules/blocks/verify.js). */
module LastIds {
  import opened Ledger

  const BLOCK_SLOT_WINDOW: nat := 5

  /** onNewBlock: a queue of the last ids. */
  function PushId(ids: seq<string>, id: string): (r: seq<string>)
    ensures |ids| <= BLOCK_SLOT_WINDOW ==> 0 < |r| <= BLOCK_SLOT_WINDOW && r[|r| - 1] == id
  {
    var all := ids + [id];
    if |all| > BLOCK_SLOT_WINDOW then all[1..] else all
  }

  /** onBlockchainReady: the ids of the last blocks as the database lists them, newest first. */
  function LoadedIds(chain: seq<Block>): (r: seq<string>)
    ensures |r| <= BLOCK_SLOT_WINDOW && |r| <= |chain|
  {
    seq(if |chain| < BLOCK_SLOT_WINDOW then |chain| else BLOCK_SLOT_WINDOW,
        i requires 0 <= i < BLOCK_SLOT_WINDOW && i < |chain| => chain[|chain| - 1 - i].id)
  }

  function IdsOf(bs: seq<Block>): seq<string> { seq(|bs|, i requires 0 <= i < |bs| => bs[i].id) }

  function Newest(ids: seq<string>): seq<string> {
    if |ids| > BLOCK_SLOT_WINDOW then ids[|ids| - BLOCK_SLOT_WINDOW..] else ids
  }

  /** The ids after these blocks were applied one by one. */
  function Pushed(ids: seq<string>, bs: seq<Block>): seq<string> {
    if bs == [] then ids else PushId(Pushed(ids, bs[..|bs| - 1]), bs[|bs| - 1].id)
  }

  lemma {:induction false} PushedIs(ids: seq<string>, bs: seq<Block>)
    requires |ids| <= BLOCK_SLOT_WINDOW
    ensures Pushed(ids, bs) == Newest(ids + IdsOf(bs))
  {
    if bs == [] {
      assert ids + IdsOf(bs) == ids;
    } else {
      hide PushId, Newest;
      var pre, last := bs[..|bs| - 1], bs[|bs| - 1];
      PushedIs(ids, pre);
      PushNewest(ids + IdsOf(pre), last.id);
      assert ids + IdsOf(bs) == ids + IdsOf(pre) + [last.id];
    }
  }

  lemma PushNewest(ids: seq<string>, id: string)
    ensures PushId(Newest(ids), id) == Newest(ids + [id])
  {
    var k := |ids| - BLOCK_SLOT_WINDOW;
    if k > 0 { assert (ids[k..] + [id])[1..] == (ids + [id])[k + 1..]; }
  }

  predicate DistinctBlocks(bs: seq<Block>) { forall i, j :: 0 <= i < j < |bs| ==> bs[i].id != bs[j].id }

  function Back(ids: seq<string>): seq<string> { seq(|ids|, i requires 0 <= i < |ids| => ids[|ids| - 1 - i]) }

  predicate DistinctStrings(ids: seq<string>) { forall i, j :: 0 <= i < j < |ids| ==> ids[i] != ids[j] }

  /** The ids a receipt is compared with should be those of the last blocks.  They are loaded newest
      first, but dropped from the front as if they were oldest first, so after a start they are the right
      ones only until the first id is dropped, and again once all loaded ones are gone. */
  lemma WindowRightIff(chain: seq<Block>, bs: seq<Block>)
    requires DistinctBlocks(chain + bs)
    ensures (forall id :: id in Pushed(LoadedIds(chain), bs) <==> id in Newest(IdsOf(chain + bs))) <==>
            |bs| == 0 || |bs| >= 5 || |chain| + |bs| <= 5
  {
    var c, n := IdsOf(chain), IdsOf(bs);
    PushedIs(LoadedIds(chain), bs);
    LoadedIs(chain);
    IdsConcat(chain, bs);
    DistinctIdsOf(chain + bs);
    hide *;
    if |bs| >= BLOCK_SLOT_WINDOW { LongRun(Back(Newest(c)), n); LongRun(c, n); } else { ShortRun(c, n); }
  }

  lemma LoadedIs(chain: seq<Block>)
    ensures LoadedIds(chain) == Back(Newest(IdsOf(chain)))
  {
  }

  lemma IdsConcat(chain: seq<Block>, bs: seq<Block>)
    ensures IdsOf(chain + bs) == IdsOf(chain) + IdsOf(bs) && |IdsOf(chain)| == |chain| && |IdsOf(bs)| == |bs|
  {
  }

  lemma DistinctIdsOf(bs: seq<Block>)
    requires DistinctBlocks(bs)
    ensures DistinctStrings(IdsOf(bs)) && |IdsOf(bs)| == |bs|
  {
  }

  lemma LongRun(ids: seq<string>, n: seq<string>)
    requires |n| >= BLOCK_SLOT_WINDOW
    ensures Newest(ids + n) == Newest(n)
  {
  }

  lemma ShortRun(c: seq<string>, n: seq<string>)
    requires DistinctStrings(c + n) && |n| < BLOCK_SLOT_WINDOW
    ensures (forall id :: id in Newest(Back(Newest(c)) + n) <==> id in Newest(c + n)) <==>
            |n| == 0 || |c| + |n| <= BLOCK_SLOT_WINDOW
  {
    var w := Newest(c);
    NewestOf(c, n);
    hide DistinctStrings, Newest, Back;
    OverflowIff(w, n);
  }

  /** Only the newest of the older ids can be among the newest of all. */
  lemma NewestOf(c: seq<string>, n: seq<string>)
    ensures Newest(c + n) == Newest(Newest(c) + n)
    ensures DistinctStrings(c + n) ==> DistinctStrings(Newest(c) + n)
    ensures |Newest(c)| == if |c| > BLOCK_SLOT_WINDOW then BLOCK_SLOT_WINDOW else |c|
  {
    var k := |c| - BLOCK_SLOT_WINDOW;
    if k > 0 {
      assert c[k..] + n == (c + n)[k..];
      TailOfTail(c + n, k, |n|);
      DistinctTail(c + n, k);
      hide DistinctStrings;
      if n == [] { assert c + n == c && Newest(c) + n == Newest(c); }
    }
  }

  lemma TailOfTail(s: seq<string>, k: nat, m: nat)
    requires k + m <= |s|
    ensures s[k..][m..] == s[k + m..]
  {
  }

  lemma DistinctTail(s: seq<string>, k: nat)
    requires k <= |s|
    ensures DistinctStrings(s) ==> DistinctStrings(s[k..])
  {
  }

  lemma OverflowIff(w: seq<string>, n: seq<string>)
    requires DistinctStrings(w + n) && |w| <= BLOCK_SLOT_WINDOW && |n| < BLOCK_SLOT_WINDOW
    ensures (forall id :: id in Newest(Back(w) + n) <==> id in Newest(w + n)) <==> |w| + |n| <= BLOCK_SLOT_WINDOW
  {
    var p := |w| + |n| - BLOCK_SLOT_WINDOW;
    if p > 0 {
      assert Newest(Back(w) + n) == Back(w)[p..] + n && Newest(w + n) == w[p..] + n;
      var top := TopIsLost(w, n, p);
    } else {
      assert Newest(Back(w) + n) == Back(w) + n && Newest(w + n) == w + n;
      BackMembers(w);
    }
  }

  lemma BackMembers(w: seq<string>)
    ensures forall id :: id in Back(w) <==> id in w
  {
    forall id | id in w ensures id in Back(w) {
      var i :| 0 <= i < |w| && w[i] == id;
      assert Back(w)[|w| - 1 - i] == id;
    }
  }

  lemma TopIsLost(w: seq<string>, n: seq<string>, p: nat) returns (top: string)
    requires DistinctStrings(w + n) && 0 < p < |w|
    ensures top in w[p..] + n && top !in Back(w)[p..] + n
  {
    top := w[|w| - 1];
    assert w[p..][|w| - 1 - p] == top;
    assert (w + n)[|w| - 1] == top;
    forall k | 0 <= k < |n| ensures n[k] != top { assert (w + n)[|w| + k] == n[k]; }
    forall k | p <= k < |w| ensures Back(w)[k] != top { assert (w + n)[|w| - 1 - k] == Back(w)[k]; }
    assert top !in Back(w)[p..];
  }
}
