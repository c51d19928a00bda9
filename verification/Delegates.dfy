/** Who forges in which slot (modules/delegates.js, helpers/slots.js). */
module Delegates {
  import opened Base
  import opened Payouts
  import opened ForkChoice

  /** A digest as the list of its bytes; the hash itself stays abstract. */
  type Digest = seq<nat>

  function ByteOf(seed: Digest, x: nat): nat { if x < |seed| then seed[x] else 0 }

  function Decimal(n: nat): Digest {
    if n < 10 then [48 + n] else Decimal(n / 10) + [48 + n % 10]
  }

  function Swapped(s: seq<PublicKey>, i: nat, j: nat): seq<PublicKey>
    requires i < |s| && j < |s|
  {
    s[i := s[j]][j := s[i]]
  }

  /** The inner loop: up to four swaps with one seed, and the index it stops at. */
  function Inner(s: seq<PublicKey>, i: nat, x: nat, seed: Digest): (r: (seq<PublicKey>, nat))
    ensures |r.0| == |s| && r.1 >= i
    decreases 4 - x
  {
    if x < 4 && i < |s| then Inner(Swapped(s, i, ByteOf(seed, x) % |s|), i + 1, x + 1, seed) else (s, i)
  }

  /** The outer loop counts once more, so the entry after every four swaps is passed over. */
  function Outer(s: seq<PublicKey>, i: nat, seed: Digest, hash: Digest -> Digest): (r: seq<PublicKey>)
    ensures |r| == |s|
    decreases if i < |s| then |s| - i else 0
  {
    if i < |s| then
      var (t, j) := Inner(s, i, 0, seed);
      Outer(t, j + 1, hash(seed), hash)
    else s
  }

  function DelegateList(s: seq<PublicKey>, round: nat, hash: Digest -> Digest): (r: seq<PublicKey>)
    ensures |r| == |s|
  {
    Outer(s, 0, hash(Decimal(round)), hash)
  }

  lemma SwapPermutes(s: seq<PublicKey>, i: nat, j: nat)
    requires i < |s| && j < |s|
    ensures multiset(Swapped(s, i, j)) == multiset(s)
  {
  }

  lemma {:induction false} InnerPermutes(s: seq<PublicKey>, i: nat, x: nat, seed: Digest)
    ensures multiset(Inner(s, i, x, seed).0) == multiset(s)
    decreases 4 - x
  {
    if x < 4 && i < |s| {
      SwapPermutes(s, i, ByteOf(seed, x) % |s|);
      InnerPermutes(Swapped(s, i, ByteOf(seed, x) % |s|), i + 1, x + 1, seed);
    }
  }

  lemma {:induction false} OuterPermutes(s: seq<PublicKey>, i: nat, seed: Digest, hash: Digest -> Digest)
    ensures multiset(Outer(s, i, seed, hash)) == multiset(s)
    decreases if i < |s| then |s| - i else 0
  {
    hide Inner;
    if i < |s| {
      var (t, j) := Inner(s, i, 0, seed);
      InnerPermutes(s, i, 0, seed);
      OuterPermutes(t, j + 1, hash(seed), hash);
    }
  }

  /** The list is reordered, nobody is lost or doubled, for any hash. */
  lemma ListPermutes(s: seq<PublicKey>, round: nat, hash: Digest -> Digest)
    ensures multiset(DelegateList(s, round, hash)) == multiset(s)
  {
    OuterPermutes(s, 0, hash(Decimal(round)), hash);
  }

  lemma SwapIs(s: seq<PublicKey>, i: nat, j: nat)
    requires i < |s| && j < |s|
    ensures Swapped(s, i, j) == s[j := s[i]][i := s[j]]
  {
  }

  lemma InnerStep(s: seq<PublicKey>, i: nat, x: nat, seed: Digest)
    ensures x < 4 && i < |s| ==> Inner(s, i, x, seed) == Inner(Swapped(s, i, ByteOf(seed, x) % |s|), i + 1, x + 1, seed)
    ensures x >= 4 || i >= |s| ==> Inner(s, i, x, seed) == (s, i)
  {
  }

  lemma OuterStep(s: seq<PublicKey>, i: nat, seed: Digest, hash: Digest -> Digest)
    ensures i < |s| ==> Outer(s, i, seed, hash) == Outer(Inner(s, i, 0, seed).0, Inner(s, i, 0, seed).1 + 1,
            hash(seed), hash)
    ensures i >= |s| ==> Outer(s, i, seed, hash) == s
  {
    hide Inner;
  }

  // ---------- the seed ----------

  const ZERO: nat := '0' as nat

  predicate IsDigit(c: nat) { ZERO <= c < ZERO + 10 }

  /** A number in decimal, as the bytes of its digits: the most significant first, no needless zero. */
  predicate IsDecimal(ds: Digest) {
    |ds| > 0 && (forall i :: 0 <= i < |ds| ==> IsDigit(ds[i])) && (ds[0] == ZERO ==> |ds| == 1)
  }

  /** Read from the most significant digit. */
  function ReadDigits(ds: Digest): int {
    if ds == [] then 0 else 10 * ReadDigits(ds[..|ds| - 1]) + (ds[|ds| - 1] - ZERO)
  }

  /** The seed source is the round in decimal. */
  lemma {:induction false} DecimalReads(n: nat)
    ensures IsDecimal(Decimal(n)) && ReadDigits(Decimal(n)) == n
    ensures n > 0 ==> Decimal(n)[0] != ZERO
  {
    if n >= 10 {
      DecimalReads(n / 10);
      var pre := Decimal(n / 10);
      assert Decimal(n)[..|Decimal(n)| - 1] == pre;
      assert Decimal(n)[0] == pre[0];
    } else {
      assert Decimal(n)[..0] == [];
    }
  }

  lemma {:induction false} ReadPositive(ds: Digest)
    requires IsDecimal(ds)
    ensures ReadDigits(ds) >= 0 && (ds[0] != ZERO ==> ReadDigits(ds) > 0) && (|ds| > 1 ==> ReadDigits(ds) >= 10)
  {
    var pre := ds[..|ds| - 1];
    if pre != [] {
      assert pre[0] == ds[0];
      assert ds[0] != ZERO;
      ReadPositive(pre);
    }
  }

  /** And there is one way to write it. */
  lemma {:induction false} DecimalOnly(ds: Digest, n: nat)
    requires IsDecimal(ds) && ReadDigits(ds) == n
    ensures ds == Decimal(n)
  {
    var pre, last := ds[..|ds| - 1], ds[|ds| - 1];
    assert ds == pre + [last];
    if pre == [] {
      assert n == last - ZERO;
    } else {
      assert pre[0] == ds[0];
      ReadPositive(ds);
      ReadPositive(pre);
      assert n / 10 == ReadDigits(pre) && n % 10 == last - ZERO;
      DecimalOnly(pre, n / 10);
    }
  }

  // ---------- the swaps ----------

  /** The seed hashed this many times. */
  function HashedTimes(hash: Digest -> Digest, seed: Digest, k: nat): Digest {
    if k == 0 then seed else hash(HashedTimes(hash, seed, k - 1))
  }

  /** Four positions in a row are swapped, the next one is passed over. */
  function SwapPosition(t: nat): nat { t + t / 4 }

  /** The list after this many swaps: each is with the position a byte of the repeated hash gives. */
  function AfterSwaps(s: seq<PublicKey>, seed: Digest, hash: Digest -> Digest, t: nat): (r: seq<PublicKey>)
    ensures |r| == |s|
  {
    if t == 0 || SwapPosition(t - 1) >= |s| then s else
    var pre, d := AfterSwaps(s, seed, hash, t - 1), HashedTimes(hash, seed, (t - 1) / 4 + 1);
    var i, j := SwapPosition(t - 1), (if (t - 1) % 4 < |d| then d[(t - 1) % 4] else 0) % |s|;
    seq(|s|, k requires 0 <= k < |s| => if k == i then pre[j] else if k == j then pre[i] else pre[k])
  }

  /** The inner loop does up to four of these swaps. */
  lemma {:induction false} InnerIs(s: seq<PublicKey>, seed: Digest, hash: Digest -> Digest, r: nat, x: nat)
    requires x <= 4 && (x > 0 ==> 5 * r + x <= |s|)
    ensures var n := if 5 * r + 4 <= |s| then 4 else if |s| > 5 * r then |s| - 5 * r else 0;
            n >= x ==>
            Inner(AfterSwaps(s, seed, hash, 4 * r + x), 5 * r + x, x, HashedTimes(hash, seed, r + 1)) ==
            (AfterSwaps(s, seed, hash, 4 * r + n), 5 * r + n)
    decreases 4 - x
  {
    hide Swapped, ByteOf, AfterSwaps, HashedTimes;
    var pre, d := AfterSwaps(s, seed, hash, 4 * r + x), HashedTimes(hash, seed, r + 1);
    InnerStep(pre, 5 * r + x, x, d);
    if x < 4 && 5 * r + x < |s| {
      SwapNumber(r, x);
      NextSwap(s, seed, hash, 4 * r + x);
      InnerIs(s, seed, hash, r, x + 1);
    }
  }

  lemma SwapNumber(r: nat, x: nat)
    requires x < 4
    ensures SwapPosition(4 * r + x) == 5 * r + x && (4 * r + x) / 4 == r && (4 * r + x) % 4 == x
  {
  }

  lemma NextSwap(s: seq<PublicKey>, seed: Digest, hash: Digest -> Digest, t: nat)
    requires SwapPosition(t) < |s|
    ensures var pre, d := AfterSwaps(s, seed, hash, t), HashedTimes(hash, seed, t / 4 + 1);
            AfterSwaps(s, seed, hash, t + 1) == Swapped(pre, SwapPosition(t), ByteOf(d, t % 4) % |s|)
  {
    hide HashedTimes, SwapPosition;
  }

  /** So does the outer one, round by round, from any point on. */
  lemma {:induction false} OuterIs(s: seq<PublicKey>, seed: Digest, hash: Digest -> Digest, r: nat)
    requires 5 * r <= |s| + 4
    ensures Outer(AfterSwaps(s, seed, hash, if 5 * r <= |s| then 4 * r else |s| - |s| / 5), 5 * r,
                  HashedTimes(hash, seed, r + 1), hash) == AfterSwaps(s, seed, hash, |s| - |s| / 5)
    decreases |s| + 10 - 5 * r
  {
    hide Inner, AfterSwaps, SwapPosition;
    var t := if 5 * r <= |s| then 4 * r else |s| - |s| / 5;
    OuterStep(AfterSwaps(s, seed, hash, t), 5 * r, HashedTimes(hash, seed, r + 1), hash);
    if 5 * r < |s| {
      InnerIs(s, seed, hash, r, 0);
      assert hash(HashedTimes(hash, seed, r + 1)) == HashedTimes(hash, seed, r + 2);
      if 5 * r + 4 <= |s| {
        OuterIs(s, seed, hash, r + 1);
      } else {
        var all := AfterSwaps(s, seed, hash, |s| - |s| / 5);
        OuterStep(all, |s| + 1, HashedTimes(hash, seed, r + 2), hash);
      }
    }
  }

  /** The delegate list: the round in decimal is hashed for the first four swaps and hashed again for every four
      after them; every fifth position is passed over. */
  lemma ListIs(s: seq<PublicKey>, round: nat, hash: Digest -> Digest, ds: Digest)
    requires IsDecimal(ds) && ReadDigits(ds) == round
    ensures DelegateList(s, round, hash) == AfterSwaps(s, ds, hash, |s| - |s| / 5)
  {
    hide Outer, AfterSwaps, Decimal, IsDecimal, ReadDigits;
    DecimalOnly(ds, round);
    OuterIs(s, ds, hash, 0);
    NoSwaps(s, ds, hash);
  }

  lemma NoSwaps(s: seq<PublicKey>, seed: Digest, hash: Digest -> Digest)
    ensures AfterSwaps(s, seed, hash, 0) == s && HashedTimes(hash, seed, 1) == hash(seed)
  {
    assert HashedTimes(hash, seed, 0) == seed;
  }

  // ---------- the loops ----------

  lemma DelegateListIs(s: seq<PublicKey>, round: nat, hash: Digest -> Digest)
    ensures DelegateList(s, round, hash) == Outer(s, 0, hash(Decimal(round)), hash)
  {
  }

  /** The inner loop: up to four swaps with the bytes of one seed. */
  method SwapFour(list: array<PublicKey>, start: nat, seed: Digest) returns (i: nat)
    modifies list
    ensures (list[..], i) == Inner(old(list[..]), start, 0, seed)
  {
    hide Inner, Swapped, ByteOf;
    i := start;
    var x := 0;
    while x < 4 && i < list.Length
      invariant 0 <= x <= 4 && start <= i
      invariant Inner(list[..], i, x, seed) == Inner(old(list[..]), start, 0, seed)
    {
      ghost var now := list[..];
      var newIndex := ByteOf(seed, x) % list.Length;
      InnerStep(now, i, x, seed);
      var b := list[newIndex];
      list[newIndex] := list[i];
      list[i] := b;
      assert list[..] == Swapped(now, i, newIndex) by { SwapIs(now, i, newIndex); }
      i, x := i + 1, x + 1;
    }
    InnerStep(list[..], i, x, seed);
  }

  /** generateDelegateList shuffles the list in place. */
  method GenerateDelegateList(list: array<PublicKey>, round: nat, hash: Digest -> Digest)
    modifies list
    ensures list[..] == DelegateList(old(list[..]), round, hash)
    ensures multiset(list[..]) == multiset(old(list[..]))
    ensures forall ds :: IsDecimal(ds) && ReadDigits(ds) == round ==>
              list[..] == AfterSwaps(old(list[..]), ds, hash, list.Length - list.Length / 5)
  {
    hide Inner, Outer, Decimal, IsDecimal, ReadDigits, AfterSwaps, DelegateList;
    forall ds | IsDecimal(ds) && ReadDigits(ds) == round
      ensures DelegateList(list[..], round, hash) == AfterSwaps(list[..], ds, hash, list.Length - list.Length / 5)
    {
      ListIs(list[..], round, hash, ds);
    }
    DelegateListIs(list[..], round, hash);
    var currentSeed := hash(Decimal(round));
    ListPermutes(list[..], round, hash);
    var i, delCount := 0, list.Length;
    while i < delCount
      invariant Outer(list[..], i, currentSeed, hash) == DelegateList(old(list[..]), round, hash)
      decreases if i < delCount then delCount - i else 0
    {
      OuterStep(list[..], i, currentSeed, hash);
      i := SwapFour(list, i, currentSeed);
      i := i + 1;
      currentSeed := hash(currentSeed);
    }
    OuterStep(list[..], i, currentSeed, hash);
  }

  // ---------- slots ----------

  /** Whose slot it is; a position past the end of a short list, or before its start, belongs to nobody. */
  function SlotOwner(list: seq<PublicKey>, slot: int): Option<PublicKey> {
    var pos := slot % ACTIVE_DELEGATES;
    if (slot >= 0 || pos == 0) && pos < |list| && list[pos] != "" then Some(list[pos]) else None
  }

  function SlotTime(slot: nat): nat { slot * 10 }

  lemma SlotOfTime(slot: nat)
    ensures SlotNumber(SlotTime(slot)) == slot
  {
  }

  predicate Distinct(list: seq<PublicKey>) { forall i, j :: 0 <= i < j < |list| ==> list[i] != list[j] }

  lemma {:induction false} DistinctByMultiset(s: seq<PublicKey>)
    ensures Distinct(s) <==> forall d :: multiset(s)[d] <= 1
  {
    if s != [] {
      var n := |s| - 1;
      assert s == s[..n] + [s[n]];
      DistinctByMultiset(s[..n]);
      if Distinct(s) {
        assert s[n] !in s[..n];
        assert Distinct(s[..n]);
      } else if Distinct(s[..n]) {
        var i, j :| 0 <= i < j < |s| && s[i] == s[j];
        assert s[..n][i] == s[n];
        assert s[n] in multiset(s[..n]);
        assert multiset(s)[s[n]] >= 2;
      } else {
        var d :| multiset(s[..n])[d] > 1;
        assert multiset(s)[d] > 1;
      }
    }
  }

  /** In any 101 consecutive slots every listed delegate has exactly one. */
  lemma OneSlotEach(s: seq<PublicKey>, round: nat, hash: Digest -> Digest, first: nat, d: PublicKey)
    requires Distinct(s) && |s| <= ACTIVE_DELEGATES && d in s && d != ""
    ensures exists slot ::
              first <= slot < first + ACTIVE_DELEGATES && SlotOwner(DelegateList(s, round, hash), slot) == Some(d)
    ensures forall p, q ::
              (first <= p < first + ACTIVE_DELEGATES && first <= q < first + ACTIVE_DELEGATES &&
               SlotOwner(DelegateList(s, round, hash), p) == Some(d) == SlotOwner(DelegateList(s, round, hash),
                   q)) ==> p == q
  {
    var list := DelegateList(s, round, hash);
    ListPermutes(s, round, hash);
    DistinctByMultiset(s);
    DistinctByMultiset(list);
    assert d in multiset(list);
    var pos :| 0 <= pos < |list| && list[pos] == d;
    var slot := first + (pos - first) % ACTIVE_DELEGATES;
    Wraps(first, pos);
    assert SlotOwner(list, slot) == Some(d);
    forall p, q |
      first <= p < first + ACTIVE_DELEGATES && first <= q < first + ACTIVE_DELEGATES &&
      SlotOwner(list, p) == Some(d) == SlotOwner(list, q)
      ensures p == q
    {
      assert p % ACTIVE_DELEGATES == q % ACTIVE_DELEGATES;
      SameSlot(first, p, q);
    }
  }

  lemma Wraps(first: nat, pos: nat)
    requires pos < ACTIVE_DELEGATES
    ensures (first + (pos - first) % ACTIVE_DELEGATES) % ACTIVE_DELEGATES == pos
  {
  }

  lemma SameSlot(first: nat, p: nat, q: nat)
    requires first <= p < first + ACTIVE_DELEGATES && first <= q < first + ACTIVE_DELEGATES
                && p % ACTIVE_DELEGATES == q % ACTIVE_DELEGATES
    ensures p == q
  {
  }

  /** validateBlockSlot: the generator is the owner of the slot the timestamp falls in. */
  predicate SlotAccepted(list: seq<PublicKey>, timestamp: int, generator: PublicKey) {
    SlotOwner(list, SlotNumber(timestamp)) == Some(generator)
  }

  method ValidateBlockSlot(source: seq<PublicKey>, round: nat, hash: Digest -> Digest, timestamp: int,
      generator: PublicKey)
    returns (ok: bool)
    ensures ok <==> SlotAccepted(DelegateList(source, round, hash), timestamp, generator)
    ensures timestamp >= 0 ==>
              var list, turn := DelegateList(source, round, hash), timestamp / 10 % 101;
              ok <==> turn < |list| && generator != "" && list[turn] == generator
  {
    var activeDelegates := new PublicKey[|source|](i requires 0 <= i < |source| => source[i]);
    assert activeDelegates[..] == source;
    GenerateDelegateList(activeDelegates, round, hash);
    var currentSlot := SlotNumber(timestamp);
    var pos := currentSlot % ACTIVE_DELEGATES;
    ok := (currentSlot >= 0 || pos == 0) && pos < activeDelegates.Length && activeDelegates[pos] != ""
          && generator == activeDelegates[pos];
  }

  /** getBlockSlotData: the earliest slot of the window that belongs to an enabled delegate.  A block
      made for it is accepted; with no such slot nobody enabled is in the window. */
  method GetBlockSlotData(source: seq<PublicKey>, round: nat, hash: Digest -> Digest, slot: nat,
                          keypairs: set<PublicKey>)
    returns (data: Option<(nat, PublicKey)>)
    ensures var list := DelegateList(source, round, hash);
            match data
            case Some((time, key)) =>
              && key in keypairs && SlotAccepted(list, time, key) && time == SlotTime(SlotNumber(time))
              && slot * 10 <= time < (slot + 101) * 10 && time % 10 == 0
              && slot <= SlotNumber(time) < slot + ACTIVE_DELEGATES
              && forall s :: slot <= s < SlotNumber(time) ==> !OwnedBy(list, s, keypairs)
            case None => forall s :: slot <= s < slot + ACTIVE_DELEGATES ==> !OwnedBy(list, s, keypairs)
  {
    var activeDelegates := new PublicKey[|source|](i requires 0 <= i < |source| => source[i]);
    assert activeDelegates[..] == source;
    GenerateDelegateList(activeDelegates, round, hash);
    var currentSlot, lastSlot := slot, slot + ACTIVE_DELEGATES;
    while currentSlot < lastSlot
      invariant slot <= currentSlot <= lastSlot
      invariant forall s :: slot <= s < currentSlot ==> !OwnedBy(activeDelegates[..], s, keypairs)
    {
      var pos := currentSlot % ACTIVE_DELEGATES;
      if pos < activeDelegates.Length && activeDelegates[pos] != "" && activeDelegates[pos] in keypairs {
        SlotOfTime(currentSlot);
        return Some((SlotTime(currentSlot), activeDelegates[pos]));
      }
      currentSlot := currentSlot + 1;
    }
    return None;
  }

  predicate OwnedBy(list: seq<PublicKey>, slot: nat, keypairs: set<PublicKey>) {
    SlotOwner(list, slot).Some? && SlotOwner(list, slot).value in keypairs
  }
}
