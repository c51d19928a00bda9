/** helpers/bignum.js: big numbers to buffers and back, in chunks of a given size and byte order. */
module Bignums {
  import opened Base

  datatype Endian = Big | Little

  /** opts.size: a number of bytes (0 counts as not given, which means 1), or 'auto'. */
  datatype Size = Auto | Bytes(n: nat)

  datatype BufferError = Negative | NotAMultiple | NotANumber

  function ChunkSize(size: Size, auto: nat): nat {
    if size.Auto? then auto else if size.n == 0 then 1 else size.n
  }

  // ---------- hexadecimal ----------

  function HexChar(d: nat): char
    requires d < 16
  {
    "0123456789abcdef"[d]
  }

  function DigitOf(c: char): (d: nat)
    ensures d < 16
  {
    if '0' <= c <= '9' then (c - '0') as nat else if 'a' <= c <= 'f' then (c - 'a') as nat + 10 else 0
  }

  /** parseInt(hex, 16). */
  function Value(hex: string): nat {
    if hex == "" then 0 else Value(hex[..|hex| - 1]) * 16 + DigitOf(hex[|hex| - 1])
  }

  /** toString(16): no leading zeros. */
  function ToHex(n: nat): (h: string)
    ensures |h| > 0
  {
    if n < 16 then [HexChar(n)] else ToHex(n / 16) + [HexChar(n % 16)]
  }

  function Pow16(k: nat): (p: nat)
    ensures p > 0
  {
    if k == 0 then 1 else 16 * Pow16(k - 1)
  }

  lemma DigitOfHexChar(d: nat)
    requires d < 16
    ensures DigitOf(HexChar(d)) == d
  {
  }

  lemma {:induction false} HexValue(n: nat)
    ensures Value(ToHex(n)) == n
    ensures n < Pow16(|ToHex(n)|)
    ensures |ToHex(n)| > 1 ==> Pow16(|ToHex(n)| - 1) <= n
  {
    if n < 16 {
      DigitOfHexChar(n);
      assert ToHex(n)[..0] == "";
      assert Pow16(1) == 16 * Pow16(0);
    } else {
      HexValue(n / 16);
      DigitOfHexChar(n % 16);
      assert ToHex(n)[..|ToHex(n)| - 1] == ToHex(n / 16);
    }
  }

  lemma {:induction false} PadValue(hex: string)
    ensures Value("0" + hex) == Value(hex)
  {
    var p := "0" + hex;
    if hex == "" {
      assert p[..0] == "";
    } else {
      assert p[..|p| - 1] == "0" + hex[..|hex| - 1];
      PadValue(hex[..|hex| - 1]);
    }
  }

  lemma {:induction false} Pow16Grows(a: nat, b: nat)
    requires a <= b
    ensures Pow16(a) <= Pow16(b)
  {
    if a < b { Pow16Grows(a, b - 1); }
  }

  // ---------- bytes ----------

  predicate IsBytes(bs: seq<nat>) { forall i :: 0 <= i < |bs| ==> bs[i] < 256 }

  /** What a buffer means, most significant byte first. */
  function BytesValue(bs: seq<nat>): nat {
    if bs == [] then 0 else BytesValue(bs[..|bs| - 1]) * 256 + bs[|bs| - 1]
  }

  /** The byte two hexadecimal digits stand for. */
  function PairAt(hex: string, k: nat): (b: nat)
    requires 2 * k + 1 < |hex|
    ensures b < 256
  {
    16 * DigitOf(hex[2 * k]) + DigitOf(hex[2 * k + 1])
  }

  /** (c < 16 ? '0' : '') + c.toString(16). */
  function PairOf(b: nat): (s: string)
    requires b < 256
    ensures |s| == 2
  {
    [HexChar(b / 16), HexChar(b % 16)]
  }

  lemma {:induction false} BytesOfHex(hex: string, bs: seq<nat>)
    requires |hex| == 2 * |bs| && forall k :: 0 <= k < |bs| ==> bs[k] == PairAt(hex, k)
    ensures BytesValue(bs) == Value(hex)
  {
    if bs != [] {
      var n := |bs| - 1;
      var pre, h := bs[..n], hex[..2 * n];
      forall k | 0 <= k < n ensures pre[k] == PairAt(h, k) { assert bs[k] == PairAt(hex, k); }
      BytesOfHex(h, pre);
      assert hex[..2 * n + 1][..2 * n] == h;
      assert hex[..|hex| - 1] == hex[..2 * n + 1];
      assert bs[n] == PairAt(hex, n);
    }
  }

  // ---------- chunks ----------

  /** Where byte j of chunk i is kept: chunks come most significant first, the byte order applies
      inside a chunk. */
  function Position(i: nat, j: nat, size: nat, endian: Endian): nat
    requires j < size
  {
    i * size + if endian.Big? then j else size - j - 1
  }

  /** The bytes most significant first. */
  function Arranged(bs: seq<nat>, size: nat, endian: Endian): (r: seq<nat>)
    requires size > 0 && |bs| % size == 0
    ensures |r| == |bs|
  {
    seq(|bs|, k requires 0 <= k < |bs| => bs[Source(k, |bs|, size, endian)])
  }

  function Source(k: nat, len: nat, size: nat, endian: Endian): (p: nat)
    requires size > 0 && len % size == 0 && k < len
    ensures p < len
  {
    WithinChunks(k, len, size);
    Position(k / size, k % size, size, endian)
  }

  lemma WithinChunks(k: nat, len: nat, size: nat)
    requires size > 0 && len % size == 0 && k < len
    ensures k / size < len / size && (k / size + 1) * size <= len && k == k / size * size + k % size
    ensures (k / size + 1) * size == k / size * size + size
  {
    var q, c := k / size, len / size;
    assert len == c * size;
    assert k == q * size + k % size;
    if q >= c { Grow(c, q, size); }
    Grow(q + 1, c, size);
    assert (q + 1) * size == q * size + size;
  }

  lemma Grow(a: nat, b: nat, n: nat)
    requires a <= b
    ensures a * n <= b * n
  {
  }

  /** The value of a buffer read with these options. */
  function Meaning(bs: seq<nat>, size: nat, endian: Endian): nat
    requires size > 0 && |bs| % size == 0
  {
    BytesValue(Arranged(bs, size, endian))
  }

  /** In big-endian order the bytes are already arranged. */
  lemma ArrangedBig(bs: seq<nat>, size: nat)
    requires size > 0 && |bs| % size == 0
    ensures Arranged(bs, size, Big) == bs
  {
    forall k | 0 <= k < |bs| ensures Arranged(bs, size, Big)[k] == bs[k] {
      WithinChunks(k, |bs|, size);
      assert Source(k, |bs|, size, Big) == k;
    }
  }

  /** In little-endian order each chunk is turned round in its place. */
  lemma ArrangedLittle(bs: seq<nat>, size: nat, i: nat, j: nat)
    requires size > 0 && |bs| % size == 0 && i < |bs| / size && j < size
    ensures (i + 1) * size <= |bs| && (i + 1) * size == i * size + size
    ensures Arranged(bs, size, Little)[i * size + j] == bs[i * size + (size - 1 - j)]
  {
    var chunks := |bs| / size;
    assert |bs| == chunks * size;
    Grow(i + 1, chunks, size);
    OneMore(i, size);
    QuotientOf(i, j, size);
  }

  /** Read with the least significant byte first. */
  function ReadLittle(bs: seq<nat>): nat { if bs == [] then 0 else bs[0] + 256 * ReadLittle(bs[1..]) }

  lemma {:induction false} ReadBackwards(bs: seq<nat>, r: seq<nat>)
    requires |r| == |bs| && forall k :: 0 <= k < |bs| ==> r[k] == bs[|bs| - 1 - k]
    ensures BytesValue(r) == ReadLittle(bs)
  {
    if bs != [] { ReadBackwards(bs[1..], r[..|r| - 1]); }
  }

  lemma OneChunk(size: nat)
    requires size > 0
    ensures size / size == 1 && size % size == 0
  {
  }

  /** So a buffer of one chunk is read from its other end. */
  lemma LittleMeaning(bs: seq<nat>)
    requires bs != []
    ensures Meaning(bs, |bs|, Little) == ReadLittle(bs)
  {
    hide Arranged, BytesValue, ReadLittle;
    OneChunk(|bs|);
    var r := Arranged(bs, |bs|, Little);
    forall k | 0 <= k < |bs| ensures r[k] == bs[|bs| - 1 - k] { ArrangedLittle(bs, |bs|, 0, k); }
    ReadBackwards(bs, r);
  }

  /** The smallest buffer of whole chunks that fits the number. */
  predicate Smallest(len: nat, n: nat, size: nat)
    requires size > 0
  {
    && len > 0 && len % size == 0 && n < Pow16(2 * len)
    && (len > size ==> Pow16(2 * (len - size)) <= n)
  }

  lemma QuotientOf(i: nat, j: nat, size: nat)
    requires j < size
    ensures (i * size + j) / size == i && (i * size + j) % size == j
  {
    var k := i * size + j;
    var q, r := k / size, k % size;
    assert k == q * size + r;
    OneMore(q, size);
    OneMore(i, size);
    if q < i { Grow(q + 1, i, size); }
    if q > i { Grow(i + 1, q, size); }
  }

  lemma OneMore(x: int, n: int)
    ensures (x + 1) * n == x * n + n
  {
  }

  /** Positions of different bytes are different. */
  lemma PositionsDiffer(i: nat, j: nat, i': nat, j': nat, size: nat, endian: Endian)
    requires j < size && j' < size && (i != i' || j != j')
    ensures Position(i, j, size, endian) != Position(i', j', size, endian)
  {
    if i < i' {
      Grow(i + 1, i', size);
      assert (i + 1) * size == i * size + size;
    } else if i > i' {
      Grow(i' + 1, i, size);
      assert (i' + 1) * size == i' * size + size;
    }
  }

  lemma PositionFits(i: nat, j: nat, chunks: nat, size: nat, endian: Endian)
    requires j < size && i < chunks
    ensures Position(i, j, size, endian) < chunks * size
    ensures i * size + j < chunks * size
  {
    Grow(i + 1, chunks, size);
    assert (i + 1) * size == i * size + size;
  }

  function CeilDiv(a: nat, b: nat): nat
    requires b > 0
  {
    (a + b - 1) / b
  }

  lemma CeilIs(a: nat, b: nat)
    requires a > 0 && b > 0
    ensures var c := CeilDiv(a, b); c > 0 && a <= c * b && (c - 1) * b < a
  {
    var c := CeilDiv(a, b);
    var m := a + b - 1;
    assert m == c * b + m % b;
    OneMore(c - 1, b);
  }

  lemma DoubleChunks(chunks: int, size: int)
    ensures chunks * (2 * size) == 2 * (chunks * size)
    ensures (chunks - 1) * (2 * size) == 2 * (chunks * size - size)
  {
    OneMore(chunks - 1, size);
    assert (chunks - 1) * (2 * size) == 2 * ((chunks - 1) * size);
  }

  lemma SmallestIs(n: nat, size: nat)
    requires size > 0
    ensures var chunks := CeilDiv(|ToHex(n)|, 2 * size);
            && chunks > 0 && Smallest(chunks * size, n, size) && |ToHex(n)| <= 2 * (chunks * size)
  {
    hide ToHex, Pow16, CeilDiv, Value;
    var h := |ToHex(n)|;
    var chunks := CeilDiv(h, 2 * size);
    var len := chunks * size;
    CeilIs(h, 2 * size);
    HexValue(n);
    DoubleChunks(chunks, size);
    Pow16Grows(h, 2 * len);
    QuotientOf(chunks, 0, size);
    Grow(1, chunks, size);
    if len > size { Pow16Grows(2 * (len - size), h - 1); }
  }

  // ---------- toBuffer ----------

  /** The buffer after the bytes before byte j of chunk i have been written. */
  predicate Written(buf: seq<nat>, hex: string, i: nat, j: nat, chunks: nat, size: nat, endian: Endian)
    requires size > 0 && |hex| == 2 * |buf| && |buf| == chunks * size
  {
    forall a, b {:trigger Position(a, b, size, endian)} ::
      0 <= a < chunks && 0 <= b < size && (a < i || (a == i && b < j)) ==>
        InRange(a, b, chunks, size, endian) && buf[Position(a, b, size, endian)] == PairAt(hex, a * size + b)
  }

  predicate InRange(a: nat, b: nat, chunks: nat, size: nat, endian: Endian)
    requires b < size
  {
    Position(a, b, size, endian) < chunks * size && a * size + b < chunks * size
  }

  lemma WriteNext(buf: seq<nat>, hex: string, i: nat, j: nat, chunks: nat, size: nat, endian: Endian)
    requires size > 0 && |hex| == 2 * |buf| && |buf| == chunks * size && i < chunks && j < size
    requires Written(buf, hex, i, j, chunks, size, endian)
    ensures Position(i, j, size, endian) < |buf| && i * size + j < |buf|
    ensures Written(buf[Position(i, j, size, endian) := PairAt(hex, i * size + j)], hex, i, j + 1, chunks, size, endian)
  {
    PositionFits(i, j, chunks, size, endian);
    var buf' := buf[Position(i, j, size, endian) := PairAt(hex, i * size + j)];
    forall a, b | 0 <= a < chunks && 0 <= b < size && (a < i || (a == i && b < j + 1))
      ensures InRange(a, b, chunks, size, endian) && buf'[Position(a, b, size, endian)] == PairAt(hex, a * size + b)
    {
      PositionFits(a, b, chunks, size, endian);
      if a != i || b != j { PositionsDiffer(a, b, i, j, size, endian); }
    }
  }

  lemma WrittenAt(buf: seq<nat>, hex: string, chunks: nat, size: nat, endian: Endian, a: nat, b: nat)
    requires size > 0 && |hex| == 2 * |buf| && |buf| == chunks * size && a < chunks && b < size
    requires Written(buf, hex, chunks, 0, chunks, size, endian)
    ensures Position(a, b, size, endian) < |buf| && a * size + b < |buf|
    ensures buf[Position(a, b, size, endian)] == PairAt(hex, a * size + b)
  {
    hide Position, PairAt;
    assert InRange(a, b, chunks, size, endian);
  }

  lemma SourceIs(buf: seq<nat>, hex: string, chunks: nat, size: nat, endian: Endian, k: nat)
    requires size > 0 && |hex| == 2 * |buf| && |buf| == chunks * size && |buf| % size == 0 && k < |buf|
    requires Written(buf, hex, chunks, 0, chunks, size, endian)
    ensures buf[Source(k, |buf|, size, endian)] == PairAt(hex, k)
  {
    hide Position, PairAt, Written;
    var i, j := k / size, k % size;
    SourcePosition(k, chunks, size, endian);
    WrittenAt(buf, hex, chunks, size, endian, i, j);
  }

  lemma SourcePosition(k: nat, chunks: nat, size: nat, endian: Endian)
    requires size > 0 && k < chunks * size && chunks * size % size == 0
    ensures k % size < size && k / size < chunks && k / size * size + k % size == k
    ensures Source(k, chunks * size, size, endian) == Position(k / size, k % size, size, endian)
  {
    WithinChunks(k, chunks * size, size);
    QuotientOf(chunks, 0, size);
  }

  lemma WrittenAll(buf: seq<nat>, hex: string, chunks: nat, size: nat, endian: Endian)
    requires size > 0 && |hex| == 2 * |buf| && |buf| == chunks * size
    requires Written(buf, hex, chunks, 0, chunks, size, endian)
    ensures |buf| % size == 0 && Meaning(buf, size, endian) == Value(hex)
  {
    hide Position, PairAt, BytesValue, Value, InRange;
    QuotientOf(chunks, 0, size);
    var bs := Arranged(buf, size, endian);
    forall k | 0 <= k < |bs| ensures bs[k] == PairAt(hex, k) {
      SourceIs(buf, hex, chunks, size, endian, k);
    }
    BytesOfHex(hex, bs);
  }

  /** The nested loops of toBuffer. */
  method Fill(hex: string, chunks: nat, size: nat, endian: Endian) returns (buf: seq<nat>)
    requires size > 0 && |hex| == 2 * (chunks * size)
    ensures |buf| == chunks * size && IsBytes(buf) && Written(buf, hex, chunks, 0, chunks, size, endian)
  {
    hide Written, PairAt, Position;
    var len := chunks * size;
    buf := seq(len, k => 0);
    NothingWritten(buf, hex, chunks, size, endian);
    var i := 0;
    while i < chunks
      invariant 0 <= i <= chunks && |buf| == len && IsBytes(buf)
      invariant Written(buf, hex, i, 0, chunks, size, endian)
    {
      var j := 0;
      while j < size
        invariant 0 <= j <= size && |buf| == len && IsBytes(buf)
        invariant Written(buf, hex, i, j, chunks, size, endian)
      {
        WriteNext(buf, hex, i, j, chunks, size, endian);
        buf := buf[Position(i, j, size, endian) := PairAt(hex, i * size + j)];
        j := j + 1;
      }
      ChunkDone(buf, hex, i, chunks, size, endian);
      i := i + 1;
    }
  }

  /** toBuffer: the smallest buffer of whole chunks, and reading it back gives the number. */
  method ToBuffer(n: int, size: Size, endian: Endian) returns (r: Result<seq<nat>, BufferError>)
    ensures n < 0 <==> r == Failure(Negative)
    ensures n >= 0 ==>
              var s := ChunkSize(size, CeilDiv(|ToHex(n)|, 2));
              && s > 0 && r.Success? && Smallest(|r.value|, n, s) && IsBytes(r.value)
              && Meaning(r.value, s, endian) == n
              && (size.Auto? ==> |r.value| == s)
  {
    if n < 0 { return Failure(Negative); }
    var hex := ToHex(n);
    CeilIs(|hex|, 2);
    var s := ChunkSize(size, CeilDiv(|hex|, 2));
    HexValue(n);
    SmallestIs(n, s);
    AutoIsOne(n, s, size);
    var chunks := CeilDiv(|hex|, 2 * s);
    var len := chunks * s;
    assert Smallest(len, n, s) && len % s == 0;
    hide Written, Smallest, Meaning, Value, ToHex, Pow16, CeilDiv, IsBytes;
    while |hex| < 2 * len
      invariant |hex| <= 2 * len && Value(hex) == n
      decreases 2 * len - |hex|
    {
      PadValue(hex);
      hex := "0" + hex;
    }
    var buf := Fill(hex, chunks, s, endian);
    WrittenAll(buf, hex, chunks, s, endian);
    return Success(buf);
  }

  lemma NothingWritten(buf: seq<nat>, hex: string, chunks: nat, size: nat, endian: Endian)
    requires size > 0 && |hex| == 2 * |buf| && |buf| == chunks * size
    ensures Written(buf, hex, 0, 0, chunks, size, endian)
  {
  }

  lemma ChunkDone(buf: seq<nat>, hex: string, i: nat, chunks: nat, size: nat, endian: Endian)
    requires size > 0 && |hex| == 2 * |buf| && |buf| == chunks * size
    requires Written(buf, hex, i, size, chunks, size, endian)
    ensures Written(buf, hex, i + 1, 0, chunks, size, endian)
  {
    hide PairAt, InRange;
    forall a, b | 0 <= a < chunks && 0 <= b < size && (a < i + 1 || (a == i + 1 && b < 0))
      ensures InRange(a, b, chunks, size, endian) && Position(a, b, size, endian) < |buf| && a * size + b < |buf|
      ensures buf[Position(a, b, size, endian)] == PairAt(hex, a * size + b)
    {
      PositionFits(a, b, chunks, size, endian);
      assert a < i || (a == i && b < size);
    }
  }

  lemma AutoIsOne(n: nat, s: nat, size: Size)
    requires size.Auto? ==> s == CeilDiv(|ToHex(n)|, 2)
    requires s > 0
    ensures size.Auto? ==> CeilDiv(|ToHex(n)|, 2 * s) * s == s
  {
    if size.Auto? {
      var h := |ToHex(n)|;
      CeilIs(h, 2);
      CeilIs(h, 2 * s);
      var c := CeilDiv(h, 2 * s);
      if c > 1 { Grow(1, c - 1, 2 * s); }
    }
  }

  // ---------- fromBuffer ----------

  /** Every byte read so far has its two digits. */
  predicate Read(hex: string, bs: seq<nat>, size: nat, endian: Endian, k: nat)
    requires size > 0 && |bs| % size == 0 && k <= |bs|
  {
    |hex| == 2 * k && forall m :: 0 <= m < k ==> PairAt(hex, m) == Arranged(bs, size, endian)[m]
  }

  lemma ReadNext(hex: string, bs: seq<nat>, size: nat, endian: Endian, i: nat, j: nat)
    requires size > 0 && |bs| % size == 0 && IsBytes(bs) && j < size && i * size + j < |bs|
    requires Read(hex, bs, size, endian, i * size + j)
    ensures Position(i, j, size, endian) < |bs|
    ensures Read(hex + PairOf(bs[Position(i, j, size, endian)]), bs, size, endian, i * size + j + 1)
  {
    var k := i * size + j;
    QuotientOf(i, j, size);
    assert Source(k, |bs|, size, endian) == Position(i, j, size, endian);
    var b := bs[Position(i, j, size, endian)];
    DigitOfHexChar(b / 16);
    DigitOfHexChar(b % 16);
    var hex' := hex + PairOf(b);
    forall m | 0 <= m <= k ensures PairAt(hex', m) == Arranged(bs, size, endian)[m] {
      if m < k { assert PairAt(hex', m) == PairAt(hex, m); }
    }
  }

  lemma ReadAll(hex: string, bs: seq<nat>, size: nat, endian: Endian)
    requires size > 0 && |bs| % size == 0 && Read(hex, bs, size, endian, |bs|)
    ensures Value(hex) == Meaning(bs, size, endian)
  {
    BytesOfHex(hex, Arranged(bs, size, endian));
  }

  /** The nested loops of fromBuffer. */
  method ReadHex(bs: seq<nat>, size: nat, endian: Endian) returns (hex: string)
    requires IsBytes(bs) && size > 0 && |bs| % size == 0
    ensures Read(hex, bs, size, endian, |bs|)
  {
    hide Read, Position, PairOf;
    hex := "";
    var i := 0;
    NothingRead(bs, size, endian);
    while i * size < |bs|
      invariant 0 <= i * size <= |bs| && Read(hex, bs, size, endian, i * size)
      decreases |bs| - i * size
    {
      NextChunk(i, |bs|, size);
      var chunk := "";
      var j := 0;
      assert hex + chunk == hex;
      while j < size
        invariant 0 <= j <= size && i * size + j <= |bs|
        invariant Read(hex + chunk, bs, size, endian, i * size + j)
      {
        ReadNext(hex + chunk, bs, size, endian, i, j);
        var pair := PairOf(bs[Position(i, j, size, endian)]);
        assert hex + chunk + pair == hex + (chunk + pair);
        chunk := chunk + pair;
        j := j + 1;
      }
      hex := hex + chunk;
      i := i + 1;
    }
  }

  /** fromBuffer: fails when the buffer is not made of whole chunks; an empty buffer is no number. */
  method FromBuffer(bs: seq<nat>, size: Size, endian: Endian) returns (r: Result<nat, BufferError>)
    requires IsBytes(bs)
    ensures var s := ChunkSize(size, |bs|);
            && (s == 0 || |bs| % s != 0 <==> r == Failure(NotAMultiple))
            && (s > 0 && bs == [] <==> r == Failure(NotANumber))
            && (bs != [] && s > 0 && |bs| % s == 0 ==> r == Success(Meaning(bs, s, endian)))
  {
    var s := ChunkSize(size, |bs|);
    if s == 0 || |bs| % s != 0 { return Failure(NotAMultiple); }
    hide Read, Meaning, Value;
    var hex := ReadHex(bs, s, endian);
    if bs == [] { return Failure(NotANumber); }
    ReadAll(hex, bs, s, endian);
    return Success(Value(hex));
  }

  lemma NothingRead(bs: seq<nat>, size: nat, endian: Endian)
    requires size > 0 && |bs| % size == 0
    ensures Read("", bs, size, endian, 0)
  {
  }

  lemma NextChunk(i: nat, len: nat, size: nat)
    requires size > 0 && len % size == 0 && i * size < len
    ensures i * size + size <= len && (i + 1) * size == i * size + size
  {
    WithinChunks(i * size, len, size);
    QuotientOf(i, 0, size);
  }

  /** Any number survives the round trip, with any chunk size, byte order, or 'auto'. */
  method RoundTrip(n: nat, size: Size, endian: Endian) returns (m: Result<nat, BufferError>)
    ensures m == Success(n)
  {
    var buffer := ToBuffer(n, size, endian);
    m := FromBuffer(buffer.value, size, endian);
  }
}
