/** Making a block (logic/block.js create, getBytes, sign, verifySignature) and the checks that a made
    block has to pass (modules/blocks/verify.js verifyBlock). */
module BlockCreation {
  import opened Base
  import opened Accounts
  import opened BlockRewards
  import opened Bignums
  import opened ForkChoice
  import opened PoolLists
  import Ledger

  const MAX_PAYLOAD_LENGTH: nat := 1048576
  const CURRENT_BLOCK_VERSION: nat := 1
  const SIGNATURE_LENGTH: nat := 64

  type Buffer = seq<nat>

  /** Hashing, signing, the bytes of transactions and keys, and the number of a block id stay abstract. */
  datatype Crypto = Crypto(
    hash: Buffer -> Buffer, sign: (Buffer, string) -> Buffer, verify: (Buffer, Buffer, PublicKey) -> bool,
    transactionBytes: Transaction -> Buffer, keyBytes: PublicKey -> Buffer, idNumber: string -> nat)

  datatype KeyPair = KeyPair(publicKey: PublicKey, privateKey: string)

  /** A signature by the private key is 64 bytes and verifies under the public key. */
  ghost predicate Signs(c: Crypto, k: KeyPair) {
    forall h: Buffer ::
      |c.sign(h, k.privateKey)| == SIGNATURE_LENGTH && c.verify(h, c.sign(h, k.privateKey), k.publicKey)
  }

  datatype FullBlock = FullBlock(
    version: int, timestamp: int, previousBlock: string, numberOfTransactions: int,
    totalAmount: int, totalFee: int, reward: int, payloadLength: int, payloadHash: Buffer,
    generatorPublicKey: PublicKey, blockSignature: Option<Buffer>, transactions: seq<Transaction>)

  /** What is used of the block before. */
  datatype Previous = Previous(id: string, height: nat, timestamp: int)

  // ---------- bytes ----------

  /** Little-endian two's complement of `k` bytes. */
  function LittleEndian(v: int, k: nat): (r: Buffer)
    ensures |r| == k && IsBytes(r)
    decreases k
  {
    if k == 0 then [] else [v % 256] + LittleEndian(v / 256, k - 1)
  }

  /** Big-endian bytes of a number, as many as asked for. */
  function BigEndian(n: nat, k: nat): (r: Buffer)
    ensures |r| == k && IsBytes(r)
    decreases k
  {
    if k == 0 then [] else BigEndian(n / 256, k - 1) + [n % 256]
  }

  lemma {:induction false} SameBytes(a: Buffer, b: Buffer)
    requires IsBytes(a) && IsBytes(b) && |a| == |b| && BytesValue(a) == BytesValue(b)
    ensures a == b
  {
    if a != [] {
      var n := |a| - 1;
      LastByte(BytesValue(a[..n]), a[n], BytesValue(b[..n]), b[n]);
      SameBytes(a[..n], b[..n]);
      assert a == a[..n] + [a[n]] && b == b[..n] + [b[n]];
    }
  }

  lemma LastByte(x: nat, p: nat, y: nat, q: nat)
    requires p < 256 && q < 256 && x * 256 + p == y * 256 + q
    ensures x == y && p == q
  {
  }

  lemma {:induction false} BigEndianValue(n: nat, k: nat)
    requires n < Pow16(2 * k)
    ensures BytesValue(BigEndian(n, k)) == n
  {
    if k > 0 {
      assert Pow16(2 * k) == 16 * Pow16(2 * k - 1) == 256 * Pow16(2 * (k - 1));
      BigEndianValue(n / 256, k - 1);
      assert BigEndian(n, k)[..k - 1] == BigEndian(n / 256, k - 1);
    }
  }

  /** Read the same way, with the upper half of the range for negative numbers. */
  function ReadSigned(bs: Buffer): int {
    if 2 * ReadLittle(bs) < Pow16(2 * |bs|) then ReadLittle(bs) else ReadLittle(bs) - Pow16(2 * |bs|)
  }

  lemma {:induction false} LittleEndianValue(v: int, k: nat)
    requires 0 <= v + Pow16(2 * k) && v < Pow16(2 * k)
    ensures ReadLittle(LittleEndian(v, k)) == if v >= 0 then v else v + Pow16(2 * k)
    decreases k
  {
    if k > 0 {
      assert Pow16(2 * k) == 16 * Pow16(2 * k - 1) == 256 * Pow16(2 * (k - 1));
      LittleEndianValue(v / 256, k - 1);
      assert LittleEndian(v, k)[1..] == LittleEndian(v / 256, k - 1);
    }
  }

  lemma SignedValue(v: int, k: nat)
    requires FitsBytes(v, k)
    ensures ReadSigned(LittleEndian(v, k)) == v
  {
    LittleEndianValue(v, k);
  }

  /** toBuffer({ size: 8 }) of a number of at most 64 bits is its eight bytes. */
  method IdBuffer(n: nat) returns (pb: Buffer)
    requires n < Pow16(16)
    ensures pb == BigEndian(n, 8)
  {
    hide Meaning, BigEndian, Pow16, IsBytes;
    var r := ToBuffer(n, Bytes(8), Big);
    pb := r.value;
    EightBytes(pb, n);
  }

  lemma EightBytes(pb: Buffer, n: nat)
    requires n < Pow16(16) && |pb| % 8 == 0
    requires Smallest(|pb|, n, 8) && IsBytes(pb) && Meaning(pb, 8, Big) == n
    ensures pb == BigEndian(n, 8)
  {
    hide Pow16, BigEndian, BytesValue, Arranged;
    if |pb| > 8 {
      Pow16Grows(16, 2 * (|pb| - 8));
      assert false;
    }
    BigEndianValue(n, 8);
    ArrangedBig(pb, 8);
    SameBytes(pb, BigEndian(n, 8));
  }

  /** The bytes of a block: the header, and the signature when there is one. */
  function BlockBytes(c: Crypto, b: FullBlock): Buffer {
    LittleEndian(b.version, 4) + LittleEndian(b.timestamp, 4)
    + (if b.previousBlock == "" then LittleEndian(0, 8) else BigEndian(c.idNumber(b.previousBlock), 8))
    + LittleEndian(b.numberOfTransactions, 4)
    + LittleEndian(b.totalAmount, 8) + LittleEndian(b.totalFee, 8) + LittleEndian(b.reward, 8)
    + LittleEndian(b.payloadLength, 4)
    + b.payloadHash + c.keyBytes(b.generatorPublicKey)
    + (if b.blockSignature.Some? then b.blockSignature.value else [])
  }

  /** A number that fits into this many bytes. */
  predicate FitsBytes(v: int, k: nat) { 0 <= 2 * v + Pow16(2 * k) && 2 * v < Pow16(2 * k) }

  ghost predicate FitsHeader(c: Crypto, b: FullBlock) {
    && FitsBytes(b.version, 4) && FitsBytes(b.timestamp, 4) && FitsBytes(b.numberOfTransactions, 4)
    && FitsBytes(b.totalAmount, 8) && FitsBytes(b.totalFee, 8) && FitsBytes(b.reward, 8)
    && FitsBytes(b.payloadLength, 4)
    && b.previousBlock != "" && c.idNumber(b.previousBlock) < Pow16(16)
    && |b.payloadHash| == 32 && |c.keyBytes(b.generatorPublicKey)| == 32
  }

  /** Every field can be read back from its place in the bytes: the numbers least significant byte first, the number
      of the block before most significant byte first, then the hash, the key and the signature. */
  lemma HeaderReads(c: Crypto, b: FullBlock)
    requires FitsHeader(c, b)
    ensures var bs := BlockBytes(c, b);
            && |bs| >= 112
            && ReadSigned(bs[0..4]) == b.version && ReadSigned(bs[4..8]) == b.timestamp
            && BytesValue(bs[8..16]) == c.idNumber(b.previousBlock)
            && ReadSigned(bs[16..20]) == b.numberOfTransactions
            && ReadSigned(bs[20..28]) == b.totalAmount && ReadSigned(bs[28..36]) == b.totalFee
            && ReadSigned(bs[36..44]) == b.reward && ReadSigned(bs[44..48]) == b.payloadLength
            && bs[48..80] == b.payloadHash && bs[80..112] == c.keyBytes(b.generatorPublicKey)
            && bs[112..] == if b.blockSignature.Some? then b.blockSignature.value else []
  {
    hide ReadSigned, LittleEndian, BigEndian, BytesValue, Pow16;
    SignedValue(b.version, 4);
    SignedValue(b.timestamp, 4);
    BigEndianValue(c.idNumber(b.previousBlock), 8);
    SignedValue(b.numberOfTransactions, 4);
    SignedValue(b.totalAmount, 8);
    SignedValue(b.totalFee, 8);
    SignedValue(b.reward, 8);
    SignedValue(b.payloadLength, 4);
    HeaderSlices(c, b);
  }

  lemma HeaderSlices(c: Crypto, b: FullBlock)
    requires b.previousBlock != "" && |b.payloadHash| == 32 && |c.keyBytes(b.generatorPublicKey)| == 32
    ensures var bs := BlockBytes(c, b);
            && |bs| >= 112
            && bs[0..4] == LittleEndian(b.version, 4) && bs[4..8] == LittleEndian(b.timestamp, 4)
            && bs[8..16] == BigEndian(c.idNumber(b.previousBlock), 8)
            && bs[16..20] == LittleEndian(b.numberOfTransactions, 4)
            && bs[20..28] == LittleEndian(b.totalAmount, 8) && bs[28..36] == LittleEndian(b.totalFee, 8)
            && bs[36..44] == LittleEndian(b.reward, 8) && bs[44..48] == LittleEndian(b.payloadLength, 4)
            && bs[48..80] == b.payloadHash && bs[80..112] == c.keyBytes(b.generatorPublicKey)
            && bs[112..] == if b.blockSignature.Some? then b.blockSignature.value else []
  {
    hide LittleEndian, BigEndian;
  }

  /** Without its last 64 bytes a signed block is the block that was signed. */
  lemma UnsignedPrefix(c: Crypto, b: FullBlock, signature: Buffer)
    requires b.blockSignature == None && |signature| == 64
    ensures var signed := BlockBytes(c, b.(blockSignature := Some(signature)));
            |signed| >= 64 && signed[..|signed| - 64] == BlockBytes(c, b)
  {
    var signed := BlockBytes(c, b.(blockSignature := Some(signature)));
    hide LittleEndian, BigEndian;
    assert signed == BlockBytes(c, b) + signature;
  }

  /** getBytes writes the fields one after the other into a buffer. */
  method GetBytes(c: Crypto, b: FullBlock) returns (bytes: Buffer)
    requires b.previousBlock != "" ==> c.idNumber(b.previousBlock) < Pow16(16)
    ensures bytes == BlockBytes(c, b)
  {
    hide LittleEndian, BigEndian, Pow16;
    bytes := LittleEndian(b.version, 4);
    bytes := bytes + LittleEndian(b.timestamp, 4);
    if b.previousBlock != "" {
      var pb := IdBuffer(c.idNumber(b.previousBlock));
      bytes := bytes + pb;
    } else {
      bytes := bytes + LittleEndian(0, 8);
    }
    bytes := bytes + LittleEndian(b.numberOfTransactions, 4);
    bytes := bytes + LittleEndian(b.totalAmount, 8);
    bytes := bytes + LittleEndian(b.totalFee, 8);
    bytes := bytes + LittleEndian(b.reward, 8);
    bytes := bytes + LittleEndian(b.payloadLength, 4);
    bytes := bytes + b.payloadHash;
    bytes := bytes + c.keyBytes(b.generatorPublicKey);
    if b.blockSignature.Some? { bytes := bytes + b.blockSignature.value; }
  }

  /** verifySignature hashes all but the last 64 bytes. */
  predicate SignatureOk(c: Crypto, b: FullBlock) {
    var data := BlockBytes(c, b);
    && b.blockSignature.Some? && |data| >= SIGNATURE_LENGTH
    && c.verify(c.hash(data[..|data| - SIGNATURE_LENGTH]), b.blockSignature.value, b.generatorPublicKey)
  }

  // ---------- payload ----------

  function PayloadBytes(c: Crypto, txs: seq<Transaction>): Buffer {
    if txs == [] then [] else PayloadBytes(c, txs[..|txs| - 1]) + c.transactionBytes(txs[|txs| - 1])
  }

  function TotalAmount(txs: seq<Transaction>): int {
    if txs == [] then 0 else TotalAmount(txs[..|txs| - 1]) + txs[|txs| - 1].amount
  }

  predicate DistinctTransactions(txs: seq<Transaction>) {
    forall i, j :: 0 <= i < j < |txs| ==> txs[i].id != txs[j].id
  }

  lemma TotalsNext(c: Crypto, txs: seq<Transaction>, i: nat)
    requires i < |txs|
    ensures PayloadBytes(c, txs[..i + 1]) == PayloadBytes(c, txs[..i]) + c.transactionBytes(txs[i])
    ensures TotalAmount(txs[..i + 1]) == TotalAmount(txs[..i]) + txs[i].amount
    ensures Ledger.SumFees(txs[..i + 1]) == Ledger.SumFees(txs[..i]) + txs[i].fee
  {
    assert txs[..i + 1][..i] == txs[..i];
  }

  predicate PayloadOk(c: Crypto, b: FullBlock) {
    && b.payloadLength <= MAX_PAYLOAD_LENGTH
    && |b.transactions| == b.numberOfTransactions <= MAX_TRANSACTIONS_PER_BLOCK
    && DistinctTransactions(b.transactions)
    && c.hash(PayloadBytes(c, b.transactions)) == b.payloadHash
    && TotalAmount(b.transactions) == b.totalAmount && Ledger.SumFees(b.transactions) == b.totalFee
  }

  // ---------- verifyBlock ----------

  datatype BlockError =
    | BadSignature | InvalidPrevious | InvalidVersion | InvalidReward | PayloadTooLong | CountMismatch | TooMany
    | Duplicate(id: string) | InvalidPayloadHash | InvalidTotalAmount | InvalidTotalFee | NotOnHead | InvalidTimestamp

  /** Everything verifyBlock asks of a block on this predecessor. */
  predicate AllChecks(c: Crypto, rewards: Rewards, last: Previous, currentSlot: int, b: FullBlock)
    requires rewards.Valid()
  {
    && SignatureOk(c, b)
    && (b.previousBlock != "" || last.height + 1 == 1)
    && b.version == CURRENT_BLOCK_VERSION
    && (last.height + 1 == 1 || b.reward == rewards.CalcReward(last.height + 1))
    && PayloadOk(c, b)
    && (b.previousBlock == "" || b.previousBlock == last.id)
    && SlotNumber(last.timestamp) < SlotNumber(b.timestamp) <= currentSlot
  }

  method VerifyPayload(c: Crypto, b: FullBlock) returns (errors: seq<BlockError>)
    ensures errors == [] <==> PayloadOk(c, b)
    ensures errors == [] ==> |b.transactions| <= 25 && b.payloadLength <= 1048576
  {
    errors := [];
    if b.payloadLength > MAX_PAYLOAD_LENGTH { errors := errors + [PayloadTooLong]; }
    if |b.transactions| != b.numberOfTransactions { errors := errors + [CountMismatch]; }
    if |b.transactions| > MAX_TRANSACTIONS_PER_BLOCK { errors := errors + [TooMany]; }
    ghost var early := errors == [];
    hide PayloadBytes, TotalAmount, Ledger.SumFees, DistinctTransactions, TransactionIds;
    var totalAmount, totalFee := 0, 0;
    var payload: Buffer := [];
    var applied: set<string> := {};
    var i := 0;
    NoTransactions(c, b.transactions);
    while i < |b.transactions|
      invariant 0 <= i <= |b.transactions|
      invariant payload == PayloadBytes(c, b.transactions[..i])
      invariant totalAmount == TotalAmount(b.transactions[..i]) && totalFee == Ledger.SumFees(b.transactions[..i])
      invariant applied == TransactionIds(b.transactions[..i])
      invariant errors == [] <==> early && DistinctTransactions(b.transactions[..i])
    {
      var transaction := b.transactions[i];
      TotalsNext(c, b.transactions, i);
      DistinctNext(b.transactions, i);
      if transaction.id in applied { errors := errors + [Duplicate(transaction.id)]; }
      applied := applied + {transaction.id};
      payload := payload + c.transactionBytes(transaction);
      totalAmount, totalFee := totalAmount + transaction.amount, totalFee + transaction.fee;
      i := i + 1;
    }
    assert b.transactions[..i] == b.transactions;
    if c.hash(payload) != b.payloadHash { errors := errors + [InvalidPayloadHash]; }
    if totalAmount != b.totalAmount { errors := errors + [InvalidTotalAmount]; }
    if totalFee != b.totalFee { errors := errors + [InvalidTotalFee]; }
  }

  function TransactionIds(txs: seq<Transaction>): set<string> { set i | 0 <= i < |txs| :: txs[i].id }

  lemma NoTransactions(c: Crypto, txs: seq<Transaction>)
    ensures txs[..0] == [] && PayloadBytes(c, txs[..0]) == [] && TotalAmount(txs[..0]) == 0 == Ledger.SumFees(txs[..0])
    ensures TransactionIds(txs[..0]) == {} && DistinctTransactions(txs[..0])
  {
  }

  lemma DistinctNext(txs: seq<Transaction>, i: nat)
    requires i < |txs|
    ensures TransactionIds(txs[..i + 1]) == TransactionIds(txs[..i]) + {txs[i].id}
    ensures DistinctTransactions(txs[..i + 1]) <==>
            DistinctTransactions(txs[..i]) && txs[i].id !in TransactionIds(txs[..i])
  {
    var pre, all := txs[..i], txs[..i + 1];
    assert all == pre + [txs[i]];
    forall id | id in TransactionIds(pre) ensures id in TransactionIds(all) {
      var k :| 0 <= k < i && pre[k].id == id;
      assert all[k].id == id;
    }
    assert all[i].id in TransactionIds(all);
    if DistinctTransactions(all) {
      forall k, l | 0 <= k < l < i ensures pre[k].id != pre[l].id { assert all[k].id != all[l].id; }
      forall k | 0 <= k < i ensures pre[k].id != txs[i].id { assert all[k].id != all[i].id; }
    }
    if DistinctTransactions(pre) && txs[i].id !in TransactionIds(pre) {
      forall k, l | 0 <= k < l <= i ensures all[k].id != all[l].id {
        if l < i { assert pre[k].id != pre[l].id; } else { assert pre[k].id in TransactionIds(pre); }
      }
    }
  }

  /** verifyBlock collects every error; it passes exactly the blocks that meet every check. */
  method VerifyBlock(c: Crypto, rewards: Rewards, last: Previous, currentSlot: int,
      b: FullBlock) returns (errors: seq<BlockError>)
    requires rewards.Valid()
    ensures errors == [] <==> AllChecks(c, rewards, last, currentSlot, b)
  {
    hide SignatureOk, PayloadOk, rewards.CalcReward, SlotNumber;
    var height := last.height + 1;
    errors := [];
    if !SignatureOk(c, b) { errors := errors + [BadSignature]; }
    if b.previousBlock == "" && height != 1 { errors := errors + [InvalidPrevious]; }
    if b.version != CURRENT_BLOCK_VERSION { errors := errors + [InvalidVersion]; }
    var expectedReward := rewards.CalcReward(height);
    if height != 1 && expectedReward != b.reward { errors := errors + [InvalidReward]; }
    var payloadErrors := VerifyPayload(c, b);
    errors := errors + payloadErrors;
    if b.previousBlock != "" && b.previousBlock != last.id { errors := errors + [NotOnHead]; }
    var blockSlotNumber, lastBlockSlotNumber := SlotNumber(b.timestamp), SlotNumber(last.timestamp);
    if blockSlotNumber > currentSlot || blockSlotNumber <= lastBlockSlotNumber {
      errors := errors + [InvalidTimestamp];
    }
  }

  // ---------- create ----------

  function TypeNumber(asset: Asset): nat {
    match asset
    case Send(_) => 0
    case SecondSignature(_) => 1
    case Registration(_) => 2
    case Votes(_) => 3
    case Multisignature(_, _, _) => 4
  }

  /** The comparison in create: multisignature registrations last, then by type, then by amount. */
  function Compare(a: Transaction, b: Transaction): int {
    if a.asset.Multisignature? && !b.asset.Multisignature? then 1
    else if !a.asset.Multisignature? && b.asset.Multisignature? then -1
    else if TypeNumber(a.asset) < TypeNumber(b.asset) then -1
    else if TypeNumber(a.asset) > TypeNumber(b.asset) then 1
    else if a.amount < b.amount then -1
    else if a.amount > b.amount then 1
    else 0
  }

  predicate InOrder(txs: seq<Transaction>) {
    forall i, j :: 0 <= i < j < |txs| ==> Compare(txs[i], txs[j]) <= 0
  }

  /** Transfers come first, then second signatures, registrations, votes and groups; within each type smaller amounts
      before larger ones. */
  predicate InTypeOrder(x: Transaction, y: Transaction) {
    match x.asset
    case Send(_) => y.asset.Send? ==> x.amount <= y.amount
    case SecondSignature(_) => !y.asset.Send? && (y.asset.SecondSignature? ==> x.amount <= y.amount)
    case Registration(_) =>
      !y.asset.Send? && !y.asset.SecondSignature? && (y.asset.Registration? ==> x.amount <= y.amount)
    case Votes(_) => y.asset.Multisignature? || (y.asset.Votes? && x.amount <= y.amount)
    case Multisignature(_, _, _) => y.asset.Multisignature? && x.amount <= y.amount
  }

  lemma InOrderIff(txs: seq<Transaction>)
    ensures InOrder(txs) <==> forall i, j :: 0 <= i < j < |txs| ==> InTypeOrder(txs[i], txs[j])
  {
    assert forall x, y :: Compare(x, y) <= 0 <==> InTypeOrder(x, y);
    hide Compare, InTypeOrder;
  }

  lemma CompareTransitive(a: Transaction, b: Transaction, d: Transaction)
    ensures Compare(a, b) <= 0 && Compare(b, d) <= 0 ==> Compare(a, d) <= 0
    ensures Compare(a, b) > 0 ==> Compare(b, a) <= 0
  {
  }

  function Insert(txs: seq<Transaction>, t: Transaction): seq<Transaction> {
    if txs == [] || Compare(txs[|txs| - 1], t) <= 0 then txs + [t]
    else Insert(txs[..|txs| - 1], t) + [txs[|txs| - 1]]
  }

  function Sorted(txs: seq<Transaction>): seq<Transaction> {
    if txs == [] then [] else Insert(Sorted(txs[..|txs| - 1]), txs[|txs| - 1])
  }

  lemma {:induction false} InsertKeeps(txs: seq<Transaction>, t: Transaction)
    requires InOrder(txs)
    ensures InOrder(Insert(txs, t)) && multiset(Insert(txs, t)) == multiset(txs) + multiset{t}
  {
    hide Compare;
    if txs != [] {
      var n := |txs| - 1;
      var last := txs[n];
      assert txs == txs[..n] + [last];
      if Compare(last, t) <= 0 {
        forall i | 0 <= i < |txs| ensures Compare(txs[i], t) <= 0 { CompareTransitive(txs[i], last, t); }
      } else {
        InsertKeeps(txs[..n], t);
        var pre := Insert(txs[..n], t);
        CompareTransitive(last, t, t);
        forall i | 0 <= i < |pre| ensures Compare(pre[i], last) <= 0 {
          assert pre[i] in multiset(pre);
          assert pre[i] == t || pre[i] in multiset(txs[..n]);
          CompareTransitive(last, t, t);
        }
      }
    }
  }

  lemma {:induction false} SortedIs(txs: seq<Transaction>)
    ensures InOrder(Sorted(txs)) && multiset(Sorted(txs)) == multiset(txs)
  {
    if txs != [] {
      assert txs == txs[..|txs| - 1] + [txs[|txs| - 1]];
      SortedIs(txs[..|txs| - 1]);
      InsertKeeps(Sorted(txs[..|txs| - 1]), txs[|txs| - 1]);
    }
  }

  /** Array.prototype.sort with that comparison: the same transactions, in order. */
  method SortTransactions(a: array<Transaction>)
    modifies a
    ensures InOrder(a[..]) && multiset(a[..]) == multiset(old(a[..])) && a[..] == Sorted(old(a[..]))
    ensures forall i, j :: 0 <= i < j < a.Length ==> InTypeOrder(a[i], a[j])
  {
    var sorted := Sorted(a[..]);
    SortedIs(a[..]);
    SortedLength(a[..]);
    var i := 0;
    while i < a.Length
      invariant 0 <= i <= a.Length
      invariant forall k :: 0 <= k < i ==> a[k] == sorted[k]
    {
      a[i] := sorted[i];
      i := i + 1;
    }
    assert a[..] == sorted;
    InOrderIff(a[..]);
    assert forall k :: 0 <= k < a.Length ==> a[k] == a[..][k];
  }

  lemma SortedLength(txs: seq<Transaction>)
    ensures |Sorted(txs)| == |txs|
  {
    SortedIs(txs);
    assert |multiset(Sorted(txs))| == |multiset(txs)|;
  }

  lemma {:induction false} DistinctCounts(txs: seq<Transaction>)
    ensures DistinctTransactions(txs) ==> forall t :: multiset(txs)[t] <= 1
  {
    if txs != [] {
      var n := |txs| - 1;
      assert txs == txs[..n] + [txs[n]];
      DistinctCounts(txs[..n]);
      if DistinctTransactions(txs) { assert txs[n] !in txs[..n]; }
    }
  }

  /** Reordering keeps ids distinct. */
  lemma DistinctReordered(txs: seq<Transaction>, us: seq<Transaction>)
    requires DistinctTransactions(txs) && multiset(txs) == multiset(us)
    ensures DistinctTransactions(us) && |us| == |txs|
  {
    assert |multiset(us)| == |multiset(txs)|;
    DistinctCounts(txs);
    forall i, j | 0 <= i < j < |us| ensures us[i].id != us[j].id {
      assert us[i] in multiset(txs) && us[j] in multiset(txs);
      if us[i].id == us[j].id {
        var k :| 0 <= k < |txs| && txs[k] == us[i];
        var l :| 0 <= l < |txs| && txs[l] == us[j];
        assert k == l;
        TwoOfAKind(us, i, j);
        assert false;
      }
    }
  }

  lemma TwoOfAKind(us: seq<Transaction>, i: nat, j: nat)
    requires i < j < |us| && us[i] == us[j]
    ensures multiset(us)[us[i]] >= 2
  {
    assert us == us[..i] + [us[i]] + us[i + 1..j] + [us[j]] + us[j + 1..];
  }

  /** The payload loop of create: as many transactions from the front as fit. */
  method CutPayload(c: Crypto, txs: seq<Transaction>)
    returns (taken: nat, totalAmount: int, totalFee: int, size: nat, payload: Buffer)
    ensures taken <= |txs| && payload == PayloadBytes(c, txs[..taken]) && |payload| == size <= MAX_PAYLOAD_LENGTH
    ensures totalAmount == TotalAmount(txs[..taken]) && totalFee == Ledger.SumFees(txs[..taken])
    ensures taken < |txs| ==> size + |c.transactionBytes(txs[taken])| > 1048576
  {
    hide PayloadBytes, TotalAmount, Ledger.SumFees;
    totalAmount, totalFee, size, payload, taken := 0, 0, 0, [], 0;
    NoTransactions(c, txs);
    while taken < |txs|
      invariant 0 <= taken <= |txs|
      invariant payload == PayloadBytes(c, txs[..taken]) && |payload| == size <= MAX_PAYLOAD_LENGTH
      invariant totalAmount == TotalAmount(txs[..taken]) && totalFee == Ledger.SumFees(txs[..taken])
    {
      var bytes := c.transactionBytes(txs[taken]);
      if size + |bytes| > MAX_PAYLOAD_LENGTH { break; }
      TotalsNext(c, txs, taken);
      size := size + |bytes|;
      totalFee := totalFee + txs[taken].fee;
      totalAmount := totalAmount + txs[taken].amount;
      payload := payload + bytes;
      taken := taken + 1;
    }
  }

  /** create, with the payload cut at the size limit.  Made from at most 25 transactions with distinct
      ids for a later slot, the block passes every check of verifyBlock. */
  method Create(c: Crypto, rewards: Rewards, k: KeyPair, timestamp: int, last: Previous,
                transactions: array<Transaction>)
    returns (b: FullBlock)
    requires rewards.Valid() && Signs(c, k) && last.id != "" && c.idNumber(last.id) < Pow16(16)
    modifies transactions
    ensures transactions[..] == Sorted(old(transactions[..]))
    ensures b.transactions <= transactions[..]
    ensures |PayloadBytes(c, b.transactions)| == b.payloadLength <= MAX_PAYLOAD_LENGTH
    ensures |b.transactions| < transactions.Length ==>
              b.payloadLength + |c.transactionBytes(transactions[|b.transactions|])| > 1048576
    ensures b.version == 1 && b.payloadLength <= 1048576
    ensures b.timestamp == timestamp && b.generatorPublicKey == k.publicKey && b.previousBlock == last.id
    ensures b.totalFee == Ledger.SumFees(b.transactions) && b.reward == rewards.CalcReward(last.height + 1)
    ensures |old(transactions[..])| <= MAX_TRANSACTIONS_PER_BLOCK && DistinctTransactions(old(transactions[..])) ==>
              forall currentSlot :: SlotNumber(last.timestamp) < SlotNumber(timestamp) <= currentSlot ==>
                AllChecks(c, rewards, last, currentSlot, b)
  {
    hide Signs, SlotNumber, rewards.CalcReward, Sorted, Pow16, PayloadBytes, TotalAmount, Ledger.SumFees,
         DistinctTransactions, InOrder, BlockBytes, SignatureOk;
    ghost var txs := transactions[..];
    SortTransactions(transactions);
    var reward := rewards.CalcReward(last.height + 1);
    var taken, totalAmount, totalFee, size, payload := CutPayload(c, transactions[..]);
    PrefixDistinct(txs, transactions[..], taken);
    var blockTransactions := transactions[..taken];
    assert transactions[..][..taken] == blockTransactions;
    var unsigned := FullBlock(CURRENT_BLOCK_VERSION, timestamp, last.id, |blockTransactions|, totalAmount, totalFee,
                              reward, size, c.hash(payload), k.publicKey, None, blockTransactions);
    var data := GetBytes(c, unsigned);
    b := unsigned.(blockSignature := Some(c.sign(c.hash(data), k.privateKey)));
    SignedOk(c, k, unsigned);
  }

  lemma SignedOk(c: Crypto, k: KeyPair, unsigned: FullBlock)
    requires Signs(c, k) && unsigned.blockSignature == None && unsigned.generatorPublicKey == k.publicKey
    ensures SignatureOk(c, unsigned.(blockSignature := Some(c.sign(c.hash(BlockBytes(c, unsigned)), k.privateKey))))
  {
    hide BlockBytes;
    UnsignedPrefix(c, unsigned, c.sign(c.hash(BlockBytes(c, unsigned)), k.privateKey));
  }

  lemma PrefixDistinct(txs: seq<Transaction>, sorted: seq<Transaction>, i: nat)
    requires multiset(txs) == multiset(sorted) && i <= |sorted|
    ensures DistinctTransactions(txs) ==> DistinctTransactions(sorted[..i])
    ensures |sorted| == |txs|
  {
    assert |multiset(sorted)| == |multiset(txs)|;
    if DistinctTransactions(txs) { DistinctReordered(txs, sorted); }
  }
}
