/**
  Applying and popping blocks (modules/blocks/chain.js, modules/rounds.js, logic/round.js,
  logic/transaction.js) on the abstract node: the chain, the books, the pending-signature flags,
  the rounds that have rows in mem_round, and the one snapshot.
 */
module Ledger {
  import opened Base
  import opened Diff
  import opened Accounts
  import opened Tally
  import opened Payouts
  import opened Voting

  datatype Block = Block(
    id: string, previousBlock: string, timestamp: int, generator: PublicKey,
    totalFee: nat, reward: nat, transactions: seq<Transaction>)

  /** Copies of mem_round and of the registered delegates' vote and producedBlocks columns. */
  datatype Snapshot = Snapshot(pending: Pending, rounds: set<int>, votes: Column, produced: Column)

  datatype Node = Node(
    blocks: seq<Block>, books: Books, flags: set<Address>, rounds: set<int>,
    snapshot: Option<Snapshot>, rewardRows: seq<RewardRow>)

  /** What a step leaves behind, and whether it went through.  A step that fails is rolled back,
      except for the in-memory flags. */
  datatype Attempt = Attempt(node: Node, ok: bool)

  /** helpers/slots.js calcRound: the height divided by 101, rounded up. */
  function CalcRound(height: nat): nat { (height + ACTIVE_DELEGATES - 1) / ACTIVE_DELEGATES }

  // ---------- checks ----------

  /** Enough signatures for a multisignature sender; one per key for a new group. */
  predicate Ready(s: Side, tx: Transaction) {
    match tx.asset
    case Multisignature(ks, _, _) =>
      tx.signatures.Some? &&
      if s.multisignatures == multiset{} then tx.signatures.value == |ks|
      else tx.signatures.value >= s.multimin
    case _ =>
      s.multisignatures != multiset{} ==> tx.signatures.Some? && tx.signatures.value >= s.multimin
  }

  ghost predicate UsernameFree(t: SideTable, username: string) {
    forall a: Address :: Row(t, a).username != Some(username)
  }

  ghost predicate UAllowed(s: Accts, flags: set<Address>, tx: Transaction, genesis: bool) {
    var a := tx.From();
    && (genesis || Row(s.unconf, a).balance >= tx.Cost())
    && match tx.asset
       case Send(_) => true
       case SecondSignature(_) => !Row(s.unconf, a).secondSignature && !Row(s.conf, a).secondSignature
       case Registration(u) => !Row(s.unconf, a).isDelegate && UsernameFree(s.unconf, u)
       case Votes(vs) => CheckDelegates(s.conf, Row(s.unconf, a).delegates, vs)
       case Multisignature(_, _, _) => a !in flags
  }

  ghost predicate CAllowed(s: Accts, tx: Transaction, genesis: bool) {
    var a := tx.From();
    && Ready(Row(s.conf, a), tx)
    && (genesis || Row(s.conf, a).balance >= tx.Cost())
    && match tx.asset
       case Registration(u) => !Row(s.conf, a).isDelegate && UsernameFree(s.conf, u)
       case Votes(vs) => CheckDelegates(s.conf, Row(s.conf, a).delegates, vs)
       case _ => true
  }

  // ---------- one transaction ----------

  /** mem_round gets rows for a balance change only when the account votes for somebody. */
  ghost function RowsFor(rounds: set<int>, round: int, s: Side): set<int> {
    if s.delegates == multiset{} then rounds else rounds + {round}
  }

  ghost function TxRounds(rounds: set<int>, round: int, conf: SideTable, tx: Transaction): set<int> {
    var r1 := RowsFor(rounds, round, Row(conf, tx.From()));
    match tx.asset
    case Send(r) => RowsFor(r1, round, Row(conf, r))
    case Votes(vs) => if vs == [] then r1 else r1 + {round}
    case _ => r1
  }

  ghost function UStep(n: Node, tx: Transaction): Node {
    n.(books := n.books.(accts := UEffect(n.books.accts, tx)),
       flags := if tx.asset.Multisignature? then n.flags + {tx.From()} else n.flags)
  }

  ghost function CStep(n: Node, round: int, tx: Transaction): Node {
    var conf := n.books.accts.conf;
    n.(books := Books(CEffect(n.books.accts, tx), ResetVote(n.books.votes, tx),
        CPending(n.books.pending, round, conf, tx)),
       rounds := TxRounds(n.rounds, round, conf, tx),
       flags := if tx.asset.Multisignature? then n.flags - {tx.From()} else n.flags)
  }

  /** undoConfirmed sets the flag of a multisignature sender and undoUnconfirmed clears it again. */
  ghost function UndoStep(n: Node, round: int, tx: Transaction): Node {
    var conf := n.books.accts.conf;
    n.(books := Books(UndoPair(n.books.accts, tx), ResetVote(n.books.votes, tx),
        UndoPending(n.books.pending, round, conf, tx)),
       rounds := TxRounds(n.rounds, round, conf, tx),
       flags := if tx.asset.Multisignature? then n.flags - {tx.From()} else n.flags)
  }

  // ---------- all transactions of a block ----------

  ghost function UAll(n: Node, txs: seq<Transaction>): Attempt {
    if txs == [] then Attempt(n, true) else
      var u, tx := UAll(n, txs[..|txs| - 1]), txs[|txs| - 1];
      if u.ok && UAllowed(u.node.books.accts, u.node.flags, tx, false) then Attempt(UStep(u.node, tx), true)
      else Attempt(u.node, false)
  }

  ghost function CAll(n: Node, round: int, txs: seq<Transaction>): Attempt {
    if txs == [] then Attempt(n, true) else
      var c, tx := CAll(n, round, txs[..|txs| - 1]), txs[|txs| - 1];
      if c.ok && CAllowed(c.node.books.accts, tx, false) then Attempt(CStep(c.node, round, tx), true)
      else Attempt(c.node, false)
  }

  ghost function UndoAll(n: Node, round: int, txs: seq<Transaction>): (r: Node)
    ensures r.blocks == n.blocks && r.snapshot == n.snapshot && r.rewardRows == n.rewardRows
    decreases |txs|
  {
    if txs == [] then n else UndoAll(UndoStep(n, round, txs[|txs| - 1]), round, txs[..|txs| - 1])
  }

  // ---------- rounds ----------

  function Finishes(height: nat): bool {
    CalcRound(height) != CalcRound(height + 1) || height == 1 || height == 101
  }

  /** The blocks of a round that are in the chain; block i has height i + 1. */
  function RoundBlocks(blocks: seq<Block>, round: nat): seq<Block>
    requires round >= 1
  {
    var lo, hi := (round - 1) * ACTIVE_DELEGATES, round * ACTIVE_DELEGATES;
    if |blocks| <= lo then [] else if |blocks| < hi then blocks[lo..] else blocks[lo..hi]
  }

  function Generators(blocks: seq<Block>): seq<PublicKey> {
    seq(|blocks|, i requires 0 <= i < |blocks| => blocks[i].generator)
  }

  function Rewards(blocks: seq<Block>): seq<int> {
    seq(|blocks|, i requires 0 <= i < |blocks| => blocks[i].reward)
  }

  function TotalFees(blocks: seq<Block>): nat {
    if blocks == [] then 0 else TotalFees(blocks[..|blocks| - 1]) + blocks[|blocks| - 1].totalFee
  }

  datatype RoundSum = RoundSum(fees: nat, rewards: seq<int>, delegates: seq<PublicKey>)

  /** modules/rounds.js sumRound; the genesis block is landed alone with nothing to share. */
  function SumRound(blocks: seq<Block>): (s: RoundSum)
    requires |blocks| > 0
    ensures |s.rewards| == |s.delegates|
  {
    if |blocks| == 1 then RoundSum(0, [0], [blocks[0].generator])
    else
      var bs := RoundBlocks(blocks, CalcRound(|blocks|));
      RoundSum(TotalFees(bs), Rewards(bs), Generators(bs))
  }

  ghost function Land(n: Node): Node
    requires |n.blocks| > 0
  {
    var round, s := CalcRound(|n.blocks|), SumRound(n.blocks);
    var paid := PayAll(n.books, round, ForwardPayouts(s.delegates, s.rewards, s.fees));
    n.(books := Books(paid.accts, UpdateVotes(paid.votes, paid.pending, round), Flush(paid.pending, round)),
       rounds := n.rounds - {round},
       rewardRows := n.rewardRows +
         RewardRows(n.blocks[|n.blocks| - 1].timestamp, round, s.delegates, s.rewards, s.fees))
  }

  ghost function TakeSnapshot(n: Node): Snapshot {
    Snapshot(n.books.pending, n.rounds,
             imap a: Address | Row(n.books.accts.conf, a).isDelegate :: Get(n.books.votes, a),
             imap a: Address | Row(n.books.accts.conf, a).isDelegate :: Get(n.books.accts.produced, a))
  }

  ghost function CountBlock(n: Node, delta: int): Node
    requires |n.blocks| > 0
  {
    var g := OfKey(n.blocks[|n.blocks| - 1].generator);
    n.(books := n.books.(accts := n.books.accts.(produced := Add(n.books.accts.produced, g, delta))))
  }

  /** One block before the end of a round the snapshot is replaced. */
  ghost function Tick(n: Node): (r: Node)
    requires |n.blocks| > 0
    ensures r.blocks == n.blocks
  {
    var h := |n.blocks|;
    var n1 := CountBlock(n, 1);
    var n2 := if Finishes(h) then Land(n1) else n1;
    if (h + 1) % ACTIVE_DELEGATES == 0 then n2.(snapshot := Some(TakeSnapshot(n2))) else n2
  }

  /** checkSnapshotAvailability: the snapshot has rows of the round, or no rows at all. */
  predicate SnapshotAvailable(snapshot: Option<Snapshot>, round: int) {
    snapshot.Some? && (round in snapshot.value.rounds || snapshot.value.rounds == {})
  }

  ghost function Overwrite(m: Column, saved: Column): Column {
    imap a: Address :: if a in saved then saved[a] else Get(m, a)
  }

  ghost function AddPending(p: Pending, q: Pending): Pending {
    imap k: (int, PublicKey) :: PendingAt(p, k.0, k.1) + PendingAt(q, k.0, k.1)
  }

  ghost function BackwardLand(n: Node): Attempt
    requires |n.blocks| > 1
  {
    var round, s := CalcRound(|n.blocks|), SumRound(n.blocks);
    if !SnapshotAvailable(n.snapshot, round) then Attempt(n, false)
    else
      var paid := PayAll(n.books, round, BackwardPayouts(s.delegates, s.rewards, s.fees));
      var snap := n.snapshot.value;
      var rows := SelectOtherRounds(n.rewardRows, round);
      Attempt(n.(books := Books(paid.accts.(produced := Overwrite(paid.accts.produced, snap.produced)),
                                Overwrite(paid.votes, snap.votes),
                                AddPending(Flush(paid.pending, round), snap.pending)),
                 rounds := n.rounds - {round} + snap.rounds,
                 rewardRows := rows), true)
  }

  /** deleteRoundRewards keeps the rows of every other round. */
  function SelectOtherRounds(rows: seq<RewardRow>, round: int): seq<RewardRow> {
    if rows == [] then [] else
      var pre, last := SelectOtherRounds(rows[..|rows| - 1], round), rows[|rows| - 1];
      if last.round == round then pre else pre + [last]
  }

  ghost function BackwardTick(n: Node): Attempt
    requires |n.blocks| > 1
  {
    var h := |n.blocks|;
    var n1 := CountBlock(n, -1);
    if (CalcRound(h - 1) == CalcRound(h) && CalcRound(h + 1) != CalcRound(h)) || h == 1 || h == 101
    then BackwardLand(n1) else Attempt(n1, true)
  }

  // ---------- blocks ----------

  /** chain.js applyBlock, after the unconfirmed list has been undone. */
  ghost function ApplyBlock(n: Node, b: Block): (r: Attempt)
    ensures r.node.blocks == if r.ok then n.blocks + [b] else n.blocks
  {
    var round := CalcRound(|n.blocks| + 1);
    var u := UAll(n, b.transactions);
    if !u.ok then Attempt(n.(flags := u.node.flags), false) else
    var c := CAll(u.node, round, b.transactions);
    if !c.ok then Attempt(n.(flags := c.node.flags), false) else
    Attempt(Tick(c.node.(blocks := n.blocks + [b])), true)
  }

  /** chain.js deleteLastBlock and popLastBlock: the genesis block is refused. */
  ghost function PopBlock(n: Node): Attempt
    requires |n.blocks| > 0
  {
    if |n.blocks| == 1 then Attempt(n, false) else
    var last := n.blocks[|n.blocks| - 1];
    var undone := UndoAll(n, CalcRound(|n.blocks|), last.transactions);
    var t := BackwardTick(undone);
    if !t.ok then Attempt(n.(flags := undone.flags), false)
    else Attempt(t.node.(blocks := n.blocks[..|n.blocks| - 1]), true)
  }

  // ---------- what is checked before a block is applied ----------

  function Fee(asset: Asset): nat {
    match asset
    case Send(_) => 10000000
    case SecondSignature(_) => 500000000
    case Registration(_) => 2500000000
    case Votes(_) => 100000000
    case Multisignature(ks, _, _) => 500000000 * (|ks| + 1)
  }

  /** logic/transaction.js verify with the type's own verify, as far as the accounts table matters:
      signatures, ids, timestamps and schemas are the caller's business. */
  ghost predicate Verified(s: Accts, genesisKey: PublicKey, tx: Transaction) {
    var row := Row(s.conf, tx.From());
    && tx.sender != genesisKey
    && tx.fee == Fee(tx.asset)
    && tx.amount >= 0
    && row.balance >= tx.Cost()
    && match tx.asset
       case Send(_) => tx.amount > 0
       case SecondSignature(_) => tx.amount == 0
       case Registration(u) => tx.amount == 0 && !row.isDelegate && UsernameFree(s.conf, u)
       case Votes(vs) => 0 < |vs| <= 33 && DistinctKeys(vs) && CheckDelegates(s.conf, row.delegates, vs)
       case Multisignature(ks, min, life) =>
         && 0 < |ks| && 1 <= min <= 15 && min <= |ks| && 1 <= life <= 72
         && row.multisignatures == multiset{}
         && (forall i :: 0 <= i < |ks| ==> Signed(ks[i]) && !IsMinus(ks[i]))
         && DistinctKeys(ks)
         && "+" + tx.sender !in ks
  }

  function SumFees(txs: seq<Transaction>): int {
    if txs == [] then 0 else SumFees(txs[..|txs| - 1]) + txs[|txs| - 1].fee
  }

  /** processBlock: the total fee is right, the generator is a registered delegate (validateBlockSlot)
      and every transaction verifies against the accounts before the block. */
  ghost predicate BlockVerified(n: Node, genesisKey: PublicKey, b: Block) {
    && b.totalFee == SumFees(b.transactions)
    && Row(n.books.accts.conf, OfKey(b.generator)).isDelegate
    && forall i :: 0 <= i < |b.transactions| ==> Verified(n.books.accts, genesisKey, b.transactions[i])
  }
}
