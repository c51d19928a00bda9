/** The genesis block (chain.js applyGenesisBlock) starts every run in a state with all invariants. */
module GenesisBlocks {
  import opened Base
  import opened Diff
  import opened Accounts
  import opened Tally
  import opened Payouts
  import opened Voting
  import opened Ledger
  import opened Rollback
  import opened Invariants
  import opened PopBlocks
  import opened Landing
  import opened History
  import opened Conservation

  /** The value every entry of an empty table reads as. */
  ghost function Default<K, V>(key: K, v: V): V { v }

  ghost function ZeroColumn(): Column { imap a: Address :: Default(a, 0) }

  ghost function EmptyBooks(): Books {
    Books(Accts(imap a: Address :: Default(a, EMPTY_SIDE), imap a: Address :: Default(a, EMPTY_SIDE),
        imap a: Address :: Default(a, None),
                ZeroColumn(), ZeroColumn(), ZeroColumn()),
          ZeroColumn(), imap k: (int, PublicKey) :: Default(k, 0))
  }

  ghost function EmptyNode(): Node { Node([], EmptyBooks(), {}, {}, None, []) }

  /** Each transaction is applied to both halves at once; no balance is checked. */
  ghost function GenesisAll(txs: seq<Transaction>): Attempt {
    if txs == [] then Attempt(EmptyNode(), true) else
      var g, tx := GenesisAll(txs[..|txs| - 1]), txs[|txs| - 1];
      if !g.ok || !UAllowed(g.node.books.accts, g.node.flags, tx, true) then Attempt(g.node, false) else
      var u := UStep(g.node, tx);
      if !CAllowed(u.books.accts, tx, true) then Attempt(u, false) else Attempt(CStep(u, 1, tx), true)
  }

  ghost function ApplyGenesis(b: Block): Attempt {
    var g := GenesisAll(b.transactions);
    if g.ok then Attempt(Tick(g.node.(blocks := [b])), true) else g
  }

  /** The genesis block transfers coins, registers delegates and votes. */
  predicate GenesisTypes(txs: seq<Transaction>) {
    forall i :: 0 <= i < |txs| ==> txs[i].asset.Send? || txs[i].asset.Registration? || txs[i].asset.Votes?
  }

  lemma EmptyIsSane()
    ensures Settled(EmptyBooks(), 1) && Tallied(EmptyBooks(), 1)
  {
    var e := EmptyBooks();
    assert e.accts.conf == e.accts.unconf;
    forall a: Address ensures RowSane(e, a) {
      assert Row(e.accts.conf, a) == EMPTY_SIDE;
    }
    forall r: int, d: PublicKey ensures PendingSane(e, 1, r, d) {
      assert PendingAt(e.pending, r, d) == 0;
    }
    forall U: set<Address>, d: PublicKey ensures TallyAt(e, 1, U, d) {
      NothingBacked(U, e.accts.conf, d);
      assert PendingAt(e.pending, 1, d) == 0;
    }
  }

  lemma NothingBacked(U: set<Address>, conf: SideTable, d: PublicKey)
    requires forall a: Address :: Row(conf, a) == EMPTY_SIDE
    ensures Backing(U, conf, d) == 0
  {
    assert forall a: Address :: Get(Weights(conf, d), a) == 0;
    SumSupport({}, U, Weights(conf, d));
  }

  lemma GenesisStep(n: Node, tx: Transaction)
    requires tx.asset.Send? || tx.asset.Registration? || tx.asset.Votes?
    requires CAllowed(UStep(n, tx).books.accts, tx, true)
    ensures TxShape(n.books, tx)
    ensures var n' := CStep(UStep(n, tx), 1, tx);
            && n'.books == BooksPair(n.books, 1, tx)
            && n'.flags == n.flags && n'.rounds <= n.rounds + {1} && n'.snapshot == n.snapshot
                && n'.rewardRows == n.rewardRows
  {
    hide UEffect, CEffect, CPending, CheckDelegates, Ready, UsernameFree, Row;
    UEffectConf(n.books.accts, tx);
  }

  lemma {:induction false} GenesisAllKeeps(txs: seq<Transaction>)
    requires GenesisAll(txs).ok && GenesisTypes(txs)
    ensures var n := GenesisAll(txs).node;
            && Settled(n.books, 1) && Tallied(n.books, 1)
            && n.flags == {} && n.rounds <= {1} && n.snapshot == None && n.rewardRows == []
  {
    if txs == [] {
      EmptyIsSane();
    } else {
      hide Settled, Tallied, UStep, CStep, UAllowed, CAllowed, EmptyNode, TxShape, BooksPair;
      var pre, tx := txs[..|txs| - 1], txs[|txs| - 1];
      assert forall i :: 0 <= i < |pre| ==> pre[i] == txs[i];
      GenesisAllKeeps(pre);
      var n := GenesisAll(pre).node;
      GenesisStep(n, tx);
      PairKeepsSettled(n.books, 1, tx);
      PairKeepsTallied(n.books, 1, tx);
    }
  }

  /** Registered after the genesis block is who it registers. */
  lemma {:induction false} GenesisRegisters(txs: seq<Transaction>, a: Address)
    requires GenesisAll(txs).ok && GenesisTypes(txs)
    ensures Row(GenesisAll(txs).node.books.accts.conf, a).isDelegate <==> Registers(txs, a)
  {
    hide UStep, CStep, UAllowed, CAllowed, EmptyBooks, BooksPair, Row, Registers, Touched;
    if txs == [] {
      NobodyRegistered(a);
    } else {
      var pre, tx := txs[..|txs| - 1], txs[|txs| - 1];
      assert forall i :: 0 <= i < |pre| ==> pre[i] == txs[i];
      GenesisRegisters(pre, a);
      RegistersStep(txs, a);
      var n := GenesisAll(pre).node;
      GenesisStep(n, tx);
      PairDelegate(n.books, tx, a);
    }
  }

  lemma NobodyRegistered(a: Address)
    ensures !Row(EmptyNode().books.accts.conf, a).isDelegate && !Registers([], a)
  {
  }

  lemma PairDelegate(b: Books, tx: Transaction, a: Address)
    ensures Row(BooksPair(b, 1, tx).accts.conf, a).isDelegate <==>
            Row(b.accts.conf, a).isDelegate || (tx.asset.Registration? && tx.From() == a)
  {
    hide Touched, Row, CPending, Touch, Bump;
    PairConf(b.accts, tx);
    MovedRow(b.accts.conf, tx, a);
    TouchedFields(Row(b.accts.conf, a), tx);
  }

  lemma UEffectConf(s: Accts, tx: Transaction)
    ensures UEffect(s, tx).conf == s.conf
  {
    hide Touch;
  }

  /** Once the genesis block is applied and landed, a run can start from it. */
  lemma GenesisHolds(b: Block)
    requires ApplyGenesis(b).ok && GenesisTypes(b.transactions)
    ensures Genesis(ApplyGenesis(b).node)
  {
    hide Settled, Tallied, GenesisAll, PayAll, ForwardPayouts, RewardRows, Add;
    GenesisAllKeeps(b.transactions);
    var g := GenesisAll(b.transactions).node.(blocks := [b]);
    var p := Add(g.books.accts.produced, OfKey(b.generator), 1);
    SettledWf(g.books, 1);
    FullAdd(g.books.accts.produced, OfKey(b.generator));
    ProducedIrrelevant(g.books, 1, p);
    var s := SumRound([b]);
    var ps := ForwardPayouts(s.delegates, s.rewards, s.fees);
    LandKeepsSettled(WithProduced(g.books, p), 1, ps, 1);
    LandKeepsTallied(WithProduced(g.books, p), 1, ps, 1);
    assert Tick(g).books == Landed(WithProduced(g.books, p), 1, ps);
  }

  lemma FullAdd(m: Column, a: Address)
    requires Full(m)
    ensures Full(Add(m, a, 1))
  {
  }

  /** Only the genesis account pays for anything in the genesis block. */
  predicate GenesisPays(txs: seq<Transaction>, genesisKey: PublicKey) {
    forall i :: 0 <= i < |txs| ==> txs[i].amount >= 0 && (txs[i].sender == genesisKey || txs[i].Cost() == 0)
  }

  lemma {:induction false} GenesisAllNonNegative(txs: seq<Transaction>, genesisKey: PublicKey)
    requires GenesisAll(txs).ok && GenesisTypes(txs) && GenesisPays(txs, genesisKey)
    ensures NonNegative(GenesisAll(txs).node.books.accts.conf, genesisKey)
  {
    if txs == [] {
      assert forall a: Address :: Row(EmptyBooks().accts.conf, a) == EMPTY_SIDE;
    } else {
      hide UStep, CStep, UAllowed, CAllowed, EmptyNode, TxShape, BooksPair, Row;
      var pre, tx := txs[..|txs| - 1], txs[|txs| - 1];
      assert forall i :: 0 <= i < |pre| ==> pre[i] == txs[i];
      GenesisAllNonNegative(pre, genesisKey);
      var n := GenesisAll(pre).node;
      GenesisStep(n, tx);
      GenesisPairNonNegative(n.books, tx, genesisKey);
    }
  }

  lemma GenesisPairNonNegative(b: Books, tx: Transaction, genesisKey: PublicKey)
    requires NonNegative(b.accts.conf, genesisKey) && tx.amount >= 0 && (tx.sender == genesisKey || tx.Cost() == 0)
    ensures NonNegative(BooksPair(b, 1, tx).accts.conf, genesisKey)
  {
    hide Touched, Row, CPending, Touch, Bump;
    PairConf(b.accts, tx);
    var conf := b.accts.conf;
    assert BooksPair(b, 1, tx).accts.conf == Moved(conf, tx);
    forall a: Address | a != OfKey(genesisKey) ensures Row(Moved(conf, tx), a).balance >= 0 {
      MovedRow(conf, tx, a);
      TouchedFields(Row(conf, a), tx);
    }
  }

  /** After the genesis block nobody but the genesis account is in debt. */
  lemma GenesisNonNegative(b: Block, genesisKey: PublicKey)
    requires ApplyGenesis(b).ok && GenesisTypes(b.transactions) && GenesisPays(b.transactions, genesisKey)
    ensures NonNegative(ApplyGenesis(b).node.books.accts.conf, genesisKey)
  {
    hide GenesisAll, PayAll, PayAccts, ForwardPayouts, RewardRows, Add, NonNegative, Row, UpdateVotes, Flush;
    GenesisAllNonNegative(b.transactions, genesisKey);
    var g := GenesisAll(b.transactions).node.(blocks := [b]);
    var s := SumRound([b]);
    var ps := ForwardPayouts(s.delegates, s.rewards, s.fees);
    var paid := CountBlock(g, 1).books;
    PayAllAccts(paid, 1, ps);
    NothingToShare(b);
    PaidNonNegative(paid.accts, ps, genesisKey);
    assert ApplyGenesis(b).node.books.accts.conf == PayAccts(paid.accts, ps).conf;
  }

  lemma NothingToShare(b: Block)
    ensures var s := SumRound([b]);
            forall i :: 0 <= i < |ForwardPayouts(s.delegates, s.rewards, s.fees)| ==>
              ForwardPayouts(s.delegates, s.rewards, s.fees)[i].fee + ForwardPayouts(s.delegates, s.rewards,
                  s.fees)[i].reward >= 0
  {
  }
}
