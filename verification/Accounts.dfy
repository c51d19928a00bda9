/**
  The columns of the accounts table that transactions and round payouts write, as total
  tables.  Every confirmed column has an unconfirmed twin (balance and u_balance, delegates
  and u_delegates, ...), so one record, Side, describes both halves of a row.
 */
module Accounts {
  import opened Base
  import opened Diff

  datatype Asset =
    | Send(recipient: Address)
    | SecondSignature(secondKey: PublicKey)
    | Registration(username: string)
    | Votes(votes: seq<string>)
    | Multisignature(keysgroup: seq<string>, min: int, lifetime: int)

  /** `signatures` is the length of the signature array, None when there is no array. */
  datatype Transaction = Transaction(
    id: string, sender: PublicKey, amount: int, fee: int, asset: Asset, signatures: Option<nat>)
  {
    function Cost(): int { amount + fee }
    function From(): Address { OfKey(sender) }
  }

  datatype Side = Side(
    balance: int,
    delegates: multiset<PublicKey>,
    isDelegate: bool,
    username: Option<string>,
    secondSignature: bool,
    multisignatures: multiset<PublicKey>,
    multimin: int,
    multilifetime: int)

  const EMPTY_SIDE := Side(0, multiset{}, false, None, false, multiset{}, 0, 0)

  type SideTable = imap<Address, Side>
  type KeyTable = imap<Address, Option<PublicKey>>

  /** A row that is not there reads as the table's defaults. */
  ghost function Row(t: SideTable, a: Address): Side { if a in t then t[a] else EMPTY_SIDE }

  ghost function KeyAt(t: KeyTable, a: Address): Option<PublicKey> { if a in t then t[a] else None }

  datatype Accts = Accts(
    conf: SideTable, unconf: SideTable, secondKeys: KeyTable,
    produced: Column, fees: Column, rewards: Column)
  {
    /** Every address has an entry, so tables that read the same are equal. */
    ghost predicate Wf() {
      Full(conf) && Full(unconf) && Full(secondKeys) && Full(produced) && Full(fees) && Full(rewards)
    }
  }

  // ---------- what one transaction does to one half of its sender's row ----------

  function TypeEffect(s: Side, asset: Asset): Side {
    match asset
    case Send(_) => s
    case SecondSignature(_) => s.(secondSignature := true)
    case Registration(u) => s.(isDelegate := true, username := Some(u))
    case Votes(vs) => s.(delegates := ApplyDiff(s.delegates, vs))
    case Multisignature(ks, min, life) =>
      s.(multisignatures := ApplyDiff(s.multisignatures, ks),
         multimin := s.multimin + min, multilifetime := s.multilifetime + life)
  }

  function TypeUndo(s: Side, asset: Asset): Side {
    match asset
    case Send(_) => s
    case SecondSignature(_) => s.(secondSignature := false)
    case Registration(_) => s.(isDelegate := false, username := None)
    case Votes(vs) => s.(delegates := ApplyDiff(s.delegates, Reversed(vs)))
    case Multisignature(ks, min, life) =>
      s.(multisignatures := ApplyDiff(s.multisignatures, Reversed(ks)),
         multimin := s.multimin - min, multilifetime := s.multilifetime - life)
  }

  /** What the checks before an apply guarantee about the row half, so that the undo is exact. */
  ghost predicate Undoable(s: Side, asset: Asset) {
    match asset
    case Send(_) => true
    case SecondSignature(_) => !s.secondSignature
    case Registration(_) => !s.isDelegate && s.username == None
    case Votes(vs) => AllSigned(vs) && DistinctKeys(vs) && NoDuplicates(s.delegates) && Fits(s.delegates, vs)
    case Multisignature(ks, _, _) =>
      AllSigned(ks) && DistinctKeys(ks) && NoDuplicates(s.multisignatures) && Fits(s.multisignatures, ks)
  }

  lemma TypeUndoRestores(s: Side, asset: Asset)
    requires Undoable(s, asset)
    ensures TypeUndo(TypeEffect(s, asset), asset) == s
  {
    hide ApplyDiff, Reversed, Fits, NoDuplicates, DistinctKeys, AllSigned;
    match asset
    case Votes(vs) => UndoRestoresIff(s.delegates, vs);
    case Multisignature(ks, _, _) => UndoRestoresIff(s.multisignatures, ks);
    case _ =>
  }

  function Touched(s: Side, tx: Transaction): Side {
    TypeEffect(s.(balance := s.balance - tx.Cost()), tx.asset)
  }

  function Untouched(s: Side, tx: Transaction): Side {
    TypeUndo(s.(balance := s.balance + tx.Cost()), tx.asset)
  }

  function Raise(s: Side, x: int): Side { s.(balance := s.balance + x) }

  ghost function Bump(t: SideTable, a: Address, x: int): SideTable { t[a := Raise(Row(t, a), x)] }

  ghost function Touch(t: SideTable, tx: Transaction): SideTable {
    t[tx.From() := Touched(Row(t, tx.From()), tx)]
  }

  ghost function Untouch(t: SideTable, tx: Transaction): SideTable {
    t[tx.From() := Untouched(Row(t, tx.From()), tx)]
  }

  ghost function Credit(t: SideTable, tx: Transaction): SideTable {
    if tx.asset.Send? then Bump(t, tx.asset.recipient, tx.amount) else t
  }

  ghost function Uncredit(t: SideTable, tx: Transaction): SideTable {
    if tx.asset.Send? then Bump(t, tx.asset.recipient, -tx.amount) else t
  }

  // ---------- the four per-transaction steps, without their checks ----------

  ghost function UEffect(s: Accts, tx: Transaction): Accts {
    s.(unconf := Touch(s.unconf, tx))
  }

  ghost function UUndo(s: Accts, tx: Transaction): Accts {
    s.(unconf := Untouch(s.unconf, tx))
  }

  ghost function CEffect(s: Accts, tx: Transaction): Accts {
    s.(conf := Credit(Touch(s.conf, tx), tx),
       unconf := Credit(s.unconf, tx),
       secondKeys := if tx.asset.SecondSignature? then s.secondKeys[tx.From() := Some(tx.asset.secondKey)]
                     else s.secondKeys)
  }

  ghost function CUndo(s: Accts, tx: Transaction): Accts {
    s.(conf := Uncredit(Untouch(s.conf, tx), tx),
       unconf := Uncredit(s.unconf, tx),
       secondKeys := if tx.asset.SecondSignature? then s.secondKeys[tx.From() := None] else s.secondKeys)
  }

  ghost function Pair(s: Accts, tx: Transaction): Accts { CEffect(UEffect(s, tx), tx) }

  /** popLastBlock undoes the confirmed and then the unconfirmed half, one transaction at a time. */
  ghost function UndoPair(s: Accts, tx: Transaction): Accts { UUndo(CUndo(s, tx), tx) }

  ghost function UFold(s: Accts, txs: seq<Transaction>): Accts {
    if txs == [] then s else UEffect(UFold(s, txs[..|txs| - 1]), txs[|txs| - 1])
  }

  ghost function CFold(s: Accts, txs: seq<Transaction>): Accts {
    if txs == [] then s else CEffect(CFold(s, txs[..|txs| - 1]), txs[|txs| - 1])
  }

  ghost function PairFold(s: Accts, txs: seq<Transaction>): Accts {
    if txs == [] then s else Pair(PairFold(s, txs[..|txs| - 1]), txs[|txs| - 1])
  }

  ghost function UndoFold(s: Accts, txs: seq<Transaction>): Accts
    decreases |txs|
  {
    if txs == [] then s else UndoFold(UndoPair(s, txs[|txs| - 1]), txs[..|txs| - 1])
  }

  // ---------- commutation ----------

  lemma TypeIgnoresBalance(s: Side, x: int, asset: Asset)
    ensures TypeEffect(s.(balance := x), asset) == TypeEffect(s, asset).(balance := x)
    ensures TypeUndo(s.(balance := x), asset) == TypeUndo(s, asset).(balance := x)
    ensures TypeEffect(s, asset).balance == s.balance == TypeUndo(s, asset).balance
  {
    hide ApplyDiff, Reversed;
  }

  lemma TouchedShift(s: Side, x: int, tx: Transaction)
    ensures Touched(Raise(s, x), tx) == Raise(Touched(s, tx), x)
    ensures Untouched(Raise(s, x), tx) == Raise(Untouched(s, tx), x)
  {
    hide TypeEffect, TypeUndo;
    TypeIgnoresBalance(s, s.balance - tx.Cost(), tx.asset);
    TypeIgnoresBalance(s, s.balance + x - tx.Cost(), tx.asset);
    TypeIgnoresBalance(s, s.balance + tx.Cost(), tx.asset);
    TypeIgnoresBalance(s, s.balance + x + tx.Cost(), tx.asset);
    assert Touched(Raise(s, x), tx) == TypeEffect(s.(balance := s.balance + x - tx.Cost()), tx.asset);
    assert Untouched(Raise(s, x), tx) == TypeUndo(s.(balance := s.balance + x + tx.Cost()), tx.asset);
  }

  lemma BumpTouchAt(t: SideTable, a: Address, x: int, tx: Transaction, b: Address)
    ensures b in Touch(Bump(t, a, x), tx) <==> b in Bump(Touch(t, tx), a, x)
    ensures b in Touch(Bump(t, a, x), tx) ==> Touch(Bump(t, a, x), tx)[b] == Bump(Touch(t, tx), a, x)[b]
  {
    hide Touched, Raise;
    TouchedShift(Row(t, tx.From()), x, tx);
  }

  lemma BumpTouch(t: SideTable, a: Address, x: int, tx: Transaction)
    ensures Touch(Bump(t, a, x), tx) == Bump(Touch(t, tx), a, x)
  {
    hide Touch, Bump;
    forall b: Address { BumpTouchAt(t, a, x, tx, b); }
  }

  lemma BumpUntouchAt(t: SideTable, a: Address, x: int, tx: Transaction, b: Address)
    ensures b in Untouch(Bump(t, a, x), tx) <==> b in Bump(Untouch(t, tx), a, x)
    ensures b in Untouch(Bump(t, a, x), tx) ==> Untouch(Bump(t, a, x), tx)[b] == Bump(Untouch(t, tx), a, x)[b]
  {
    hide Untouched, Raise;
    TouchedShift(Row(t, tx.From()), x, tx);
  }

  lemma BumpUntouch(t: SideTable, a: Address, x: int, tx: Transaction)
    ensures Untouch(Bump(t, a, x), tx) == Bump(Untouch(t, tx), a, x)
  {
    hide Untouch, Bump;
    forall b: Address { BumpUntouchAt(t, a, x, tx, b); }
  }

  lemma TouchFull(t: SideTable, tx: Transaction)
    requires Full(t)
    ensures Full(Touch(t, tx)) && Full(Untouch(t, tx)) && Full(Credit(t, tx)) && Full(Uncredit(t, tx))
  {
    hide Touched, Untouched;
  }

  lemma RaiseRaise(s: Side, x: int, y: int)
    ensures Raise(Raise(s, x), y) == Raise(Raise(s, y), x)
  {
  }

  lemma BumpBumpAt(t: SideTable, a: Address, x: int, b: Address, y: int, c: Address)
    ensures c in Bump(Bump(t, a, x), b, y) <==> c in Bump(Bump(t, b, y), a, x)
    ensures c in Bump(Bump(t, a, x), b, y) ==> Bump(Bump(t, a, x), b, y)[c] == Bump(Bump(t, b, y), a, x)[c]
  {
    hide Raise;
    RaiseRaise(Row(t, a), x, y);
  }

  lemma BumpBump(t: SideTable, a: Address, x: int, b: Address, y: int)
    ensures Bump(Bump(t, a, x), b, y) == Bump(Bump(t, b, y), a, x)
  {
    hide Bump;
    forall c: Address { BumpBumpAt(t, a, x, b, y, c); }
  }

  lemma BumpCancel(t: SideTable, a: Address, x: int)
    requires Full(t)
    ensures Bump(Bump(t, a, x), a, -x) == t
  {
  }

  /** The unconfirmed step of one transaction and the confirmed step of another do not interfere. */
  lemma ConfirmedUnconfirmedCommute(s: Accts, u: Transaction, c: Transaction)
    ensures CEffect(UEffect(s, u), c) == UEffect(CEffect(s, c), u)
  {
    hide Bump, Touch;
    if c.asset.Send? {
      BumpTouch(s.unconf, c.asset.recipient, c.amount, u);
    }
  }

  lemma {:induction false} CFoldUnconfirmed(s: Accts, txs: seq<Transaction>, u: Transaction)
    ensures CFold(UEffect(s, u), txs) == UEffect(CFold(s, txs), u)
  {
    hide UEffect, CEffect;
    if txs != [] {
      var n := |txs| - 1;
      CFoldUnconfirmed(s, txs[..n], u);
      ConfirmedUnconfirmedCommute(CFold(s, txs[..n]), u, txs[n]);
    }
  }

  /** A block applies all its transactions to the unconfirmed columns first and to the confirmed
      columns afterwards; the outcome is the same as doing each transaction whole, in order. */
  lemma {:induction false} BlockIsPairs(s: Accts, txs: seq<Transaction>)
    ensures CFold(UFold(s, txs), txs) == PairFold(s, txs)
  {
    hide UEffect, CEffect;
    if txs != [] {
      var n := |txs| - 1;
      BlockIsPairs(s, txs[..n]);
      CFoldUnconfirmed(UFold(s, txs[..n]), txs[..n], txs[n]);
    }
  }

  /** While the confirmed pass has done only a prefix, the state is the prefix done whole, plus the
      unconfirmed effects of the rest. */
  lemma {:induction false} MidBlock(s: Accts, txs: seq<Transaction>, k: nat)
    requires k <= |txs|
    ensures CFold(UFold(s, txs), txs[..k]) == UFold(PairFold(s, txs[..k]), txs[k..])
    decreases |txs|
  {
    hide UEffect, CEffect, CFold, PairFold, UFold;
    if k == |txs| {
      assert txs[..k] == txs && txs[k..] == [];
      BlockIsPairs(s, txs);
      UFoldNone(PairFold(s, txs));
    } else {
      var n := |txs| - 1;
      var last, rest := txs[n], txs[..n];
      MidBlock(s, rest, k);
      CFoldUnconfirmed(UFold(s, rest), txs[..k], last);
      assert rest[..k] == txs[..k];
      assert txs == rest + [last] && txs[k..] == rest[k..] + [last];
      UFoldLast(s, rest, last);
      UFoldLast(PairFold(s, txs[..k]), rest[k..], last);
    }
  }

  lemma UFoldNone(s: Accts)
    ensures UFold(s, []) == s
  {
  }

  lemma UFoldLast(s: Accts, txs: seq<Transaction>, last: Transaction)
    ensures UFold(s, txs + [last]) == UEffect(UFold(s, txs), last)
  {
    hide UEffect;
    assert (txs + [last])[..|txs + [last]| - 1] == txs;
  }

  // ---------- undo ----------

  lemma UntouchedTouched(s: Side, tx: Transaction)
    requires Undoable(s, tx.asset)
    ensures Untouched(Touched(s, tx), tx) == s
  {
    hide TypeEffect, TypeUndo, Undoable;
    var s1 := s.(balance := s.balance - tx.Cost());
    var e := TypeEffect(s, tx.asset);
    TypeIgnoresBalance(s, s.balance - tx.Cost(), tx.asset);
    TypeIgnoresBalance(e, s.balance, tx.asset);
    assert Touched(s, tx) == e.(balance := s.balance - tx.Cost());
    assert Touched(s, tx).(balance := s.balance) == e.(balance := s.balance);
    TypeUndoRestores(s, tx.asset);
  }

  lemma UntouchTouch(t: SideTable, tx: Transaction)
    requires Full(t)
    requires Undoable(Row(t, tx.From()), tx.asset)
    ensures Untouch(Touch(t, tx), tx) == t
  {
    hide Touched, Untouched, Undoable;
    UntouchedTouched(Row(t, tx.From()), tx);
    assert Untouch(Touch(t, tx), tx) == t;
  }

  lemma {:induction false} UndoPairInverse(s: Accts, tx: Transaction)
    requires s.Wf()
    requires Undoable(Row(s.conf, tx.From()), tx.asset) && Undoable(Row(s.unconf, tx.From()), tx.asset)
    requires tx.asset.SecondSignature? ==> KeyAt(s.secondKeys, tx.From()) == None
    ensures UndoPair(Pair(s, tx), tx) == s
  {
    hide Bump, Touch, Untouch, Undoable;
    UntouchTouch(s.conf, tx);
    UntouchTouch(s.unconf, tx);
    if tx.asset.Send? {
      var r, x := tx.asset.recipient, tx.amount;
      BumpUntouch(Touch(s.conf, tx), r, x, tx);
      TouchFull(s.unconf, tx);
      BumpCancel(s.conf, r, x);
      BumpCancel(Touch(s.unconf, tx), r, x);
    }
    assert CUndo(Pair(s, tx), tx).secondKeys == s.secondKeys;
  }

  // ---------- round payouts ----------

  ghost function Pay(s: Accts, a: Address, fee: int, reward: int): Accts {
    s.(conf := Bump(s.conf, a, fee + reward),
       unconf := Bump(s.unconf, a, fee + reward),
       fees := Add(s.fees, a, fee),
       rewards := Add(s.rewards, a, reward))
  }

  lemma AddAdd(m: Column, a: Address, x: int, b: Address, y: int)
    ensures Add(Add(m, a, x), b, y) == Add(Add(m, b, y), a, x)
    ensures Full(m) ==> Add(Add(m, a, x), a, -x) == m
  {
  }

  lemma PayCommutes(s: Accts, a: Address, f: int, r: int, b: Address, g: int, q: int)
    ensures Pay(Pay(s, a, f, r), b, g, q) == Pay(Pay(s, b, g, q), a, f, r)
  {
    hide Bump, Add;
    BumpBump(s.conf, a, f + r, b, g + q);
    BumpBump(s.unconf, a, f + r, b, g + q);
    AddAdd(s.fees, a, f, b, g);
    AddAdd(s.rewards, a, r, b, q);
  }

  lemma PayCancels(s: Accts, a: Address, f: int, r: int)
    requires s.Wf()
    ensures Pay(Pay(s, a, f, r), a, -f, -r) == s
  {
    hide Bump, Add;
    BumpCancel(s.conf, a, f + r);
    BumpCancel(s.unconf, a, f + r);
    AddAdd(s.fees, a, f, a, f);
    AddAdd(s.rewards, a, r, a, r);
    assert -f + -r == -(f + r);
  }

  /** Undoing a transaction after a payout is the same as before it. */
  lemma UndoPairPay(s: Accts, tx: Transaction, a: Address, f: int, r: int)
    ensures UndoPair(Pay(s, a, f, r), tx) == Pay(UndoPair(s, tx), a, f, r)
  {
    hide Bump, Touch, Untouch, Add;
    BumpUntouch(s.conf, a, f + r, tx);
    if tx.asset.Send? {
      BumpBump(Untouch(s.conf, tx), a, f + r, tx.asset.recipient, -tx.amount);
      BumpBump(s.unconf, a, f + r, tx.asset.recipient, -tx.amount);
    }
    BumpUntouch(Uncredit(s.unconf, tx), a, f + r, tx);
  }

  lemma {:induction false} UndoFoldPay(s: Accts, txs: seq<Transaction>, a: Address, f: int, r: int)
    ensures UndoFold(Pay(s, a, f, r), txs) == Pay(UndoFold(s, txs), a, f, r)
    decreases |txs|
  {
    hide Pay, UndoPair;
    if txs != [] {
      var n := |txs| - 1;
      UndoPairPay(s, txs[n], a, f, r);
      UndoFoldPay(UndoPair(s, txs[n]), txs[..n], a, f, r);
    }
  }
}
