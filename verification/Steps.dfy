/**
  The abstract steps of a transaction as the account edits that logic/transaction.js and the
  transaction types make: one merge for the cost, then the edits of the type.
 */
module Steps {
  import opened Base
  import opened Diff
  import opened Accounts
  import opened Tally
  import opened Payouts
  import opened Voting
  import opened Ledger
  import opened Storage

  /** The unconfirmed half of a transaction type, after the cost was taken. */
  ghost function UTypeStep(n: Node, tx: Transaction): Node {
    var a := tx.From();
    n.(books := EditUnconf(n.books, a, TypeEffect(Row(n.books.accts.unconf, a), tx.asset)),
       flags := if tx.asset.Multisignature? then n.flags + {a} else n.flags)
  }

  ghost function UTypeUndo(n: Node, tx: Transaction): Node {
    var a := tx.From();
    n.(books := EditUnconf(n.books, a, TypeUndo(Row(n.books.accts.unconf, a), tx.asset)),
       flags := if tx.asset.Multisignature? then n.flags - {a} else n.flags)
  }

  /** The checks of the type, on their own. */
  ghost predicate UTypeAllowed(s: Accts, flags: set<Address>, tx: Transaction) {
    var a := tx.From();
    match tx.asset
    case Send(_) => true
    case SecondSignature(_) => !Row(s.unconf, a).secondSignature && !Row(s.conf, a).secondSignature
    case Registration(u) => !Row(s.unconf, a).isDelegate && UsernameFree(s.unconf, u)
    case Votes(vs) => CheckDelegates(s.conf, Row(s.unconf, a).delegates, vs)
    case Multisignature(_, _, _) => a !in flags
  }

  ghost predicate CTypeAllowed(s: Accts, tx: Transaction) {
    var a := tx.From();
    match tx.asset
    case Registration(u) => !Row(s.conf, a).isDelegate && UsernameFree(s.conf, u)
    case Votes(vs) => CheckDelegates(s.conf, Row(s.conf, a).delegates, vs)
    case _ => true
  }

  ghost function SetSecondKey(b: Books, a: Address, key: Option<PublicKey>): Books {
    b.(accts := b.accts.(secondKeys := b.accts.secondKeys[a := key]))
  }

  ghost function CTypeStep(n: Node, round: int, tx: Transaction): Node {
    var a := tx.From();
    var s := Row(n.books.accts.conf, a);
    match tx.asset
    case Send(r) => MergeFields(n, r, [Number(Balance, tx.amount), Number(UBalance, tx.amount)], round)
    case SecondSignature(k) => n.(books := SetSecondKey(EditConf(n.books, a, TypeEffect(s, tx.asset)), a, Some(k)))
    case Registration(_) => n.(books := EditConf(n.books, a, TypeEffect(s, tx.asset)).(votes := n.books.votes[a := 0]))
    case Votes(vs) => MergeField(n, a, Keys(Delegates, vs), round)
    case Multisignature(ks, min, life) =>
      MergeFields(n.(flags := n.flags - {a}), a,
                  [Keys(Multisignatures, ks), Number(Multimin, min), Number(Multilifetime, life)], round)
  }

  ghost function CTypeUndo(n: Node, round: int, tx: Transaction): Node {
    var a := tx.From();
    var s := Row(n.books.accts.conf, a);
    match tx.asset
    case Send(r) => MergeFields(n, r, [Number(Balance, -tx.amount), Number(UBalance, -tx.amount)], round)
    case SecondSignature(_) => n.(books := SetSecondKey(EditConf(n.books, a, TypeUndo(s, tx.asset)), a, None))
    case Registration(_) => n.(books := EditConf(n.books, a, TypeUndo(s, tx.asset)).(votes := n.books.votes[a := 0]))
    case Votes(vs) => MergeField(n, a, Keys(Delegates, Reversed(vs)), round)
    case Multisignature(ks, min, life) =>
      MergeFields(n.(flags := n.flags + {a}), a,
                  [Keys(Multisignatures, Reversed(ks)), Number(Multimin, -min), Number(Multilifetime, -life)], round)
  }

  ghost function Charge(n: Node, round: int, tx: Transaction, x: int): Node {
    MergeField(n, tx.From(), Number(Balance, x), round)
  }

  ghost function ChargeUnconfirmed(n: Node, tx: Transaction, x: int): Node {
    n.(books := AddNumber(n.books, tx.From(), UBalance, x))
  }

  lemma TwoFields(n: Node, a: Address, f: Field, g: Field, round: int)
    ensures MergeFields(n, a, [f, g], round) == MergeField(MergeField(n, a, f, round), a, g, round)
  {
    hide MergeField;
    assert [f, g][..1] == [f];
    assert [f][..0] == [];
    assert MergeFields(n, a, [f], round) == MergeField(MergeFields(n, a, [], round), a, f, round);
  }

  lemma ThreeFields(n: Node, a: Address, f: Field, g: Field, h: Field, round: int)
    ensures MergeFields(n, a, [f, g, h], round) ==
            MergeField(MergeField(MergeField(n, a, f, round), a, g, round), a, h, round)
  {
    hide MergeField;
    TwoFields(n, a, f, g, round);
    assert [f, g, h][..2] == [f, g];
  }

  lemma OneField(n: Node, a: Address, f: Field, round: int)
    ensures MergeFields(n, a, [f], round) == MergeField(n, a, f, round)
  {
    hide MergeField;
    assert [f][..0] == [];
    assert MergeFields(n, a, [], round) == n;
  }

  lemma Twice(t: SideTable, a: Address, s: Side, s': Side)
    ensures t[a := s][a := s'] == t[a := s'] && Row(t[a := s], a) == s
  {
  }

  /** An unconfirmed step is the cost followed by the type's own edit. */
  lemma UStepIs(n: Node, tx: Transaction)
    ensures UStep(n, tx) == UTypeStep(ChargeUnconfirmed(n, tx, -tx.Cost()), tx)
    ensures UAllowed(n.books.accts, n.flags, tx, false) <==>
            Row(n.books.accts.unconf, tx.From()).balance >= tx.Cost() &&
            var m := ChargeUnconfirmed(n, tx, -tx.Cost()); UTypeAllowed(m.books.accts, m.flags, tx)
    ensures UAllowed(n.books.accts, n.flags, tx, true) <==>
            var m := ChargeUnconfirmed(n, tx, -tx.Cost()); UTypeAllowed(m.books.accts, m.flags, tx)
  {
    hide TypeEffect, CheckDelegates;
    var a, s := tx.From(), Row(n.books.accts.unconf, tx.From());
    Twice(n.books.accts.unconf, a, Raise(s, -tx.Cost()), Touched(s, tx));
    UsernameUnaffected(n.books.accts.unconf, a, -tx.Cost(), tx);
  }

  lemma UsernameUnaffected(t: SideTable, a: Address, x: int, tx: Transaction)
    ensures tx.asset.Registration? ==>
              (UsernameFree(t[a := Raise(Row(t, a), x)], tx.asset.username) <==> UsernameFree(t, tx.asset.username))
  {
    var t' := t[a := Raise(Row(t, a), x)];
    assert forall b: Address :: Row(t', b).username == Row(t, b).username;
  }

  lemma UUndoIs(n: Node, tx: Transaction)
    ensures UTypeUndo(ChargeUnconfirmed(n, tx, tx.Cost()), tx) ==
            n.(books := n.books.(accts := UUndo(n.books.accts, tx)),
               flags := if tx.asset.Multisignature? then n.flags - {tx.From()} else n.flags)
  {
    hide TypeUndo;
    var a, s := tx.From(), Row(n.books.accts.unconf, tx.From());
    Twice(n.books.accts.unconf, a, Raise(s, tx.Cost()), Untouched(s, tx));
  }

  lemma ChargeKeepsChecks(conf: SideTable, a: Address, x: int, votes: seq<string>)
    ensures Found(conf[a := Raise(Row(conf, a), x)], votes) == Found(conf, votes)
  {
    var conf' := conf[a := Raise(Row(conf, a), x)];
    assert forall b: Address :: Row(conf', b).isDelegate == Row(conf, b).isDelegate;
    hide Row;
  }

  lemma CAllowedIs(n: Node, round: int, tx: Transaction, genesis: bool)
    ensures CAllowed(n.books.accts, tx, genesis) <==>
            && Ready(Row(n.books.accts.conf, tx.From()), tx)
            && (genesis || Row(n.books.accts.conf, tx.From()).balance >= tx.Cost())
            && CTypeAllowed(Charge(n, round, tx, -tx.Cost()).books.accts, tx)
  {
    hide CheckFound, Found, Ready, Row, Charge, UsernameFree;
    var conf, a := n.books.accts.conf, tx.From();
    ChargeParts(n, round, tx, -tx.Cost());
    UsernameUnaffected(conf, a, -tx.Cost(), tx);
    if tx.asset.Votes? { ChargeKeepsChecks(conf, a, -tx.Cost(), tx.asset.votes); }
  }

  /** Both balances of an account raised by the same amount. */
  ghost function BothBalances(n: Node, round: int, a: Address, x: int): Node {
    var s := n.books.accts;
    n.(books := n.books.(accts := s.(conf := Bump(s.conf, a, x), unconf := Bump(s.unconf, a, x)),
                         pending := Accrue(n.books.pending, round, Row(s.conf, a).delegates, x)),
       rounds := RowsFor(n.rounds, round, Row(s.conf, a)))
  }

  lemma BothBalancesIs(n: Node, round: int, a: Address, x: int)
    ensures MergeField(MergeField(n, a, Number(Balance, x), round), a, Number(UBalance, x), round) == BothBalances(n,
            round, a, x)
  {
    hide Accrue;
  }

  /** What taking or returning the cost does to the node. */
  lemma ChargeParts(n: Node, round: int, tx: Transaction, x: int)
    ensures var a, s, m := tx.From(), Row(n.books.accts.conf, tx.From()), Charge(n, round, tx, x);
            && m.books.accts == n.books.accts.(conf := n.books.accts.conf[a := Raise(s, x)])
            && m.books.votes == n.books.votes && m.books.pending == Accrue(n.books.pending, round, s.delegates, x)
            && m == n.(books := m.books, rounds := RowsFor(n.rounds, round, s))
            && Row(m.books.accts.conf, a) == Raise(s, x)
            && forall b: Address :: Row(m.books.accts.conf, b).delegates == Row(n.books.accts.conf, b).delegates
  {
    hide Accrue;
  }

  /** A transfer touches nothing but the balance. */
  lemma SendTouches(s: Side, tx: Transaction)
    requires tx.asset.Send?
    ensures Touched(s, tx) == Raise(s, -tx.Cost()) && Untouched(s, tx) == Raise(s, tx.Cost())
  {
  }

  lemma CStepSend(n: Node, round: int, tx: Transaction, to: Address)
    requires tx.asset == Send(to)
    ensures CStep(n, round, tx) == CTypeStep(Charge(n, round, tx, -tx.Cost()), round, tx)
  {
    var m := Charge(n, round, tx, -tx.Cost());
    hide Accrue, RowsFor, Raise, Touched, MergeField, MergeFields, Charge, Row;
    ChargeParts(n, round, tx, -tx.Cost());
    SendTouches(Row(n.books.accts.conf, tx.From()), tx);
    TwoFields(m, to, Number(Balance, tx.amount), Number(UBalance, tx.amount), round);
    BothBalancesIs(m, round, to, tx.amount);
    SameRounds(m.rounds, round, m.books.accts.conf, n.books.accts.conf, to);
  }

  lemma SameRounds(rounds: set<int>, round: int, conf: SideTable, conf': SideTable, a: Address)
    requires Row(conf, a).delegates == Row(conf', a).delegates
    ensures RowsFor(rounds, round, Row(conf, a)) == RowsFor(rounds, round, Row(conf', a))
  {
  }

  lemma CStepVotes(n: Node, round: int, tx: Transaction, vs: seq<string>)
    requires tx.asset == Asset.Votes(vs)
    ensures CStep(n, round, tx) == CTypeStep(Charge(n, round, tx, -tx.Cost()), round, tx)
  {
    hide Accrue, AccrueVotes, ApplyDiff, Row, RowsFor, Charge;
    var a, s := tx.From(), Row(n.books.accts.conf, tx.From());
    ChargeParts(n, round, tx, -tx.Cost());
    Twice(n.books.accts.conf, a, Raise(s, -tx.Cost()), Touched(s, tx));
  }

  /** The three fields of a group registration, merged. */
  ghost function GroupEdit(n: Node, a: Address, ks: seq<string>, min: int, life: int): Node {
    var s := Row(n.books.accts.conf, a);
    n.(books := EditConf(n.books, a, s.(multisignatures := ApplyDiff(s.multisignatures, ks),
                                        multimin := s.multimin + min, multilifetime := s.multilifetime + life)))
  }

  ghost function Edited(n: Node, a: Address, s: Side): Node { n.(books := EditConf(n.books, a, s)) }

  lemma EditedTwice(n: Node, a: Address, s: Side, s': Side)
    ensures Edited(Edited(n, a, s), a, s') == Edited(n, a, s') && Row(Edited(n, a, s).books.accts.conf, a) == s
  {
  }

  lemma GroupFields(n: Node, a: Address, ks: seq<string>, x: int, round: int)
    ensures var s := Row(n.books.accts.conf, a);
            && MergeField(n, a, Keys(Multisignatures, ks), round) == Edited(n, a,
                s.(multisignatures := ApplyDiff(s.multisignatures, ks)))
            && MergeField(n, a, Number(Multimin, x), round) == Edited(n, a, s.(multimin := s.multimin + x))
            && MergeField(n, a, Number(Multilifetime, x), round) ==
               Edited(n, a, s.(multilifetime := s.multilifetime + x))
  {
    hide ApplyDiff;
  }

  lemma GroupEditIs(n: Node, a: Address, ks: seq<string>, min: int, life: int, round: int)
    ensures MergeFields(n, a, [Keys(Multisignatures, ks), Number(Multimin, min), Number(Multilifetime, life)], round) ==
            GroupEdit(n, a, ks, min, life)
  {
    hide ApplyDiff, MergeFields, MergeField, Edited, Row;
    ThreeFields(n, a, Keys(Multisignatures, ks), Number(Multimin, min), Number(Multilifetime, life), round);
    var s := Row(n.books.accts.conf, a);
    var s1 := s.(multisignatures := ApplyDiff(s.multisignatures, ks));
    var s2 := s1.(multimin := s1.multimin + min);
    GroupFields(n, a, ks, 0, round);
    EditedTwice(n, a, s1, s2);
    GroupFields(Edited(n, a, s1), a, [], min, round);
    EditedTwice(n, a, s2, s2.(multilifetime := s2.multilifetime + life));
    GroupFields(Edited(n, a, s2), a, [], life, round);
    GroupEditEdited(n, a, ks, min, life);
  }

  lemma GroupEditEdited(n: Node, a: Address, ks: seq<string>, min: int, life: int)
    ensures var s := Row(n.books.accts.conf, a);
            GroupEdit(n, a, ks, min, life) ==
            Edited(n, a, s.(multisignatures := ApplyDiff(s.multisignatures, ks),
                               multimin := s.multimin + min, multilifetime := s.multilifetime + life))
  {
    hide ApplyDiff, Row;
  }

  lemma CStepGroup(n: Node, round: int, tx: Transaction, ks: seq<string>, min: int, life: int)
    requires tx.asset == Multisignature(ks, min, life)
    ensures CStep(n, round, tx) == CTypeStep(Charge(n, round, tx, -tx.Cost()), round, tx)
  {
    hide Accrue, ApplyDiff, MergeFields, Charge, RowsFor, Row;
    var a, s := tx.From(), Row(n.books.accts.conf, tx.From());
    var m := Charge(n, round, tx, -tx.Cost());
    ChargeParts(n, round, tx, -tx.Cost());
    GroupEditIs(m.(flags := m.flags - {a}), a, ks, min, life, round);
    Twice(n.books.accts.conf, a, Raise(s, -tx.Cost()), Touched(s, tx));
  }

  lemma CStepOther(n: Node, round: int, tx: Transaction)
    requires tx.asset.SecondSignature? || tx.asset.Registration?
    ensures CStep(n, round, tx) == CTypeStep(Charge(n, round, tx, -tx.Cost()), round, tx)
  {
    hide Accrue, Charge, RowsFor, Row, TypeEffect;
    var a, s := tx.From(), Row(n.books.accts.conf, tx.From());
    ChargeParts(n, round, tx, -tx.Cost());
    Twice(n.books.accts.conf, a, Raise(s, -tx.Cost()), Touched(s, tx));
  }

  /** A confirmed step is the cost, with its mem_round rows, followed by the type's own edits. */
  lemma CStepIs(n: Node, round: int, tx: Transaction)
    ensures CStep(n, round, tx) == CTypeStep(Charge(n, round, tx, -tx.Cost()), round, tx)
  {
    hide CStep, CTypeStep, Charge;
    match tx.asset
    case Send(to) => CStepSend(n, round, tx, to);
    case Votes(vs) => CStepVotes(n, round, tx, vs);
    case Multisignature(ks, min, life) => CStepGroup(n, round, tx, ks, min, life);
    case _ => CStepOther(n, round, tx);
  }

  /** The confirmed undo of one transaction. */
  ghost function CUndoStep(n: Node, round: int, tx: Transaction): Node {
    n.(books := Books(CUndo(n.books.accts, tx), ResetVote(n.books.votes, tx),
        UndoPending(n.books.pending, round, n.books.accts.conf, tx)),
       rounds := TxRounds(n.rounds, round, n.books.accts.conf, tx),
       flags := if tx.asset.Multisignature? then n.flags + {tx.From()} else n.flags)
  }

  lemma CUndoSend(n: Node, round: int, tx: Transaction, to: Address)
    requires tx.asset == Send(to)
    ensures CUndoStep(n, round, tx) == CTypeUndo(Charge(n, round, tx, tx.Cost()), round, tx)
  {
    var m := Charge(n, round, tx, tx.Cost());
    hide Accrue, RowsFor, Raise, Untouched, MergeField, MergeFields, Charge, Row;
    ChargeParts(n, round, tx, tx.Cost());
    SendTouches(Row(n.books.accts.conf, tx.From()), tx);
    TwoFields(m, to, Number(Balance, -tx.amount), Number(UBalance, -tx.amount), round);
    BothBalancesIs(m, round, to, -tx.amount);
    SameRounds(m.rounds, round, m.books.accts.conf, n.books.accts.conf, to);
  }

  lemma CUndoVotes(n: Node, round: int, tx: Transaction, vs: seq<string>)
    requires tx.asset == Asset.Votes(vs)
    ensures CUndoStep(n, round, tx) == CTypeUndo(Charge(n, round, tx, tx.Cost()), round, tx)
  {
    hide Accrue, AccrueVotes, ApplyDiff, Row, RowsFor, Charge, Reversed;
    var a, s := tx.From(), Row(n.books.accts.conf, tx.From());
    ChargeParts(n, round, tx, tx.Cost());
    Twice(n.books.accts.conf, a, Raise(s, tx.Cost()), Untouched(s, tx));
    SameLength(vs);
  }

  lemma SameLength(vs: seq<string>)
    ensures Reversed(vs) == [] <==> vs == []
  {
  }

  lemma CUndoGroup(n: Node, round: int, tx: Transaction, ks: seq<string>, min: int, life: int)
    requires tx.asset == Multisignature(ks, min, life)
    ensures CUndoStep(n, round, tx) == CTypeUndo(Charge(n, round, tx, tx.Cost()), round, tx)
  {
    hide Accrue, ApplyDiff, MergeFields, Charge, RowsFor, Row, Reversed;
    var a, s := tx.From(), Row(n.books.accts.conf, tx.From());
    var m := Charge(n, round, tx, tx.Cost());
    ChargeParts(n, round, tx, tx.Cost());
    GroupEditIs(m.(flags := m.flags + {a}), a, Reversed(ks), -min, -life, round);
    Twice(n.books.accts.conf, a, Raise(s, tx.Cost()), Untouched(s, tx));
  }

  lemma CUndoOther(n: Node, round: int, tx: Transaction)
    requires tx.asset.SecondSignature? || tx.asset.Registration?
    ensures CUndoStep(n, round, tx) == CTypeUndo(Charge(n, round, tx, tx.Cost()), round, tx)
  {
    hide Accrue, Charge, RowsFor, Row, TypeUndo;
    var a, s := tx.From(), Row(n.books.accts.conf, tx.From());
    ChargeParts(n, round, tx, tx.Cost());
    Twice(n.books.accts.conf, a, Raise(s, tx.Cost()), Untouched(s, tx));
  }

  lemma CUndoIs(n: Node, round: int, tx: Transaction)
    ensures CUndoStep(n, round, tx) == CTypeUndo(Charge(n, round, tx, tx.Cost()), round, tx)
  {
    hide CUndoStep, CTypeUndo, Charge;
    match tx.asset
    case Send(to) => CUndoSend(n, round, tx, to);
    case Votes(vs) => CUndoVotes(n, round, tx, vs);
    case Multisignature(ks, min, life) => CUndoGroup(n, round, tx, ks, min, life);
    case _ => CUndoOther(n, round, tx);
  }

  /** Undoing a transaction of a popped block: the confirmed half, then the unconfirmed half. */
  lemma UndoStepIs(n: Node, round: int, tx: Transaction)
    ensures UndoStep(n, round, tx) ==
            UTypeUndo(ChargeUnconfirmed(CTypeUndo(Charge(n, round, tx, tx.Cost()), round, tx), tx, tx.Cost()), tx)
  {
    hide CUndo, UUndo, CTypeUndo, UTypeUndo, UndoPending, TxRounds;
    CUndoIs(n, round, tx);
    UUndoIs(CUndoStep(n, round, tx), tx);
  }

  // ---------- unconfirmed edits as merges ----------

  lemma UVotesIs(n: Node, tx: Transaction, vs: seq<string>, round: int)
    requires tx.asset == Asset.Votes(vs)
    ensures UTypeStep(n, tx) == MergeField(n, tx.From(), Keys(UDelegates, vs), round)
    ensures UTypeUndo(n, tx) == MergeField(n, tx.From(), Keys(UDelegates, Reversed(vs)), round)
  {
    hide ApplyDiff, Reversed;
  }

  ghost function UGroupEdit(n: Node, a: Address, ks: seq<string>, min: int, life: int): Node {
    var u := Row(n.books.accts.unconf, a);
    n.(books := EditUnconf(n.books, a, u.(multisignatures := ApplyDiff(u.multisignatures, ks),
                                          multimin := u.multimin + min, multilifetime := u.multilifetime + life)))
  }

  ghost function UEdited(n: Node, a: Address, s: Side): Node { n.(books := EditUnconf(n.books, a, s)) }

  lemma UEditedTwice(n: Node, a: Address, s: Side, s': Side)
    ensures UEdited(UEdited(n, a, s), a, s') == UEdited(n, a, s') && Row(UEdited(n, a, s).books.accts.unconf, a) == s
  {
  }

  lemma UGroupFields(n: Node, a: Address, ks: seq<string>, x: int, round: int)
    ensures var s := Row(n.books.accts.unconf, a);
            && MergeField(n, a, Keys(UMultisignatures, ks), round) == UEdited(n, a,
                s.(multisignatures := ApplyDiff(s.multisignatures, ks)))
            && MergeField(n, a, Number(UMultimin, x), round) == UEdited(n, a, s.(multimin := s.multimin + x))
            && MergeField(n, a, Number(UMultilifetime, x), round) == UEdited(n, a,
                s.(multilifetime := s.multilifetime + x))
  {
    hide ApplyDiff;
  }

  lemma UGroupEditIs(n: Node, a: Address, ks: seq<string>, min: int, life: int, round: int)
    ensures MergeFields(n, a, [Keys(UMultisignatures, ks), Number(UMultimin, min), Number(UMultilifetime, life)],
            round) ==
            UGroupEdit(n, a, ks, min, life)
  {
    hide ApplyDiff, MergeFields, MergeField, UEdited, Row;
    ThreeFields(n, a, Keys(UMultisignatures, ks), Number(UMultimin, min), Number(UMultilifetime, life), round);
    var s := Row(n.books.accts.unconf, a);
    var s1 := s.(multisignatures := ApplyDiff(s.multisignatures, ks));
    var s2 := s1.(multimin := s1.multimin + min);
    UGroupFields(n, a, ks, 0, round);
    UEditedTwice(n, a, s1, s2);
    UGroupFields(UEdited(n, a, s1), a, [], min, round);
    UEditedTwice(n, a, s2, s2.(multilifetime := s2.multilifetime + life));
    UGroupFields(UEdited(n, a, s2), a, [], life, round);
    UGroupEditEdited(n, a, ks, min, life);
  }

  lemma UGroupEditEdited(n: Node, a: Address, ks: seq<string>, min: int, life: int)
    ensures var s := Row(n.books.accts.unconf, a);
            UGroupEdit(n, a, ks, min, life) ==
            UEdited(n, a, s.(multisignatures := ApplyDiff(s.multisignatures, ks),
                               multimin := s.multimin + min, multilifetime := s.multilifetime + life))
  {
    hide ApplyDiff, Row;
  }

  lemma UGroupIs(n: Node, tx: Transaction, ks: seq<string>, min: int, life: int, round: int)
    requires tx.asset == Multisignature(ks, min, life)
    ensures UTypeStep(n, tx) ==
            MergeFields(n.(flags := n.flags + {tx.From()}), tx.From(),
                        [Keys(UMultisignatures, ks), Number(UMultimin, min), Number(UMultilifetime, life)], round)
  {
    hide ApplyDiff, MergeFields, Row;
    UGroupEditIs(n.(flags := n.flags + {tx.From()}), tx.From(), ks, min, life, round);
  }

  lemma UGroupUndoIs(n: Node, tx: Transaction, ks: seq<string>, min: int, life: int, round: int)
    requires tx.asset == Multisignature(ks, min, life)
    ensures UTypeUndo(n, tx) ==
            MergeFields(n.(flags := n.flags - {tx.From()}), tx.From(),
                        [Keys(UMultisignatures, Reversed(ks)), Number(UMultimin, -min),
                            Number(UMultilifetime, -life)], round)
  {
    hide ApplyDiff, Reversed, MergeFields, Row;
    UGroupEditIs(n.(flags := n.flags - {tx.From()}), tx.From(), Reversed(ks), -min, -life, round);
  }

  /** Taking the cost back after a type refused the transaction leaves the books as they were. */
  lemma RefundUnconfirmed(n: Node, tx: Transaction, x: int)
    requires Full(n.books.accts.unconf)
    ensures ChargeUnconfirmed(ChargeUnconfirmed(n, tx, -x), tx, x) == n
  {
  }

  lemma Refund(n: Node, round: int, tx: Transaction, x: int)
    requires Full(n.books.accts.conf) && FullPending(n.books.pending)
    ensures Charge(Charge(n, round, tx, -x), round, tx, x) == n.(rounds := Charge(n, round, tx, -x).rounds)
    ensures n.rounds <= Charge(n, round, tx, -x).rounds <= n.rounds + {round}
  {
    hide Accrue, FullPending;
    AccrueCancels(n.books.pending, round, Row(n.books.accts.conf, tx.From()).delegates, x);
  }

  lemma AccrueCancels(p: Pending, round: int, ds: multiset<PublicKey>, x: int)
    requires FullPending(p)
    ensures Accrue(Accrue(p, round, ds, -x), round, ds, x) == p
  {
    forall k: (int, PublicKey) ensures Accrue(Accrue(p, round, ds, -x), round, ds, x)[k] == p[k] {
      assert k == (k.0, k.1);
      CancelRows(x, ds[k.1]);
    }
  }

  lemma CancelRows(x: int, m: int)
    ensures -x * m + x * m == 0
  {
  }

  // ---------- payouts as merges ----------

  lemma FourFields(n: Node, a: Address, f: Field, g: Field, h: Field, k: Field, round: int)
    ensures MergeFields(n, a, [f, g, h, k], round) ==
            MergeField(MergeField(MergeField(MergeField(n, a, f, round), a, g, round), a, h, round), a, k, round)
  {
    hide MergeField;
    ThreeFields(n, a, f, g, h, round);
    assert [f, g, h, k][..3] == [f, g, h];
  }

  ghost function PaidNode(n: Node, round: int, p: Payout): Node {
    n.(books := PayOut(n.books, round, p), rounds := RowsFor(n.rounds, round, Row(n.books.accts.conf, OfKey(p.to))))
  }

  function PayoutDiff(p: Payout): seq<Field> {
    [Number(Balance, p.fee + p.reward), Number(UBalance, p.fee + p.reward), Number(Fees, p.fee),
        Number(Rewards, p.reward)]
  }

  function RemainderDiff(x: int): seq<Field> { [Number(Balance, x), Number(UBalance, x), Number(Fees, x)] }

  lemma PayoutMerge(n: Node, round: int, p: Payout)
    ensures MergeFields(n, OfKey(p.to), PayoutDiff(p), round) == PaidNode(n, round, p)
  {
    hide MergeFields, MergeField, Accrue, Bump, Add, Row, RowsFor;
    var a, x := OfKey(p.to), p.fee + p.reward;
    BothBalancesIs(n, round, a, x);
    FourFields(n, a, Number(Balance, x), Number(UBalance, x), Number(Fees, p.fee), Number(Rewards, p.reward), round);
    FeesAndRewards(BothBalances(n, round, a, x), a, p.fee, p.reward, round);
  }

  lemma FeesAndRewards(m: Node, a: Address, fee: int, reward: int, round: int)
    ensures MergeField(MergeField(m, a, Number(Fees, fee), round), a, Number(Rewards, reward), round) ==
            m.(books := m.books.(accts := m.books.accts.(fees := Add(m.books.accts.fees, a, fee),
                rewards := Add(m.books.accts.rewards, a, reward))))
  {
  }

  lemma RemainderMerge(n: Node, round: int, to: PublicKey, x: int)
    requires Full(n.books.accts.rewards)
    ensures MergeFields(n, OfKey(to), RemainderDiff(x), round) == PaidNode(n, round, Payout(to, x, 0))
  {
    hide Accrue;
    ThreeFields(n, OfKey(to), Number(Balance, x), Number(UBalance, x), Number(Fees, x), round);
    hide MergeFields;
    assert Add(n.books.accts.rewards, OfKey(to), 0) == n.books.accts.rewards;
  }
}
