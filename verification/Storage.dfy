/** The rows of the memory tables, and the abstract node they stand for. */
module Storage {
  import opened Base
  import opened Diff
  import opened Accounts
  import opened Tally
  import opened Payouts
  import opened Voting
  import opened Ledger

  /** One half of a mem_accounts row; the key lists are its dependency tables, in insertion order. */
  datatype HalfRow = HalfRow(
    balance: int, delegates: seq<PublicKey>, isDelegate: bool, username: Option<string>,
    secondSignature: bool, multisignatures: seq<PublicKey>, multimin: int, multilifetime: int)

  datatype AccountRow = AccountRow(
    conf: HalfRow, unconf: HalfRow, secondKey: Option<PublicKey>,
    vote: int, producedBlocks: int, fees: int, rewards: int)

  const EMPTY_HALF := HalfRow(0, [], false, None, false, [], 0, 0)
  const NEW_ROW := AccountRow(EMPTY_HALF, EMPTY_HALF, None, 0, 0, 0, 0)

  datatype RoundRow = RoundRow(address: Address, amount: int, delegate: PublicKey, round: int)

  type AccountTable = map<Address, AccountRow>

  function Fetch(t: AccountTable, a: Address): AccountRow { if a in t then t[a] else NEW_ROW }

  function SideOf(h: HalfRow): Side {
    Side(h.balance, multiset(h.delegates), h.isDelegate, h.username, h.secondSignature,
         multiset(h.multisignatures), h.multimin, h.multilifetime)
  }

  // ---------- abstraction of the accounts table, column by column ----------

  ghost function ConfOf(t: AccountTable): SideTable { imap a: Address :: SideOf(Fetch(t, a).conf) }
  ghost function UnconfOf(t: AccountTable): SideTable { imap a: Address :: SideOf(Fetch(t, a).unconf) }
  ghost function KeysOf(t: AccountTable): KeyTable { imap a: Address :: Fetch(t, a).secondKey }
  ghost function VotesOf(t: AccountTable): Column { imap a: Address :: Fetch(t, a).vote }
  ghost function ProducedOf(t: AccountTable): Column { imap a: Address :: Fetch(t, a).producedBlocks }
  ghost function FeesColumn(t: AccountTable): Column { imap a: Address :: Fetch(t, a).fees }
  ghost function RewardsColumn(t: AccountTable): Column { imap a: Address :: Fetch(t, a).rewards }

  ghost function AcctsOf(t: AccountTable): Accts {
    Accts(ConfOf(t), UnconfOf(t), KeysOf(t), ProducedOf(t), FeesColumn(t), RewardsColumn(t))
  }

  /** Tables whose rows agree in a column have the same column. */
  lemma SameSides(t: AccountTable, t': AccountTable)
    ensures (forall a: Address :: Fetch(t, a).conf == Fetch(t', a).conf) ==> ConfOf(t) == ConfOf(t')
    ensures (forall a: Address :: Fetch(t, a).unconf == Fetch(t', a).unconf) ==> UnconfOf(t) == UnconfOf(t')
    ensures (forall a: Address :: Fetch(t, a).secondKey == Fetch(t', a).secondKey) ==> KeysOf(t) == KeysOf(t')
  {
    hide SideOf, Fetch;
  }

  lemma SameNumbers(t: AccountTable, t': AccountTable)
    ensures (forall a: Address :: Fetch(t, a).vote == Fetch(t', a).vote) ==> VotesOf(t) == VotesOf(t')
    ensures (forall a: Address :: Fetch(t, a).producedBlocks == Fetch(t', a).producedBlocks) ==>
            ProducedOf(t) == ProducedOf(t')
  {
    hide Fetch;
  }

  lemma SameEarnings(t: AccountTable, t': AccountTable)
    ensures (forall a: Address :: Fetch(t, a).fees == Fetch(t', a).fees) ==> FeesColumn(t) == FeesColumn(t')
    ensures (forall a: Address :: Fetch(t, a).rewards == Fetch(t', a).rewards) ==> RewardsColumn(t) == RewardsColumn(t')
  {
    hide Fetch;
  }

  lemma PutConf(t: AccountTable, a: Address, row: AccountRow)
    ensures ConfOf(t[a := row]) == ConfOf(t)[a := SideOf(row.conf)]
  {
    hide SideOf;
  }

  lemma PutUnconf(t: AccountTable, a: Address, row: AccountRow)
    ensures UnconfOf(t[a := row]) == UnconfOf(t)[a := SideOf(row.unconf)]
  {
    hide SideOf;
  }

  lemma PutKey(t: AccountTable, a: Address, row: AccountRow)
    ensures KeysOf(t[a := row]) == KeysOf(t)[a := row.secondKey]
  {
    hide SideOf;
  }

  lemma PutVote(t: AccountTable, a: Address, row: AccountRow)
    ensures VotesOf(t[a := row]) == VotesOf(t)[a := row.vote]
  {
    hide SideOf;
  }

  lemma PutProduced(t: AccountTable, a: Address, row: AccountRow)
    ensures ProducedOf(t[a := row]) == ProducedOf(t)[a := row.producedBlocks]
  {
    hide SideOf;
  }

  lemma PutFees(t: AccountTable, a: Address, row: AccountRow)
    ensures FeesColumn(t[a := row]) == FeesColumn(t)[a := row.fees]
  {
    hide SideOf;
  }

  lemma PutRewards(t: AccountTable, a: Address, row: AccountRow)
    ensures RewardsColumn(t[a := row]) == RewardsColumn(t)[a := row.rewards]
  {
    hide SideOf;
  }

  /** Writing one row writes one entry of each column. */
  lemma PutRow(t: AccountTable, a: Address, row: AccountRow)
    ensures ConfOf(t[a := row]) == ConfOf(t)[a := SideOf(row.conf)]
    ensures UnconfOf(t[a := row]) == UnconfOf(t)[a := SideOf(row.unconf)]
    ensures KeysOf(t[a := row]) == KeysOf(t)[a := row.secondKey]
    ensures VotesOf(t[a := row]) == VotesOf(t)[a := row.vote]
    ensures ProducedOf(t[a := row]) == ProducedOf(t)[a := row.producedBlocks]
    ensures FeesColumn(t[a := row]) == FeesColumn(t)[a := row.fees]
    ensures RewardsColumn(t[a := row]) == RewardsColumn(t)[a := row.rewards]
  {
    hide ConfOf, UnconfOf, KeysOf, VotesOf, ProducedOf, FeesColumn, RewardsColumn, SideOf;
    PutConf(t, a, row);
    PutUnconf(t, a, row);
    PutKey(t, a, row);
    PutVote(t, a, row);
    PutProduced(t, a, row);
    PutFees(t, a, row);
    PutRewards(t, a, row);
  }

  /** Writing back what is there changes no column. */
  lemma SameEntry(t: AccountTable, a: Address)
    ensures ConfOf(t)[a := SideOf(Fetch(t, a).conf)] == ConfOf(t)
    ensures UnconfOf(t)[a := SideOf(Fetch(t, a).unconf)] == UnconfOf(t)
    ensures KeysOf(t)[a := Fetch(t, a).secondKey] == KeysOf(t)
    ensures VotesOf(t)[a := Fetch(t, a).vote] == VotesOf(t)
    ensures ProducedOf(t)[a := Fetch(t, a).producedBlocks] == ProducedOf(t)
    ensures FeesColumn(t)[a := Fetch(t, a).fees] == FeesColumn(t)
    ensures RewardsColumn(t)[a := Fetch(t, a).rewards] == RewardsColumn(t)
  {
    hide SideOf, Fetch;
  }

  lemma EntryAt(t: AccountTable, a: Address)
    ensures Row(ConfOf(t), a) == SideOf(Fetch(t, a).conf) && Row(UnconfOf(t), a) == SideOf(Fetch(t, a).unconf)
    ensures KeyAt(KeysOf(t), a) == Fetch(t, a).secondKey && Get(VotesOf(t), a) == Fetch(t, a).vote
    ensures Get(ProducedOf(t), a) == Fetch(t, a).producedBlocks
    ensures Get(FeesColumn(t), a) == Fetch(t, a).fees && Get(RewardsColumn(t), a) == Fetch(t, a).rewards
  {
    hide SideOf, Fetch;
  }

  /** Creating an account that did not exist does not show in the abstraction. */
  lemma NewRow(t: AccountTable, a: Address)
    requires a !in t
    ensures AcctsOf(t[a := NEW_ROW]) == AcctsOf(t) && VotesOf(t[a := NEW_ROW]) == VotesOf(t)
  {
    hide ConfOf, UnconfOf, KeysOf, ProducedOf, FeesColumn, RewardsColumn, VotesOf;
    PutRow(t, a, NEW_ROW);
    SameEntry(t, a);
  }

  // ---------- abstraction of mem_round ----------

  function SumRows(rows: seq<RoundRow>, round: int, d: PublicKey): int {
    if rows == [] then 0
    else
      var last := rows[|rows| - 1];
      SumRows(rows[..|rows| - 1], round, d) + if last.round == round && last.delegate == d then last.amount else 0
  }

  ghost function PendingOf(rows: seq<RoundRow>): Pending { imap k: (int, PublicKey) :: SumRows(rows, k.0, k.1) }

  function RoundsOf(rows: seq<RoundRow>): set<int> { set i | 0 <= i < |rows| :: rows[i].round }

  lemma AppendRow(rows: seq<RoundRow>, r: RoundRow)
    ensures forall k: (int, PublicKey) :: PendingAt(PendingOf(rows + [r]), k.0, k.1) ==
              PendingAt(PendingOf(rows), k.0, k.1) + if k == (r.round, r.delegate) then r.amount else 0
    ensures RoundsOf(rows + [r]) == RoundsOf(rows) + {r.round}
  {
    var rows' := rows + [r];
    assert rows'[..|rows|] == rows;
    forall x | x in RoundsOf(rows) ensures x in RoundsOf(rows') {
      var i :| 0 <= i < |rows| && rows[i].round == x;
      assert rows'[i].round == x;
    }
    assert rows'[|rows|].round == r.round;
  }

  lemma {:induction false} ConcatRows(rows: seq<RoundRow>, more: seq<RoundRow>, round: int, d: PublicKey)
    ensures SumRows(rows + more, round, d) == SumRows(rows, round, d) + SumRows(more, round, d)
  {
    if more == [] {
      assert rows + more == rows;
    } else {
      assert (rows + more)[..|rows + more| - 1] == rows + more[..|more| - 1];
      ConcatRows(rows, more[..|more| - 1], round, d);
    }
  }

  lemma RestoredRows(rows: seq<RoundRow>, more: seq<RoundRow>)
    ensures PendingOf(rows + more) == AddPending(PendingOf(rows), PendingOf(more))
    ensures RoundsOf(rows + more) == RoundsOf(rows) + RoundsOf(more)
  {
    forall k: (int, PublicKey) ensures PendingOf(rows + more)[k] == AddPending(PendingOf(rows), PendingOf(more))[k] {
      ConcatRows(rows, more, k.0, k.1);
      assert k == (k.0, k.1);
    }
    var all := rows + more;
    forall x | x in RoundsOf(rows) + RoundsOf(more) ensures x in RoundsOf(all) {
      if x in RoundsOf(rows) {
        var i :| 0 <= i < |rows| && rows[i].round == x;
        assert all[i].round == x;
      } else {
        var i :| 0 <= i < |more| && more[i].round == x;
        assert all[|rows| + i].round == x;
      }
    }
  }

  /** DELETE FROM mem_round WHERE round = ... */
  function DropRound(rows: seq<RoundRow>, round: int): seq<RoundRow> {
    if rows == [] then []
    else
      var pre, last := DropRound(rows[..|rows| - 1], round), rows[|rows| - 1];
      if last.round == round then pre else pre + [last]
  }

  lemma {:induction false} DropRoundSum(rows: seq<RoundRow>, round: int, r: int, d: PublicKey)
    ensures SumRows(DropRound(rows, round), r, d) == if r == round then 0 else SumRows(rows, r, d)
  {
    if rows != [] {
      var pre, last := rows[..|rows| - 1], rows[|rows| - 1];
      DropRoundSum(pre, round, r, d);
      if last.round != round {
        var kept := DropRound(pre, round);
        assert (kept + [last])[..|kept|] == kept;
      }
    }
  }

  lemma {:induction false} DropRoundRounds(rows: seq<RoundRow>, round: int)
    ensures RoundsOf(DropRound(rows, round)) == RoundsOf(rows) - {round}
  {
    if rows == [] {
      assert RoundsOf(rows) == {};
    } else {
      var pre, last := rows[..|rows| - 1], rows[|rows| - 1];
      DropRoundRounds(pre, round);
      assert rows == pre + [last];
      AppendRow(pre, last);
      if last.round != round { AppendRow(DropRound(pre, round), last); }
    }
  }

  lemma DropRoundIsFlush(rows: seq<RoundRow>, round: int)
    ensures PendingOf(DropRound(rows, round)) == Flush(PendingOf(rows), round)
    ensures RoundsOf(DropRound(rows, round)) == RoundsOf(rows) - {round}
  {
    DropRoundRounds(rows, round);
    forall k: (int, PublicKey) ensures PendingOf(DropRound(rows, round))[k] == Flush(PendingOf(rows), round)[k] {
      DropRoundSum(rows, round, k.0, k.1);
      assert k == (k.0, k.1);
    }
  }

  // ---------- one field of an account diff ----------

  datatype NumberColumn =
    | Balance | UBalance | Multimin | UMultimin | Multilifetime | UMultilifetime
    | ProducedBlocks | Fees | Rewards

  datatype KeyColumn = Delegates | UDelegates | Multisignatures | UMultisignatures

  /** The editable fields logic/account.js merge is called with: numbers to add and key lists to apply. */
  datatype Field = Number(number: NumberColumn, value: int) | Keys(keys: KeyColumn, items: seq<string>)

  function NumberOf(r: AccountRow, c: NumberColumn): int {
    match c
    case Balance => r.conf.balance
    case UBalance => r.unconf.balance
    case Multimin => r.conf.multimin
    case UMultimin => r.unconf.multimin
    case Multilifetime => r.conf.multilifetime
    case UMultilifetime => r.unconf.multilifetime
    case ProducedBlocks => r.producedBlocks
    case Fees => r.fees
    case Rewards => r.rewards
  }

  function SetNumber(r: AccountRow, c: NumberColumn, x: int): AccountRow {
    match c
    case Balance => r.(conf := r.conf.(balance := x))
    case UBalance => r.(unconf := r.unconf.(balance := x))
    case Multimin => r.(conf := r.conf.(multimin := x))
    case UMultimin => r.(unconf := r.unconf.(multimin := x))
    case Multilifetime => r.(conf := r.conf.(multilifetime := x))
    case UMultilifetime => r.(unconf := r.unconf.(multilifetime := x))
    case ProducedBlocks => r.(producedBlocks := x)
    case Fees => r.(fees := x)
    case Rewards => r.(rewards := x)
  }

  function KeyListOf(r: AccountRow, c: KeyColumn): seq<PublicKey> {
    match c
    case Delegates => r.conf.delegates
    case UDelegates => r.unconf.delegates
    case Multisignatures => r.conf.multisignatures
    case UMultisignatures => r.unconf.multisignatures
  }

  function SetKeyList(r: AccountRow, c: KeyColumn, ks: seq<PublicKey>): AccountRow {
    match c
    case Delegates => r.(conf := r.conf.(delegates := ks))
    case UDelegates => r.(unconf := r.unconf.(delegates := ks))
    case Multisignatures => r.(conf := r.conf.(multisignatures := ks))
    case UMultisignatures => r.(unconf := r.unconf.(multisignatures := ks))
  }

  ghost function EditConf(b: Books, a: Address, s: Side): Books {
    b.(accts := b.accts.(conf := b.accts.conf[a := s]))
  }

  ghost function EditUnconf(b: Books, a: Address, s: Side): Books {
    b.(accts := b.accts.(unconf := b.accts.unconf[a := s]))
  }

  /** The books with `x` added to one column of one account. */
  ghost function AddNumber(b: Books, a: Address, c: NumberColumn, x: int): Books {
    var s, u := Row(b.accts.conf, a), Row(b.accts.unconf, a);
    match c
    case Balance => EditConf(b, a, Raise(s, x))
    case UBalance => EditUnconf(b, a, Raise(u, x))
    case Multimin => EditConf(b, a, s.(multimin := s.multimin + x))
    case UMultimin => EditUnconf(b, a, u.(multimin := u.multimin + x))
    case Multilifetime => EditConf(b, a, s.(multilifetime := s.multilifetime + x))
    case UMultilifetime => EditUnconf(b, a, u.(multilifetime := u.multilifetime + x))
    case ProducedBlocks => b.(accts := b.accts.(produced := Add(b.accts.produced, a, x)))
    case Fees => b.(accts := b.accts.(fees := Add(b.accts.fees, a, x)))
    case Rewards => b.(accts := b.accts.(rewards := Add(b.accts.rewards, a, x)))
  }

  ghost function EditKeys(b: Books, a: Address, c: KeyColumn, items: seq<string>): Books {
    var s, u := Row(b.accts.conf, a), Row(b.accts.unconf, a);
    match c
    case Delegates => EditConf(b, a, s.(delegates := ApplyDiff(s.delegates, items)))
    case UDelegates => EditUnconf(b, a, u.(delegates := ApplyDiff(u.delegates, items)))
    case Multisignatures => EditConf(b, a, s.(multisignatures := ApplyDiff(s.multisignatures, items)))
    case UMultisignatures => EditUnconf(b, a, u.(multisignatures := ApplyDiff(u.multisignatures, items)))
  }

  /** What merging one field does to the node: the column changes, and for `balance` and `delegates`
      the tally gets rows. */
  ghost function MergeField(n: Node, a: Address, f: Field, round: int): Node {
    var s := Row(n.books.accts.conf, a);
    match f
    case Number(Balance, x) =>
      n.(books := AddNumber(n.books, a, Balance, x).(pending := Accrue(n.books.pending, round, s.delegates, x)),
         rounds := RowsFor(n.rounds, round, s))
    case Number(c, x) => n.(books := AddNumber(n.books, a, c, x))
    case Keys(Delegates, items) =>
      n.(books := EditKeys(n.books, a, Delegates,
          items).(pending := AccrueVotes(n.books.pending, round, s.balance, items)),
         rounds := if items == [] then n.rounds else n.rounds + {round})
    case Keys(c, items) => n.(books := EditKeys(n.books, a, c, items))
  }

  ghost function MergeFields(n: Node, a: Address, diff: seq<Field>, round: int): Node {
    if diff == [] then n else MergeField(MergeFields(n, a, diff[..|diff| - 1], round), a, diff[|diff| - 1], round)
  }

  // ---------- key lists ----------

  /** DELETE FROM the dependency table every row with this key. */
  function Without(ks: seq<PublicKey>, k: PublicKey): seq<PublicKey> {
    if ks == [] then []
    else
      var pre, last := Without(ks[..|ks| - 1], k), ks[|ks| - 1];
      if last == k then pre else pre + [last]
  }

  lemma {:induction false} WithoutIs(ks: seq<PublicKey>, k: PublicKey)
    ensures multiset(Without(ks, k)) == multiset(ks)[k := 0]
  {
    if ks != [] {
      var pre, last := ks[..|ks| - 1], ks[|ks| - 1];
      WithoutIs(pre, k);
      assert ks == pre + [last];
    }
  }

  lemma AppendKey(ks: seq<PublicKey>, k: PublicKey)
    ensures multiset(ks + [k]) == multiset(ks) + multiset{k}
  {
  }

  // ---------- writing rows ----------

  ghost function BooksOf(t: AccountTable, rows: seq<RoundRow>): Books {
    Books(AcctsOf(t), VotesOf(t), PendingOf(rows))
  }

  lemma FullBooks(t: AccountTable, rows: seq<RoundRow>)
    ensures AcctsOf(t).Wf() && Full(VotesOf(t)) && FullPending(PendingOf(rows))
  {
    hide SideOf, Fetch, SumRows;
  }

  lemma WriteConf(t: AccountTable, a: Address, h: HalfRow, rows: seq<RoundRow>)
    ensures BooksOf(t[a := Fetch(t, a).(conf := h)], rows) == EditConf(BooksOf(t, rows), a, SideOf(h))
  {
    hide ConfOf, UnconfOf, KeysOf, VotesOf, ProducedOf, FeesColumn, RewardsColumn, PendingOf;
    PutRow(t, a, Fetch(t, a).(conf := h));
    SameEntry(t, a);
  }

  lemma WriteUnconf(t: AccountTable, a: Address, h: HalfRow, rows: seq<RoundRow>)
    ensures BooksOf(t[a := Fetch(t, a).(unconf := h)], rows) == EditUnconf(BooksOf(t, rows), a, SideOf(h))
  {
    hide ConfOf, UnconfOf, KeysOf, VotesOf, ProducedOf, FeesColumn, RewardsColumn, PendingOf;
    PutRow(t, a, Fetch(t, a).(unconf := h));
    SameEntry(t, a);
  }

  predicate OfConf(c: NumberColumn) { c.Balance? || c.Multimin? || c.Multilifetime? }
  predicate OfUnconf(c: NumberColumn) { c.UBalance? || c.UMultimin? || c.UMultilifetime? }

  /** The half of a row that a number column belongs to, with `x` added. */
  function AddedSide(s: Side, c: NumberColumn, x: int): Side {
    match c
    case Multimin => s.(multimin := s.multimin + x)
    case UMultimin => s.(multimin := s.multimin + x)
    case Multilifetime => s.(multilifetime := s.multilifetime + x)
    case UMultilifetime => s.(multilifetime := s.multilifetime + x)
    case _ => Raise(s, x)
  }

  lemma AddedConfIs(r: AccountRow, c: NumberColumn, x: int)
    requires OfConf(c)
    ensures var r' := SetNumber(r, c, NumberOf(r, c) + x);
            r' == r.(conf := r'.conf) && SideOf(r'.conf) == AddedSide(SideOf(r.conf), c, x)
  {
  }

  lemma AddedUnconfIs(r: AccountRow, c: NumberColumn, x: int)
    requires OfUnconf(c)
    ensures var r' := SetNumber(r, c, NumberOf(r, c) + x);
            r' == r.(unconf := r'.unconf) && SideOf(r'.unconf) == AddedSide(SideOf(r.unconf), c, x)
  {
  }

  lemma AddNumberIs(b: Books, a: Address, c: NumberColumn, x: int)
    ensures OfConf(c) ==> AddNumber(b, a, c, x) == EditConf(b, a, AddedSide(Row(b.accts.conf, a), c, x))
    ensures OfUnconf(c) ==> AddNumber(b, a, c, x) == EditUnconf(b, a, AddedSide(Row(b.accts.unconf, a), c, x))
  {
    hide Row;
  }

  lemma WriteConfNumber(t: AccountTable, a: Address, c: NumberColumn, x: int, rows: seq<RoundRow>)
    requires a in t && OfConf(c)
    ensures BooksOf(t[a := SetNumber(t[a], c, NumberOf(t[a], c) + x)], rows) == AddNumber(BooksOf(t, rows), a, c, x)
  {
    hide BooksOf, Row, AddNumber, SetNumber, NumberOf, SideOf, AddedSide, EditConf;
    AddedConfIs(t[a], c, x);
    AddNumberIs(BooksOf(t, rows), a, c, x);
    BooksRow(t, a, rows);
    WriteConf(t, a, SetNumber(t[a], c, NumberOf(t[a], c) + x).conf, rows);
  }

  lemma WriteUnconfNumber(t: AccountTable, a: Address, c: NumberColumn, x: int, rows: seq<RoundRow>)
    requires a in t && OfUnconf(c)
    ensures BooksOf(t[a := SetNumber(t[a], c, NumberOf(t[a], c) + x)], rows) == AddNumber(BooksOf(t, rows), a, c, x)
  {
    hide BooksOf, Row, AddNumber, SetNumber, NumberOf, SideOf, AddedSide, EditUnconf;
    AddedUnconfIs(t[a], c, x);
    AddNumberIs(BooksOf(t, rows), a, c, x);
    BooksRow(t, a, rows);
    WriteUnconf(t, a, SetNumber(t[a], c, NumberOf(t[a], c) + x).unconf, rows);
  }

  lemma WriteNumber(t: AccountTable, a: Address, c: NumberColumn, x: int, rows: seq<RoundRow>)
    requires a in t
    ensures BooksOf(t[a := SetNumber(t[a], c, NumberOf(t[a], c) + x)], rows) == AddNumber(BooksOf(t, rows), a, c, x)
  {
    hide BooksOf, AddNumber, SetNumber, NumberOf;
    if OfConf(c) {
      WriteConfNumber(t, a, c, x, rows);
    } else if OfUnconf(c) {
      WriteUnconfNumber(t, a, c, x, rows);
    } else {
      WriteEarningNumber(t, a, c, x, rows);
    }
  }

  lemma WriteEarningNumber(t: AccountTable, a: Address, c: NumberColumn, x: int, rows: seq<RoundRow>)
    requires a in t && (c.ProducedBlocks? || c.Fees? || c.Rewards?)
    ensures BooksOf(t[a := SetNumber(t[a], c, NumberOf(t[a], c) + x)], rows) == AddNumber(BooksOf(t, rows), a, c, x)
  {
    hide AcctsOf, VotesOf, PendingOf;
    EntryAtAccts(t, a);
    WriteEarning(t, a, c, NumberOf(t[a], c) + x);
  }

  lemma BooksRow(t: AccountTable, a: Address, rows: seq<RoundRow>)
    ensures Row(BooksOf(t, rows).accts.conf, a) == SideOf(Fetch(t, a).conf)
    ensures Row(BooksOf(t, rows).accts.unconf, a) == SideOf(Fetch(t, a).unconf)
  {
    EntryAt(t, a);
  }

  lemma EntryAtAccts(t: AccountTable, a: Address)
    ensures Row(AcctsOf(t).conf, a) == SideOf(Fetch(t, a).conf)
    ensures Row(AcctsOf(t).unconf, a) == SideOf(Fetch(t, a).unconf)
    ensures Get(AcctsOf(t).produced, a) == Fetch(t, a).producedBlocks
    ensures Get(AcctsOf(t).fees, a) == Fetch(t, a).fees && Get(AcctsOf(t).rewards, a) == Fetch(t, a).rewards
  {
    EntryAt(t, a);
  }

  lemma WriteEarning(t: AccountTable, a: Address, c: NumberColumn, y: int)
    requires a in t && (c.ProducedBlocks? || c.Fees? || c.Rewards?)
    ensures var t', s := t[a := SetNumber(t[a], c, y)], AcctsOf(t);
            && VotesOf(t') == VotesOf(t)
            && AcctsOf(t') == match c
                              case ProducedBlocks => s.(produced := s.produced[a := y])
                              case Fees => s.(fees := s.fees[a := y])
                              case _ => s.(rewards := s.rewards[a := y])
  {
    hide ConfOf, UnconfOf, KeysOf, VotesOf, ProducedOf, FeesColumn, RewardsColumn;
    PutRow(t, a, SetNumber(t[a], c, y));
    SameEntry(t, a);
  }

  lemma WriteKeys(t: AccountTable, a: Address, c: KeyColumn, ks: seq<PublicKey>, items: seq<string>,
      rows: seq<RoundRow>)
    requires a in t && multiset(ks) == ApplyDiff(multiset(KeyListOf(t[a], c)), items)
    ensures BooksOf(t[a := SetKeyList(t[a], c, ks)], rows) == EditKeys(BooksOf(t, rows), a, c, items)
  {
    hide ConfOf, UnconfOf, KeysOf, VotesOf, ProducedOf, FeesColumn, RewardsColumn, PendingOf, ApplyDiff;
    PutRow(t, a, SetKeyList(t[a], c, ks));
    SameEntry(t, a);
    EntryAt(t, a);
  }

  /** insertRoundInformationWithAmount: one row per delegate of the account. */
  function AmountRows(a: Address, x: int, ds: seq<PublicKey>, round: int): seq<RoundRow> {
    seq(|ds|, i requires 0 <= i < |ds| => RoundRow(a, x, ds[i], round))
  }

  lemma {:induction false} AmountRowsSum(a: Address, x: int, ds: seq<PublicKey>, round: int, r: int, d: PublicKey)
    ensures SumRows(AmountRows(a, x, ds, round), r, d) == if r == round then x * multiset(ds)[d] else 0
  {
    if ds != [] {
      var n := |ds| - 1;
      assert ds == ds[..n] + [ds[n]];
      AmountRowsSum(a, x, ds[..n], round, r, d);
      assert AmountRows(a, x, ds, round)[..n] == AmountRows(a, x, ds[..n], round);
      Distribute(x, multiset(ds[..n])[d]);
    }
  }

  lemma Distribute(x: int, m: int)
    ensures x * (m + 1) == x * m + x
  {
  }

  lemma AmountRowsAccrue(rows: seq<RoundRow>, a: Address, x: int, ds: seq<PublicKey>, round: int)
    ensures PendingOf(rows + AmountRows(a, x, ds, round)) == Accrue(PendingOf(rows), round, multiset(ds), x)
    ensures RoundsOf(rows + AmountRows(a, x, ds, round)) ==
            if multiset(ds) == multiset{} then RoundsOf(rows) else RoundsOf(rows) + {round}
  {
    var more := AmountRows(a, x, ds, round);
    RestoredRows(rows, more);
    forall k: (int, PublicKey)
      ensures AddPending(PendingOf(rows), PendingOf(more))[k] == Accrue(PendingOf(rows), round, multiset(ds), x)[k]
    {
      AmountRowsSum(a, x, ds, round, k.0, k.1);
      assert k == (k.0, k.1);
    }
    if ds != [] {
      assert ds[0] in multiset(ds);
      assert more[0].round == round;
      assert RoundsOf(more) == {round};
    } else {
      assert RoundsOf(more) == {};
    }
  }

  /** insertRoundInformationWithDelegate: plus or minus the account's balance for one key. */
  function VoteRow(a: Address, balance: int, change: string, round: int): RoundRow {
    RoundRow(a, if IsMinus(change) then -balance else balance, KeyOf(change), round)
  }

  lemma NetStep(items: seq<string>, i: nat, balance: int, d: PublicKey)
    requires i < |items|
    ensures balance * Net(items[..i + 1], d) ==
            balance * Net(items[..i], d) +
            if KeyOf(items[i]) != d then 0 else if IsMinus(items[i]) then -balance else balance
  {
    assert items[..i + 1][..i] == items[..i];
    var change := if KeyOf(items[i]) != d then 0 else if IsMinus(items[i]) then -1 else 1;
    assert balance * (Net(items[..i], d) + change) == balance * Net(items[..i], d) + balance * change;
  }

  lemma VoteRowAccrues(p: Pending, rows: seq<RoundRow>, a: Address, balance: int, items: seq<string>, i: nat,
      round: int)
    requires i < |items|
    requires PendingOf(rows) == AccrueVotes(p, round, balance, items[..i])
    ensures PendingOf(rows + [VoteRow(a, balance, items[i], round)]) == AccrueVotes(p, round, balance, items[..i + 1])
  {
    hide Net, SumRows, IsMinus, KeyOf;
    var row := VoteRow(a, balance, items[i], round);
    AppendRow(rows, row);
    forall k: (int, PublicKey)
      ensures PendingOf(rows + [row])[k] == AccrueVotes(p, round, balance, items[..i + 1])[k]
    {
      NetStep(items, i, balance, k.1);
      assert k == (k.0, k.1);
      assert PendingAt(PendingOf(rows + [row]), k.0, k.1) ==
             PendingAt(PendingOf(rows), k.0, k.1) + if k == (row.round, row.delegate) then row.amount else 0;
      assert PendingAt(PendingOf(rows), k.0, k.1) == PendingAt(AccrueVotes(p, round, balance, items[..i]), k.0, k.1);
    }
  }

  lemma NoVotesAccrued(p: Pending, round: int, balance: int)
    requires FullPending(p)
    ensures AccrueVotes(p, round, balance, []) == p
  {
    forall k: (int, PublicKey) ensures AccrueVotes(p, round, balance, [])[k] == p[k] {
      assert k == (k.0, k.1);
    }
  }

  /** One change of a key list: '-' deletes the key, anything else appends it. */
  function ChangeKeys(ks: seq<PublicKey>, change: string): seq<PublicKey> {
    if IsMinus(change) then Without(ks, KeyOf(change)) else ks + [KeyOf(change)]
  }

  lemma ChangeKeysIs(ds: multiset<PublicKey>, ks: seq<PublicKey>, items: seq<string>, i: nat)
    requires i < |items| && multiset(ks) == ApplyDiff(ds, items[..i])
    ensures multiset(ChangeKeys(ks, items[i])) == ApplyDiff(ds, items[..i + 1])
  {
    assert items[..i + 1][..i] == items[..i];
    WithoutIs(ks, KeyOf(items[i]));
    AppendKey(ks, KeyOf(items[i]));
  }
}
