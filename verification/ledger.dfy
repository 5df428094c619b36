/** The audit ledger (main.py:76-101, 139-143): one row per member, a name
    and thirteen whole-number columns, kept in member order. */
module Ledger {

  /** One member's row. The seven input columns are typed in on the audit
      page; the six derived ones are written by the waterfall. */
  datatype Row = Row(
    name: string,
    cashToday: int,
    fines: int,
    savingsBF: int,
    savingsToday: int,
    savingsCF: int,
    loanBF: int,
    loanPrincipal: int,
    loanInterest: int,
    loanCF: int,
    advanceBF: int,
    advancePrincipal: int,
    advanceInterest: int,
    advanceCF: int)

  type Ledger = seq<Row>

  /** A row whose thirteen numeric columns are all 0. */
  predicate IsZeroRow(row: Row) {
    && row.cashToday == 0 && row.fines == 0
    && row.savingsBF == 0 && row.savingsToday == 0 && row.savingsCF == 0
    && row.loanBF == 0 && row.loanPrincipal == 0 && row.loanInterest == 0 && row.loanCF == 0
    && row.advanceBF == 0 && row.advancePrincipal == 0 && row.advanceInterest == 0 && row.advanceCF == 0
  }

  /** A row whose only non-zero columns can be the three opening balances. */
  predicate IsOpeningRow(row: Row) {
    IsZeroRow(row.(savingsBF := 0, loanBF := 0, advanceBF := 0))
  }

  function Names(ledger: Ledger): (r: seq<string>)
    ensures |r| == |ledger|
    ensures forall i :: 0 <= i < |ledger| ==> r[i] == ledger[i].name
  {
    seq(|ledger|, i requires 0 <= i < |ledger| => ledger[i].name)
  }

  function ZeroRow(name: string): (r: Row)
    ensures r.name == name && IsZeroRow(r)
  {
    Row(name, 0, 0, 0, 0, 0, 0, 0, 0, 0, 0, 0, 0, 0)
  }

  /** `init_dataframe`: one all-zero row per member, in the given order. */
  function InitLedger(members: seq<string>): (r: Ledger)
    ensures Names(r) == members
    ensures forall i :: 0 <= i < |r| ==> IsZeroRow(r[i])
  {
    seq(|members|, i requires 0 <= i < |members| => ZeroRow(members[i]))
  }

  /** `create_carry_forward_df`: next period's ledger. Row i keeps row i's
      member and opens with row i's closing savings, loan and advance
      balances; everything else starts at 0. */
  function CarryForward(closing: Ledger): (r: Ledger)
    ensures Names(r) == Names(closing)
    ensures forall i :: 0 <= i < |r| ==>
              && r[i].savingsBF == closing[i].savingsCF
              && r[i].loanBF == closing[i].loanCF
              && r[i].advanceBF == closing[i].advanceCF
              && IsOpeningRow(r[i])
  {
    var zeros := InitLedger(Names(closing));
    seq(|closing|, i requires 0 <= i < |closing| =>
      zeros[i].(savingsBF := closing[i].savingsCF,
                loanBF := closing[i].loanCF,
                advanceBF := closing[i].advanceCF))
  }

  /** A fresh ledger is what carrying forward a ledger with nothing owed or
      saved gives. */
  lemma {:induction false} CarryForwardOfSettled(closing: Ledger)
    requires forall i :: 0 <= i < |closing| ==>
               closing[i].savingsCF == 0 && closing[i].loanCF == 0 && closing[i].advanceCF == 0
    ensures CarryForward(closing) == InitLedger(Names(closing))
  {
    var r := CarryForward(closing);
    var f := InitLedger(Names(closing));
    assert |r| == |f|;
    forall i | 0 <= i < |r|
      ensures r[i] == f[i]
    {
      assert r[i].name == f[i].name;
    }
  }

  /** Carrying forward twice, with no waterfall run in between, loses every
      balance: a carried-forward row's closing columns are still 0. */
  lemma CarryForwardTwice(ledger: Ledger)
    ensures CarryForward(CarryForward(ledger)) == InitLedger(Names(ledger))
  {
    CarryForwardOfSettled(CarryForward(ledger));
  }

  /** The columns the audit page lets the user type into (main.py:281-289). */
  datatype Input = CashToday | Fines | SavingsBF | LoanBF | LoanPrincipal | AdvanceBF | AdvancePrincipal

  function Get(row: Row, col: Input): int {
    match col
    case CashToday => row.cashToday
    case Fines => row.fines
    case SavingsBF => row.savingsBF
    case LoanBF => row.loanBF
    case LoanPrincipal => row.loanPrincipal
    case AdvanceBF => row.advanceBF
    case AdvancePrincipal => row.advancePrincipal
  }

  function Set(row: Row, col: Input, value: int): (r: Row)
    ensures Get(r, col) == value
    ensures forall other :: other != col ==> Get(r, other) == Get(row, other)
    ensures r.name == row.name
    ensures SameDerived(r, row)
  {
    match col
    case CashToday => row.(cashToday := value)
    case Fines => row.(fines := value)
    case SavingsBF => row.(savingsBF := value)
    case LoanBF => row.(loanBF := value)
    case LoanPrincipal => row.(loanPrincipal := value)
    case AdvanceBF => row.(advanceBF := value)
    case AdvancePrincipal => row.(advancePrincipal := value)
  }

  /** The two rows agree on the member and every input column. */
  predicate SameInputs(a: Row, b: Row) {
    a.name == b.name && forall col: Input :: Get(a, col) == Get(b, col)
  }

  /** The two rows agree on the six columns the waterfall writes. */
  predicate SameDerived(a: Row, b: Row) {
    && a.savingsToday == b.savingsToday && a.savingsCF == b.savingsCF
    && a.loanInterest == b.loanInterest && a.loanCF == b.loanCF
    && a.advanceInterest == b.advanceInterest && a.advanceCF == b.advanceCF
  }

  /** A row is fixed by its inputs and its derived columns. */
  lemma RowDeterminedByColumns(a: Row, b: Row)
    requires SameInputs(a, b) && SameDerived(a, b)
    ensures a == b
  {
    assert Get(a, CashToday) == Get(b, CashToday);
    assert Get(a, Fines) == Get(b, Fines);
    assert Get(a, SavingsBF) == Get(b, SavingsBF);
    assert Get(a, LoanBF) == Get(b, LoanBF);
    assert Get(a, LoanPrincipal) == Get(b, LoanPrincipal);
    assert Get(a, AdvanceBF) == Get(b, AdvanceBF);
    assert Get(a, AdvancePrincipal) == Get(b, AdvancePrincipal);
  }

  /** `update_val`: the value typed into one input of the current member's
      card overwrites that column of that row and nothing else. */
  function UpdateField(ledger: Ledger, idx: nat, col: Input, value: int): (r: Ledger)
    requires idx < |ledger|
    ensures |r| == |ledger| && Names(r) == Names(ledger)
    ensures Get(r[idx], col) == value
    ensures forall other :: other != col ==> Get(r[idx], other) == Get(ledger[idx], other)
    ensures SameDerived(r[idx], ledger[idx])
    ensures forall j :: 0 <= j < |ledger| && j != idx ==> r[j] == ledger[j]
  {
    ledger[idx := Set(ledger[idx], col, value)]
  }

  /** Typing a column's current value back in changes nothing. */
  lemma UpdateSameValue(ledger: Ledger, idx: nat, col: Input)
    requires idx < |ledger|
    ensures UpdateField(ledger, idx, col, Get(ledger[idx], col)) == ledger
  {
    var r := UpdateField(ledger, idx, col, Get(ledger[idx], col));
    RowDeterminedByColumns(r[idx], ledger[idx]);
  }

  /** Only the last of two edits to the same cell survives. */
  lemma UpdateOverwrites(ledger: Ledger, idx: nat, col: Input, v1: int, v2: int)
    requires idx < |ledger|
    ensures UpdateField(UpdateField(ledger, idx, col, v1), idx, col, v2) == UpdateField(ledger, idx, col, v2)
  {
    var a := UpdateField(UpdateField(ledger, idx, col, v1), idx, col, v2);
    var b := UpdateField(ledger, idx, col, v2);
    RowDeterminedByColumns(a[idx], b[idx]);
  }
}
