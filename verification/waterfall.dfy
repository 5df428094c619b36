/** The per-member waterfall of "Save & Calculate" (main.py:103-137):
    interest on the opening advance and loan balances, the day's
    deductions, today's savings movement and the three closing balances. */
module Waterfall {
  import opened Ledger

  /** `q` is `a / d` rounded toward zero, as Python's `int()` rounds a
      product: for a negative `a` the quotient rounds up, not down. */
  predicate IsTruncQuotient(q: int, a: int, d: int)
    requires d > 0
  {
    && (a >= 0 ==> 0 <= a - q * d < d)
    && (a < 0 ==> 0 <= q * d - a < d)
  }

  /** Division rounding toward zero, written out because Dafny's `/` rounds
      toward minus infinity for a negative dividend. */
  function TruncDiv(a: int, d: int): (q: int)
    requires d > 0
    ensures IsTruncQuotient(q, a, d)
  {
    if a >= 0 then a / d else -((-a) / d)
  }

  /** Only one quotient rounds toward zero. */
  lemma TruncQuotientUnique(q1: int, q2: int, a: int, d: int)
    requires d > 0 && IsTruncQuotient(q1, a, d) && IsTruncQuotient(q2, a, d)
    ensures q1 == q2
  {
    if q1 < q2 {
      MultipleGap(q1, q2, d);
    } else if q2 < q1 {
      MultipleGap(q2, q1, d);
    }
  }

  /** Distinct multiples of `d` lie at least `d` apart. */
  lemma MultipleGap(x: int, y: int, d: int)
    requires x < y && d > 0
    ensures x * d + d <= y * d
  {
    var k := y - x;
    PositiveMultiple(k, d);
    assert y * d == x * d + k * d;
  }

  lemma {:induction false} PositiveMultiple(k: int, d: int)
    requires k >= 1 && d > 0
    ensures k * d >= d
    decreases k
  {
    if k > 1 {
      PositiveMultiple(k - 1, d);
      assert k * d == (k - 1) * d + d;
    }
  }

  /** Step A: 10% advance interest, `int(adv_bf * 0.10)`. */
  function AdvanceInterest(advanceBF: int): (r: int)
    ensures IsTruncQuotient(r, advanceBF * 10, 100)
  {
    TruncDiv(advanceBF * 10, 100)
  }

  /** Step B: 1.5% loan interest, `int(loan_bf * 0.015)`. */
  function LoanInterest(loanBF: int): (r: int)
    ensures IsTruncQuotient(r, loanBF * 15, 1000)
  {
    TruncDiv(loanBF * 15, 1000)
  }

  /** Interest never exceeds its rate, never has the opposite sign of the
      balance it is charged on, and is 0 on a zero balance. */
  lemma InterestBounds(bf: int)
    ensures bf >= 0 ==> 0 <= 10 * AdvanceInterest(bf) <= bf && 0 <= 1000 * LoanInterest(bf) <= 15 * bf
    ensures bf <= 0 ==> bf <= 10 * AdvanceInterest(bf) <= 0 && 15 * bf <= 1000 * LoanInterest(bf) <= 0
  {
  }

  /** Step C: everything a member pays out of today's cash. */
  function Deductions(row: Row): int {
    row.fines + row.loanPrincipal + row.loanInterest + row.advancePrincipal + row.advanceInterest
  }

  /** A row whose derived columns agree with its inputs: interest is the
      truncated rate on each opening balance, today's savings are the cash
      left after deductions (a deficit when negative), and every closing
      balance is its opening balance moved by today's figures. */
  predicate IsCalculated(row: Row) {
    && IsTruncQuotient(row.advanceInterest, row.advanceBF * 10, 100)
    && IsTruncQuotient(row.loanInterest, row.loanBF * 15, 1000)
    && row.savingsCF - row.savingsBF == row.savingsToday == row.cashToday - Deductions(row)
    && row.loanBF - row.loanCF == row.loanPrincipal
    && row.advanceBF - row.advanceCF == row.advancePrincipal
  }

  /** The waterfall on one row: it reads the inputs and writes only the six
      derived columns. */
  function Calculate(row: Row): (r: Row)
    ensures SameInputs(r, row)
    ensures IsCalculated(r)
  {
    var advInt := AdvanceInterest(row.advanceBF);
    var loanInt := LoanInterest(row.loanBF);
    var deductions := row.fines + row.loanPrincipal + loanInt + row.advancePrincipal + advInt;
    var savingsToday := row.cashToday - deductions;
    row.(advanceInterest := advInt,
         loanInterest := loanInt,
         savingsToday := savingsToday,
         savingsCF := row.savingsBF + savingsToday,
         loanCF := row.loanBF - row.loanPrincipal,
         advanceCF := row.advanceBF - row.advancePrincipal)
  }

  /** A row's inputs leave only one consistent choice of derived columns. */
  lemma CalculatedUnique(a: Row, b: Row)
    requires SameInputs(a, b) && IsCalculated(a) && IsCalculated(b)
    ensures a == b
  {
    assert Get(a, AdvanceBF) == Get(b, AdvanceBF) && Get(a, LoanBF) == Get(b, LoanBF);
    TruncQuotientUnique(a.advanceInterest, b.advanceInterest, a.advanceBF * 10, 100);
    TruncQuotientUnique(a.loanInterest, b.loanInterest, a.loanBF * 15, 1000);
    assert Get(a, CashToday) == Get(b, CashToday) && Get(a, Fines) == Get(b, Fines);
    assert Get(a, SavingsBF) == Get(b, SavingsBF) && Get(a, LoanPrincipal) == Get(b, LoanPrincipal);
    assert Get(a, AdvancePrincipal) == Get(b, AdvancePrincipal);
    RowDeterminedByColumns(a, b);
  }

  /** A row is left as it is by the waterfall exactly when it is already
      consistent with its inputs. */
  lemma CalculateFixpoint(row: Row)
    ensures Calculate(row) == row <==> IsCalculated(row)
  {
    if IsCalculated(row) {
      CalculatedUnique(Calculate(row), row);
    }
  }

  /** Running the waterfall twice gives the same row as running it once. */
  lemma CalculateIdempotent(row: Row)
    ensures Calculate(Calculate(row)) == Calculate(row)
  {
    CalculateFixpoint(Calculate(row));
  }

  /** The waterfall's result depends on the inputs only: stale derived
      values are overwritten, never read. */
  lemma CalculateReadsOnlyInputs(a: Row, b: Row)
    requires SameInputs(a, b)
    ensures Calculate(a) == Calculate(b)
  {
    CalculatedUnique(Calculate(a), Calculate(b));
  }

  /** A member's net position (savings less loan and advance owed) moves by
      the cash paid in less fines and interest: principal repayments shift
      money from savings to debt reduction and change nothing else. */
  lemma NetPositionChange(row: Row)
    requires IsCalculated(row)
    ensures (row.savingsCF - row.loanCF - row.advanceCF) - (row.savingsBF - row.loanBF - row.advanceBF)
            == row.cashToday - row.fines - row.loanInterest - row.advanceInterest
  {
  }

  /** `calculate_waterfall(idx)`: the waterfall on row `idx` of the ledger;
      every other row, and the inputs of row `idx`, are left as they are. */
  function CalculateAt(ledger: Ledger, idx: nat): (r: Ledger)
    requires idx < |ledger|
    ensures |r| == |ledger| && Names(r) == Names(ledger)
    ensures SameInputs(r[idx], ledger[idx]) && IsCalculated(r[idx])
    ensures forall j :: 0 <= j < |ledger| && j != idx ==> r[j] == ledger[j]
  {
    ledger[idx := Calculate(ledger[idx])]
  }

  /** Pressing "Save & Calculate" twice on one member changes nothing the
      second time. */
  lemma CalculateAtIdempotent(ledger: Ledger, idx: nat)
    requires idx < |ledger|
    ensures CalculateAt(CalculateAt(ledger, idx), idx) == CalculateAt(ledger, idx)
  {
    CalculateIdempotent(ledger[idx]);
  }

  /** Calculating different members commutes. */
  lemma CalculateAtCommutes(ledger: Ledger, i: nat, j: nat)
    requires i < |ledger| && j < |ledger|
    ensures CalculateAt(CalculateAt(ledger, i), j) == CalculateAt(CalculateAt(ledger, j), i)
  {
  }

  /** Example: 1.5% of a loan balance of 200 is 3. */
  lemma ExampleInterest()
    ensures LoanInterest(200) == 3 && AdvanceInterest(0) == 0
  {
  }

  /** Example: savings BF 500, loan BF 200, cash 1000, fines 50 and loan
      principal 100 give loan interest 3, savings today 847 (deductions
      153), savings CF 1347 and loan CF 100. */
  lemma ExampleLoanRepayment()
    ensures Calculate(Row("A", 1000, 50, 500, 0, 0, 200, 100, 0, 0, 0, 0, 0, 0))
         == Row("A", 1000, 50, 500, 847, 1347, 200, 100, 3, 100, 0, 0, 0, 0)
  {
    ExampleInterest();
  }

  /** Example: a negative balance typed in by hand earns interest rounded
      toward zero (-15 gives -1, not the -2 of rounding down). */
  lemma ExampleNegativeBalance()
    ensures AdvanceInterest(-15) == -1 && LoanInterest(-100) == -1
  {
  }
}
