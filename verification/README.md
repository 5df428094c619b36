# Group audit ledger — a Dafny model

This project models the ledger logic of the Groups Audit Tool, a single-page
Streamlit app (`main.py`). A coordinator of a savings-and-credit group (a chama)
uses it to audit one month at a time. It keeps one row per member: cash paid
in, fines, and the savings, loan and advance balances. Each row has its
brought-forward (BF) opening balance, today's movement and its
carried-forward (CF) closing balance. The model keeps the app's pandas and
Streamlit wrapping out and covers four parts:

- **Calendar** (`calendar.dfy`, with `seqs.dfy` and `options.dfy`):
  `get_previous_period` and `get_next_period` over the twelve English month
  names. An unknown name gives `None`.
- **Ledger rows** (`ledger.dfy`): a row is a member name plus 13 integer
  columns. A ledger is a `seq` of rows. The file covers `init_dataframe`,
  `create_carry_forward_df` and the single-cell edit `update_val`.
- **Waterfall** (`waterfall.dfy`): `calculate_waterfall` computes 10% advance
  interest and 1.5% loan interest, both truncated toward zero. It then
  computes the deductions, today's savings and the three closing balances.
- **Session** (`session.dfy`, with `members.dfy`, `text.dfy`, `keys.dfy`): the
  top-level script as a state machine with three phases:
  - Landing: `setup_complete` is false.
  - Editing.
  - Saved: `show_navigation` is true.

  Its transitions are Start, Edit, Save & Calculate, Finalize, Proceed and
  Exit. `history` is a `map` from the string key `f"{group}_{year}_{month}"`
  to a copy of a finalized ledger. The member names typed into the landing
  form are parsed exactly as `main.py:190` does it: `replace`, `split`,
  `strip` and filter, with Python's white-space set.

Behaviour of the code worth knowing:

- Carry-forward matches rows **by position**. The new ledger is built from
  the old ledger's own member list, so the roster never changes between
  periods and position and member coincide.
- Loan CF is `Loan BF − Loan Principal`, and Advance CF is
  `Advance BF − Advance Principal`. Neither has any other term.
- Interest is always truncation toward zero (`int()` of the product).
- The BF columns can be edited on the member card (`main.py:281-289`). They
  are not written only by carry-forward.

Consequences of the code that the lemmas make explicit:

- Finalize stores the ledger without running the waterfall. A row that was
  never calculated therefore carries forward zero balances
  (`Ledger.CarryForwardTwice`).
- Edits made after saving change the working ledger, not the saved copy.
  Proceed carries the working ledger forward.
- A BF value typed in as negative earns negative interest, rounded toward
  zero.

## Model

| member | source | states |
|---|---|---|
| Seqs.IndexOf | main.py:59 | `months_list.index`: the first position holding the name; none exactly when the name is absent |
| Calendar.PreviousPeriod | main.py:56-64 | a period exists exactly for a valid month name, and the month it gives is valid |
| Calendar.NextPeriod | main.py:66-74 | a period exists exactly for a valid month name, and the month it gives is valid |
| Calendar.PreviousPeriodCases | main.py:56-64 | January of y goes to December of y−1; month i>0 goes to month i−1 of the same year; an unknown name gives none |
| Calendar.NextPeriodCases | main.py:66-74 | December of y goes to January of y+1; month i<11 goes to month i+1 of the same year; an unknown name gives none |
| Calendar.NextIsOneMonthLater | main.py:66-74 | the next period's month ordinal (12·year + index) is one more |
| Calendar.PreviousIsOneMonthEarlier | main.py:56-64 | the previous period's month ordinal is one less |
| Calendar.OrdinalInjective | main.py:53-54 | two valid periods with the same ordinal are equal (the month names are distinct) |
| Calendar.PreviousOfNext | main.py:56-74 | stepping forward then back returns the starting period |
| Calendar.NextOfPrevious | main.py:56-74 | stepping back then forward returns the starting period |
| Calendar.PreviousIsThePredecessor | main.py:56-64 | the previous period is the only valid period one month ordinal earlier |
| Text.Strip | main.py:190 | `str.strip()`: the result has no white space at either end and is no longer than the text |
| Text.StripEmpty | main.py:190 | the stripped text is empty exactly when the text is all white space |
| Text.StripPadded | main.py:190 | stripping white space around a stripped, non-empty core gives back exactly that core |
| Text.Split | main.py:190 | `str.split(',')`: at least one piece, and no piece holds the separator |
| Text.SplitConcat | main.py:190 | splitting `a + ',' + b` gives the pieces of `a` followed by the pieces of `b` |
| Text.SplitJoin | main.py:190 | splitting a join of separator-free pieces gives those pieces back |
| Text.JoinSplit | main.py:190 | joining the pieces of a split gives the original text back |
| Text.ReplaceChar | main.py:190 | `m_names.replace('\n', ',')`: same length; each newline becomes a comma and every other character is kept |
| Members.ParseMembers | main.py:190 | every parsed entry is non-empty, stripped and holds no comma or newline |
| Members.Clean | main.py:190 | `[x.strip() for x in pieces if x.strip()]`: no more entries than pieces, each non-empty and stripped |
| Members.ParseConcat | main.py:190 | a comma splits the member list into the lists of its two sides, in order |
| Members.NewlineActsAsComma | main.py:190 | a newline separates names exactly as a comma does |
| Members.ParseJoined | main.py:190 | comma-joined entries parse to the stripped entries, one each, in typed order |
| Members.ParseEmptyIffBlank | main.py:190 | the parse names nobody exactly when the text holds only commas and white space |
| Members.PlaceholderExample | main.py:154 | "Alice, Bob, Charlie" parses to the three names |
| HistoryKeys.IntToStringInjective | main.py:238 | the decimal text of the year determines the year |
| HistoryKeys.HistoryKeyInjective | main.py:238 | for valid months, equal history keys mean equal group, year and month |
| HistoryKeys.IntToString | main.py:238 | `str(year)` in the f-string: at least one character, a leading `-` exactly for a negative year, digits elsewhere, never an underscore |
| HistoryKeys.HistoryKey | main.py:238 | `f"{group}_{year}_{month}"`: the key begins with the group and an underscore and ends with an underscore and the month, around the year's digits |
| Ledger.InitLedger | main.py:76-89 | one row per member in the given order, and every numeric column is 0 |
| Ledger.CarryForward | main.py:91-101 | same members in the same order; row i's Savings/Loan/Advance BF are the old row i's CF; every other numeric column is 0 |
| Ledger.CarryForwardTwice | main.py:91-101 | carrying forward twice without a waterfall gives the all-zero ledger of the same members |
| Ledger.UpdateField | main.py:139-143 | the edited column of row idx takes the value; its other inputs, its derived columns and all other rows are unchanged |
| Ledger.UpdateSameValue | main.py:139-143 | re-entering a cell's current value leaves the ledger unchanged |
| Ledger.UpdateOverwrites | main.py:139-143 | of two edits to the same cell, only the last one remains |
| Waterfall.TruncDiv | main.py:116 | the quotient rounds toward zero, not down: the remainder takes the dividend's sign and is smaller than the divisor |
| Waterfall.TruncQuotientUnique | main.py:115-121 | exactly one quotient rounds toward zero |
| Waterfall.AdvanceInterest | main.py:115-117 | advance interest is Advance BF × 10 / 100 truncated toward zero |
| Waterfall.LoanInterest | main.py:119-121 | loan interest is Loan BF × 15 / 1000 truncated toward zero |
| Waterfall.InterestBounds | main.py:115-121 | interest has the sign of its balance and never exceeds 10% (advance) or 1.5% (loan) of it |
| Waterfall.Calculate | main.py:103-136 | inputs and name unchanged; Savings CF − Savings BF = Savings Today = Cash Today − (fines + loan principal + loan interest + advance principal + advance interest); Loan CF = Loan BF − Loan Principal; Advance CF = Advance BF − Advance Principal |
| Waterfall.CalculatedUnique | main.py:103-136 | a row's inputs leave only one consistent choice of the six derived columns |
| Waterfall.CalculateFixpoint | main.py:103-136 | the waterfall leaves a row unchanged exactly when the row is already consistent |
| Waterfall.CalculateIdempotent | main.py:103-136 | running the waterfall twice gives the same row as running it once |
| Waterfall.CalculateReadsOnlyInputs | main.py:107-113 | the result depends only on the inputs, never on stale derived values |
| Waterfall.NetPositionChange | main.py:123-135 | savings less debts changes by cash minus fines and interest; principal repayments are neutral |
| Waterfall.CalculateAt | main.py:103-137 | only row idx changes, its inputs stay, and its derived columns become consistent |
| Waterfall.CalculateAtIdempotent | main.py:304-305 | pressing Save & Calculate twice on a member changes nothing the second time |
| Waterfall.CalculateAtCommutes | main.py:103-137 | calculating two members in either order gives the same ledger |
| Waterfall.ExampleLoanRepayment | main.py:115-135 | BF 500, Loan BF 200, cash 1000, fines 50, loan principal 100 give interest 3, Savings Today 847, Savings CF 1347, Loan CF 100 |
| Waterfall.ExampleNegativeBalance | main.py:116 | Advance BF −15 gives interest −1 (rounding toward zero, not −2) |
| Session.Start | main.py:168-199 | a blank group changes nothing; otherwise group/month/year are set; it opens exactly when the previous month's key is in history (carry forward) or the parsed list is non-empty (fresh ledger); history is untouched |
| Session.PreviousKey | main.py:175-176 | the key Start looks up is the key of the valid period exactly one month ordinal earlier |
| Session.Finalize | main.py:236-241 | a copy of the ledger is stored under `group_year_month`, replacing any earlier one; other keys are kept; the phase becomes Saved |
| Session.Proceed | main.py:212-222 | the ledger is carried forward, the period advances by exactly one month, and history is untouched |
| Session.Exit | main.py:224-229 | the session returns to Landing and keeps its history |
| Session.Edit | main.py:291-301 | an input edit changes only the ledger cell, in either audit phase |
| Session.Recalculate | main.py:304-306 | Save & Calculate recomputes one row and touches nothing else |
| Session.Enabled | main.py:147-237 | the landing page offers only the form; on the audit page Finalize is offered while editing and Proceed/Exit are not; after a save Exit is offered and Finalize is not |
| Session.StepPreservesInv | main.py:147-241 | with the corrected Start of ## Findings, every offered event keeps the invariant: on the audit page there is a group, a valid month and at least one well-named row, and every stored ledger also has at least one well-named row |
| Session.RunPreservesInv | main.py:147-241 | with the corrected Start of ## Findings, every sequence of offered events keeps the invariant |
| Session.ReachableStatesKeepInv | main.py:24-49 | with the corrected Start of ## Findings, every state reachable from the first-visit defaults satisfies the invariant (the code as written does not: see Session.StartAsWrittenOpensEmptyLedger) |
| Session.FinalizeKeepsOtherPeriods | main.py:236-241 | finalizing one group and period leaves every other group's or period's entry unchanged |
| Session.ProceedMatchesReopen | main.py:174-222 | after a save, Proceed gives the same ledger and period as Exit followed by Start of the same group at the next month |
| Session.StartAsWritten | main.py:187-197 | the written check: Start opens exactly when there is carry-forward history or the raw member text is non-empty |
| Session.StartAsWrittenDiffers | main.py:187-197 | the written check and the corrected check disagree exactly when the member text is non-empty but holds only commas and white space |
| Session.StartAsWrittenOpensEmptyLedger | main.py:187-197 | the written check opens "Sunrise" with text " , \n," on an empty ledger that breaks the invariant; the corrected Start refuses it |

## Findings

| source | as written | input that shows it | evidently intended | confidence | as-written member | corrected member |
|---|---|---|---|---|---|---|
| main.py:189-191 | `if m_names:` tests the raw text, not the parsed list, so a list naming nobody still starts the audit on a ledger with no rows. The audit page then reads row 0 at `main.py:263`, which does not exist | group "Sunrise", member text `" , \n,"`, no earlier history | refuse with "Please provide Member Names", as for empty text | not executed; high | Session.StartAsWritten (shown by Session.StartAsWrittenOpensEmptyLedger) | Session.Start (invariant proved by Session.ReachableStatesKeepInv) |

## Left out

- Streamlit rendering is not modelled because it is UI only. This covers CSS, headers, info and success messages (`info_msg`), the carousel buttons, row highlighting and the TOTALS display row (`main.py:1-20`, `243-350`).
- `current_member_index` and its reset (`main.py:255-261`): Edit and Save & Calculate take the row index as a parameter and require it to be within the ledger, which the page's reset guarantees for a non-empty ledger.
- Streamlit reruns and `session_state` persistence are not modelled. Each transition is one function from state to state.
- pandas column dtypes and the `int()` casts are left out: every cell is an unbounded integer.
- Waterfall.AdvanceInterest: `int(x * 0.10)` is modelled as exact truncation toward zero of x·10/100, not as double-precision arithmetic. They agree unless the float product rounds across an integer.
- Waterfall.LoanInterest: `int(x * 0.015)` is modelled as exact truncation toward zero of x·15/1000, for the same reason.
- Session.Start: it requires a month name from the list. The source's select box guarantees this, so the `f"{g}_None_None"` key that an unknown month would produce is never looked up. The year widget's 2020–2030 bounds are not required, because no logic depends on them.
- Session.Proceed: it requires a valid session month, which `Session.Inv` guarantees on every reachable saved state.
- The SQLite scripts `test_db.py` and `repro_db.py` are not part of this model. They hold schema creation and queries with no ledger logic.
