/** The audit session of the top-level script (main.py:22-49, 147-241) as a
    state machine. `setup_complete = false` is the landing page; on the
    audit page `show_navigation` separates editing from the saved state
    that offers "Proceed" and "Exit". `history` maps the key
    `group_year_month` to a copy of each finalized ledger. */
module Session {
  import opened Options
  import opened Calendar
  import opened HistoryKeys
  import opened Members
  import opened Ledger
  import opened Waterfall

  datatype Phase = Landing | Editing | Saved

  datatype State = State(
    phase: Phase,
    group: string,
    month: string,
    year: int,
    ledger: Ledger,
    history: map<string, Ledger>)

  /** The session defaults of a first visit (main.py:24-49). */
  const Initial: State := State(Landing, "", "", 2025, [], map[])

  /** The key of the period before `month` of `year`, where Start looks
      for a ledger to carry forward: the key of the valid period one month
      ordinal earlier. */
  function PreviousKey(group: string, month: string, year: int): (r: string)
    requires IsMonth(month)
    ensures forall m, y :: IsMonth(m) && Ordinal(m, y) + 1 == Ordinal(month, year) ==>
              r == HistoryKey(group, y, m)
  {
    PreviousIsThePredecessor(month, year);
    var p := PreviousPeriod(month, year).value;
    HistoryKey(group, p.year, p.month)
  }

  datatype StartError = MissingGroupName | MissingMemberNames

  /** The result of submitting the landing form: the audit page opens, with
      `carried` telling a carried-forward ledger from a fresh one, or the
      form stays up with an error. */
  datatype StartOutcome = Started(state: State, carried: bool) | Refused(error: StartError, state: State)

  /** "Start Audit" (main.py:168-199), with the member check on the parsed
      list. A blank group name changes nothing. Otherwise group, month and
      year are recorded first; the previous month's finalized ledger is
      carried forward when there is one, else the typed member list starts
      a fresh ledger, and a list naming nobody is refused. */
  function Start(s: State, groupName: string, memberText: string, month: string, year: int): (o: StartOutcome)
    requires s.phase == Landing && IsMonth(month)
    ensures o.state.history == s.history
    ensures groupName == [] ==> o == Refused(MissingGroupName, s)
    ensures groupName != [] ==>
              o.state.group == groupName && o.state.month == month && o.state.year == year
    ensures o.Started? <==>
              groupName != [] && (PreviousKey(groupName, month, year) in s.history || ParseMembers(memberText) != [])
    ensures o.Started? ==> o.state.phase == Editing && (o.carried <==> PreviousKey(groupName, month, year) in s.history)
    ensures o.Started? && o.carried ==>
              o.state.ledger == CarryForward(s.history[PreviousKey(groupName, month, year)])
    ensures o.Started? && !o.carried ==> o.state.ledger == InitLedger(ParseMembers(memberText))
    ensures o.Refused? ==> o.state.phase == Landing && o.state.ledger == s.ledger
  {
    if groupName == [] then Refused(MissingGroupName, s)
    else
      var s' := s.(group := groupName, month := month, year := year);
      var key := PreviousKey(groupName, month, year);
      if key in s.history then
        Started(s'.(phase := Editing, ledger := CarryForward(s.history[key])), true)
      else
        var members := ParseMembers(memberText);
        if members != [] then Started(s'.(phase := Editing, ledger := InitLedger(members)), false)
        else Refused(MissingMemberNames, s')
  }

  /** "Finalize & Save Month" (main.py:236-241): a copy of the ledger is
      stored under the session's key, replacing any earlier one, and the
      navigation offer appears. */
  function Finalize(s: State): (r: State)
    requires s.phase == Editing
    ensures r.phase == Saved
    ensures r.ledger == s.ledger && r.group == s.group && r.month == s.month && r.year == s.year
    ensures r.history.Keys == s.history.Keys + {HistoryKey(s.group, s.year, s.month)}
    ensures r.history[HistoryKey(s.group, s.year, s.month)] == s.ledger
    ensures forall k :: k in s.history && k != HistoryKey(s.group, s.year, s.month) ==>
              r.history[k] == s.history[k]
  {
    s.(phase := Saved, history := s.history[HistoryKey(s.group, s.year, s.month) := s.ledger])
  }

  /** "Proceed to next month" (main.py:212-222): the ledger is carried
      forward and the period steps one month on. */
  function Proceed(s: State): (r: State)
    requires s.phase == Saved && IsMonth(s.month)
    ensures r.phase == Editing && IsMonth(r.month)
    ensures Ordinal(r.month, r.year) == Ordinal(s.month, s.year) + 1
    ensures r.ledger == CarryForward(s.ledger)
    ensures r.group == s.group && r.history == s.history
  {
    var next := NextPeriod(s.month, s.year).value;
    NextIsOneMonthLater(s.month, s.year);
    s.(phase := Editing, month := next.month, year := next.year, ledger := CarryForward(s.ledger))
  }

  /** "Exit Group" (main.py:224-229): back to the landing page; history is
      kept. */
  function Exit(s: State): (r: State)
    requires s.phase == Saved
    ensures r.phase == Landing
    ensures r.history == s.history && r.ledger == s.ledger && r.group == s.group
  {
    s.(phase := Landing)
  }

  /** An input edit on the member card (main.py:139-143, 281-301); the card
      is shown both while editing and after saving. */
  function Edit(s: State, idx: nat, col: Input, value: int): (r: State)
    requires s.phase != Landing && idx < |s.ledger|
    ensures r.phase == s.phase && r.history == s.history && r.group == s.group
    ensures r.month == s.month && r.year == s.year
    ensures r.ledger == UpdateField(s.ledger, idx, col, value)
  {
    s.(ledger := UpdateField(s.ledger, idx, col, value))
  }

  /** "Save & Calculate" on the member card (main.py:304-306). */
  function Recalculate(s: State, idx: nat): (r: State)
    requires s.phase != Landing && idx < |s.ledger|
    ensures r.phase == s.phase && r.history == s.history && r.group == s.group
    ensures r.month == s.month && r.year == s.year
    ensures r.ledger == CalculateAt(s.ledger, idx)
  {
    s.(ledger := CalculateAt(s.ledger, idx))
  }

  datatype Event =
    | StartAudit(groupName: string, memberText: string, month: string, year: int)
    | EditInput(idx: nat, col: Input, value: int)
    | SaveAndCalculate(idx: nat)
    | FinalizeMonth
    | ProceedToNext
    | ExitGroup

  /** The events the page offers in a state: the landing form only on the
      landing page (its month chosen from the list), the member card on the
      audit page for an existing member, "Finalize" until saved, "Proceed"
      and "Exit" once saved. */
  function Enabled(s: State, e: Event): (b: bool)
    ensures s.phase == Landing && b ==> e.StartAudit?
    ensures s.phase != Landing ==> !(b && e.StartAudit?)
    ensures s.phase == Editing ==> (e.FinalizeMonth? ==> b) && !(b && (e.ProceedToNext? || e.ExitGroup?))
    ensures s.phase == Saved ==> (e.ExitGroup? ==> b) && !(b && e.FinalizeMonth?)
  {
    match e
    case StartAudit(_, _, month, _) => s.phase == Landing && IsMonth(month)
    case EditInput(idx, _, _) => s.phase != Landing && idx < |s.ledger|
    case SaveAndCalculate(idx) => s.phase != Landing && idx < |s.ledger|
    case FinalizeMonth => s.phase == Editing
    case ProceedToNext => s.phase == Saved && IsMonth(s.month)
    case ExitGroup => s.phase == Saved
  }

  function Step(s: State, e: Event): State
    requires Enabled(s, e)
  {
    match e
    case StartAudit(g, text, month, year) => Start(s, g, text, month, year).state
    case EditInput(idx, col, value) => Edit(s, idx, col, value)
    case SaveAndCalculate(idx) => Recalculate(s, idx)
    case FinalizeMonth => Finalize(s)
    case ProceedToNext => Proceed(s)
    case ExitGroup => Exit(s)
  }

  /** Every row names a member, and there is at least one row. */
  predicate WellFormedLedger(ledger: Ledger) {
    |ledger| > 0 && forall i :: 0 <= i < |ledger| ==> IsMemberName(ledger[i].name)
  }

  /** What the audit page relies on: a group, a valid month and at least
      one member row to show (main.py:263 reads row `idx`), and only such
      ledgers in history. The machine keeps it with the corrected Start;
      `StartAsWritten` breaks it (see `StartAsWrittenOpensEmptyLedger`). */
  predicate Inv(s: State) {
    && (s.phase != Landing ==> s.group != [] && IsMonth(s.month) && WellFormedLedger(s.ledger))
    && forall k :: k in s.history ==> WellFormedLedger(s.history[k])
  }

  lemma CarryForwardWellFormed(ledger: Ledger)
    requires WellFormedLedger(ledger)
    ensures WellFormedLedger(CarryForward(ledger))
  {
    var r := CarryForward(ledger);
    assert forall i :: 0 <= i < |r| ==> r[i].name == Names(r)[i] == Names(ledger)[i];
  }

  lemma InitWellFormed(members: seq<string>)
    requires members != [] && forall k :: 0 <= k < |members| ==> IsMemberName(members[k])
    ensures WellFormedLedger(InitLedger(members))
  {
    var r := InitLedger(members);
    assert forall i :: 0 <= i < |r| ==> r[i].name == Names(r)[i];
  }

  /** Every enabled event keeps the invariant, with `Step` using the
      corrected Start (the member check on the parsed list). */
  lemma StepPreservesInv(s: State, e: Event)
    requires Inv(s) && Enabled(s, e)
    ensures Inv(Step(s, e))
  {
    match e
    case StartAudit(g, text, month, year) =>
      var o := Start(s, g, text, month, year);
      if o.Started? {
        if o.carried {
          CarryForwardWellFormed(s.history[PreviousKey(g, month, year)]);
        } else {
          InitWellFormed(ParseMembers(text));
        }
      }
    case EditInput(idx, col, value) =>
      var r := Edit(s, idx, col, value);
      assert forall i :: 0 <= i < |r.ledger| ==> r.ledger[i].name == Names(r.ledger)[i] == Names(s.ledger)[i];
    case SaveAndCalculate(idx) =>
      var r := Recalculate(s, idx);
      assert forall i :: 0 <= i < |r.ledger| ==> r.ledger[i].name == Names(r.ledger)[i] == Names(s.ledger)[i];
    case FinalizeMonth =>
    case ProceedToNext =>
      CarryForwardWellFormed(s.ledger);
    case ExitGroup =>
  }

  /** Runs a sequence of events from `s`; `None` if one of them is not
      offered when its turn comes. */
  function Run(s: State, events: seq<Event>): Option<State>
    decreases |events|
  {
    if |events| == 0 then Some(s)
    else if Enabled(s, events[0]) then Run(Step(s, events[0]), events[1..])
    else None
  }

  /** Every state a session of the corrected machine can reach keeps the
      invariant. */
  lemma {:induction false} RunPreservesInv(s: State, events: seq<Event>)
    requires Inv(s)
    ensures Run(s, events).Some? ==> Inv(Run(s, events).value)
    decreases |events|
  {
    if |events| > 0 && Enabled(s, events[0]) {
      StepPreservesInv(s, events[0]);
      RunPreservesInv(Step(s, events[0]), events[1..]);
    }
  }

  /** Every state reachable from the first-visit defaults satisfies the
      invariant, with the corrected Start. */
  lemma ReachableStatesKeepInv(events: seq<Event>)
    ensures Run(Initial, events).Some? ==> Inv(Run(Initial, events).value)
  {
    RunPreservesInv(Initial, events);
  }

  /** Finalizing one period never touches what history holds for another
      group or period. */
  lemma FinalizeKeepsOtherPeriods(s: State, group: string, year: int, month: string)
    requires s.phase == Editing && IsMonth(s.month) && IsMonth(month)
    requires (group, year, month) != (s.group, s.year, s.month)
    ensures var k := HistoryKey(group, year, month);
      (k in Finalize(s).history <==> k in s.history)
      && (k in s.history ==> Finalize(s).history[k] == s.history[k])
  {
    if HistoryKey(group, year, month) == HistoryKey(s.group, s.year, s.month) {
      HistoryKeyInjective(group, year, month, s.group, s.year, s.month);
    }
  }

  /** Proceeding after a save gives the same ledger and period as exiting
      and starting the same group at the next month, which finds the saved
      ledger under the previous month's key. */
  lemma ProceedMatchesReopen(s: State, memberText: string)
    requires s.phase == Editing && s.group != [] && IsMonth(s.month)
    ensures var saved := Finalize(s);
      var next := NextPeriod(s.month, s.year).value;
      var o := Start(Exit(saved), s.group, memberText, next.month, next.year);
      && o.Started? && o.carried
      && o.state.ledger == Proceed(saved).ledger
      && o.state.month == Proceed(saved).month && o.state.year == Proceed(saved).year
  {
    PreviousOfNext(s.month, s.year);
  }

  /** "Start Audit" as written: the member check tests the raw text
      (`if m_names:`), so text of commas and blanks passes it and opens the
      audit page on a ledger with no rows. */
  function StartAsWritten(s: State, groupName: string, memberText: string, month: string, year: int): (o: StartOutcome)
    requires s.phase == Landing && IsMonth(month)
    ensures o.Started? <==>
              groupName != [] && (PreviousKey(groupName, month, year) in s.history || memberText != [])
    ensures o.Started? && !o.carried ==> o.state.ledger == InitLedger(ParseMembers(memberText))
  {
    if groupName == [] then Refused(MissingGroupName, s)
    else
      var s' := s.(group := groupName, month := month, year := year);
      var key := PreviousKey(groupName, month, year);
      if key in s.history then
        Started(s'.(phase := Editing, ledger := CarryForward(s.history[key])), true)
      else if memberText != [] then
        Started(s'.(phase := Editing, ledger := InitLedger(ParseMembers(memberText))), false)
      else Refused(MissingMemberNames, s')
  }

  /** The written check and the corrected one disagree exactly on a
      non-empty member text of nothing but commas and white space. */
  lemma StartAsWrittenDiffers(s: State, groupName: string, memberText: string, month: string, year: int)
    requires s.phase == Landing && IsMonth(month)
    ensures StartAsWritten(s, groupName, memberText, month, year) != Start(s, groupName, memberText, month, year)
        <==> && groupName != []
             && PreviousKey(groupName, month, year) !in s.history
             && memberText != []
             && AllBlank(memberText)
  {
    ParseEmptyIffBlank(memberText);
    if memberText == [] {
      assert ParseMembers(memberText) == [];
    }
  }

  /** On a first visit, the group "Sunrise" with member text " , \n," for
      January 2025 opens the audit page on an empty ledger, breaking what
      the page relies on; the corrected Start refuses it. */
  lemma StartAsWrittenOpensEmptyLedger()
    ensures var o := StartAsWritten(Initial, "Sunrise", " , \n,", "January", 2025);
      o.Started? && o.state.ledger == [] && !Inv(o.state)
    ensures Start(Initial, "Sunrise", " , \n,", "January", 2025) == Refused(MissingMemberNames,
              Initial.(group := "Sunrise", month := "January", year := 2025))
  {
    BlankListExample();
    assert "January" == Months[0];
  }
}
