/** Month stepping over the fixed list of English month names
    (main.py:53-74). A period is a month name and a year; an unknown month
    name gives no period, where Python returns `(None, None)`. */
module Calendar {
  import opened Options
  import opened Seqs

  const Months: seq<string> := [
    "January", "February", "March", "April", "May", "June",
    "July", "August", "September", "October", "November", "December"]

  predicate IsMonth(m: string) {
    m in Months
  }

  datatype Period = Period(month: string, year: int)

  /** The months since January of year 0: consecutive periods have
      consecutive ordinals. */
  function Ordinal(month: string, year: int): (n: int)
    requires IsMonth(month)
    ensures 12 * year <= n < 12 * year + 12
  {
    12 * year + IndexOf(Months, month).value
  }

  /** The month a valid name stands for, as a position in `Months`. */
  lemma MonthPosition(i: nat)
    requires i < 12
    ensures IndexOf(Months, Months[i]) == Some(i)
  {
    forall j | 0 <= j < i
      ensures Months[j] != Months[i]
    {
      MonthsDistinct(j, i);
    }
  }

  /** Different positions of `Months` hold different names: the names
      differ in length, first letter or third letter. */
  lemma MonthsDistinct(j: nat, i: nat)
    requires j < i < 12
    ensures Months[j] != Months[i]
  {
    var a := Months[j];
    var b := Months[i];
    assert |a| != |b| || a[0] != b[0] || a[2] != b[2];
  }

  /** `get_previous_period`: January steps back to December of the year
      before, any other month to the month before it. */
  function PreviousPeriod(month: string, year: int): (r: Option<Period>)
    ensures r.Some? <==> IsMonth(month)
    ensures r.Some? ==> IsMonth(r.value.month)
  {
    match IndexOf(Months, month)
    case None => None
    case Some(i) =>
      if i == 0 then Some(Period("December", year - 1))
      else Some(Period(Months[i - 1], year))
  }

  /** `get_next_period`: December steps on to January of the next year,
      any other month to the month after it. */
  function NextPeriod(month: string, year: int): (r: Option<Period>)
    ensures r.Some? <==> IsMonth(month)
    ensures r.Some? ==> IsMonth(r.value.month)
  {
    match IndexOf(Months, month)
    case None => None
    case Some(i) =>
      if i == 11 then Some(Period("January", year + 1))
      else Some(Period(Months[i + 1], year))
  }

  /** Stepping forward moves exactly one month on. */
  lemma NextIsOneMonthLater(month: string, year: int)
    requires IsMonth(month)
    ensures var p := NextPeriod(month, year).value;
      Ordinal(p.month, p.year) == Ordinal(month, year) + 1
  {
    var i := IndexOf(Months, month).value;
    if i < 11 {
      MonthPosition(i + 1);
    } else {
      MonthPosition(0);
    }
  }

  /** Stepping back moves exactly one month back. */
  lemma PreviousIsOneMonthEarlier(month: string, year: int)
    requires IsMonth(month)
    ensures var p := PreviousPeriod(month, year).value;
      Ordinal(p.month, p.year) == Ordinal(month, year) - 1
  {
    var i := IndexOf(Months, month).value;
    if i > 0 {
      MonthPosition(i - 1);
    } else {
      MonthPosition(11);
    }
  }

  /** The previous period is the one valid period a month ordinal
      earlier. */
  lemma PreviousIsThePredecessor(month: string, year: int)
    requires IsMonth(month)
    ensures forall m, y :: IsMonth(m) && Ordinal(m, y) + 1 == Ordinal(month, year) ==>
              PreviousPeriod(month, year) == Some(Period(m, y))
  {
    var p := PreviousPeriod(month, year).value;
    PreviousIsOneMonthEarlier(month, year);
    forall m, y | IsMonth(m) && Ordinal(m, y) + 1 == Ordinal(month, year)
      ensures p == Period(m, y)
    {
      OrdinalInjective(p.month, p.year, m, y);
    }
  }

  /** Two valid periods with the same ordinal are the same period. */
  lemma OrdinalInjective(m1: string, y1: int, m2: string, y2: int)
    requires IsMonth(m1) && IsMonth(m2)
    requires Ordinal(m1, y1) == Ordinal(m2, y2)
    ensures m1 == m2 && y1 == y2
  {
    var i1 := IndexOf(Months, m1).value;
    var i2 := IndexOf(Months, m2).value;
    assert y1 == y2;
  }

  /** December of year y steps on to January of y + 1; every other valid
      month steps on to the next name of `Months` in the same year. */
  lemma NextPeriodCases(month: string, year: int)
    ensures month == "December" ==> NextPeriod(month, year) == Some(Period("January", year + 1))
    ensures forall i :: 0 <= i < 11 && month == Months[i] ==>
              NextPeriod(month, year) == Some(Period(Months[i + 1], year))
    ensures !IsMonth(month) ==> NextPeriod(month, year) == None
  {
    if month == "December" {
      MonthPosition(11);
    }
    forall i | 0 <= i < 11 && month == Months[i]
      ensures NextPeriod(month, year) == Some(Period(Months[i + 1], year))
    {
      MonthPosition(i);
    }
  }

  /** January of year y steps back to December of y - 1; every other valid
      month steps back to the previous name of `Months` in the same year. */
  lemma PreviousPeriodCases(month: string, year: int)
    ensures month == "January" ==> PreviousPeriod(month, year) == Some(Period("December", year - 1))
    ensures forall i :: 0 < i < 12 && month == Months[i] ==>
              PreviousPeriod(month, year) == Some(Period(Months[i - 1], year))
    ensures !IsMonth(month) ==> PreviousPeriod(month, year) == None
  {
    if month == "January" {
      MonthPosition(0);
    }
    forall i | 0 < i < 12 && month == Months[i]
      ensures PreviousPeriod(month, year) == Some(Period(Months[i - 1], year))
    {
      MonthPosition(i);
    }
  }

  /** Stepping forward and then back returns to the starting period. */
  lemma PreviousOfNext(month: string, year: int)
    requires IsMonth(month)
    ensures var p := NextPeriod(month, year).value;
      PreviousPeriod(p.month, p.year) == Some(Period(month, year))
  {
    var p := NextPeriod(month, year).value;
    var q := PreviousPeriod(p.month, p.year).value;
    NextIsOneMonthLater(month, year);
    PreviousIsOneMonthEarlier(p.month, p.year);
    OrdinalInjective(q.month, q.year, month, year);
  }

  /** Stepping back and then forward returns to the starting period. */
  lemma NextOfPrevious(month: string, year: int)
    requires IsMonth(month)
    ensures var p := PreviousPeriod(month, year).value;
      NextPeriod(p.month, p.year) == Some(Period(month, year))
  {
    var p := PreviousPeriod(month, year).value;
    var q := NextPeriod(p.month, p.year).value;
    PreviousIsOneMonthEarlier(month, year);
    NextIsOneMonthLater(p.month, p.year);
    OrdinalInjective(q.month, q.year, month, year);
  }
}
