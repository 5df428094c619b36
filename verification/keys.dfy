/** The `history` key `f"{group}_{year}_{month}"` (main.py:176, 238) and
    the proof that it names one group and period only. */
module HistoryKeys {
  import opened Calendar
  import Seqs

  function DigitChar(d: nat): (c: char)
    requires d < 10
    ensures '0' <= c <= '9'
  {
    ('0' as int + d) as char
  }

  /** Python's `str(n)` for a natural number: decimal digits without
      leading zeros. */
  function NatToString(n: nat): (r: string)
    ensures |r| >= 1
    ensures forall i :: 0 <= i < |r| ==> '0' <= r[i] <= '9'
    ensures n >= 10 <==> |r| >= 2
  {
    if n < 10 then [DigitChar(n)] else NatToString(n / 10) + [DigitChar(n % 10)]
  }

  /** Python's `str(n)` for an integer: a minus sign before the digits of a
      negative number. */
  function IntToString(n: int): (r: string)
    ensures |r| >= 1 && (r[0] == '-' <==> n < 0)
    ensures forall i :: 0 <= i < |r| && (i > 0 || n >= 0) ==> '0' <= r[i] <= '9'
    ensures '_' !in r
  {
    if n < 0 then "-" + NatToString(-n) else NatToString(n)
  }

  /** Different numbers are written differently. */
  lemma {:induction false} NatToStringInjective(a: nat, b: nat)
    requires NatToString(a) == NatToString(b)
    ensures a == b
    decreases a
  {
    if a >= 10 && b >= 10 {
      var sa := NatToString(a);
      assert sa[..|sa| - 1] == NatToString(a / 10);
      assert sa[|sa| - 1] == DigitChar(a % 10);
      var sb := NatToString(b);
      assert sb[..|sb| - 1] == NatToString(b / 10);
      assert sb[|sb| - 1] == DigitChar(b % 10);
      NatToStringInjective(a / 10, b / 10);
    }
  }

  lemma IntToStringInjective(a: int, b: int)
    requires IntToString(a) == IntToString(b)
    ensures a == b
  {
    var sa := IntToString(a);
    var sb := IntToString(b);
    assert sa[0] == '-' <==> a < 0;
    assert sb[0] == '-' <==> b < 0;
    if a < 0 && b < 0 {
      assert sa[1..] == NatToString(-a);
      assert sb[1..] == NatToString(-b);
      NatToStringInjective(-a, -b);
    } else if a >= 0 && b >= 0 {
      NatToStringInjective(a, b);
    }
  }

  /** The key under which a finalized ledger of `group` for `month` of
      `year` is stored. */
  function HistoryKey(group: string, year: int, month: string): (r: string)
    ensures |r| == |group| + |IntToString(year)| + |month| + 2
    ensures r[..|group|] == group && r[|group|] == '_'
    ensures r[|r| - |month|..] == month && r[|r| - |month| - 1] == '_'
  {
    group + "_" + IntToString(year) + "_" + month
  }

  /** A month name never holds the underscore the key uses as separator. */
  lemma MonthHasNoUnderscore(month: string)
    requires IsMonth(month)
    ensures '_' !in month
  {
  }

  /** Two keys of valid periods are equal only for the same group, year and
      month: storing one period's ledger never overwrites another's. */
  lemma HistoryKeyInjective(g1: string, y1: int, m1: string, g2: string, y2: int, m2: string)
    requires IsMonth(m1) && IsMonth(m2)
    requires HistoryKey(g1, y1, m1) == HistoryKey(g2, y2, m2)
    ensures g1 == g2 && y1 == y2 && m1 == m2
  {
    MonthHasNoUnderscore(m1);
    MonthHasNoUnderscore(m2);
    var a1 := g1 + "_" + IntToString(y1);
    var a2 := g2 + "_" + IntToString(y2);
    assert a1 + ['_'] + m1 == a2 + ['_'] + m2;
    Seqs.SplitAtLast(a1, m1, a2, m2, '_');
    assert g1 + ['_'] + IntToString(y1) == g2 + ['_'] + IntToString(y2);
    Seqs.SplitAtLast(g1, IntToString(y1), g2, IntToString(y2), '_');
    IntToStringInjective(y1, y2);
  }
}
