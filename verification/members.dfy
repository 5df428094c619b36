/** The member-list parser of the landing form (main.py:190): the text
    area's newlines count as commas, every comma-separated entry is
    stripped of surrounding white space, and blank entries are dropped. */
module Members {
  import opened Options
  import opened Seqs
  import opened Text

  /** A text holding no member-name separator. */
  predicate NoSeparator(s: string) {
    ',' !in s && '\n' !in s
  }

  /** A well-formed member name as the parser produces it. */
  predicate IsMemberName(s: string) {
    s != [] && IsStripped(s) && NoSeparator(s)
  }

  /** `[x.strip() for x in pieces if x.strip()]` */
  function Clean(pieces: seq<string>): (r: seq<string>)
    ensures |r| <= |pieces|
    ensures forall k :: 0 <= k < |r| ==> r[k] != [] && IsStripped(r[k])
  {
    if |pieces| == 0 then []
    else
      var t := Strip(pieces[0]);
      (if t != [] then [t] else []) + Clean(pieces[1..])
  }

  lemma {:induction false} CleanKeepsNoSeparator(pieces: seq<string>)
    requires forall j :: 0 <= j < |pieces| ==> NoSeparator(pieces[j])
    ensures forall k :: 0 <= k < |Clean(pieces)| ==> NoSeparator(Clean(pieces)[k])
  {
    if |pieces| > 0 {
      CleanKeepsNoSeparator(pieces[1..]);
      StripAvoids(pieces[0], ',');
      StripAvoids(pieces[0], '\n');
    }
  }

  lemma {:induction false} CleanConcat(xs: seq<string>, ys: seq<string>)
    ensures Clean(xs + ys) == Clean(xs) + Clean(ys)
    decreases |xs|
  {
    if |xs| == 0 {
      assert xs + ys == ys;
    } else {
      assert (xs + ys)[0] == xs[0];
      assert (xs + ys)[1..] == xs[1..] + ys;
      CleanConcat(xs[1..], ys);
    }
  }

  /** The member names typed into the landing form, in input order. */
  function ParseMembers(text: string): (r: seq<string>)
    ensures forall k :: 0 <= k < |r| ==> IsMemberName(r[k])
  {
    var unified := ReplaceChar(text, '\n', ',');
    var pieces := Split(unified, ',');
    SplitAvoids(unified, ',', '\n');
    CleanKeepsNoSeparator(pieces);
    Clean(pieces)
  }

  /** A comma splits the member list into the lists of its two sides, in
      order: no name is lost, merged or reordered. */
  lemma ParseConcat(a: string, b: string)
    ensures ParseMembers(a + [','] + b) == ParseMembers(a) + ParseMembers(b)
  {
    var a' := ReplaceChar(a, '\n', ',');
    var b' := ReplaceChar(b, '\n', ',');
    ReplaceCharConcat(a + [','], b, '\n', ',');
    ReplaceCharConcat(a, [','], '\n', ',');
    assert ReplaceChar(a + [','] + b, '\n', ',') == a' + [','] + b';
    SplitConcat(a', ',', b');
    CleanConcat(Split(a', ','), Split(b', ','));
  }

  /** A line break separates names exactly as a comma does. */
  lemma NewlineActsAsComma(a: string, b: string)
    ensures ParseMembers(a + ['\n'] + b) == ParseMembers(a + [','] + b)
  {
    var u := a + ['\n'] + b;
    var v := a + [','] + b;
    assert forall i :: 0 <= i < |u| ==> u[i] == v[i] || (u[i] == '\n' && v[i] == ',');
    assert ReplaceChar(u, '\n', ',') == ReplaceChar(v, '\n', ',');
  }

  /** The stripped form of every entry. */
  function Strips(xs: seq<string>): (r: seq<string>)
    ensures |r| == |xs|
  {
    seq(|xs|, k requires 0 <= k < |xs| => Strip(xs[k]))
  }

  /** Entries typed with a comma between them come back stripped, one
      name per entry, in the order they were typed. */
  lemma ParseJoined(xs: seq<string>)
    requires |xs| >= 1
    requires forall k :: 0 <= k < |xs| ==> NoSeparator(xs[k]) && Strip(xs[k]) != []
    ensures ParseMembers(Join(xs, ',')) == Strips(xs)
  {
    var s := Join(xs, ',');
    JoinAvoids(xs, ',', '\n');
    assert ReplaceChar(s, '\n', ',') == s;
    SplitJoin(xs, ',');
    CleanAllNonBlank(xs);
  }

  lemma {:induction false} JoinAvoids(xs: seq<string>, sep: char, c: char)
    requires sep != c
    requires forall k :: 0 <= k < |xs| ==> c !in xs[k]
    ensures c !in Join(xs, sep)
    decreases |xs|
  {
    if |xs| > 1 {
      JoinAvoids(xs[1..], sep, c);
    }
  }

  lemma {:induction false} CleanAllNonBlank(xs: seq<string>)
    requires forall k :: 0 <= k < |xs| ==> Strip(xs[k]) != []
    ensures Clean(xs) == Strips(xs)
    decreases |xs|
  {
    if |xs| > 0 {
      CleanAllNonBlank(xs[1..]);
      assert Strips(xs) == [Strip(xs[0])] + Strips(xs[1..]);
    }
  }

  /** A character that leaves the member list empty when it is all the
      text holds. */
  predicate IsBlank(c: char) {
    c == ',' || IsSpace(c)
  }

  /** Every character of `s` is blank. */
  predicate AllBlank(s: string) {
    forall i :: 0 <= i < |s| ==> IsBlank(s[i])
  }

  /** The parse yields no member exactly when the text holds nothing but
      commas and white space (line breaks included). */
  lemma ParseEmptyIffBlank(text: string)
    ensures ParseMembers(text) == [] <==> AllBlank(text)
  {
    var unified := ReplaceChar(text, '\n', ',');
    CleanSplitEmpty(unified);
    assert forall i :: 0 <= i < |text| ==> (IsBlank(text[i]) <==> IsBlank(unified[i]));
  }

  lemma {:induction false} CleanSplitEmpty(s: string)
    ensures Clean(Split(s, ',')) == [] <==> AllBlank(s)
    decreases |s|
  {
    match IndexOf(s, ',')
    case None =>
      StripEmpty(s);
      assert Clean(Split(s, ',')) == Clean([s]);
      NoCommaBlank(s);
    case Some(i) =>
      var head := s[..i];
      var tail := s[i + 1..];
      CleanSplitEmpty(tail);
      StripEmpty(head);
      assert Split(s, ',') == [head] + Split(tail, ',');
      CleanConcat([head], Split(tail, ','));
      NoCommaBlank(head);
      BlankAroundComma(s, i);
  }

  /** Without commas, a blank text is a white-space text. */
  lemma NoCommaBlank(s: string)
    requires ',' !in s
    ensures AllBlank(s) <==> AllSpace(s)
  {
  }

  /** A text around a comma is blank exactly when both sides are. */
  lemma BlankAroundComma(s: string, i: nat)
    requires i < |s| && s[i] == ','
    ensures AllBlank(s) <==> AllBlank(s[..i]) && AllBlank(s[i + 1..])
  {
    assert forall j :: 0 <= j < i ==> s[..i][j] == s[j];
    assert forall j :: i < j < |s| ==> s[i + 1..][j - i - 1] == s[j];
  }

  /** The landing form's own placeholder text parses to its three names. */
  lemma PlaceholderExample()
    ensures ParseMembers("Alice, Bob, Charlie") == ["Alice", "Bob", "Charlie"]
  {
    var xs := ["Alice", " Bob", " Charlie"];
    PlaceholderJoin();
    PlaceholderStrips();
    assert forall k :: 0 <= k < |xs| ==> Strip(xs[k]) == Strips(xs)[k];
    ParseJoined(xs);
  }

  lemma PlaceholderJoin()
    ensures Join(["Alice", " Bob", " Charlie"], ',') == "Alice, Bob, Charlie"
  {
    var xs := ["Alice", " Bob", " Charlie"];
    assert Join(xs[2..], ',') == " Charlie";
    assert Join(xs[1..], ',') == " Bob" + [','] + " Charlie";
  }

  lemma PlaceholderStrips()
    ensures Strips(["Alice", " Bob", " Charlie"]) == ["Alice", "Bob", "Charlie"]
  {
    StripsName("", "Alice");
    StripsName(" ", "Bob");
    StripsName(" ", "Charlie");
  }

  /** Stripping a name with white space before it gives the name. */
  lemma StripsName(pad: string, name: string)
    requires AllSpace(pad) && |name| > 0
    requires !IsSpace(name[0]) && !IsSpace(name[|name| - 1])
    ensures Strip(pad + name) == name
  {
    StrippedEnds(name);
    StripPadded(pad, name, "");
    assert pad + name + "" == pad + name;
  }

  /** Text made only of commas, blanks and line breaks names nobody. */
  lemma BlankListExample()
    ensures ParseMembers(" , \n,") == []
  {
    ParseEmptyIffBlank(" , \n,");
  }
}
