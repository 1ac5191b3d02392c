/** The pure text helpers of litepop-subs.py's curses screens: cleaning feed text
    for display (`clean_text_for_display`), the "last update" label
    (`format_last_update`) and the clipping rule of `safe_addstr`. */
module Display {
  import opened Base
  import opened Text
  import opened Decimal

  // ---------------------------------------------------------------------------
  // clean_text_for_display

  /** Deleted by the first substitution: C0 controls other than TAB, LF and CR, and DEL. */
  predicate Deleted(c: char) {
    var n := c as int;
    0 <= n <= 0x08 || n == 0x0B || n == 0x0C || 0x0E <= n <= 0x1F || n == 0x7F
  }

  /** Kept by the second substitution, which turns every other character into '?'. */
  predicate Displayable(c: char) {
    var n := c as int;
    0x20 <= n <= 0x7E || 0xA0 <= n <= 0xFFFF
  }

  /** The first substitution: the deleted characters go, the rest stay in order. */
  function RemoveControls(s: string): (r: string)
    ensures |r| <= |s|
    ensures forall i :: 0 <= i < |r| ==> !Deleted(r[i]) && r[i] in s
    ensures forall i :: 0 <= i < |s| && !Deleted(s[i]) ==> s[i] in r
  {
    if |s| == 0 then ""
    else
      var rest := RemoveControls(s[1..]);
      assert forall i :: 1 <= i < |s| ==> s[i] == s[1..][i - 1];
      if Deleted(s[0]) then rest else [s[0]] + rest
  }

  /** The second substitution. */
  function ReplaceInvalid(s: string): (r: string)
    ensures |r| == |s|
    ensures forall i :: 0 <= i < |s| ==> r[i] == if Displayable(s[i]) then s[i] else '?'
  {
    seq(|s|, i requires 0 <= i < |s| => if Displayable(s[i]) then s[i] else '?')
  }

  /** `.replace('\r', ' ').replace('\n', ' ')`. */
  function ReplaceNewlines(s: string): (r: string)
    ensures |r| == |s|
    ensures forall i :: 0 <= i < |s| ==> r[i] == if s[i] == '\r' || s[i] == '\n' then ' ' else s[i]
  {
    seq(|s|, i requires 0 <= i < |s| => if s[i] == '\r' || s[i] == '\n' then ' ' else s[i])
  }

  /** The characters of `s` that are not whitespace, in order. */
  function NonSpace(s: string): string
  {
    if |s| == 0 then "" else if IsSpace(s[0]) then NonSpace(s[1..]) else [s[0]] + NonSpace(s[1..])
  }

  lemma {:induction false} NonSpaceAppend(a: string, b: string)
    ensures NonSpace(a + b) == NonSpace(a) + NonSpace(b)
  {
    if |a| > 0 {
      assert (a + b)[1..] == a[1..] + b;
      NonSpaceAppend(a[1..], b);
    } else {
      assert a + b == b;
    }
  }

  /** Left stripping drops whitespace only. */
  lemma {:induction false} NonSpaceStripLeft(s: string)
    ensures NonSpace(StripLeft(s)) == NonSpace(s)
    decreases |s|
  {
    if |s| > 0 && IsSpace(s[0]) {
      NonSpaceStripLeft(s[1..]);
    }
  }

  /** Right stripping drops whitespace only. */
  lemma {:induction false} NonSpaceStripRight(s: string)
    ensures NonSpace(StripRight(s)) == NonSpace(s)
    decreases |s|
  {
    var n := |s|;
    if n > 0 && IsSpace(s[n - 1]) {
      NonSpaceStripRight(s[..n - 1]);
      assert s == s[..n - 1] + [s[n - 1]];
      NonSpaceAppend(s[..n - 1], [s[n - 1]]);
      assert NonSpace([s[n - 1]]) == "" by {
        assert [s[n - 1]][1..] == [];
      }
    }
  }

  /** Stripping drops whitespace only. */
  lemma NonSpaceStrip(s: string)
    ensures NonSpace(Strip(s)) == NonSpace(s)
  {
    NonSpaceStripLeft(s);
    NonSpaceStripRight(StripLeft(s));
    assert Strip(s) == StripRight(StripLeft(s));
  }

  /** Never two whitespace characters in a row. */
  predicate SingleSpaced(r: string) {
    forall i :: 0 <= i < |r| - 1 ==> !(IsSpace(r[i]) && IsSpace(r[i + 1]))
  }

  /** All whitespace is the plain space ' '. */
  predicate BlankSpaces(r: string) {
    forall i :: 0 <= i < |r| && IsSpace(r[i]) ==> r[i] == ' '
  }

  /** No whitespace at either end. */
  predicate Trimmed(r: string) {
    |r| > 0 ==> !IsSpace(r[0]) && !IsSpace(r[|r| - 1])
  }

  predicate AllDisplayable(r: string) {
    forall i :: 0 <= i < |r| ==> Displayable(r[i])
  }

  /** Dropping leading whitespace leaves a suffix, so no new characters. */
  lemma StripLeftFrom(s: string)
    ensures forall c :: c in StripLeft(s) ==> c in s
  {
    var t := StripLeft(s);
    assert t == s[|s| - |t|..];
  }

  /** A space put in front of text that does not start with whitespace keeps the
      spacing single. */
  lemma SpaceCons(rest: string)
    requires SingleSpaced(rest) && BlankSpaces(rest)
    requires |rest| > 0 ==> !IsSpace(rest[0])
    ensures SingleSpaced([' '] + rest) && BlankSpaces([' '] + rest)
    ensures NonSpace([' '] + rest) == NonSpace(rest)
  {
    var r := [' '] + rest;
    assert r[1..] == rest;
    assert forall i :: 1 <= i < |r| ==> r[i] == rest[i - 1];
  }

  /** A character that is not whitespace put in front keeps the spacing. */
  lemma CharCons(x: char, rest: string)
    requires !IsSpace(x) && SingleSpaced(rest) && BlankSpaces(rest)
    ensures SingleSpaced([x] + rest) && BlankSpaces([x] + rest)
    ensures NonSpace([x] + rest) == [x] + NonSpace(rest)
  {
    var r := [x] + rest;
    assert r[1..] == rest;
    assert forall i :: 1 <= i < |r| ==> r[i] == rest[i - 1];
  }

  /** `re.sub(r'\s+', ' ', s)`: every run of whitespace becomes one space. */
  function Collapse(s: string): (r: string)
    decreases |s|
    ensures |r| <= |s|
    ensures |r| > 0 <==> |s| > 0
    ensures |r| > 0 ==> (IsSpace(r[0]) <==> IsSpace(s[0]))
    ensures SingleSpaced(r) && BlankSpaces(r)
    ensures forall i :: 0 <= i < |r| ==> r[i] == ' ' || r[i] in s
    ensures NonSpace(r) == NonSpace(s)
  {
    if |s| == 0 then ""
    else if IsSpace(s[0]) then
      var t := StripLeft(s);
      assert |t| < |s|;
      var rest := Collapse(t);
      StripLeftFrom(s);
      NonSpaceStripLeft(s);
      SpaceCons(rest);
      [' '] + rest
    else
      var rest := Collapse(s[1..]);
      CharCons(s[0], rest);
      assert NonSpace(s) == [s[0]] + NonSpace(s[1..]);
      [s[0]] + rest
  }

  /** `clean_text_for_display` as written. Because the second substitution already
      turned TAB, LF and CR into '?', the newline replacement after it never fires. */
  function CleanTextAsWritten(s: string): (r: string)
    // the newline step changes nothing
    ensures r == Strip(Collapse(ReplaceInvalid(RemoveControls(s))))
  {
    NewlineReplacementDead(RemoveControls(s));
    Strip(Collapse(ReplaceNewlines(ReplaceInvalid(RemoveControls(s)))))
  }

  /** The newline replacement is dead: nothing the second substitution lets
      through is a CR or an LF. */
  lemma NewlineReplacementDead(s: string)
    ensures ReplaceNewlines(ReplaceInvalid(s)) == ReplaceInvalid(s)
  {
  }

  /** Text without deleted characters passes the first substitution unchanged. */
  lemma {:induction false} RemoveControlsNone(s: string)
    requires forall i :: 0 <= i < |s| ==> !Deleted(s[i])
    ensures RemoveControls(s) == s
  {
    if |s| > 0 {
      RemoveControlsNone(s[1..]);
      assert s == [s[0]] + s[1..];
    }
  }

  /** Text without whitespace passes the collapse unchanged. */
  lemma {:induction false} CollapseNone(s: string)
    requires forall i :: 0 <= i < |s| ==> !IsSpace(s[i])
    ensures Collapse(s) == s
  {
    if |s| > 0 {
      CollapseNone(s[1..]);
      assert s == [s[0]] + s[1..];
    }
  }

  /** A line break inside a title is shown as '?', not as a space. */
  lemma CleanTextAsWrittenNewline()
    ensures CleanTextAsWritten("a\nb") == "a?b"
  {
    var s := "a\nb";
    RemoveControlsNone(s);
    NewlineShownAsQuestionMark();
    NewlineReplacementDead(s);
    CollapseNone("a?b");
    StripNone("a?b");
  }

  lemma NewlineShownAsQuestionMark()
    ensures ReplaceInvalid("a\nb") == "a?b"
  {
    assert !Displayable('\n');
  }

  /** The collapse keeps text displayable. */
  lemma CollapseDisplayable(t: string)
    requires AllDisplayable(t)
    ensures AllDisplayable(Collapse(t))
  {
    var c := Collapse(t);
    forall i | 0 <= i < |c|
      ensures Displayable(c[i])
    {
      if c[i] != ' ' {
        assert c[i] in t;
      }
    }
  }

  /** A slice keeps the spacing and the displayability of what it is cut from. */
  lemma SliceShape(c: string, a: nat, r: string)
    requires a + |r| <= |c| && r == c[a..a + |r|]
    requires SingleSpaced(c) && BlankSpaces(c) && AllDisplayable(c)
    ensures SingleSpaced(r) && BlankSpaces(r) && AllDisplayable(r)
  {
    assert forall i :: 0 <= i < |r| ==> r[i] == c[a + i];
  }

  /** What the cleaned text always looks like, for either order of the two middle
      steps: `t` is what enters the whitespace collapse. */
  lemma CleanShape(t: string)
    requires AllDisplayable(t)
    ensures var r := Strip(Collapse(t));
      Trimmed(r) && SingleSpaced(r) && AllDisplayable(r) && BlankSpaces(r) && NonSpace(r) == NonSpace(t)
  {
    CollapseDisplayable(t);
    StripShape(Collapse(t));
  }

  /** Stripping keeps the spacing and the displayability, and only drops whitespace. */
  lemma StripShape(c: string)
    requires SingleSpaced(c) && BlankSpaces(c) && AllDisplayable(c)
    ensures var r := Strip(c);
      Trimmed(r) && SingleSpaced(r) && AllDisplayable(r) && BlankSpaces(r) && NonSpace(r) == NonSpace(c)
  {
    StripIsSlice(c);
    SliceShape(c, |c| - |StripLeft(c)|, Strip(c));
    NonSpaceStrip(c);
  }

  /** `clean_text_for_display` with the newline replacement before the second
      substitution, as its comment intends: line breaks become spaces. */
  function CleanText(s: string): (r: string)
    ensures Trimmed(r) && SingleSpaced(r) && BlankSpaces(r)
    ensures forall i :: 0 <= i < |r| ==> Displayable(r[i]) && !Deleted(r[i])
    // only whitespace and deleted characters are lost; the rest is kept or shown as '?'
    ensures NonSpace(r) == NonSpace(ReplaceInvalid(ReplaceNewlines(RemoveControls(s))))
  {
    var t := ReplaceInvalid(ReplaceNewlines(RemoveControls(s)));
    ReplaceInvalidDisplayable(ReplaceNewlines(RemoveControls(s)));
    CleanShape(t);
    var r := Strip(Collapse(t));
    DisplayableNotDeleted(r);
    r
  }

  lemma ReplaceInvalidDisplayable(s: string)
    ensures AllDisplayable(ReplaceInvalid(s))
  {
  }

  /** No deleted character is displayable. */
  lemma DisplayableNotDeleted(r: string)
    requires AllDisplayable(r)
    ensures forall i :: 0 <= i < |r| ==> !Deleted(r[i])
  {
  }

  /** A single space between two other characters stays as it is. */
  lemma CollapseOneSpace(x: char, y: char)
    requires !IsSpace(x) && !IsSpace(y)
    ensures Collapse([x, ' ', y]) == [x, ' ', y]
  {
    assert [x, ' ', y][1..] == [' ', y];
    assert StripLeft([' ', y]) == [y] by {
      assert [' ', y][1..] == [y];
    }
    CollapseNone([y]);
  }

  /** The same line break becomes a space. */
  lemma CleanTextNewline()
    ensures CleanText("a\nb") == "a b"
  {
    var s := "a\nb";
    RemoveControlsNone(s);
    NewlineShownAsSpace();
    CollapseOneSpace('a', 'b');
    StripNone("a b");
  }

  lemma NewlineShownAsSpace()
    ensures ReplaceInvalid(ReplaceNewlines("a\nb")) == "a b"
  {
    assert ReplaceNewlines("a\nb") == "a b";
  }

  /** The as-written version keeps the same shape guarantees. */
  lemma CleanTextAsWrittenShape(s: string)
    ensures var r := CleanTextAsWritten(s);
      Trimmed(r) && SingleSpaced(r) && AllDisplayable(r)
  {
    NewlineReplacementDead(RemoveControls(s));
    CleanShape(ReplaceInvalid(RemoveControls(s)));
  }

  // ---------------------------------------------------------------------------
  // format_last_update

  /** The buckets of `format_last_update`. */
  datatype Age = Unknown | Today | Yesterday | Days(n: int) | Weeks(n: int) | Months(n: int) | Years(n: int)

  /** The bucket for `diff.days` (None when there is no date). Future dates give a
      negative day count, which lands in the "days ago" bucket. */
  function Bucket(days: Option<int>): (a: Age)
    ensures days.None? <==> a == Unknown
    ensures a == Today <==> days == Some(0)
    ensures a == Yesterday <==> days == Some(1)
    ensures a.Days? <==> days.Some? && days.value < 7 && days.value != 0 && days.value != 1
    ensures a.Days? ==> a.n == days.value
    ensures a.Weeks? <==> days.Some? && 7 <= days.value < 30
    ensures a.Weeks? ==> 1 <= a.n <= 4 && a.n * 7 <= days.value < (a.n + 1) * 7
    ensures a.Months? <==> days.Some? && 30 <= days.value < 365
    ensures a.Months? ==> 1 <= a.n <= 12 && a.n * 30 <= days.value < (a.n + 1) * 30
    ensures a.Years? <==> days.Some? && days.value >= 365
    ensures a.Years? ==> a.n >= 1 && a.n * 365 <= days.value < (a.n + 1) * 365
  {
    match days
    case None => Unknown
    case Some(d) =>
      if d == 0 then Today
      else if d == 1 then Yesterday
      else if d < 7 then Days(d)
      else if d < 30 then Weeks(d / 7)
      else if d < 365 then Months(d / 30)
      else Years(d / 365)
  }

  /** `f"{n} {unit}{'s' if n > 1 else ''} ago"`. */
  function Counted(n: int, unit: string): (r: string)
  {
    IntStr(n) + " " + unit + (if n > 1 then "s" else "") + " ago"
  }

  /** The label shown for a bucket. */
  function Label(a: Age): (r: string)
    // a counted bucket reads "<n> <unit> ago"; the three fixed labels do not
    ensures (a.Days? || a.Weeks? || a.Months? || a.Years?) <==> |r| >= 4 && r[|r| - 4..] == " ago"
  {
    match a
    case Unknown => "Unknown"
    case Today => "Today"
    case Yesterday => "Yesterday"
    case Days(n) => IntStr(n) + " days ago"
    case Weeks(n) => Counted(n, "week")
    case Months(n) => Counted(n, "month")
    case Years(n) => Counted(n, "year")
  }

  /** `format_last_update`. */
  function FormatLastUpdate(days: Option<int>): (r: string)
    ensures days.None? ==> r == "Unknown"
    ensures days == Some(0) ==> r == "Today"
    ensures days == Some(1) ==> r == "Yesterday"
  {
    Label(Bucket(days))
  }

  /** Reads a label back into its bucket. */
  function ParseLabel(s: string): (a: Option<Age>)
  {
    var parts := Split(s, ' ');
    if |parts| == 1 then
      if s == "Unknown" then Some(Unknown)
      else if s == "Today" then Some(Today)
      else if s == "Yesterday" then Some(Yesterday)
      else None
    else if |parts| == 3 && parts[2] == "ago" && ParseInt(parts[0]).Some? then
      UnitAge(ParseInt(parts[0]).value, parts[1])
    else None
  }

  /** The bucket named by the unit word of a counted label. */
  function UnitAge(n: int, unit: string): Option<Age> {
    if unit == "days" then Some(Days(n))
    else if unit == "week" || unit == "weeks" then Some(Weeks(n))
    else if unit == "month" || unit == "months" then Some(Months(n))
    else if unit == "year" || unit == "years" then Some(Years(n))
    else None
  }

  /** A label of the form "<n> <unit> ago" reads back through its unit word. */
  lemma ParseThree(s: string, n: int, unit: string)
    requires Split(s, ' ') == [IntStr(n), unit, "ago"]
    ensures ParseLabel(s) == UnitAge(n, unit)
  {
    ParseIntStr(n);
  }

  lemma IntStrNoSpace(n: int)
    ensures ' ' !in IntStr(n)
  {
    var m := NatStr(if n < 0 then -n else n);
    assert AllDigits(m);
    assert ' ' !in m;
  }

  /** A counted label splits into the number, the unit and "ago". */
  lemma CountedParts(n: int, unit: string)
    requires ' ' !in unit
    ensures Split(Counted(n, unit), ' ') == [IntStr(n), unit + (if n > 1 then "s" else ""), "ago"]
  {
    var u := unit + (if n > 1 then "s" else "");
    IntStrNoSpace(n);
    assert Counted(n, unit) == IntStr(n) + [' '] + u + [' '] + "ago";
    SplitThree(IntStr(n), u, "ago", ' ');
  }

  /** A counted label reads back through its unit word, plural or not. */
  lemma ParseCountedLabel(n: int, unit: string)
    requires ' ' !in unit
    ensures ParseLabel(Counted(n, unit)) == UnitAge(n, unit + (if n > 1 then "s" else ""))
  {
    CountedParts(n, unit);
    ParseThree(Counted(n, unit), n, unit + (if n > 1 then "s" else ""));
  }

  lemma ParseDays(n: int)
    ensures ParseLabel(Label(Days(n))) == Some(Days(n))
  {
    IntStrNoSpace(n);
    assert Label(Days(n)) == IntStr(n) + [' '] + "days" + [' '] + "ago";
    SplitThree(IntStr(n), "days", "ago", ' ');
    ParseThree(Label(Days(n)), n, "days");
  }

  lemma ParseWeeks(n: int)
    ensures ParseLabel(Label(Weeks(n))) == Some(Weeks(n))
  {
    ParseCountedLabel(n, "week");
    var u := "week" + (if n > 1 then "s" else "");
    assert u == "week" || u == "weeks";
    UnitWeeks(n);
  }

  lemma UnitWeeks(n: int)
    ensures UnitAge(n, "week") == Some(Weeks(n)) && UnitAge(n, "weeks") == Some(Weeks(n))
  {
  }

  lemma ParseMonths(n: int)
    ensures ParseLabel(Label(Months(n))) == Some(Months(n))
  {
    ParseCountedLabel(n, "month");
    var u := "month" + (if n > 1 then "s" else "");
    assert u == "month" || u == "months";
    UnitMonths(n);
  }

  lemma UnitMonths(n: int)
    ensures UnitAge(n, "month") == Some(Months(n)) && UnitAge(n, "months") == Some(Months(n))
  {
  }

  lemma ParseYears(n: int)
    ensures ParseLabel(Label(Years(n))) == Some(Years(n))
  {
    ParseCountedLabel(n, "year");
    var u := "year" + (if n > 1 then "s" else "");
    assert u == "year" || u == "years";
    UnitYears(n);
  }

  lemma UnitYears(n: int)
    ensures UnitAge(n, "year") == Some(Years(n)) && UnitAge(n, "years") == Some(Years(n))
  {
  }

  /** Every label reads back as the bucket it shows: distinct buckets never share a label. */
  lemma ParseLabelRoundTrip(a: Age)
    ensures ParseLabel(Label(a)) == Some(a)
  {
    match a
    case Unknown =>
      ParseFixed(a);
    case Today =>
      ParseFixed(a);
    case Yesterday =>
      ParseFixed(a);
    case Days(n) =>
      ParseDays(n);
    case Weeks(n) =>
      ParseWeeks(n);
    case Months(n) =>
      ParseMonths(n);
    case Years(n) =>
      ParseYears(n);
  }

  lemma ParseFixed(a: Age)
    requires a.Unknown? || a.Today? || a.Yesterday?
    ensures ParseLabel(Label(a)) == Some(a)
  {
    SplitNoSep(Label(a), ' ');
  }

  /** The plural "s" appears exactly when the count is above one. */
  lemma CountedPlural(n: int, unit: string)
    requires ' ' !in unit && |unit| > 0 && unit[|unit| - 1] != 's'
    ensures var parts := Split(Counted(n, unit), ' ');
      |parts| == 3 && |parts[1]| > 0 && (parts[1][|parts[1]| - 1] == 's' <==> n > 1)
  {
    CountedParts(n, unit);
  }

  // ---------------------------------------------------------------------------
  // safe_addstr

  /** `text.encode('ascii', errors='replace').decode('ascii')`. */
  function AsciiReplace(s: string): (r: string)
    ensures |r| == |s|
    ensures forall i :: 0 <= i < |s| ==> r[i] == if s[i] as int < 0x80 then s[i] else '?'
  {
    seq(|s|, i requires 0 <= i < |s| => if s[i] as int < 0x80 then s[i] else '?')
  }

  /** Python's `s[:k]`: a negative `k` counts from the end. */
  function Prefix(s: string, k: int): (r: string)
    ensures |r| == if k >= 0 then Min(k, |s|) else Max(0, |s| + k)
    ensures r == s[..|r|]
  {
    if k >= 0 then s[..Min(k, |s|)] else s[..Max(0, |s| + k)]
  }

  /** What `safe_addstr` passes to `addstr` on a `maxY` by `maxX` window, or None
      when it returns False without drawing. A `max_width` of 0 or None means no
      width limit; a negative one is truthy and cuts from the end. */
  function SafeAddstr(maxY: int, maxX: int, y: int, x: int, text: string, maxWidth: Option<int>): (r: Option<string>)
    ensures r.Some? <==> 0 <= y < maxY && 0 <= x < maxX
    ensures r.Some? && (maxWidth.None? || maxWidth.value >= 0) ==> |r.value| <= maxX - x - 1
    ensures r.Some? ==> |r.value| <= |text|
    ensures r.Some? ==> forall i :: 0 <= i < |r.value| ==> r.value[i] as int < 0x80
    ensures r.Some? ==> r.value == AsciiReplace(text)[..|r.value|]
    ensures r.Some? && maxWidth.Some? && maxWidth.value > 0 ==> |r.value| <= maxWidth.value
    // without a width limit, text that fits is drawn whole
    ensures r.Some? && (maxWidth.None? || maxWidth.value == 0) && |text| <= maxX - x - 1 ==>
      r.value == AsciiReplace(text)
    ensures r.Some? && maxWidth.Some? && maxWidth.value < 0 ==> |r.value| == Max(0, |text| + maxWidth.value)
  {
    if y < 0 || y >= maxY || x < 0 || x >= maxX then None
    else
      var ascii := AsciiReplace(text);
      if maxWidth.Some? && maxWidth.value != 0 then Some(Prefix(ascii, Min(maxWidth.value, maxX - x - 1)))
      else Some(Prefix(ascii, maxX - x - 1))
  }
}
