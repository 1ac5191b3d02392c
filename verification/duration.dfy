/** Episode durations: `PodcastFeed._parse_duration` (litepop.py) reads the
    `itunes:duration` text and `Player.format_time` prints a position as HH:MM:SS. */
module Duration {
  import opened Base
  import opened Text
  import opened Decimal

  /** "H:M:S", "M:S" or a bare integer, each part read by `int()` (so whitespace
      around a part is allowed); any other shape, or a part `int()` rejects, gives
      None. */
  function ParseDuration(s: string): (r: Option<int>)
    ensures |Split(s, ':')| > 3 ==> r.None?
  {
    if ':' in s then
      var parts := Split(s, ':');
      if |parts| == 3 || |parts| == 2 then ParseParts(parts)
      else
        // int() of a string holding a colon always fails
        NoParseWithColon(s);
        None
    else
      ParseInt(s)
  }

  /** "H:M:S" or "M:S" once split on the colons. */
  function ParseParts(parts: seq<string>): (r: Option<int>)
    requires |parts| == 3 || |parts| == 2
  {
    var h, m := ParseInt(parts[0]), ParseInt(parts[1]);
    if |parts| == 3 then
      var x := ParseInt(parts[2]);
      if h.Some? && m.Some? && x.Some? then Some(h.value * 3600 + m.value * 60 + x.value) else None
    else
      if h.Some? && m.Some? then Some(h.value * 60 + m.value) else None
  }

  /** Whatever parses consists of numeral characters, whitespace and colons only. */
  lemma ParseDurationAlphabet(s: string)
    requires ParseDuration(s).Some?
    ensures forall i :: 0 <= i < |s| ==> NumeralChar(s[i]) || IsSpace(s[i]) || s[i] == ':'
  {
    if ':' in s {
      PartsAlphabet(Split(s, ':'), s);
    } else {
      ParseIntAlphabet(s);
    }
  }

  lemma NoParseWithColon(s: string)
    requires ':' in s
    ensures ParseInt(s).None?
  {
    var i :| 0 <= i < |s| && s[i] == ':';
    ParseIntAlphabet(s);
    assert !NumeralChar(s[i]) && !IsSpace(s[i]);
  }

  /** When every part parses, every character is a numeral character, whitespace or
      the separator. */
  lemma {:induction false} PartsAlphabet(parts: seq<string>, s: string)
    requires Join(parts, ':') == s
    requires forall k :: 0 <= k < |parts| ==> ParseInt(parts[k]).Some?
    ensures forall i :: 0 <= i < |s| ==> NumeralChar(s[i]) || IsSpace(s[i]) || s[i] == ':'
  {
    if |parts| > 1 {
      PartsAlphabet(parts[1..], Join(parts[1..], ':'));
      assert s == parts[0] + [':'] + Join(parts[1..], ':');
      ParseIntAlphabet(parts[0]);
    } else if |parts| == 1 {
      ParseIntAlphabet(parts[0]);
    }
  }

  lemma DigitsHaveNoColon(s: string)
    requires AllDigits(s)
    ensures ':' !in s
  {
  }

  /** The "HH:MM:SS" text of a whole number of seconds; hours are not bounded. */
  function Clock(n: nat): (r: string)
    ensures |r| >= 8
  {
    Pad2(n / 3600) + [':'] + Pad2((n % 3600) / 60) + [':'] + Pad2(n % 60)
  }

  /** The clock text splits into three fields that read back as hours, minutes and
      seconds. */
  lemma ClockParts(n: nat)
    ensures ':' in Clock(n)
    ensures var p := Split(Clock(n), ':');
      && |p| == 3
      && ParseInt(p[0]) == Some(n / 3600)
      && ParseInt(p[1]) == Some((n % 3600) / 60)
      && ParseInt(p[2]) == Some(n % 60)
  {
    var h, m, x := Pad2(n / 3600), Pad2((n % 3600) / 60), Pad2(n % 60);
    DigitsHaveNoColon(h);
    DigitsHaveNoColon(m);
    DigitsHaveNoColon(x);
    SplitThree(h, m, x, ':');
    assert Clock(n)[|h|] == ':';
    ParsePad2(n / 3600);
    ParsePad2((n % 3600) / 60);
    ParsePad2(n % 60);
  }

  /** `Player.format_time`: non-positive (or zero) input prints "00:00:00"; otherwise
      hours, minutes and seconds of the whole seconds, zero-padded to two digits. */
  function FormatTime(seconds: real): (r: string)
    ensures seconds <= 0.0 ==> r == "00:00:00"
    ensures |r| >= 8
    ensures var p := Split(r, ':');
      && |p| == 3
      && ParseInt(p[1]).Some? && 0 <= ParseInt(p[1]).value < 60
      && ParseInt(p[2]).Some? && 0 <= ParseInt(p[2]).value < 60
  {
    var n: nat := if seconds <= 0.0 then 0 else seconds.Floor;
    ClockZero();
    ClockParts(n);
    Clock(n)
  }

  lemma ClockZero()
    ensures Clock(0) == "00:00:00"
  {
    assert Pad2(0) == "00";
  }

  /** Splitting the whole seconds into hours, minutes and seconds loses nothing. */
  lemma ClockArithmetic(n: nat)
    ensures (n / 3600) * 3600 + ((n % 3600) / 60) * 60 + n % 60 == n
  {
    var h, r := n / 3600, n % 3600;
    assert n == h * 3600 + r;
    var m, x := r / 60, r % 60;
    assert r == m * 60 + x;
    assert n == (h * 60 + m) * 60 + x;
    assert n % 60 == x;
  }

  /** Parsing the clock text of n whole seconds gives back n. */
  lemma ClockThenParse(n: nat)
    ensures ParseDuration(Clock(n)) == Some(n)
  {
    ClockParts(n);
    var p := Split(Clock(n), ':');
    ColonSplit(Clock(n), p);
    ClockArithmetic(n);
    ThreeParts(p, n / 3600, (n % 3600) / 60, n % 60, n);
  }

  /** Three fields reading as a, b and c make a*3600 + b*60 + c seconds. */
  lemma ThreeParts(p: seq<string>, a: int, b: int, c: int, t: int)
    requires |p| == 3
    requires ParseInt(p[0]) == Some(a) && ParseInt(p[1]) == Some(b) && ParseInt(p[2]) == Some(c)
    requires t == a * 3600 + b * 60 + c
    ensures ParseParts(p) == Some(t)
  {
  }

  /** A non-negative time prints as the clock of its whole seconds. */
  lemma FormatTimeIsClock(seconds: real)
    requires seconds >= 0.0
    ensures FormatTime(seconds) == Clock(seconds.Floor)
  {
    if seconds <= 0.0 {
      assert seconds == 0.0;
    }
  }

  /** `_parse_duration(format_time(s)) == s` for every whole number of seconds s >= 0. */
  lemma FormatThenParse(n: nat)
    ensures ParseDuration(FormatTime(n as real)) == Some(n)
  {
    assert (n as real).Floor == n;
    FormatTimeIsClock(n as real);
    ClockThenParse(n);
  }

  /** For a fractional position the round trip recovers the whole seconds. */
  lemma FormatThenParseReal(seconds: real)
    requires seconds >= 0.0
    ensures ParseDuration(FormatTime(seconds)) == Some(seconds.Floor)
  {
    FormatTimeIsClock(seconds);
    ClockThenParse(seconds.Floor);
  }

  /** The three accepted shapes, read part by part. */
  lemma ParseHMS(h: string, m: string, x: string)
    requires ':' !in h && ':' !in m && ':' !in x
    ensures ParseDuration(h + [':'] + m + [':'] + x) ==
      if ParseInt(h).Some? && ParseInt(m).Some? && ParseInt(x).Some?
      then Some(ParseInt(h).value * 3600 + ParseInt(m).value * 60 + ParseInt(x).value)
      else None
  {
    var s := h + [':'] + m + [':'] + x;
    SplitThree(h, m, x, ':');
    assert s[|h|] == ':';
    ColonSplit(s, [h, m, x]);
  }

  lemma ParseMS(m: string, x: string)
    requires ':' !in m && ':' !in x
    ensures ParseDuration(m + [':'] + x) ==
      if ParseInt(m).Some? && ParseInt(x).Some?
      then Some(ParseInt(m).value * 60 + ParseInt(x).value)
      else None
  {
    var s := m + [':'] + x;
    SplitCons(m, x, ':');
    SplitNoSep(x, ':');
    assert s[|m|] == ':';
    assert Split(s, ':') == [m] + [x];
    ColonSplit(s, [m, x]);
  }

  lemma ColonSplit(s: string, parts: seq<string>)
    requires ':' in s && Split(s, ':') == parts
    requires |parts| == 3 || |parts| == 2
    ensures ParseDuration(s) == ParseParts(parts)
  {
  }

  lemma ParsePlain(s: string)
    requires ':' !in s
    ensures ParseDuration(s) == ParseInt(s)
  {
  }

  /** A bare integer may be surrounded by whitespace, as the feed's text often is. */
  lemma ParsePlainPadded(w1: string, t: string, w2: string)
    requires AllSpace(w1) && AllSpace(w2) && ':' !in t
    requires |t| > 0 && !IsSpace(t[0]) && !IsSpace(t[|t| - 1])
    ensures ParseDuration(w1 + t + w2) == ParseInt(t)
  {
    var s := w1 + t + w2;
    forall i | 0 <= i < |s| ensures s[i] != ':' {
      if i < |w1| {
        assert IsSpace(s[i]);
      } else if i < |w1| + |t| {
        assert s[i] == t[i - |w1|];
      } else {
        assert IsSpace(w2[i - |w1| - |t|]);
      }
    }
    ParseIntPadded(w1, t, w2);
  }
}
