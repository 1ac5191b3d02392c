/** Decimal integers as text: Python's `int()` on a string, in base 10, and `str()`
    of an integer. */
module Decimal {
  import opened Base
  import opened Text

  predicate IsDigit(c: char) { '0' <= c <= '9' }

  predicate AllDigits(s: string) { forall i :: 0 <= i < |s| ==> IsDigit(s[i]) }

  function DigitChar(d: nat): (c: char)
    requires d < 10
    ensures IsDigit(c) && c as int - '0' as int == d
  {
    ('0' as int + d) as char
  }

  /** The value of a string of digits, most significant first. */
  function DigitsValue(s: string): nat
    requires AllDigits(s)
  {
    if |s| == 0 then 0 else DigitsValue(s[..|s| - 1]) * 10 + (s[|s| - 1] as int - '0' as int)
  }

  /** Python's `str(n)` for a natural number. */
  function NatStr(n: nat): (r: string)
    ensures |r| >= 1 && AllDigits(r)
    ensures DigitsValue(r) == n
    ensures n >= 10 ==> |r| >= 2
  {
    if n < 10 then [DigitChar(n)]
    else
      var r := NatStr(n / 10) + [DigitChar(n % 10)];
      assert r[..|r| - 1] == NatStr(n / 10);
      r
  }

  /** Python's `str(i)` for any integer. */
  function IntStr(i: int): (r: string)
  {
    if i < 0 then "-" + NatStr(-i) else NatStr(i)
  }

  /** `f"{n:02d}"` for a natural number: at least two digits. */
  function Pad2(n: nat): (r: string)
    ensures |r| >= 2 && AllDigits(r) && DigitsValue(r) == n
  {
    if n < 10 then
      var r := ['0', DigitChar(n)];
      assert r[..1] == ['0'];
      assert DigitsValue(['0']) == 0 by { assert ['0'][..0] == []; }
      r
    else NatStr(n)
  }

  /** Digits with single underscores between them, as `int()` accepts ("1_000"). */
  predicate Grouped(s: string) {
    && |s| > 0 && IsDigit(s[0]) && IsDigit(s[|s| - 1])
    && forall i :: 0 <= i < |s| ==> GroupedAt(s, i)
  }

  /** Position `i` holds a digit, or an underscore followed by a digit. */
  predicate GroupedAt(s: string, i: nat)
    requires i < |s|
  {
    IsDigit(s[i]) || (s[i] == '_' && i + 1 < |s| && IsDigit(s[i + 1]))
  }

  /** The digits of `s`, with its underscores dropped. */
  function DropUnderscores(s: string): (r: string)
    requires forall i :: 0 <= i < |s| ==> IsDigit(s[i]) || s[i] == '_'
    ensures AllDigits(r) && |r| <= |s|
    ensures AllDigits(s) ==> r == s
  {
    if |s| == 0 then ""
    else if s[0] == '_' then DropUnderscores(s[1..])
    else
      assert s == [s[0]] + s[1..];
      [s[0]] + DropUnderscores(s[1..])
  }

  /** The value of grouped digits: that of its digits, underscores skipped. */
  function GroupedValue(g: string): (v: nat)
    requires Grouped(g)
    ensures AllDigits(g) ==> v == DigitsValue(g)
  {
    forall i | 0 <= i < |g| ensures IsDigit(g[i]) || g[i] == '_' {
      assert GroupedAt(g, i);
    }
    DigitsValue(DropUnderscores(g))
  }

  /** An unsigned numeral: grouped digits, nothing else. */
  function ParseUnsigned(s: string): (r: Option<nat>)
    ensures r.Some? <==> Grouped(s)
    ensures r.Some? ==> r.value == GroupedValue(s)
    ensures |s| > 0 && AllDigits(s) ==> r == Some(DigitsValue(s))
  {
    if Grouped(s) then Some(GroupedValue(s)) else None
  }

  /** A character of a signed numeral. */
  predicate NumeralChar(c: char) {
    IsDigit(c) || c == '+' || c == '-' || c == '_'
  }

  /** Python's `int(s)` in base 10: whitespace around the numeral is skipped, then an
      optional `+`/`-` sign and digits with single underscores between them. Anything
      else is rejected. Non-ASCII decimal digits are not accepted. */
  function ParseInt(s: string): (r: Option<int>)
    ensures |s| > 0 && AllDigits(s) ==> r == Some(DigitsValue(s) as int)
    ensures |s| > 1 && s[0] == '-' && AllDigits(s[1..]) ==> r == Some(-(DigitsValue(s[1..]) as int))
    ensures |s| > 1 && s[0] == '+' && AllDigits(s[1..]) ==> r == Some(DigitsValue(s[1..]) as int)
  {
    assert |s| > 1 && !AllDigits(s) ==> s[|s| - 1] == s[1..][|s| - 2];
    assert |s| > 0 && !IsSpace(s[0]) && !IsSpace(s[|s| - 1]) ==> Trim(s) == s;
    ParseNumeral(Trim(s))
  }

  /** The whitespace `int()` skips, one character at a time from either end. */
  function Trim(s: string): string
    decreases |s|
  {
    if |s| > 0 && IsSpace(s[0]) then Trim(s[1..])
    else if |s| > 0 && IsSpace(s[|s| - 1]) then Trim(s[..|s| - 1])
    else s
  }

  /** An optional sign, then grouped digits. */
  predicate Numeral(t: string) {
    Grouped(t) || (|t| > 0 && (t[0] == '-' || t[0] == '+') && Grouped(t[1..]))
  }

  /** The numeral left once the whitespace is stripped: an optional sign, then grouped
      digits. */
  function ParseNumeral(t: string): (r: Option<int>)
    ensures r.Some? <==> Numeral(t)
  {
    if |t| > 0 && (t[0] == '-' || t[0] == '+') then
      match ParseUnsigned(t[1..])
      case Some(v) => Some(if t[0] == '-' then -(v as int) else v as int)
      case None => None
    else
      match ParseUnsigned(t)
      case Some(v) => Some(v as int)
      case None => None
  }

  /** Trimming is `str.strip()`. */
  lemma {:induction false} TrimIsStrip(s: string)
    ensures Trim(s) == Strip(s)
    decreases |s|
  {
    if |s| > 0 && IsSpace(s[0]) {
      TrimIsStrip(s[1..]);
      assert StripLeft(s) == StripLeft(s[1..]);
    } else if |s| > 0 && IsSpace(s[|s| - 1]) {
      var u := s[..|s| - 1];
      TrimIsStrip(u);
      assert |s| > 1;
      assert StripLeft(s) == s;
      assert u[0] == s[0];
      assert StripLeft(u) == u;
      assert StripRight(s) == StripRight(u);
    } else {
      StripNone(s);
    }
  }

  /** `int(s)` reads the numeral that `s.strip()` leaves. */
  lemma ParseIntStrips(s: string)
    ensures ParseInt(s) == ParseNumeral(Strip(s))
  {
    TrimIsStrip(s);
  }

  /** Every character trimming drops is whitespace. */
  lemma {:induction false} TrimCover(s: string)
    ensures forall i :: 0 <= i < |s| ==> IsSpace(s[i]) || s[i] in Trim(s)
    decreases |s|
  {
    if |s| > 0 && IsSpace(s[0]) {
      TrimCover(s[1..]);
      assert forall i :: 1 <= i < |s| ==> s[i] == s[1..][i - 1];
    } else if |s| > 0 && IsSpace(s[|s| - 1]) {
      TrimCover(s[..|s| - 1]);
    }
  }

  /** Whatever `int()` accepts is made of digits, signs, underscores and whitespace. */
  lemma ParseIntAlphabet(s: string)
    ensures ParseInt(s).Some? ==> forall i :: 0 <= i < |s| ==> NumeralChar(s[i]) || IsSpace(s[i])
  {
    if ParseInt(s).Some? {
      NumeralAlphabet(Trim(s));
      TrimCover(s);
    }
  }

  /** A signed numeral holds numeral characters only. */
  lemma NumeralAlphabet(t: string)
    requires Numeral(t)
    ensures forall c :: c in t ==> NumeralChar(c)
  {
    forall k | 0 <= k < |t| ensures NumeralChar(t[k]) {
      if Grouped(t) {
        assert GroupedAt(t, k);
      } else if k > 0 {
        assert GroupedAt(t[1..], k - 1);
      }
    }
  }

  /** Trailing whitespace of any length is trimmed. */
  lemma {:induction false} TrimPaddedRight(t: string, w: string)
    requires AllSpace(w)
    requires |t| > 0 && !IsSpace(t[0]) && !IsSpace(t[|t| - 1])
    ensures Trim(t + w) == t
    decreases |w|
  {
    if |w| > 0 {
      var n := |w| - 1;
      assert (t + w)[0] == t[0];
      assert (t + w)[..|t + w| - 1] == t + w[..n];
      TrimPaddedRight(t, w[..n]);
    } else {
      assert t + w == t;
    }
  }

  /** `int()` skips whitespace of any length around the numeral. */
  lemma {:induction false} ParseIntPadded(w1: string, t: string, w2: string)
    requires AllSpace(w1) && AllSpace(w2)
    requires |t| > 0 && !IsSpace(t[0]) && !IsSpace(t[|t| - 1])
    ensures ParseInt(w1 + t + w2) == ParseInt(t)
    decreases |w1|
  {
    if |w1| > 0 {
      assert (w1 + t + w2)[1..] == w1[1..] + t + w2;
      ParseIntPadded(w1[1..], t, w2);
    } else {
      assert w1 + t + w2 == t + w2;
      TrimPaddedRight(t, w2);
    }
  }

  /** Grouped digits read as the digits without their underscores. */
  lemma ParseGrouped(g: string)
    requires Grouped(g)
    ensures ParseInt(g) == Some(GroupedValue(g) as int)
  {
  }

  /** A sign before grouped digits gives the signed value. */
  lemma ParseSignedGrouped(s: string)
    requires |s| > 1 && (s[0] == '-' || s[0] == '+') && Grouped(s[1..])
    ensures var v := GroupedValue(s[1..]) as int;
      ParseInt(s) == Some(if s[0] == '-' then -v else v)
  {
    assert IsDigit(s[|s| - 1]) by { assert s[|s| - 1] == s[1..][|s| - 2]; }
  }

  /** Underscores between digits are accepted and skipped: `int("1_000") == 1000`. */
  lemma ParseIntUnderscores()
    ensures ParseInt("1_000") == Some(1000)
    ensures ParseInt("-1_000") == Some(-1000)
  {
    var g := "1_000";
    GroupedExample();
    ParseGrouped(g);
    assert "-1_000"[1..] == g;
    ParseSignedGrouped("-1_000");
  }

  lemma GroupedExample()
    ensures Grouped("1_000") && GroupedValue("1_000") == 1000
  {
    var g := "1_000";
    assert GroupedAt(g, 1);
    assert DropUnderscores("000") == "000";
    assert g[1..] == "_000" && "_000"[1..] == "000";
    assert DropUnderscores(g) == "1000";
    assert DigitsValue("1") == 1;
    assert DigitsValue("10") == 10 by { assert "10"[..1] == "1"; }
    assert DigitsValue("100") == 100 by { assert "100"[..2] == "10"; }
    assert DigitsValue("1000") == 1000 by { assert "1000"[..3] == "100"; }
  }

  /** Doubled, leading and trailing underscores are rejected. */
  lemma ParseIntMisplacedUnderscores()
    ensures ParseInt("1__000") == None
    ensures ParseInt("_1") == None
    ensures ParseInt("1_") == None
  {
    assert !GroupedAt("1__000", 1);
  }

  lemma ParseNatStr(n: nat)
    ensures ParseInt(NatStr(n)) == Some(n)
  {
  }

  lemma ParsePad2(n: nat)
    ensures ParseInt(Pad2(n)) == Some(n)
  {
  }

  /** `int(str(i)) == i` for every integer. */
  lemma ParseIntStr(i: int)
    ensures ParseInt(IntStr(i)) == Some(i)
  {
    if i < 0 {
      assert IntStr(i)[1..] == NatStr(-i);
    }
  }
}
