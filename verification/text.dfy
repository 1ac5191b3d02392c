/** String helpers with Python's semantics: whitespace, strip, split and ASCII lower-casing. */
module Text {

  /** Python's `str.isspace()`, which is also what `\s` and `str.strip()` use. */
  predicate IsSpace(c: char) {
    var n := c as int;
    || n == 0x20
    || 0x09 <= n <= 0x0D
    || 0x1C <= n <= 0x1F
    || n == 0x85
    || n == 0xA0
    || n == 0x1680
    || 0x2000 <= n <= 0x200A
    || n == 0x2028
    || n == 0x2029
    || n == 0x202F
    || n == 0x205F
    || n == 0x3000
  }

  /** `s.lstrip()`: drops the longest all-whitespace prefix. */
  function StripLeft(s: string): (r: string)
    ensures |r| <= |s| && r == s[|s| - |r|..]
    ensures forall k :: 0 <= k < |s| - |r| ==> IsSpace(s[k])
    ensures |r| > 0 ==> !IsSpace(r[0])
  {
    if |s| > 0 && IsSpace(s[0]) then StripLeft(s[1..]) else s
  }

  /** `s.rstrip()`: drops the longest all-whitespace suffix. */
  function StripRight(s: string): (r: string)
    ensures |r| <= |s| && r == s[..|r|]
    ensures forall k :: |r| <= k < |s| ==> IsSpace(s[k])
    ensures |r| > 0 ==> !IsSpace(r[|r| - 1])
  {
    if |s| > 0 && IsSpace(s[|s| - 1]) then StripRight(s[..|s| - 1]) else s
  }

  /** `s.strip()`: no whitespace at either end. */
  function Strip(s: string): (r: string)
    ensures |r| <= |s|
    ensures |r| > 0 ==> !IsSpace(r[0]) && !IsSpace(r[|r| - 1])
  {
    StripRight(StripLeft(s))
  }

  /** The stripped text is the slice of `s` that starts after the leading whitespace. */
  lemma StripIsSlice(s: string)
    ensures var i := |s| - |StripLeft(s)|;
      i + |Strip(s)| <= |s| && Strip(s) == s[i..i + |Strip(s)|]
  {
    SuffixThenPrefix(s, StripLeft(s), Strip(s));
  }

  /** A prefix of a suffix of `s` is a slice of `s`. */
  lemma SuffixThenPrefix<T>(s: seq<T>, l: seq<T>, r: seq<T>)
    requires |l| <= |s| && l == s[|s| - |l|..]
    requires |r| <= |l| && r == l[..|r|]
    ensures |s| - |l| + |r| <= |s| && r == s[|s| - |l|..|s| - |l| + |r|]
  {
  }

  /** Text with no whitespace at its ends passes the strip unchanged. */
  lemma StripNone(s: string)
    requires |s| > 0 ==> !IsSpace(s[0]) && !IsSpace(s[|s| - 1])
    ensures Strip(s) == s
  {
    assert StripLeft(s) == s;
    assert StripRight(s) == s;
  }

  predicate AllSpace(w: string) { forall i :: 0 <= i < |w| ==> IsSpace(w[i]) }

  /** ASCII part of `str.lower()`; other letters are left as they are. */
  function LowerChar(c: char): char {
    if 'A' <= c <= 'Z' then (c as int + 32) as char else c
  }

  function Lower(s: string): (r: string)
    ensures |r| == |s|
    ensures forall i :: 0 <= i < |s| ==> r[i] == LowerChar(s[i])
  {
    seq(|s|, i requires 0 <= i < |s| => LowerChar(s[i]))
  }

  lemma LowerIdempotent(s: string)
    ensures Lower(Lower(s)) == Lower(s)
  {
  }

  /** Joins parts with one separator between neighbours, the inverse of Split. */
  function Join(parts: seq<string>, sep: char): string
  {
    if |parts| == 0 then "" else if |parts| == 1 then parts[0] else parts[0] + [sep] + Join(parts[1..], sep)
  }

  /** `s.split(sep)` for a one-character separator: always at least one part, no part
      contains the separator, and joining the parts gives back `s`. */
  function Split(s: string, sep: char): (parts: seq<string>)
    ensures |parts| >= 1
    ensures forall i :: 0 <= i < |parts| ==> sep !in parts[i]
    ensures Join(parts, sep) == s
    ensures |parts| == 1 <==> sep !in s
  {
    if |s| == 0 then [""]
    else
      var rest := Split(s[1..], sep);
      if s[0] == sep then
        assert s == [sep] + s[1..];
        [""] + rest
      else
        assert s == [s[0]] + s[1..];
        assert Join([[s[0]] + rest[0]] + rest[1..], sep) == [s[0]] + Join(rest, sep) by {
          if |rest| > 1 {
            assert ([[s[0]] + rest[0]] + rest[1..])[1..] == rest[1..];
          }
        }
        [[s[0]] + rest[0]] + rest[1..]
  }

  lemma {:induction false} SplitNoSep(a: string, sep: char)
    requires sep !in a
    ensures Split(a, sep) == [a]
  {
  }

  /** A part free of the separator followed by the separator is peeled off whole. */
  lemma {:induction false} SplitCons(a: string, rest: string, sep: char)
    requires sep !in a
    ensures Split(a + [sep] + rest, sep) == [a] + Split(rest, sep)
  {
    if |a| == 0 {
      assert a + [sep] + rest == [sep] + rest;
      assert ([sep] + rest)[1..] == rest;
    } else {
      assert (a + [sep] + rest)[1..] == a[1..] + [sep] + rest;
      SplitCons(a[1..], rest, sep);
      assert [a[0]] + a[1..] == a;
    }
  }

  /** Splitting three separator-free parts joined by the separator recovers them. */
  lemma SplitThree(a: string, b: string, c: string, sep: char)
    requires sep !in a && sep !in b && sep !in c
    ensures Split(a + [sep] + b + [sep] + c, sep) == [a, b, c]
  {
    var bc := b + [sep] + c;
    assert a + [sep] + b + [sep] + c == a + [sep] + bc;
    SplitNoSep(c, sep);
    SplitCons(b, c, sep);
    assert Split(bc, sep) == [b, c];
    SplitCons(a, bc, sep);
    assert Split(a + [sep] + bc, sep) == [a] + [b, c];
  }
}
