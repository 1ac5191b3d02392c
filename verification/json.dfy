/** Decoded JSON values as the client receives them from Python's `json` module,
    with Python's truthiness, `dict.get` and iteration. JSON numbers are integers
    in this model. Objects keep their keys in document order. */
module Json {
  import opened Base

  datatype Json =
    | JNull
    | JBool(b: bool)
    | JNum(n: int)
    | JStr(s: string)
    | JArr(items: seq<Json>)
    | JObj(fields: seq<(string, Json)>)

  const EmptyObj: Json := JObj([])
  const EmptyArr: Json := JArr([])

  /** Python's `bool(value)`. */
  function Truthy(j: Json): (r: bool)
    // false exactly for None, False, 0 and the empty string, list and dictionary
    ensures r <==> j != JNull && j != JBool(false) && j != JNum(0) && j != JStr("") && j != JArr([]) && j != JObj([])
  {
    match j
    case JNull => false
    case JBool(b) => b
    case JNum(n) => n != 0
    case JStr(s) => |s| > 0
    case JArr(a) => |a| > 0
    case JObj(f) => |f| > 0
  }

  predicate HasKey(fields: seq<(string, Json)>, key: string) {
    exists i :: 0 <= i < |fields| && fields[i].0 == key
  }

  /** The value stored under `key`, if any (the first one: decoded objects have distinct keys). */
  function Lookup(fields: seq<(string, Json)>, key: string): (r: Option<Json>)
    ensures r.Some? <==> HasKey(fields, key)
    ensures r.Some? ==> exists i :: 0 <= i < |fields| && fields[i] == (key, r.value)
  {
    if |fields| == 0 then None
    else if fields[0].0 == key then Some(fields[0].1)
    else
      var r := Lookup(fields[1..], key);
      assert HasKey(fields[1..], key) ==> HasKey(fields, key) by {
        if HasKey(fields[1..], key) {
          var i :| 0 <= i < |fields[1..]| && fields[1..][i].0 == key;
          assert fields[i + 1].0 == key;
        }
      }
      assert r.Some? ==> exists i :: 0 <= i < |fields| && fields[i] == (key, r.value) by {
        if r.Some? {
          var i :| 0 <= i < |fields[1..]| && fields[1..][i] == (key, r.value);
          assert fields[i + 1] == (key, r.value);
        }
      }
      r
  }

  /** `key in obj` for a dictionary; false for any other value. */
  predicate Has(j: Json, key: string) {
    j.JObj? && HasKey(j.fields, key)
  }

  /** `obj.get(key, default)` on a dictionary. */
  function Get(j: Json, key: string, default: Json): (r: Json)
    requires j.JObj?
    ensures !Has(j, key) ==> r == default
  {
    Lookup(j.fields, key).GetOr(default)
  }

  /** A number as Python compares it: `bool` is a subclass of `int`. */
  function AsNumber(j: Json): (r: Option<int>)
    ensures r.Some? <==> j.JNum? || j.JBool?
    ensures j.JNum? ==> r == Some(j.n)
    // `int(True)` is 1 and `int(False)` is 0: the number is non-zero iff the value is true
    ensures r.Some? ==> (r.value != 0 <==> Truthy(j))
  {
    match j
    case JNum(n) => Some(n)
    case JBool(b) => Some(if b then 1 else 0)
    case _ => None
  }

  /** The keys of an object, as iterating a dictionary yields them. */
  function KeysOf(fields: seq<(string, Json)>): (r: seq<Json>)
    ensures |r| == |fields|
    ensures forall i :: 0 <= i < |r| ==> r[i] == JStr(fields[i].0)
  {
    seq(|fields|, i requires 0 <= i < |fields| => JStr(fields[i].0))
  }

  /** The elements `for x in value` visits: list items, dictionary keys, or the
      one-character strings of a string. None means iteration raises TypeError. */
  function Elements(j: Json): (r: Option<seq<Json>>)
    ensures r.Some? <==> j.JArr? || j.JObj? || j.JStr?
    ensures j.JArr? ==> r == Some(j.items)
  {
    match j
    case JArr(items) => Some(items)
    case JObj(fields) => Some(KeysOf(fields))
    case JStr(s) => Some(seq(|s|, i requires 0 <= i < |s| => JStr([s[i]])))
    case _ => None
  }

  /** Values that `len()` accepts; the others raise TypeError. */
  predicate Sized(j: Json) { j.JArr? || j.JObj? || j.JStr? }

  /** Looking a key up in two concatenated field lists consults the first list first. */
  lemma {:induction false} LookupAppend(xs: seq<(string, Json)>, ys: seq<(string, Json)>, key: string)
    ensures Lookup(xs + ys, key) == if HasKey(xs, key) then Lookup(xs, key) else Lookup(ys, key)
  {
    if |xs| > 0 {
      assert (xs + ys)[1..] == xs[1..] + ys;
      LookupAppend(xs[1..], ys, key);
      if xs[0].0 != key && HasKey(xs, key) {
        var i :| 0 <= i < |xs| && xs[i].0 == key;
        assert xs[1..][i - 1].0 == key;
      }
    } else {
      assert xs + ys == ys;
    }
  }

  lemma LookupCons(k: string, v: Json, rest: seq<(string, Json)>, key: string)
    ensures Lookup([(k, v)] + rest, key) == if k == key then Some(v) else Lookup(rest, key)
  {
    assert ([(k, v)] + rest)[1..] == rest;
  }

  /** A key whose first occurrence is at index `i` looks up the value stored there. */
  lemma {:induction false} LookupAt(fields: seq<(string, Json)>, i: nat)
    requires i < |fields|
    requires forall j :: 0 <= j < i ==> fields[j].0 != fields[i].0
    ensures Lookup(fields, fields[i].0) == Some(fields[i].1)
  {
    if i > 0 {
      assert fields[1..][i - 1] == fields[i];
      LookupAt(fields[1..], i - 1);
    }
  }
}
