/** `calculate_streaks` of litepop_wrapup.py: runs of consecutive listening days.
    Days are integer day numbers (`datetime.date()` of each session's time); the
    conversion from times to local dates is left to the caller. */
module Streaks {
  import opened Base
  import opened Ranking

  /** A run of consecutive days, both ends included. */
  datatype Streak = Streak(start: int, end: int, length: int)

  function LengthKey(s: Streak): real { s.length as real }

  predicate Ascending(s: seq<int>) {
    forall i, j :: 0 <= i < j < |s| ==> s[i] <= s[j]
  }

  predicate StrictlyAscending(s: seq<int>) {
    forall i, j :: 0 <= i < j < |s| ==> s[i] < s[j]
  }

  /** A genuine streak of the listening days `days`: at least two days long, its
      length is its span, and every day of the span has a session. */
  predicate Covered(s: Streak, days: seq<int>) {
    && s.length >= 2
    && s.length == s.end - s.start + 1
    && forall k :: s.start <= k <= s.end ==> k in days
  }

  function Neg(d: int): real { -(d as real) }

  /** `sorted(sessions)`, on days. */
  function SortAsc(days: seq<int>): (r: seq<int>)
    ensures multiset(r) == multiset(days) && |r| == |days|
    ensures Ascending(r)
  {
    var r := SortDesc(days, Neg);
    assert forall i, j :: 0 <= i < j < |r| ==> Neg(r[i]) >= Neg(r[j]);
    r
  }

  /** The streak being counted, if it is long enough to be kept. */
  function Close(start: int, prev: int, cur: int): seq<Streak> {
    if cur >= 2 then [Streak(start, prev, cur)] else []
  }

  /** The scan of `calculate_streaks` from the day `prev` on, with the current
      streak of `cur` days that began on `start`: the streaks closed, in order. A
      one-day step extends the streak, a longer gap closes it and starts a new one,
      and a repeated day does neither. */
  function Runs(prev: int, rest: seq<int>, cur: int, start: int): (r: seq<Streak>)
    ensures forall i :: 0 <= i < |r| ==> r[i].length >= 2
    decreases |rest|
  {
    if |rest| == 0 then Close(start, prev, cur)
    else
      var d := rest[0];
      if d - prev == 1 then Runs(d, rest[1..], cur + 1, start)
      else if d - prev > 1 then Close(start, prev, cur) + Runs(d, rest[1..], 1, d)
      else Runs(d, rest[1..], cur, start)
  }

  /** Every streak the scan closes is a genuine one: `seen` holds the days scanned
      so far, which cover the current streak. */
  lemma {:induction false} RunsCovered(prev: int, rest: seq<int>, cur: int, start: int, seen: seq<int>)
    requires 1 <= cur && cur == prev - start + 1
    requires Ascending(rest) && forall i :: 0 <= i < |rest| ==> prev <= rest[i]
    requires forall k :: start <= k <= prev ==> k in seen
    ensures forall i :: 0 <= i < |Runs(prev, rest, cur, start)| ==> Covered(Runs(prev, rest, cur, start)[i], seen + rest)
    decreases |rest|
  {
    var closed := Close(start, prev, cur);
    assert forall i :: 0 <= i < |closed| ==> Covered(closed[i], seen + rest);
    if |rest| > 0 {
      var d := rest[0];
      var seen' := seen + [d];
      assert seen' + rest[1..] == seen + rest;
      if d - prev == 1 {
        RunsCovered(d, rest[1..], cur + 1, start, seen');
      } else if d - prev > 1 {
        RunsCovered(d, rest[1..], 1, d, seen');
        var later := Runs(d, rest[1..], 1, d);
        assert Runs(prev, rest, cur, start) == closed + later;
      } else {
        RunsCovered(d, rest[1..], cur, start, seen');
      }
    }
  }

  /** A run of listening days that cannot be extended at either end, at least two
      days long. */
  predicate MaximalRun(a: int, b: int, days: seq<int>) {
    && a < b
    && (forall k :: a <= k <= b ==> k in days)
    && a - 1 !in days
    && b + 1 !in days
  }

  /** No streak of `ss` can be extended by a day of `days` at either end. */
  predicate Unextendable(ss: seq<Streak>, days: seq<int>) {
    forall i :: 0 <= i < |ss| ==> ss[i].start - 1 !in days && ss[i].end + 1 !in days
  }

  lemma UnextendableConcat(xs: seq<Streak>, ys: seq<Streak>, days: seq<int>)
    requires Unextendable(xs, days) && Unextendable(ys, days)
    ensures Unextendable(xs + ys, days)
  {
    assert forall i :: |xs| <= i < |xs + ys| ==> (xs + ys)[i] == ys[i - |xs|];
  }

  /** Every streak the scan closes cannot be extended: the day before its start and
      the day after its end have no session. */
  lemma {:induction false} RunsMaximal(prev: int, rest: seq<int>, cur: int, start: int, seen: seq<int>)
    requires start <= prev
    requires Ascending(rest) && forall i :: 0 <= i < |rest| ==> prev <= rest[i]
    requires forall i :: 0 <= i < |seen| ==> seen[i] <= prev
    requires start - 1 !in seen
    ensures Unextendable(Runs(prev, rest, cur, start), seen + rest)
    decreases |rest|
  {
    if |rest| == 0 {
      CloseMaximal(prev, rest, cur, start, seen);
    } else {
      var d := rest[0];
      var seen' := seen + [d];
      assert seen' + rest[1..] == seen + rest;
      if d - prev == 1 {
        RunsMaximal(d, rest[1..], cur + 1, start, seen');
      } else if d - prev > 1 {
        RunsMaximal(d, rest[1..], 1, d, seen');
        CloseMaximal(prev, rest, cur, start, seen);
        UnextendableConcat(Close(start, prev, cur), Runs(d, rest[1..], 1, d), seen + rest);
      } else {
        RunsMaximal(d, rest[1..], cur, start, seen');
      }
    }
  }

  /** A streak closed before a gap (or at the end) cannot be extended. */
  lemma CloseMaximal(prev: int, rest: seq<int>, cur: int, start: int, seen: seq<int>)
    requires start <= prev
    requires Ascending(rest) && (|rest| == 0 || rest[0] - prev > 1)
    requires forall i :: 0 <= i < |seen| ==> seen[i] <= prev
    requires start - 1 !in seen
    ensures Unextendable(Close(start, prev, cur), seen + rest)
  {
    assert forall j :: 0 <= j < |rest| ==> rest[0] <= rest[j];
  }

  /** Within a maximal run that meets the current streak, the run is that streak. */
  lemma CurrentRun(prev: int, start: int, u: seq<int>, a: int, b: int)
    requires forall k :: start <= k <= prev ==> k in u
    requires start <= a <= prev && prev + 1 !in u
    requires MaximalRun(a, b, u)
    ensures a == start && b == prev
  {
  }

  /** Every maximal run that starts no earlier than the current streak is closed by
      the scan. */
  lemma {:induction false} RunsComplete(prev: int, rest: seq<int>, cur: int, start: int, seen: seq<int>, a: int, b: int)
    requires cur == prev - start + 1 && start <= prev
    requires Ascending(rest) && forall i :: 0 <= i < |rest| ==> prev <= rest[i]
    requires forall i :: 0 <= i < |seen| ==> seen[i] <= prev
    requires forall k :: start <= k <= prev ==> k in seen
    requires MaximalRun(a, b, seen + rest) && start <= a
    ensures Streak(a, b, b - a + 1) in Runs(prev, rest, cur, start)
    decreases |rest|
  {
    var u := seen + rest;
    if |rest| == 0 {
      assert u == seen;
      assert a in seen;
      CurrentRun(prev, start, u, a, b);
    } else {
      var d := rest[0];
      var seen' := seen + [d];
      assert seen' + rest[1..] == u;
      if d - prev == 1 {
        RunsComplete(d, rest[1..], cur + 1, start, seen', a, b);
      } else if d - prev > 1 {
        var later := Runs(d, rest[1..], 1, d);
        assert Runs(prev, rest, cur, start) == Close(start, prev, cur) + later;
        assert forall j :: 0 <= j < |rest| ==> d <= rest[j];
        if a >= d {
          RunsComplete(d, rest[1..], 1, d, seen', a, b);
          assert Streak(a, b, b - a + 1) in later;
        } else {
          assert a in u;
          assert a in seen;
          assert prev + 1 !in u;
          CurrentRun(prev, start, u, a, b);
        }
      } else {
        RunsComplete(d, rest[1..], cur, start, seen', a, b);
      }
    }
  }

  /** The scan over the sorted days, before ranking. */
  function AllStreaks(days: seq<int>): (r: seq<Streak>)
    requires |days| > 0
    ensures forall i :: 0 <= i < |r| ==> r[i].length >= 2
  {
    var d := SortAsc(days);
    Runs(d[0], d[1..], 1, d[0])
  }

  lemma AllStreaksCovered(days: seq<int>)
    requires |days| > 0
    ensures forall i :: 0 <= i < |AllStreaks(days)| ==> Covered(AllStreaks(days)[i], days)
  {
    var d := SortAsc(days);
    SortedCovered(d);
    CoveredByPermutation(AllStreaks(days), d, days);
  }

  lemma SortedCovered(d: seq<int>)
    requires |d| > 0 && Ascending(d)
    ensures forall i :: 0 <= i < |Runs(d[0], d[1..], 1, d[0])| ==> Covered(Runs(d[0], d[1..], 1, d[0])[i], d)
  {
    assert [d[0]] + d[1..] == d;
    RunsCovered(d[0], d[1..], 1, d[0], [d[0]]);
  }

  lemma CoveredByPermutation(streaks: seq<Streak>, d: seq<int>, days: seq<int>)
    requires multiset(d) == multiset(days)
    requires forall i :: 0 <= i < |streaks| ==> Covered(streaks[i], d)
    ensures forall i :: 0 <= i < |streaks| ==> Covered(streaks[i], days)
  {
    forall k | k in d
      ensures k in days
    {
      assert k in multiset(d);
    }
  }

  /** `calculate_streaks`: the five longest streaks, longest first. */
  function Streaks(days: seq<int>): (r: seq<Streak>)
    ensures |days| == 0 ==> r == []
    ensures |r| <= 5
    ensures NonIncreasing(r, LengthKey)
    ensures forall i :: 0 <= i < |r| ==> Covered(r[i], days)
    // the five longest of all the streaks the scan finds, or all of them when fewer
    ensures |days| > 0 ==> |r| == Min(5, |AllStreaks(days)|)
    ensures |days| > 0 ==> multiset(r) <= multiset(AllStreaks(days))
    ensures |days| > 0 ==> forall i, j ::
      && 0 <= i < |r| && 0 <= j < |AllStreaks(days)|
      && multiset(r)[AllStreaks(days)[j]] < multiset(AllStreaks(days))[AllStreaks(days)[j]]
      ==> AllStreaks(days)[j].length <= r[i].length
  {
    if |days| == 0 then []
    else
      AllStreaksCovered(days);
      Top(AllStreaks(days), LengthKey, 5)
  }

  /** The streaks found are exactly the maximal runs of two days or more. */
  lemma StreakIffMaximal(days: seq<int>, s: Streak)
    requires |days| > 0
    ensures s in AllStreaks(days) <==> MaximalRun(s.start, s.end, days) && s.length == s.end - s.start + 1
  {
    if s in AllStreaks(days) {
      AllStreaksCovered(days);
      AllStreaksMaximal(days);
      var i :| 0 <= i < |AllStreaks(days)| && AllStreaks(days)[i] == s;
      assert Covered(AllStreaks(days)[i], days);
    }
    if MaximalRun(s.start, s.end, days) && s.length == s.end - s.start + 1 {
      AllStreaksComplete(days, s.start, s.end);
    }
  }

  /** No streak found can be extended by a listening day. */
  lemma AllStreaksMaximal(days: seq<int>)
    requires |days| > 0
    ensures Unextendable(AllStreaks(days), days)
  {
    var d := SortAsc(days);
    SortedMaximal(d);
    PermutationElements(d, days);
    UnextendableSameElements(AllStreaks(days), d, days);
  }

  lemma SortedMaximal(d: seq<int>)
    requires |d| > 0 && Ascending(d)
    ensures Unextendable(Runs(d[0], d[1..], 1, d[0]), d)
  {
    assert [d[0]] + d[1..] == d;
    RunsMaximal(d[0], d[1..], 1, d[0], [d[0]]);
  }

  lemma UnextendableSameElements(ss: seq<Streak>, u: seq<int>, v: seq<int>)
    requires forall x :: x in u <==> x in v
    requires Unextendable(ss, u)
    ensures Unextendable(ss, v)
  {
  }

  /** Every maximal run of two days or more is found. */
  lemma AllStreaksComplete(days: seq<int>, a: int, b: int)
    requires |days| > 0 && MaximalRun(a, b, days)
    ensures Streak(a, b, b - a + 1) in AllStreaks(days)
  {
    var d := SortAsc(days);
    PermutationElements(days, d);
    MaximalRunSameElements(a, b, days, d);
    SortedComplete(d, a, b);
  }

  lemma SortedComplete(d: seq<int>, a: int, b: int)
    requires |d| > 0 && Ascending(d) && MaximalRun(a, b, d)
    ensures Streak(a, b, b - a + 1) in Runs(d[0], d[1..], 1, d[0])
  {
    assert [d[0]] + d[1..] == d;
    assert a in d;
    var i :| 0 <= i < |d| && d[i] == a;
    assert d[0] <= a;
    var rest := d[1..];
    assert forall j :: 0 <= j < |rest| ==> d[0] <= rest[j] by {
      forall j | 0 <= j < |rest| ensures d[0] <= rest[j] {
        assert rest[j] == d[j + 1];
      }
    }
    RunsComplete(d[0], rest, 1, d[0], [d[0]], a, b);
  }

  lemma MaximalRunSameElements(a: int, b: int, u: seq<int>, v: seq<int>)
    requires forall x :: x in u <==> x in v
    requires MaximalRun(a, b, u)
    ensures MaximalRun(a, b, v)
  {
  }

  /** A maximal run left out of the report means five streaks were kept, each at
      least as long as it. */
  lemma StreaksKeepLongest(days: seq<int>, a: int, b: int)
    requires |days| > 0 && MaximalRun(a, b, days)
    requires Streak(a, b, b - a + 1) !in Streaks(days)
    ensures |Streaks(days)| == 5
    ensures forall i :: 0 <= i < 5 ==> Streaks(days)[i].length >= b - a + 1
  {
    var all, r, x := AllStreaks(days), Streaks(days), Streak(a, b, b - a + 1);
    AllStreaksComplete(days, a, b);
    var j :| 0 <= j < |all| && all[j] == x;
    assert multiset(r)[x] == 0;
    assert multiset(r) != multiset(all);
    if |all| <= 5 {
      assert |multiset(r)| == |multiset(all)|;
      SubMultisetSameSize(multiset(r), multiset(all));
    }
  }

  lemma SubMultisetSameSize(m1: multiset<Streak>, m2: multiset<Streak>)
    requires m1 <= m2 && |m1| == |m2|
    ensures m1 == m2
  {
    assert m2 == m1 + (m2 - m1);
  }

  // ---------------------------------------------------------------------------
  // Repeated days

  /** Drops every day equal to the one before it. */
  function Dedup(prev: int, rest: seq<int>): seq<int>
    decreases |rest|
  {
    if |rest| == 0 then []
    else if rest[0] == prev then Dedup(prev, rest[1..])
    else [rest[0]] + Dedup(rest[0], rest[1..])
  }

  /** A repeated day never changes the scan. */
  lemma {:induction false} RunsDedup(prev: int, rest: seq<int>, cur: int, start: int)
    ensures Runs(prev, rest, cur, start) == Runs(prev, Dedup(prev, rest), cur, start)
    decreases |rest|
  {
    if |rest| > 0 {
      var d := rest[0];
      if d == prev {
        RunsDedup(prev, rest[1..], cur, start);
      } else {
        var tail := Dedup(d, rest[1..]);
        assert Dedup(prev, rest) == [d] + tail;
        assert ([d] + tail)[1..] == tail;
        if d - prev == 1 {
          RunsDedup(d, rest[1..], cur + 1, start);
        } else if d - prev > 1 {
          RunsDedup(d, rest[1..], 1, d);
        } else {
          RunsDedup(d, rest[1..], cur, start);
        }
      }
    }
  }

  /** On ascending days, the repeats removed leave the distinct days in strictly
      ascending order. */
  lemma {:induction false} DedupFacts(prev: int, rest: seq<int>)
    requires Ascending(rest) && forall i :: 0 <= i < |rest| ==> prev <= rest[i]
    ensures StrictlyAscending(Dedup(prev, rest))
    ensures forall i :: 0 <= i < |Dedup(prev, rest)| ==> prev < Dedup(prev, rest)[i]
    ensures forall x :: x in Dedup(prev, rest) <==> x in rest && x != prev
    decreases |rest|
  {
    if |rest| > 0 {
      var d := rest[0];
      assert forall x :: x in rest <==> x == d || x in rest[1..];
      if d == prev {
        DedupFacts(prev, rest[1..]);
      } else {
        DedupFacts(d, rest[1..]);
        var tail := Dedup(d, rest[1..]);
        assert Dedup(prev, rest) == [d] + tail;
      }
    }
  }

  lemma SameElementsSameEmptiness(a: seq<int>, b: seq<int>)
    requires forall x :: x in a <==> x in b
    ensures |a| == 0 <==> |b| == 0
  {
    if |a| > 0 {
      var x := a[0];
      assert x in a;
      assert x in b;
    }
    if |b| > 0 {
      var x := b[0];
      assert x in b;
      assert x in a;
    }
  }

  /** Two strictly ascending sequences with the same elements are equal. */
  lemma {:induction false} StrictlyAscendingUnique(a: seq<int>, b: seq<int>)
    requires StrictlyAscending(a) && StrictlyAscending(b)
    requires forall x :: x in a <==> x in b
    ensures a == b
    decreases |a|
  {
    SameElementsSameEmptiness(a, b);
    if |a| > 0 {
      assert a[0] in a;
      assert a[0] in b;
      assert b[0] in b;
      assert b[0] in a;
      var j :| 0 <= j < |b| && b[j] == a[0];
      assert a[0] == b[0];
      forall x
        ensures x in a[1..] <==> x in b[1..]
      {
        assert x in a <==> x == a[0] || x in a[1..];
        assert x in b <==> x == b[0] || x in b[1..];
        if x in a[1..] {
          var k :| 0 <= k < |a[1..]| && a[1..][k] == x;
          assert a[k + 1] == x;
        }
        if x in b[1..] {
          var k :| 0 <= k < |b[1..]| && b[1..][k] == x;
          assert b[k + 1] == x;
        }
      }
      StrictlyAscendingUnique(a[1..], b[1..]);
      assert a == [a[0]] + a[1..] && b == [b[0]] + b[1..];
    }
  }

  /** The distinct listening days, ascending. */
  function DistinctDays(days: seq<int>): (c: seq<int>)
    requires |days| > 0
  {
    var d := SortAsc(days);
    [d[0]] + Dedup(d[0], d[1..])
  }

  lemma DistinctDaysFacts(days: seq<int>)
    requires |days| > 0
    ensures StrictlyAscending(DistinctDays(days))
    ensures forall x :: x in DistinctDays(days) <==> x in days
  {
    var d := SortAsc(days);
    DedupFacts(d[0], d[1..]);
    HeadTailElements(d);
    PermutationElements(d, days);
  }

  lemma HeadTailElements(d: seq<int>)
    requires |d| > 0
    ensures forall x :: x in d <==> x == d[0] || x in d[1..]
  {
    assert d == [d[0]] + d[1..];
  }

  /** A permutation has the same elements. */
  lemma PermutationElements(a: seq<int>, b: seq<int>)
    requires multiset(a) == multiset(b)
    ensures forall x :: x in a <==> x in b
  {
    forall x
      ensures x in a <==> x in b
    {
      assert x in a <==> x in multiset(a);
      assert x in b <==> x in multiset(b);
    }
  }

  /** The streaks are those of the distinct days. */
  lemma StreaksOfDistinct(days: seq<int>)
    requires |days| > 0
    ensures var c := DistinctDays(days);
      Streaks(days) == Top(Runs(c[0], c[1..], 1, c[0]), LengthKey, 5)
  {
    var d := SortAsc(days);
    RunsDedup(d[0], d[1..], 1, d[0]);
    assert AllStreaks(days) == Runs(d[0], d[1..], 1, d[0]);
    var c := DistinctDays(days);
    assert c[1..] == Dedup(d[0], d[1..]);
  }

  /** Only the set of listening days matters: several sessions on one day neither
      extend nor break a streak. */
  lemma StreaksSameDays(days1: seq<int>, days2: seq<int>)
    requires forall x :: x in days1 <==> x in days2
    ensures Streaks(days1) == Streaks(days2)
  {
    SameElementsSameEmptiness(days1, days2);
    if |days1| > 0 {
      DistinctDaysFacts(days1);
      DistinctDaysFacts(days2);
      StrictlyAscendingUnique(DistinctDays(days1), DistinctDays(days2));
      StreaksOfDistinct(days1);
      StreaksOfDistinct(days2);
    }
  }

  /** One more session on a day that already has one changes nothing. */
  lemma SameDayIgnored(days: seq<int>, x: int)
    requires x in days
    ensures Streaks(days + [x]) == Streaks(days)
  {
    StreaksSameDays(days + [x], days);
  }
}
