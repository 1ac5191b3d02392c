/** The analysis of litepop_wrapup.py ("Podcast Wrapped"): which fetched episode
    actions count, how "play" actions group into listening sessions per episode,
    the per-podcast summary, and the rankings built from it. Times are integer
    seconds. Timestamp parsing, `int(float(...))` on text, the feed-title lookup of
    `get_podcast_metadata` and the calendar (weekday, hour, date of a time) are
    parameters. */
module Wrapped {
  import opened Base
  import opened Text
  import opened Json
  import opened Ranking
  import opened Streaks

  // ---------------------------------------------------------------------------
  // get_episode_actions

  /** The actions of a decoded reply: a list as it is, a dictionary's "actions"
      list. Anything else yields no dictionary to keep, or makes the fetch fail,
      which also returns no actions. */
  function ActionList(data: Json): (r: seq<Json>)
    // a list is taken whole; otherwise the actions come from a dictionary's "actions" list
    ensures data.JArr? ==> r == data.items
    ensures !data.JArr? && |r| > 0 ==> data.JObj? && Get(data, "actions", EmptyArr) == JArr(r)
  {
    match data
    case JArr(items) => items
    case JObj(_) =>
      (match Get(data, "actions", EmptyArr)
       case JArr(items) => items
       case _ => [])
    case _ => []
  }

  /** The time of an action's "timestamp" under the fetch's rule: ISO 8601 when the
      text contains 'T', seconds since the epoch otherwise. None when it is missing,
      empty, not text, or does not parse. */
  function StampTime(a: Json, parseIso: string -> Option<int>, parseEpoch: string -> Option<int>): Option<int>
    requires a.JObj?
  {
    match Get(a, "timestamp", JStr(""))
    case JStr(s) => if |s| == 0 then None else if 'T' in s then parseIso(s) else parseEpoch(s)
    case _ => None
  }

  /** An action the fetch keeps: a dictionary whose timestamp is at or after the cutoff. */
  predicate Recent(a: Json, cutoff: int, parseIso: string -> Option<int>, parseEpoch: string -> Option<int>) {
    a.JObj? && StampTime(a, parseIso, parseEpoch).Some? && StampTime(a, parseIso, parseEpoch).value >= cutoff
  }

  /** `a` is `b` with some elements left out. */
  predicate Subsequence<T(==)>(a: seq<T>, b: seq<T>)
    decreases |b|
  {
    if |a| == 0 then true
    else if |b| == 0 then false
    else (a[0] == b[0] && Subsequence(a[1..], b[1..])) || Subsequence(a, b[1..])
  }

  /** The filtering loop of `get_episode_actions`. */
  function KeepRecent(xs: seq<Json>, cutoff: int, parseIso: string -> Option<int>, parseEpoch: string -> Option<int>): (r: seq<Json>)
    ensures Subsequence(r, xs)
    ensures forall i :: 0 <= i < |r| ==> Recent(r[i], cutoff, parseIso, parseEpoch)
    // every qualifying action is kept, as often as it occurs
    ensures forall x :: multiset(r)[x] == if Recent(x, cutoff, parseIso, parseEpoch) then multiset(xs)[x] else 0
  {
    if |xs| == 0 then []
    else
      var rest := KeepRecent(xs[1..], cutoff, parseIso, parseEpoch);
      assert xs == [xs[0]] + xs[1..];
      if Recent(xs[0], cutoff, parseIso, parseEpoch) then
        assert ([xs[0]] + rest)[1..] == rest;
        [xs[0]] + rest
      else
        rest
  }

  /** `get_episode_actions` on the decoded reply `data`, with the cutoff time. */
  function FetchActions(data: Json, cutoff: int, parseIso: string -> Option<int>, parseEpoch: string -> Option<int>): (r: seq<Json>)
    ensures Subsequence(r, ActionList(data))
    ensures forall i :: 0 <= i < |r| ==>
      && r[i].JObj?
      && Get(r[i], "timestamp", JStr("")).JStr?
      && |Get(r[i], "timestamp", JStr("")).s| > 0
      && StampTime(r[i], parseIso, parseEpoch).Some?
      && StampTime(r[i], parseIso, parseEpoch).value >= cutoff
    ensures forall i :: 0 <= i < |ActionList(data)| && Recent(ActionList(data)[i], cutoff, parseIso, parseEpoch) ==>
      ActionList(data)[i] in r
  {
    var xs := ActionList(data);
    var r := KeepRecent(xs, cutoff, parseIso, parseEpoch);
    forall i | 0 <= i < |xs| && Recent(xs[i], cutoff, parseIso, parseEpoch)
      ensures xs[i] in r
    {
      assert xs[i] in multiset(xs);
      assert xs[i] in multiset(r);
    }
    r
  }

  // ---------------------------------------------------------------------------
  // analyze_listening_patterns: the pass over the actions

  /** One listening session of an episode: its start, the time of its latest
      action, the position it opened with, the furthest position and the total
      recorded when it opened. */
  datatype Session = Session(time: int, endTime: int, position: int, maxPosition: int, total: int)

  /** The statistics of one episode: the title of its podcast and its sessions. */
  datatype EpisodeStats = EpisodeStats(podcast: string, sessions: seq<Session>)

  /** An episode is identified by its podcast URL and its episode URL. */
  type Key = (string, string)

  /** The pass's state: episodes in order of first play action, their statistics,
      and the number of "download" actions. */
  datatype Tally = Tally(order: seq<Key>, episodes: map<Key, EpisodeStats>, downloads: nat)

  const NoTally := Tally([], map[], 0)

  /** Gaps shorter than this many seconds continue a session. */
  const SessionGap := 3600

  ghost predicate Valid(t: Tally) {
    && (forall k :: k in t.episodes <==> k in t.order)
    && (forall i, j :: 0 <= i < j < |t.order| ==> t.order[i] != t.order[j])
  }

  /** A text field, "" when missing. A value that is not text counts as missing. */
  function Field(a: Json, key: string): string
    requires a.JObj?
  {
    match Get(a, key, JStr(""))
    case JStr(s) => s
    case _ => ""
  }

  /** `action.get(key) or 0` followed by `int(float(value))`; None where that raises. */
  function Number(a: Json, key: string, toInt: string -> Option<int>): (r: Option<int>)
    requires a.JObj?
    // a missing or false value is 0, a number is itself, true is 1
    ensures !Truthy(Get(a, key, JNull)) ==> r == Some(0)
    ensures AsNumber(Get(a, key, JNull)).Some? ==> r == AsNumber(Get(a, key, JNull))
    // only text that does not convert, a list or a dictionary fails
    ensures r.None? ==>
      || (Get(a, key, JNull).JStr? && toInt(Get(a, key, JNull).s).None?)
      || Get(a, key, JNull).JArr? || Get(a, key, JNull).JObj?
  {
    var v := Get(a, key, JNull);
    if !Truthy(v) then Some(0)
    else match v
      case JNum(n) => Some(n)
      case JBool(_) => Some(1)
      case JStr(s) => toInt(s)
      case _ => None
  }

  /** Position and total of a play action: both zero when either fails to convert. */
  function Amounts(a: Json, toInt: string -> Option<int>): (r: (int, int))
    requires a.JObj?
    ensures Number(a, "position", toInt).Some? && Number(a, "total", toInt).Some? ==>
      r == (Number(a, "position", toInt).value, Number(a, "total", toInt).value)
    ensures Number(a, "position", toInt).None? || Number(a, "total", toInt).None? ==> r == (0, 0)
  {
    var p := Number(a, "position", toInt);
    var t := Number(a, "total", toInt);
    if p.Some? && t.Some? then (p.value, t.value) else (0, 0)
  }

  /** The time a play action is grouped by: only ISO 8601 text is read here, and a
      failure skips the grouping. */
  function PlayTime(a: Json, parseIso: string -> Option<int>): Option<int>
    requires a.JObj?
  {
    match Get(a, "timestamp", JNull)
    case JStr(s) => if |s| == 0 then None else parseIso(s)
    case _ => None
  }

  /** Sessions start at least `SessionGap` seconds after the session before. */
  predicate Spaced(s: seq<Session>) {
    forall i :: 0 <= i < |s| - 1 ==> s[i + 1].time - s[i].time >= SessionGap
  }

  /** A timestamped play at time `t`: it joins the last session when fewer than
      `SessionGap` seconds have passed since that session STARTED (a negative gap
      included), and then moves only its end time and furthest position; otherwise
      it opens a new session. */
  function Record(sessions: seq<Session>, t: int, pos: int, total: int): (r: seq<Session>)
    ensures var n := |sessions|;
      if n > 0 && t - sessions[n - 1].time < SessionGap then
        && |r| == n
        && r[..n - 1] == sessions[..n - 1]
        && r[n - 1].time == sessions[n - 1].time && r[n - 1].endTime == t
        && r[n - 1].position == sessions[n - 1].position && r[n - 1].total == sessions[n - 1].total
        && r[n - 1].maxPosition >= sessions[n - 1].maxPosition && r[n - 1].maxPosition >= pos
        && (r[n - 1].maxPosition == sessions[n - 1].maxPosition || r[n - 1].maxPosition == pos)
      else
        r == sessions + [Session(t, t, pos, pos, total)]
    ensures Spaced(sessions) ==> Spaced(r)
  {
    var n := |sessions|;
    if n > 0 && t - sessions[n - 1].time < SessionGap then
      var last := sessions[n - 1];
      sessions[n - 1 := last.(endTime := t, maxPosition := Max(last.maxPosition, pos))]
    else
      sessions + [Session(t, t, pos, pos, total)]
  }

  predicate IsDownload(a: Json)
    requires a.JObj?
  {
    |Field(a, "podcast")| > 0 && |Field(a, "episode")| > 0 && Lower(Field(a, "action")) == "download"
  }

  predicate IsPlay(a: Json)
    requires a.JObj?
  {
    |Field(a, "podcast")| > 0 && |Field(a, "episode")| > 0 && Lower(Field(a, "action")) == "play"
  }

  /** The episode an action is about: its podcast URL and its episode URL. */
  function KeyOf(a: Json): Key
    requires a.JObj?
  {
    (Field(a, "podcast"), Field(a, "episode"))
  }

  /** An episode's sessions before the pass has seen it. */
  function SessionsOf(t: Tally, key: Key): seq<Session> {
    if key in t.episodes then t.episodes[key].sessions else []
  }

  /** One action of the pass. `title` is `get_podcast_metadata(url)["title"]`. */
  function Step(t: Tally, a: Json, title: string -> string, toInt: string -> Option<int>, parseIso: string -> Option<int>): (r: Tally)
    requires a.JObj?
    // a "download" only counts; anything but a usable "play" changes nothing else
    ensures r.downloads == t.downloads + (if IsDownload(a) then 1 else 0)
    ensures !IsPlay(a) ==> r.order == t.order && r.episodes == t.episodes
    ensures IsPlay(a) ==>
      var key := KeyOf(a);
      && r.order == (if key in t.episodes then t.order else t.order + [key])
      && r.episodes.Keys == t.episodes.Keys + {key}
      && r.episodes[key].podcast == title(key.0)
      && (forall k :: k in t.episodes && k != key ==> r.episodes[k] == t.episodes[k])
    // a timestamped play is grouped into the episode's sessions with its position
    // and total; without a readable timestamp the sessions stay as they were
    ensures IsPlay(a) && PlayTime(a, parseIso).Some? ==>
      r.episodes[KeyOf(a)].sessions ==
        Record(SessionsOf(t, KeyOf(a)), PlayTime(a, parseIso).value, Amounts(a, toInt).0, Amounts(a, toInt).1)
    ensures IsPlay(a) && PlayTime(a, parseIso).None? ==> r.episodes[KeyOf(a)].sessions == SessionsOf(t, KeyOf(a))
  {
    if !(a.JObj? && |Field(a, "podcast")| > 0 && |Field(a, "episode")| > 0) then t
    else
      var kind := Lower(Field(a, "action"));
      if kind == "download" then t.(downloads := t.downloads + 1)
      else if kind == "play" then
        var key := (Field(a, "podcast"), Field(a, "episode"));
        var stats := if key in t.episodes then t.episodes[key] else EpisodeStats("", []);
        var (pos, total) := Amounts(a, toInt);
        var time := PlayTime(a, parseIso);
        var sessions := if time.Some? then Record(stats.sessions, time.value, pos, total) else stats.sessions;
        Tally(if key in t.episodes then t.order else t.order + [key],
              t.episodes[key := EpisodeStats(title(key.0), sessions)],
              t.downloads)
      else t
  }

  /** The dictionary key the pass builds for an episode: the podcast URL and the
      episode URL joined by '|'. */
  function TextKey(podcast: string, episode: string): string {
    podcast + "|" + episode
  }

  /** Two different episodes share a text key when a URL contains '|', so their
      plays land in one entry. */
  lemma TextKeyCollides()
    ensures TextKey("http://a/f|x", "e") == TextKey("http://a/f", "x|e")
    ensures ("http://a/f|x", "e") != ("http://a/f", "x|e")
  {
    assert "http://a/f|x" != "http://a/f" by {
      assert |"http://a/f|x"| != |"http://a/f"|;
    }
  }

  /** Keyed by the pair of URLs, plays of two different episodes always keep two
      entries, whatever their URLs contain. */
  lemma PlaysStaySeparate(t: Tally, a1: Json, a2: Json, title: string -> string,
                          toInt: string -> Option<int>, parseIso: string -> Option<int>)
    requires a1.JObj? && a2.JObj? && IsPlay(a1) && IsPlay(a2)
    requires (Field(a1, "podcast"), Field(a1, "episode")) != (Field(a2, "podcast"), Field(a2, "episode"))
    ensures var r := Step(Step(t, a1, title, toInt, parseIso), a2, title, toInt, parseIso);
      && (Field(a1, "podcast"), Field(a1, "episode")) in r.episodes
      && (Field(a2, "podcast"), Field(a2, "episode")) in r.episodes
  {
  }

  /** The episode table as litepop_wrapup.py keys it, by `TextKey`: what a "play"
      does to it. Everything else of the pass is as in `Step`. */
  function PlayByText(m: map<string, EpisodeStats>, a: Json, title: string -> string,
                      toInt: string -> Option<int>, parseIso: string -> Option<int>): (r: map<string, EpisodeStats>)
    requires a.JObj?
    ensures !IsPlay(a) ==> r == m
    ensures IsPlay(a) ==> r.Keys == m.Keys + {TextKey(KeyOf(a).0, KeyOf(a).1)}
  {
    if !IsPlay(a) then m
    else
      var s := TextKey(Field(a, "podcast"), Field(a, "episode"));
      var stats := if s in m then m[s] else EpisodeStats("", []);
      var (pos, total) := Amounts(a, toInt);
      var time := PlayTime(a, parseIso);
      var sessions := if time.Some? then Record(stats.sessions, time.value, pos, total) else stats.sessions;
      m[s := EpisodeStats(title(Field(a, "podcast")), sessions)]
  }

  /** The text-keyed table holds, under each pair's text key, that pair's statistics. */
  ghost predicate Mirrors(m: map<string, EpisodeStats>, t: Tally) {
    && (forall k :: k in t.episodes ==> TextKey(k.0, k.1) in m && m[TextKey(k.0, k.1)] == t.episodes[k])
    && (forall s :: s in m ==> exists k :: k in t.episodes && TextKey(k.0, k.1) == s)
  }

  /** No episode other than the play's shares its text key. */
  predicate NoCollision(t: Tally, a: Json)
    requires a.JObj?
  {
    forall k :: k in t.episodes && k != KeyOf(a) ==> TextKey(k.0, k.1) != TextKey(KeyOf(a).0, KeyOf(a).1)
  }

  /** Without a collision, the play's entry is the same in both tables. */
  lemma PlayEntryAgrees(m: map<string, EpisodeStats>, t: Tally, a: Json, title: string -> string,
                        toInt: string -> Option<int>, parseIso: string -> Option<int>)
    requires a.JObj? && IsPlay(a) && Mirrors(m, t) && NoCollision(t, a)
    ensures var s := TextKey(KeyOf(a).0, KeyOf(a).1);
      PlayByText(m, a, title, toInt, parseIso)[s] == Step(t, a, title, toInt, parseIso).episodes[KeyOf(a)]
  {
    var key := KeyOf(a);
    var s := TextKey(key.0, key.1);
    if s in m {
      var k :| k in t.episodes && TextKey(k.0, k.1) == s;
      assert k == key;
    }
    assert (if s in m then m[s] else EpisodeStats("", [])).sessions == SessionsOf(t, key);
  }

  lemma MirrorsForward(m: map<string, EpisodeStats>, t: Tally, a: Json, title: string -> string,
                       toInt: string -> Option<int>, parseIso: string -> Option<int>)
    requires a.JObj? && IsPlay(a) && Mirrors(m, t) && NoCollision(t, a)
    ensures var r, u := PlayByText(m, a, title, toInt, parseIso), Step(t, a, title, toInt, parseIso);
      forall k :: k in u.episodes ==> TextKey(k.0, k.1) in r && r[TextKey(k.0, k.1)] == u.episodes[k]
  {
    var key := KeyOf(a);
    var s := TextKey(key.0, key.1);
    var r, u := PlayByText(m, a, title, toInt, parseIso), Step(t, a, title, toInt, parseIso);
    PlayEntryAgrees(m, t, a, title, toInt, parseIso);
    forall k | k in u.episodes
      ensures TextKey(k.0, k.1) in r && r[TextKey(k.0, k.1)] == u.episodes[k]
    {
      if k != key {
        assert k in t.episodes && TextKey(k.0, k.1) != s;
      }
    }
  }

  lemma MirrorsBack(m: map<string, EpisodeStats>, t: Tally, a: Json, title: string -> string,
                    toInt: string -> Option<int>, parseIso: string -> Option<int>)
    requires a.JObj? && IsPlay(a) && Mirrors(m, t)
    ensures var r, u := PlayByText(m, a, title, toInt, parseIso), Step(t, a, title, toInt, parseIso);
      forall s :: s in r ==> exists k :: k in u.episodes && TextKey(k.0, k.1) == s
  {
    var key := KeyOf(a);
    var r, u := PlayByText(m, a, title, toInt, parseIso), Step(t, a, title, toInt, parseIso);
    forall s | s in r
      ensures exists k :: k in u.episodes && TextKey(k.0, k.1) == s
    {
      if s == TextKey(key.0, key.1) {
        assert key in u.episodes;
      } else {
        var k :| k in t.episodes && TextKey(k.0, k.1) == s;
        assert k in u.episodes;
      }
    }
  }

  /** As long as no two episodes share a text key, the source's text-keyed table and
      the pair-keyed one agree after every step. */
  lemma PlayByTextMirrors(m: map<string, EpisodeStats>, t: Tally, a: Json, title: string -> string,
                          toInt: string -> Option<int>, parseIso: string -> Option<int>)
    requires a.JObj? && Mirrors(m, t)
    requires IsPlay(a) ==> NoCollision(t, a)
    ensures Mirrors(PlayByText(m, a, title, toInt, parseIso), Step(t, a, title, toInt, parseIso))
  {
    if IsPlay(a) {
      MirrorsForward(m, t, a, title, toInt, parseIso);
      MirrorsBack(m, t, a, title, toInt, parseIso);
    }
  }

  /** Two plays of different episodes whose text keys collide end up in one entry of
      the source's table: it has one key where the pair-keyed pass has two, the first
      podcast's title is overwritten by the second's, and both plays are grouped into
      one list of sessions. */
  lemma CollidingPlaysMerge(a1: Json, a2: Json, title: string -> string,
                            toInt: string -> Option<int>, parseIso: string -> Option<int>)
    requires a1.JObj? && a2.JObj? && IsPlay(a1) && IsPlay(a2)
    requires KeyOf(a1) != KeyOf(a2) && TextKey(KeyOf(a1).0, KeyOf(a1).1) == TextKey(KeyOf(a2).0, KeyOf(a2).1)
    requires PlayTime(a1, parseIso).Some? && PlayTime(a2, parseIso).Some?
    ensures var m := PlayByText(PlayByText(map[], a1, title, toInt, parseIso), a2, title, toInt, parseIso);
      var s := TextKey(KeyOf(a1).0, KeyOf(a1).1);
      && m.Keys == {s}
      && m[s].podcast == title(KeyOf(a2).0)
      && m[s].sessions == Record(Record([], PlayTime(a1, parseIso).value, Amounts(a1, toInt).0, Amounts(a1, toInt).1),
                                 PlayTime(a2, parseIso).value, Amounts(a2, toInt).0, Amounts(a2, toInt).1)
    ensures var t := Step(Step(NoTally, a1, title, toInt, parseIso), a2, title, toInt, parseIso);
      t.episodes.Keys == {KeyOf(a1), KeyOf(a2)}
  {
  }

  /** Properties every state of the pass has. */
  ghost predicate Sound(t: Tally, title: string -> string) {
    && Valid(t)
    && (forall k :: k in t.episodes ==> t.episodes[k].podcast == title(k.0))
    && (forall k :: k in t.episodes ==> Spaced(t.episodes[k].sessions))
  }

  lemma StepSound(t: Tally, a: Json, title: string -> string, toInt: string -> Option<int>, parseIso: string -> Option<int>)
    requires a.JObj? && Sound(t, title)
    ensures Sound(Step(t, a, title, toInt, parseIso), title)
  {
    var r := Step(t, a, title, toInt, parseIso);
    if IsPlay(a) {
      var key := (Field(a, "podcast"), Field(a, "episode"));
      if key !in t.episodes {
        assert key !in t.order;
        forall i, j | 0 <= i < j < |r.order|
          ensures r.order[i] != r.order[j]
        {
          if j == |r.order| - 1 {
            assert t.order[i] in t.order;
          }
        }
      }
    }
  }

  /** `analyze_listening_patterns`' first loop, over the fetched actions. */
  function Pass(actions: seq<Json>, title: string -> string, toInt: string -> Option<int>, parseIso: string -> Option<int>): (r: Tally)
    requires forall i :: 0 <= i < |actions| ==> actions[i].JObj?
    ensures r.downloads == DownloadCount(actions)
    ensures forall k :: k in r.order <==> k in r.episodes
  {
    if |actions| == 0 then NoTally
    else
      var n := |actions| - 1;
      Step(Pass(actions[..n], title, toInt, parseIso), actions[n], title, toInt, parseIso)
  }

  /** The pass keeps one entry per episode, each entry names the title of its own
      podcast, and an episode's sessions start at least an hour apart. */
  lemma {:induction false} PassSound(actions: seq<Json>, title: string -> string, toInt: string -> Option<int>, parseIso: string -> Option<int>)
    requires forall i :: 0 <= i < |actions| ==> actions[i].JObj?
    ensures Sound(Pass(actions, title, toInt, parseIso), title)
  {
    if |actions| > 0 {
      var n := |actions| - 1;
      PassSound(actions[..n], title, toInt, parseIso);
      StepSound(Pass(actions[..n], title, toInt, parseIso), actions[n], title, toInt, parseIso);
    }
  }

  /** The number of "download" actions among `actions`. */
  function DownloadCount(actions: seq<Json>): nat
    requires forall i :: 0 <= i < |actions| ==> actions[i].JObj?
  {
    if |actions| == 0 then 0
    else DownloadCount(actions[..|actions| - 1]) + (if IsDownload(actions[|actions| - 1]) then 1 else 0)
  }

  /** The number of "play" actions with a readable timestamp. */
  function TimedPlays(actions: seq<Json>, parseIso: string -> Option<int>): nat
    requires forall i :: 0 <= i < |actions| ==> actions[i].JObj?
  {
    if |actions| == 0 then 0
    else
      var a := actions[|actions| - 1];
      TimedPlays(actions[..|actions| - 1], parseIso) + (if IsPlay(a) && PlayTime(a, parseIso).Some? then 1 else 0)
  }

  /** The episode a "play" action names; None for any other action. */
  function PlayKey(a: Json): Option<Key> {
    if a.JObj? && IsPlay(a) then Some(KeyOf(a)) else None
  }

  /** The values `f` gives to the elements of `xs`. */
  function Image<T, K>(xs: seq<T>, f: T -> Option<K>): set<K> {
    set i | 0 <= i < |xs| && f(xs[i]).Some? :: f(xs[i]).value
  }

  lemma ImageLast<T, K>(xs: seq<T>, f: T -> Option<K>)
    requires |xs| > 0
    ensures var x := f(xs[|xs| - 1]);
      Image(xs, f) == Image(xs[..|xs| - 1], f) + (if x.Some? then {x.value} else {})
  {
    var n := |xs| - 1;
    var p := xs[..n];
    forall k | k in Image(xs, f)
      ensures k in Image(p, f) || (f(xs[n]).Some? && k == f(xs[n]).value)
    {
      var i :| 0 <= i < |xs| && f(xs[i]).Some? && f(xs[i]).value == k;
      if i < n {
        assert p[i] == xs[i];
      }
    }
    forall k | k in Image(p, f)
      ensures k in Image(xs, f)
    {
      var i :| 0 <= i < n && f(p[i]).Some? && f(p[i]).value == k;
      assert p[i] == xs[i];
    }
  }

  /** The episodes that some "play" action names. */
  function PlayKeys(actions: seq<Json>): (r: set<Key>)
    ensures forall i :: 0 <= i < |actions| && actions[i].JObj? && IsPlay(actions[i]) ==> KeyOf(actions[i]) in r
  {
    Image(actions, PlayKey)
  }

  /** The sessions of all episodes of the pass. */
  function SessionTotal(t: Tally): int
    requires forall k :: k in t.order ==> k in t.episodes
  {
    SumOver(t.order, t.episodes, SessionCount)
  }

  /** An action adds at most one session, and a timestamped play leaves at least one. */
  lemma StepSessions(t: Tally, a: Json, title: string -> string, toInt: string -> Option<int>, parseIso: string -> Option<int>)
    requires a.JObj? && Valid(t)
    ensures var r := Step(t, a, title, toInt, parseIso);
      var timed := if IsPlay(a) && PlayTime(a, parseIso).Some? then 1 else 0;
      && (forall k :: k in r.order ==> k in r.episodes)
      && SessionTotal(t) <= SessionTotal(r) <= SessionTotal(t) + timed
      && (timed == 1 ==> SessionTotal(r) > 0)
  {
    var r := Step(t, a, title, toInt, parseIso);
    SumOverAtLeast(t.order, t.episodes, SessionCount, KeyOf(a));
    if IsPlay(a) {
      var key := KeyOf(a);
      var e := r.episodes[key];
      assert r.episodes == t.episodes[key := e];
      if key in t.episodes {
        SumOverAdd(t.order, t.episodes, SessionCount, key, e);
        SumOverAtLeast(r.order, r.episodes, SessionCount, key);
      } else {
        SumOverOther(t.order, t.episodes, SessionCount, key, e);
        SumOverAppend(t.order, r.episodes, SessionCount, key);
      }
    }
  }

  /** The pass keeps an entry for exactly the episodes some "play" names, and has
      at most one session per timestamped play, and some session exactly when
      there is a timestamped play. */
  lemma {:induction false} PassCounts(actions: seq<Json>, title: string -> string, toInt: string -> Option<int>, parseIso: string -> Option<int>)
    requires forall i :: 0 <= i < |actions| ==> actions[i].JObj?
    ensures var t := Pass(actions, title, toInt, parseIso);
      && t.episodes.Keys == PlayKeys(actions)
      && SessionTotal(t) <= TimedPlays(actions, parseIso)
      && (SessionTotal(t) > 0 <==> TimedPlays(actions, parseIso) > 0)
  {
    if |actions| > 0 {
      var n := |actions| - 1;
      var p := actions[..n];
      PassCounts(p, title, toInt, parseIso);
      PassSound(p, title, toInt, parseIso);
      CountsStep(Pass(p, title, toInt, parseIso), actions[n], title, toInt, parseIso, PlayKeys(p), TimedPlays(p, parseIso));
      ImageLast(actions, PlayKey);
    }
  }

  /** The facts of `PassCounts` carried over one action. */
  lemma CountsStep(t: Tally, a: Json, title: string -> string, toInt: string -> Option<int>, parseIso: string -> Option<int>,
                   keys: set<Key>, timed: nat)
    requires a.JObj? && Valid(t)
    requires t.episodes.Keys == keys && SessionTotal(t) <= timed && (SessionTotal(t) > 0 <==> timed > 0)
    ensures var r := Step(t, a, title, toInt, parseIso);
      var timed' := timed + (if IsPlay(a) && PlayTime(a, parseIso).Some? then 1 else 0);
      && (forall k :: k in r.order ==> k in r.episodes)
      && r.episodes.Keys == keys + (if PlayKey(a).Some? then {PlayKey(a).value} else {})
      && SessionTotal(r) <= timed'
      && (SessionTotal(r) > 0 <==> timed' > 0)
  {
    StepSessions(t, a, title, toInt, parseIso);
  }

  /** A list without repeats has as many distinct elements as entries. */
  lemma {:induction false} DistinctCard<K>(xs: seq<K>)
    requires forall i, j :: 0 <= i < j < |xs| ==> xs[i] != xs[j]
    ensures |set k | k in xs| == |xs|
  {
    if |xs| > 0 {
      var n := |xs| - 1;
      DistinctCard(xs[..n]);
      assert (set k | k in xs) == (set k | k in xs[..n]) + {xs[n]};
      assert xs[n] !in (set k | k in xs[..n]) by {
        forall i | 0 <= i < n ensures xs[..n][i] != xs[n] {
          assert xs[..n][i] == xs[i];
        }
      }
    }
  }

  // ---------------------------------------------------------------------------
  // analyze_listening_patterns: the per-podcast summary

  /** Sum of the sessions' furthest positions: the episode's listening time. */
  function ListeningTime(s: seq<Session>): (r: int)
    // with non-negative positions, at least each session's furthest position
    ensures (forall i :: 0 <= i < |s| ==> s[i].maxPosition >= 0) ==>
      r >= 0 && forall i :: 0 <= i < |s| ==> s[i].maxPosition <= r
  {
    if |s| == 0 then 0 else ListeningTime(s[..|s| - 1]) + s[|s| - 1].maxPosition
  }

  function MaxPosition(s: seq<Session>): int
    requires |s| > 0
  {
    if |s| == 1 then s[0].maxPosition else Max(MaxPosition(s[..|s| - 1]), s[|s| - 1].maxPosition)
  }

  function MaxTotal(s: seq<Session>): int
    requires |s| > 0
  {
    if |s| == 1 then s[0].total else Max(MaxTotal(s[..|s| - 1]), s[|s| - 1].total)
  }

  lemma {:induction false} MaxPositionIsMax(s: seq<Session>)
    requires |s| > 0
    ensures forall i :: 0 <= i < |s| ==> s[i].maxPosition <= MaxPosition(s)
    ensures exists i :: 0 <= i < |s| && s[i].maxPosition == MaxPosition(s)
  {
    if |s| == 1 {
      assert s[0].maxPosition == MaxPosition(s);
    } else {
      var n := |s| - 1;
      MaxPositionIsMax(s[..n]);
      assert forall i :: 0 <= i < n ==> s[..n][i] == s[i];
      var i :| 0 <= i < n && s[..n][i].maxPosition == MaxPosition(s[..n]);
      if MaxPosition(s) == s[n].maxPosition {
        assert s[n].maxPosition == MaxPosition(s);
      } else {
        assert s[i].maxPosition == MaxPosition(s);
      }
    }
  }

  lemma {:induction false} MaxTotalIsMax(s: seq<Session>)
    requires |s| > 0
    ensures forall i :: 0 <= i < |s| ==> s[i].total <= MaxTotal(s)
    ensures exists i :: 0 <= i < |s| && s[i].total == MaxTotal(s)
  {
    if |s| == 1 {
      assert s[0].total == MaxTotal(s);
    } else {
      var n := |s| - 1;
      MaxTotalIsMax(s[..n]);
      assert forall i :: 0 <= i < n ==> s[..n][i] == s[i];
      var i :| 0 <= i < n && s[..n][i].total == MaxTotal(s[..n]);
      if MaxTotal(s) == s[n].total {
        assert s[n].total == MaxTotal(s);
      } else {
        assert s[i].total == MaxTotal(s);
      }
    }
  }

  /** The 98% rule, in integers: the furthest position over the largest total. */
  predicate Completed(s: seq<Session>) {
    |s| > 0 && MaxTotal(s) > 0 && MaxPosition(s) > 0 && MaxPosition(s) * 100 >= 98 * MaxTotal(s)
  }

  /** The integer rule is the source's ratio test `max_position / max_total * 100 >= 98`. */
  lemma CompletedIsRatio(s: seq<Session>)
    requires |s| > 0
    ensures Completed(s) <==>
      MaxTotal(s) > 0 && MaxPosition(s) > 0 &&
      (MaxPosition(s) as real / MaxTotal(s) as real) * 100.0 >= 98.0
  {
    if MaxTotal(s) > 0 {
      var p := MaxPosition(s) as real;
      var t := MaxTotal(s) as real;
      assert (p / t) * 100.0 >= 98.0 <==> p * 100.0 >= 98.0 * t by {
        assert (p / t) * t == p;
      }
    }
  }

  /** The start times of sessions, as `actual_sessions` collects them. */
  function Times(s: seq<Session>): (r: seq<int>)
    ensures |r| == |s|
    ensures forall i :: 0 <= i < |s| ==> r[i] == s[i].time
  {
    seq(|s|, i requires 0 <= i < |s| => s[i].time)
  }

  /** A podcast's line of `podcast_summary`, with the set of its episodes. */
  datatype PodcastSummary = PodcastSummary(episodesPlayed: nat, totalTime: int, completed: nat, sessions: nat, episodes: set<Key>)

  const NoPodcast := PodcastSummary(0, 0, 0, 0, {})

  /** The summary: podcasts in order of first appearance, their lines, the overall
      listening time and the start times of all sessions. */
  datatype Summary = Summary(order: seq<string>, podcasts: map<string, PodcastSummary>, totalTime: int, sessionTimes: seq<int>)

  /** A podcast's line with one more episode counted. */
  function Bump(line: PodcastSummary, key: Key, e: EpisodeStats): PodcastSummary {
    PodcastSummary(
      line.episodesPlayed + 1,
      line.totalTime + ListeningTime(e.sessions),
      line.completed + (if Completed(e.sessions) then 1 else 0),
      line.sessions + |e.sessions|,
      line.episodes + {key})
  }

  /** One episode of the second loop; an episode without a session is skipped. */
  function AddEpisode(s: Summary, key: Key, e: EpisodeStats): Summary {
    if |e.sessions| == 0 then s
    else
      var p := e.podcast;
      var line := if p in s.podcasts then s.podcasts[p] else NoPodcast;
      Summary(if p in s.podcasts then s.order else s.order + [p],
              s.podcasts[p := Bump(line, key, e)],
              s.totalTime + ListeningTime(e.sessions),
              s.sessionTimes + Times(e.sessions))
  }

  /** The second loop over the first `n` episodes. */
  function Summarize(t: Tally, n: nat): (r: Summary)
    requires n <= |t.order| && forall k :: k in t.order ==> k in t.episodes
    // a podcast is listed once it has an episode with a session, and each of its
    // lines counts at least one played episode
    ensures forall p :: p in r.order <==> p in r.podcasts
    ensures forall p :: p in r.podcasts ==> r.podcasts[p].episodesPlayed >= 1
    ensures forall i :: 0 <= i < n && |t.episodes[t.order[i]].sessions| > 0 ==> t.episodes[t.order[i]].podcast in r.podcasts
  {
    if n == 0 then Summary([], map[], 0, [])
    else AddEpisode(Summarize(t, n - 1), t.order[n - 1], t.episodes[t.order[n - 1]])
  }

  /** The sum of `f` over the entries of `m` listed in `order`. */
  function SumOver<K(==), V>(order: seq<K>, m: map<K, V>, f: V -> int): int
    requires forall k :: k in order ==> k in m
  {
    if |order| == 0 then 0
    else SumOver(order[..|order| - 1], m, f) + f(m[order[|order| - 1]])
  }

  /** Changing an entry that is not listed changes no sum. */
  lemma {:induction false} SumOverOther<K, V>(order: seq<K>, m: map<K, V>, f: V -> int, p: K, v: V)
    requires forall q :: q in order ==> q in m
    requires p !in order
    ensures SumOver(order, m[p := v], f) == SumOver(order, m, f)
  {
    if |order| > 0 {
      SumOverOther(order[..|order| - 1], m, f, p, v);
    }
  }

  /** Changing an entry listed once changes the sum by the change of that entry. */
  lemma {:induction false} SumOverAdd<K, V>(order: seq<K>, m: map<K, V>, f: V -> int, p: K, v: V)
    requires forall q :: q in order ==> q in m
    requires forall i, j :: 0 <= i < j < |order| ==> order[i] != order[j]
    requires p in order
    ensures SumOver(order, m[p := v], f) == SumOver(order, m, f) + f(v) - f(m[p])
  {
    var n := |order| - 1;
    if order[n] == p {
      assert p !in order[..n] by {
        forall i | 0 <= i < n ensures order[..n][i] != p {
          assert order[i] != order[n];
        }
      }
      SumOverOther(order[..n], m, f, p, v);
    } else {
      assert p in order[..n] by {
        var i :| 0 <= i < |order| && order[i] == p;
        assert order[..n][i] == p;
      }
      SumOverAdd(order[..n], m, f, p, v);
    }
  }

  /** Listing one more entry adds its value. */
  lemma SumOverAppend<K, V>(order: seq<K>, m: map<K, V>, f: V -> int, p: K)
    requires forall q :: q in order ==> q in m
    requires p in m
    ensures SumOver(order + [p], m, f) == SumOver(order, m, f) + f(m[p])
  {
    assert (order + [p])[..|order|] == order;
  }

  /** A sum of non-negative terms is at least each of its terms. */
  lemma {:induction false} SumOverAtLeast<K, V>(order: seq<K>, m: map<K, V>, f: V -> int, p: K)
    requires forall q :: q in order ==> q in m
    requires forall q :: q in order ==> f(m[q]) >= 0
    ensures SumOver(order, m, f) >= 0
    ensures p in order ==> SumOver(order, m, f) >= f(m[p])
  {
    if |order| > 0 {
      var n := |order| - 1;
      assert forall q :: q in order[..n] ==> q in order;
      SumOverAtLeast(order[..n], m, f, p);
      if p in order && order[n] != p {
        var i :| 0 <= i < |order| && order[i] == p;
        assert order[..n][i] == p;
      }
    }
  }

  /** Term by term at most `g`, so is the sum. */
  lemma {:induction false} SumOverMono<K, V>(order: seq<K>, m: map<K, V>, f: V -> int, g: V -> int)
    requires forall q :: q in order ==> q in m
    requires forall q :: q in order ==> f(m[q]) <= g(m[q])
    ensures SumOver(order, m, f) <= SumOver(order, m, g)
  {
    if |order| > 0 {
      var n := |order| - 1;
      assert forall q :: q in order[..n] ==> q in order;
      SumOverMono(order[..n], m, f, g);
    }
  }

  /** A sum of terms of at most 1 is at most the number of terms. */
  lemma {:induction false} SumOverAtMost<K, V>(order: seq<K>, m: map<K, V>, f: V -> int)
    requires forall q :: q in order ==> q in m
    requires forall q :: q in order ==> f(m[q]) <= 1
    ensures SumOver(order, m, f) <= |order|
  {
    if |order| > 0 {
      var n := |order| - 1;
      assert forall q :: q in order[..n] ==> q in order;
      SumOverAtMost(order[..n], m, f);
    }
  }

  /** A sum of non-negative terms is positive exactly when one of them is. */
  lemma {:induction false} SumOverPositive<K, V>(order: seq<K>, m: map<K, V>, f: V -> int)
    requires forall q :: q in order ==> q in m
    requires forall q :: q in order ==> f(m[q]) >= 0
    ensures SumOver(order, m, f) > 0 <==> exists i :: 0 <= i < |order| && f(m[order[i]]) > 0
  {
    if |order| > 0 {
      var n := |order| - 1;
      assert forall q :: q in order[..n] ==> q in order;
      SumOverPositive(order[..n], m, f);
      SumOverAtLeast(order[..n], m, f, order[n]);
      if exists i :: 0 <= i < |order| && f(m[order[i]]) > 0 {
        var i :| 0 <= i < |order| && f(m[order[i]]) > 0;
        if i < n {
          assert order[..n][i] == order[i];
        }
      }
      if exists i :: 0 <= i < n && f(m[order[..n][i]]) > 0 {
        var i :| 0 <= i < n && f(m[order[..n][i]]) > 0;
        assert order[..n][i] == order[i];
      }
    }
  }

  function LineTime(line: PodcastSummary): int { line.totalTime }
  function LinePlayed(line: PodcastSummary): int { line.episodesPlayed }

  /** Sum of the podcasts' listening times. */
  function PodcastTime(order: seq<string>, podcasts: map<string, PodcastSummary>): int
    requires forall p :: p in order ==> p in podcasts
  {
    SumOver(order, podcasts, LineTime)
  }

  /** The podcast order lists each podcast of the summary once. */
  ghost predicate Indexed(s: Summary) {
    && (forall p :: p in s.podcasts <==> p in s.order)
    && (forall i, j :: 0 <= i < j < |s.order| ==> s.order[i] != s.order[j])
  }

  /** Per podcast: at least one episode played, no more completed than played, at
      least one session per episode played, and as many distinct episodes as
      episodes played, all among the first `n` episodes of the pass. */
  ghost predicate Lines(t: Tally, n: nat, s: Summary)
    requires n <= |t.order|
  {
    forall p :: p in s.podcasts ==> LineOk(t.order[..n], s.podcasts[p])
  }

  /** One podcast's line, counted over the episodes `seen`. */
  ghost predicate LineOk(seen: seq<Key>, line: PodcastSummary) {
    && 1 <= line.episodesPlayed
    && line.completed <= line.episodesPlayed
    && line.episodesPlayed <= line.sessions
    && |line.episodes| == line.episodesPlayed
    && (forall k :: k in line.episodes ==> k in seen)
  }

  /** An episode's number of sessions. */
  function SessionCount(e: EpisodeStats): int { |e.sessions| }

  /** 1 for an episode the summary counts as played (one with a session), else 0. */
  function HasSessions(e: EpisodeStats): int { if |e.sessions| > 0 then 1 else 0 }

  /** The summary of the first `n` episodes: its podcasts indexed, the overall time
      the sum of the podcasts' times, the episodes played over all podcasts those of
      the `n` with a session, one session time per session, and every line valid. */
  ghost predicate SummaryFacts(t: Tally, n: nat, s: Summary)
    requires n <= |t.order| && forall k :: k in t.order ==> k in t.episodes
  {
    && Indexed(s)
    && s.totalTime == PodcastTime(s.order, s.podcasts)
    && SumOver(s.order, s.podcasts, LinePlayed) == SumOver(t.order[..n], t.episodes, HasSessions)
    && |s.sessionTimes| == SumOver(t.order[..n], t.episodes, SessionCount)
    && Lines(t, n, s)
  }

  lemma AddIndexed(s: Summary, key: Key, e: EpisodeStats)
    requires Indexed(s)
    ensures Indexed(AddEpisode(s, key, e))
  {
    var r := AddEpisode(s, key, e);
    if |e.sessions| > 0 && e.podcast !in s.podcasts {
      assert r.order == s.order + [e.podcast];
      forall i, j | 0 <= i < j < |r.order|
        ensures r.order[i] != r.order[j]
      {
        if j == |r.order| - 1 {
          assert s.order[i] in s.order;
        }
      }
    }
  }

  /** Adding an episode with sessions changes a sum over the podcast lines by the
      change of its podcast's line; an episode without one changes nothing. */
  lemma AddSum(s: Summary, key: Key, e: EpisodeStats, f: PodcastSummary -> int)
    requires Indexed(s) && f(NoPodcast) == 0
    ensures var r := AddEpisode(s, key, e);
      var line := if e.podcast in s.podcasts then s.podcasts[e.podcast] else NoPodcast;
      && (forall p :: p in r.order ==> p in r.podcasts)
      && SumOver(r.order, r.podcasts, f) ==
           SumOver(s.order, s.podcasts, f) + (if |e.sessions| > 0 then f(Bump(line, key, e)) - f(line) else 0)
  {
    AddIndexed(s, key, e);
    if |e.sessions| > 0 {
      var p := e.podcast;
      var r := AddEpisode(s, key, e);
      if p in s.podcasts {
        var line' := Bump(s.podcasts[p], key, e);
        assert r.order == s.order && r.podcasts == s.podcasts[p := line'];
        SumOverAdd(s.order, s.podcasts, f, p, line');
      } else {
        var line' := Bump(NoPodcast, key, e);
        assert r.order == s.order + [p] && r.podcasts == s.podcasts[p := line'];
        SumOverOther(s.order, s.podcasts, f, p, line');
        SumOverAppend(s.order, r.podcasts, f, p);
      }
    }
  }

  /** A line stays valid when more episodes have been seen. */
  lemma LineGrows(seen: seq<Key>, key: Key, line: PodcastSummary)
    requires LineOk(seen, line)
    ensures LineOk(seen + [key], line)
  {
  }

  /** Counting an episode not seen before keeps a line valid. */
  lemma LineBumped(seen: seq<Key>, key: Key, e: EpisodeStats, line: PodcastSummary)
    requires |e.sessions| > 0 && key !in seen
    requires line == NoPodcast || LineOk(seen, line)
    ensures LineOk(seen + [key], Bump(line, key, e))
  {
    assert key !in line.episodes;
  }

  lemma AddLines(t: Tally, n: nat, s: Summary)
    requires Valid(t) && 0 < n <= |t.order|
    requires Lines(t, n - 1, s)
    ensures Lines(t, n, AddEpisode(s, t.order[n - 1], t.episodes[t.order[n - 1]]))
  {
    var key := t.order[n - 1];
    var e := t.episodes[key];
    var r := AddEpisode(s, key, e);
    var before := t.order[..n - 1];
    assert t.order[..n] == before + [key];
    assert key !in before by {
      forall i | 0 <= i < |before| ensures before[i] != key {
        assert before[i] == t.order[i];
      }
    }
    forall q | q in r.podcasts
      ensures LineOk(before + [key], r.podcasts[q])
    {
      if |e.sessions| > 0 && q == e.podcast {
        var line := if q in s.podcasts then s.podcasts[q] else NoPodcast;
        LineBumped(before, key, e, line);
      } else {
        LineGrows(before, key, s.podcasts[q]);
      }
    }
  }

  lemma AddEpisodeFacts(t: Tally, n: nat, s: Summary)
    requires Valid(t) && 0 < n <= |t.order|
    requires SummaryFacts(t, n - 1, s)
    ensures SummaryFacts(t, n, AddEpisode(s, t.order[n - 1], t.episodes[t.order[n - 1]]))
  {
    var key := t.order[n - 1];
    var e := t.episodes[key];
    AddIndexed(s, key, e);
    AddTime(s, key, e);
    AddPlayed(s, key, e);
    AddCounts(t, n);
    AddLines(t, n, s);
  }

  /** The overall time grows by the episode's listening time, as its podcast's does. */
  lemma AddTime(s: Summary, key: Key, e: EpisodeStats)
    requires Indexed(s) && s.totalTime == PodcastTime(s.order, s.podcasts)
    ensures var r := AddEpisode(s, key, e);
      (forall p :: p in r.order ==> p in r.podcasts) && r.totalTime == PodcastTime(r.order, r.podcasts)
  {
    AddSum(s, key, e, LineTime);
  }

  /** An episode with sessions is one more episode played, over all podcasts. */
  lemma AddPlayed(s: Summary, key: Key, e: EpisodeStats)
    requires Indexed(s)
    ensures var r := AddEpisode(s, key, e);
      && (forall p :: p in r.order ==> p in r.podcasts)
      && SumOver(r.order, r.podcasts, LinePlayed) == SumOver(s.order, s.podcasts, LinePlayed) + HasSessions(e)
      && |r.sessionTimes| == |s.sessionTimes| + SessionCount(e)
  {
    AddSum(s, key, e, LinePlayed);
  }

  /** One more episode of the pass adds its measures to the sums over the first `n`. */
  lemma AddCounts(t: Tally, n: nat)
    requires Valid(t) && 0 < n <= |t.order|
    ensures var e := t.episodes[t.order[n - 1]];
      && SumOver(t.order[..n], t.episodes, HasSessions) == SumOver(t.order[..n - 1], t.episodes, HasSessions) + HasSessions(e)
      && SumOver(t.order[..n], t.episodes, SessionCount) == SumOver(t.order[..n - 1], t.episodes, SessionCount) + SessionCount(e)
  {
    assert t.order[..n] == t.order[..n - 1] + [t.order[n - 1]];
    SumOverAppend(t.order[..n - 1], t.episodes, HasSessions, t.order[n - 1]);
    SumOverAppend(t.order[..n - 1], t.episodes, SessionCount, t.order[n - 1]);
  }

  /** For every podcast of the summary: at least one episode played, no more
      completed than played, at least one session per episode, a count of distinct
      episodes equal to the episodes played, and an overall listening time equal to
      the sum of the podcasts' times. */
  lemma {:induction false} SummarizeFacts(t: Tally, n: nat)
    requires Valid(t) && n <= |t.order|
    ensures SummaryFacts(t, n, Summarize(t, n))
  {
    if n > 0 {
      SummarizeFacts(t, n - 1);
      AddEpisodeFacts(t, n, Summarize(t, n - 1));
    }
  }

  // ---------------------------------------------------------------------------
  // calculate_insights

  /** A row of `top_completion_rates`. */
  datatype Rate = Rate(podcast: string, rate: real, completed: nat, played: nat)

  function TimeKey(item: (string, PodcastSummary)): real { item.1.totalTime as real }
  function PlayedKey(item: (string, PodcastSummary)): real { item.1.episodesPlayed as real }
  function RateKey(r: Rate): real { r.rate }

  /** `podcast_stats.items()`, in order. */
  function Items(s: Summary): (r: seq<(string, PodcastSummary)>)
    requires forall p :: p in s.order ==> p in s.podcasts
    ensures |r| == |s.order|
    ensures forall i :: 0 <= i < |r| ==> r[i] == (s.order[i], s.podcasts[s.order[i]])
  {
    seq(|s.order|, i requires 0 <= i < |s.order| => (s.order[i], s.podcasts[s.order[i]]))
  }

  /** The completion-rate rows: podcasts with at least one episode played. */
  function Rates(items: seq<(string, PodcastSummary)>): (r: seq<Rate>)
    ensures |r| <= |items|
    ensures forall i :: 0 <= i < |r| ==>
      r[i].played > 0 && r[i].rate == r[i].completed as real / r[i].played as real * 100.0
    ensures (forall i :: 0 <= i < |items| ==> items[i].1.episodesPlayed > 0) ==> |r| == |items|
  {
    if |items| == 0 then []
    else
      var n := |items| - 1;
      var (p, line) := items[n];
      var rest := Rates(items[..n]);
      assert forall i :: 0 <= i < n ==> items[..n][i] == items[i];
      if line.episodesPlayed > 0 then
        rest + [Rate(p, line.completed as real / line.episodesPlayed as real * 100.0, line.completed, line.episodesPlayed)]
      else rest
  }

  /** Applies a calendar function to every session start. */
  function MapTimes(times: seq<int>, f: int -> int): (r: seq<int>)
    ensures |r| == |times|
    ensures forall i :: 0 <= i < |times| ==> r[i] == f(times[i])
  {
    seq(|times|, i requires 0 <= i < |times| => f(times[i]))
  }

  /** The three rankings of `calculate_insights`: top ten podcasts by listening
      time, by episodes played, and by completion rate. */
  function Rankings(s: Summary): (r: (seq<(string, PodcastSummary)>, seq<(string, PodcastSummary)>, seq<Rate>))
    requires forall p :: p in s.order ==> p in s.podcasts
    ensures |r.0| == Min(10, |s.order|) && NonIncreasing(r.0, TimeKey)
    ensures forall i :: 0 <= i < |r.0| ==> r.0[i] in Items(s)
    ensures |r.1| == Min(10, |s.order|) && NonIncreasing(r.1, PlayedKey)
    ensures forall i :: 0 <= i < |r.1| ==> r.1[i] in Items(s)
    ensures |r.2| <= 10 && NonIncreasing(r.2, RateKey)
    ensures forall i :: 0 <= i < |r.2| ==> r.2[i].played > 0
    // each is the first ten of its list by its key: nothing left out ranks higher
    ensures IsTop(r.0, Items(s), TimeKey, 10)
    ensures IsTop(r.1, Items(s), PlayedKey, 10)
    ensures IsTop(r.2, Rates(Items(s)), RateKey, 10)
  {
    var items := Items(s);
    var rates := Rates(items);
    var top := Top(rates, RateKey, 10);
    assert forall i :: 0 <= i < |top| ==> top[i] in rates;
    (Top(items, TimeKey, 10), Top(items, PlayedKey, 10), top)
  }

  /** The most frequent calendar value among the session starts, with its count. */
  method MostActive(times: seq<int>, field: int -> int) returns (r: Option<(int, nat)>)
    ensures r.Some? <==> |times| > 0
    ensures r.Some? ==>
      var vs := MapTimes(times, field);
      && r.value.0 in vs
      && r.value.1 == multiset(vs)[r.value.0]
      && (forall y :: multiset(vs)[y] <= r.value.1)
      // among equally frequent values, the one whose first session came first
      && MostCommonOf(vs, r.value.0, r.value.1)
  {
    r := None;
    if |times| > 0 {
      var v, c := MostCommon(MapTimes(times, field));
      r := Some((v, c));
    }
  }

  /** What `calculate_insights` returns, leaving out the rounded hour figures. The
      weekday, hour and streak entries are absent when there is no session. */
  datatype Insights = Insights(
    byTime: seq<(string, PodcastSummary)>,
    byEpisodes: seq<(string, PodcastSummary)>,
    completionRates: seq<Rate>,
    mostActiveDay: Option<(int, nat)>,
    mostActiveHour: Option<(int, nat)>,
    streaks: Option<seq<Streak>>,
    uniquePodcasts: nat,
    totalEpisodes: nat)

  /** `calculate_insights` on a summary; `weekday`, `hour` and `day` give the
      calendar fields of a time. */
  method CalculateInsights(s: Summary, weekday: int -> int, hour: int -> int, day: int -> int) returns (r: Insights)
    requires forall p :: p in s.order ==> p in s.podcasts
    ensures |r.byTime| <= 10 && |r.byEpisodes| <= 10 && |r.completionRates| <= 10
    ensures NonIncreasing(r.byTime, TimeKey) && NonIncreasing(r.byEpisodes, PlayedKey)
    ensures NonIncreasing(r.completionRates, RateKey)
    ensures r.mostActiveDay.Some? <==> |s.sessionTimes| > 0
    ensures r.mostActiveHour.Some? <==> |s.sessionTimes| > 0
    ensures r.streaks.Some? <==> |s.sessionTimes| > 0
    ensures r.streaks.Some? ==>
      var ss := r.streaks.value;
      && |ss| <= 5 && NonIncreasing(ss, LengthKey)
      && forall i :: 0 <= i < |ss| ==> Covered(ss[i], MapTimes(s.sessionTimes, day))
    ensures r.uniquePodcasts == |s.order|
    // the rankings and the busiest weekday and hour in full
    ensures IsTop(r.byTime, Items(s), TimeKey, 10) && IsTop(r.byEpisodes, Items(s), PlayedKey, 10)
    ensures IsTop(r.completionRates, Rates(Items(s)), RateKey, 10)
    ensures r.mostActiveDay.Some? ==>
      MostCommonOf(MapTimes(s.sessionTimes, weekday), r.mostActiveDay.value.0, r.mostActiveDay.value.1)
    ensures r.mostActiveHour.Some? ==>
      MostCommonOf(MapTimes(s.sessionTimes, hour), r.mostActiveHour.value.0, r.mostActiveHour.value.1)
    ensures r.streaks.Some? ==> r.streaks.value == Streaks.Streaks(MapTimes(s.sessionTimes, day))
    // `total_episodes_played`: the episodes played summed over the podcasts
    ensures r.totalEpisodes == SumOver(s.order, s.podcasts, LinePlayed)
  {
    var ranks := Rankings(s);
    var dayOut := MostActive(s.sessionTimes, weekday);
    var hourOut := MostActive(s.sessionTimes, hour);
    var streaks: Option<seq<Streak>> := None;
    if |s.sessionTimes| > 0 {
      streaks := Some(Streaks.Streaks(MapTimes(s.sessionTimes, day)));
    }
    SumOverAtLeast(s.order, s.podcasts, LinePlayed, "");
    var played := SumOver(s.order, s.podcasts, LinePlayed);
    r := Insights(ranks.0, ranks.1, ranks.2, dayOut, hourOut, streaks, |s.order|, played);
  }

  /** Every podcast of a summary appears among the completion rates. */
  lemma AllPodcastsRated(t: Tally)
    requires Valid(t)
    ensures var s := Summarize(t, |t.order|);
      (forall p :: p in s.order ==> p in s.podcasts) && |Rates(Items(s))| == |s.order|
  {
    var s := Summarize(t, |t.order|);
    SummarizeFacts(t, |t.order|);
    var items := Items(s);
    forall i | 0 <= i < |items|
      ensures items[i].1.episodesPlayed > 0
    {
      assert s.order[i] in s.order;
    }
  }

  /** Over the episodes of the pass: no more played than listed, none played
      without a session, and some played exactly when there is a session. */
  lemma PlayedVsSessions(t: Tally)
    requires forall k :: k in t.order ==> k in t.episodes
    ensures var played := SumOver(t.order, t.episodes, HasSessions);
      && 0 <= played <= |t.order|
      && played <= SessionTotal(t)
      && (played > 0 <==> SessionTotal(t) > 0)
  {
    SumOverAtMost(t.order, t.episodes, HasSessions);
    SumOverAtLeast(t.order, t.episodes, HasSessions, ([], []));
    SumOverMono(t.order, t.episodes, HasSessions, SessionCount);
    SumOverPositive(t.order, t.episodes, HasSessions);
    SumOverPositive(t.order, t.episodes, SessionCount);
    assert forall i :: 0 <= i < |t.order| ==>
      (HasSessions(t.episodes[t.order[i]]) > 0 <==> SessionCount(t.episodes[t.order[i]]) > 0);
  }

  /** The episodes listed by the pass are the episodes some "play" names. */
  lemma EpisodeCount(t: Tally)
    requires Valid(t)
    ensures |t.order| == |t.episodes.Keys|
  {
    DistinctCard(t.order);
    assert (set k | k in t.order) == t.episodes.Keys;
  }

  /** What `analyze_listening_patterns` returns. `uniqueEpisodes` counts every
      episode that had a "play" action, with or without a session. */
  datatype Report = Report(
    podcastOrder: seq<string>,
    podcasts: map<string, PodcastSummary>,
    totalTime: int,
    totalSessions: nat,
    uniqueEpisodes: nat,
    downloads: nat,
    insights: Insights)

  /** `analyze_listening_patterns` on the fetched actions. */
  method AnalyzeListening(actions: seq<Json>, title: string -> string, toInt: string -> Option<int>,
                          parseIso: string -> Option<int>, weekday: int -> int, hour: int -> int, day: int -> int)
    returns (r: Report)
    requires forall i :: 0 <= i < |actions| ==> actions[i].JObj?
    ensures forall p :: p in r.podcastOrder <==> p in r.podcasts
    ensures r.totalTime == PodcastTime(r.podcastOrder, r.podcasts)
    ensures forall p :: p in r.podcasts ==>
      && 1 <= r.podcasts[p].episodesPlayed
      && r.podcasts[p].completed <= r.podcasts[p].episodesPlayed
      && |r.podcasts[p].episodes| == r.podcasts[p].episodesPlayed
    ensures r.insights.uniquePodcasts == |r.podcastOrder|
    ensures r.insights.streaks.Some? <==> r.totalSessions > 0
    // the counts, against the actions themselves
    ensures r.downloads == DownloadCount(actions)
    ensures r.uniqueEpisodes == |PlayKeys(actions)|
    ensures r.totalSessions <= TimedPlays(actions, parseIso)
    ensures r.totalSessions > 0 <==> TimedPlays(actions, parseIso) > 0
    ensures r.insights.totalEpisodes == SumOver(r.podcastOrder, r.podcasts, LinePlayed)
    ensures r.insights.totalEpisodes <= r.uniqueEpisodes && r.insights.totalEpisodes <= r.totalSessions
    ensures r.insights.totalEpisodes > 0 <==> r.totalSessions > 0
  {
    var t := Pass(actions, title, toInt, parseIso);
    PassSound(actions, title, toInt, parseIso);
    PassCounts(actions, title, toInt, parseIso);
    var s := Summarize(t, |t.order|);
    SummarizeFacts(t, |t.order|);
    assert t.order[..|t.order|] == t.order;
    PlayedVsSessions(t);
    EpisodeCount(t);
    var insights := CalculateInsights(s, weekday, hour, day);
    r := Report(s.order, s.podcasts, s.totalTime, |s.sessionTimes|, |t.order|, t.downloads, insights);
  }
}
