/** The episode action cache of `Litepop` (litepop.py): per episode URL, the last
    known progress, position, total and server-completion flag, built from the
    server's episode actions. Dictionary insertion order is kept because
    `_load_auto_queue` walks the cache in that order. */
module ActionCache {
  import opened Base
  import opened Text
  import opened Json

  datatype Entry = Entry(progress: real, position: int, total: int, serverCompleted: bool)

  /** What `_get_episode_server_status` reports for an episode the cache has never seen. */
  const Unknown := Entry(0.0, 0, -1, false)

  datatype Cache = Cache(order: seq<string>, entries: map<string, Entry>)

  /** The order lists every key exactly once. */
  ghost predicate Valid(c: Cache) {
    && (forall i, j :: 0 <= i < j < |c.order| ==> c.order[i] != c.order[j])
    && (forall k :: k in c.entries <==> k in c.order)
  }

  const Empty := Cache([], map[])

  /** `cache[url] = entry`: an existing key keeps its place, a new key goes last. */
  function Put(c: Cache, url: string, e: Entry): (r: Cache)
    requires Valid(c)
    ensures Valid(r)
    ensures r.entries == c.entries[url := e]
    ensures url in c.entries ==> r.order == c.order
    ensures url !in c.entries ==> r.order == c.order + [url]
  {
    if url in c.entries then Cache(c.order, c.entries[url := e])
    else Cache(c.order + [url], c.entries[url := e])
  }

  /** `_get_episode_server_status`. */
  function Status(c: Cache, url: string): (r: Entry)
    ensures url !in c.entries ==> r == Unknown
    ensures url in c.entries ==> r == c.entries[url]
  {
    if url in c.entries then c.entries[url] else Unknown
  }

  /** The URL an action is about, when it names one: a non-empty string "episode". */
  function EpisodeOf(a: Json): Option<string>
    requires a.JObj?
  {
    var ep := Get(a, "episode", JNull);
    if Truthy(ep) && ep.JStr? then Some(ep.s) else None
  }

  /** Progress of a "play" action: percent of the total, not capped, 0 without a total. */
  function Progress(position: int, total: int): real {
    if total > 0 then (position as real / total as real) * 100.0 else 0.0
  }

  /** A position equal to a positive total is 100%. */
  lemma ProgressFull(t: int)
    requires t > 0
    ensures Progress(t, t) == 100.0
  {
    assert t as real / t as real == 1.0;
  }

  /** The "action" field of a record, lower-cased, when it is text. */
  predicate IsKind(a: Json, kind: string)
    requires a.JObj?
  {
    Get(a, "action", JStr("")).JStr? && Lower(Get(a, "action", JStr("")).s) == kind
  }

  /** The "position" and "total" of a "play" record, read as `action.get` reads them. */
  function PlayPosition(a: Json): Option<int>
    requires a.JObj?
  {
    AsNumber(Get(a, "position", JNum(0)))
  }

  function PlayTotal(a: Json): Option<int>
    requires a.JObj?
  {
    AsNumber(Get(a, "total", JNum(-1)))
  }

  /** One step of `_update_episode_actions_cache`. The boolean is false when the
      source raises part-way (a record that is not an object, an "action" that is
      not a string, a "total" that is not a number, or a positive total with a
      "position" that is not a number); the exception ends the whole update, and
      what was stored before it stays. */
  function ApplyAction(c: Cache, a: Json): (r: (Cache, bool))
    requires Valid(c)
    ensures Valid(r.0)
    ensures !a.JObj? ==> r == (c, false)
    ensures a.JObj? && EpisodeOf(a).None? ==> r == (c, true)
    // only the named episode's entry can change, and keys are never removed
    ensures forall k :: k in c.entries ==> k in r.0.entries
    ensures |c.order| <= |r.0.order| && r.0.order[..|c.order|] == c.order
    ensures forall k :: k in r.0.entries && (!a.JObj? || EpisodeOf(a) != Some(k)) ==>
      k in c.entries && r.0.entries[k] == c.entries[k]
    // an action naming an episode raises exactly on a non-text "action", or on a
    // "play" whose total is not a number, or whose total is positive and whose
    // position is not a number
    ensures a.JObj? && EpisodeOf(a).Some? ==>
      (!r.1 <==> || !Get(a, "action", JStr("")).JStr?
                 || (IsKind(a, "play") && (PlayTotal(a).None? || (PlayTotal(a).value > 0 && PlayPosition(a).None?))))
    // a "play" action overwrites position and total, and derives progress and completion
    ensures (a.JObj? && EpisodeOf(a).Some? && r.1 && IsKind(a, "play")) ==>
        var e := Status(r.0, EpisodeOf(a).value);
        && Some(e.total) == PlayTotal(a)
        && (PlayPosition(a).Some? ==> Some(e.position) == PlayPosition(a))
        && e.progress == Progress(e.position, e.total)
        && (e.total <= 0 ==> e.progress == 0.0)
        && (e.serverCompleted <==> e.progress > 95.0)
    // a "download" action marks the episode completed at 100%, keeping position and total
    ensures (a.JObj? && EpisodeOf(a).Some? && IsKind(a, "download")) ==>
        var e := Status(r.0, EpisodeOf(a).value);
        var before := Status(c, EpisodeOf(a).value);
        && r.1 && e.serverCompleted && e.progress == 100.0
        && e.position == before.position && e.total == before.total
  {
    if !a.JObj? then (c, false)
    else match EpisodeOf(a)
      case None => (c, true)
      case Some(url) =>
        var c1 := if url in c.entries then c else Put(c, url, Unknown);
        var act := Get(a, "action", JStr(""));
        if !act.JStr? then (c1, false)
        else
          var kind := Lower(act.s);
          if kind == "play" then
            match PlayTotal(a)
            case None => (c1, false)
            case Some(t) =>
              if t > 0 && PlayPosition(a).None? then (c1, false)
              else
                // without a positive total the position is never divided, so any
                // value is stored; a non-number keeps the entry's integer position
                var p := if PlayPosition(a).Some? then PlayPosition(a).value else c1.entries[url].position;
                var progress := Progress(p, t);
                (Put(c1, url, Entry(progress, p, t, progress > 95.0)), true)
          else if kind == "download" then
            var e := c1.entries[url];
            (Put(c1, url, e.(serverCompleted := true, progress := 100.0)), true)
          else (c1, true)
  }

  /** `_update_episode_actions_cache` over a list of actions, in order; the boolean
      is false when an action raised, in which case later actions are not applied. */
  function UpdateCache(c: Cache, actions: seq<Json>): (r: (Cache, bool))
    requires Valid(c)
    ensures Valid(r.0)
    ensures forall k :: k in c.entries ==> k in r.0.entries
    ensures |actions| == 0 ==> r == (c, true)
  {
    if |actions| == 0 then (c, true)
    else
      var prev := UpdateCache(c, actions[..|actions| - 1]);
      if !prev.1 then prev else ApplyAction(prev.0, actions[|actions| - 1])
  }

  /** An action about another episode leaves an entry as it was. */
  predicate Mentions(a: Json, url: string) {
    a.JObj? && EpisodeOf(a) == Some(url)
  }

  /** Actions about other episodes never touch an entry: the entry of `url` after a
      batch is decided by the batch's actions that name `url`. */
  lemma {:induction false} OtherActionsLeaveEntry(c: Cache, xs: seq<Json>, ys: seq<Json>, url: string)
    requires Valid(c)
    requires forall i :: 0 <= i < |ys| ==> !Mentions(ys[i], url)
    ensures Status(UpdateCache(c, xs + ys).0, url) == Status(UpdateCache(c, xs).0, url)
  {
    if |ys| > 0 {
      var zs := xs + ys;
      assert zs[..|zs| - 1] == xs + ys[..|ys| - 1];
      OtherActionsLeaveEntry(c, xs, ys[..|ys| - 1], url);
      var prev := UpdateCache(c, zs[..|zs| - 1]);
      if prev.1 {
        assert zs[|zs| - 1] == ys[|ys| - 1];
        var r := ApplyAction(prev.0, ys[|ys| - 1]);
        assert url in r.0.entries ==> url in prev.0.entries && r.0.entries[url] == prev.0.entries[url];
      }
    } else {
      assert xs + ys == xs;
    }
  }

  /** A batch of two actions applies the second to what the first left. */
  lemma UpdateTwo(c: Cache, a: Json, b: Json)
    requires Valid(c)
    ensures UpdateCache(c, [a, b]) ==
      if ApplyAction(c, a).1 then ApplyAction(ApplyAction(c, a).0, b) else ApplyAction(c, a)
  {
    assert [a, b][..1] == [a];
    assert [a][..0] == [];
  }

  /** A "play" record as the server sends it. */
  function PlayRecord(url: string, position: int, total: int): Json {
    JObj([("episode", JStr(url)), ("action", JStr("play")), ("position", JNum(position)), ("total", JNum(total))])
  }

  /** Each key of a "play" record looks up the value written under it. */
  lemma PlayRecordLookups(url: string, p: int, t: int)
    ensures Lookup(PlayRecord(url, p, t).fields, "episode") == Some(JStr(url))
    ensures Lookup(PlayRecord(url, p, t).fields, "action") == Some(JStr("play"))
    ensures Lookup(PlayRecord(url, p, t).fields, "position") == Some(JNum(p))
    ensures Lookup(PlayRecord(url, p, t).fields, "total") == Some(JNum(t))
  {
    var f3 := [("total", JNum(t))];
    var f2 := [("position", JNum(p))] + f3;
    var f1 := [("action", JStr("play"))] + f2;
    assert PlayRecord(url, p, t).fields == [("episode", JStr(url))] + f1;
    LookupCons("total", JNum(t), [], "total");
    LookupCons("position", JNum(p), f3, "position");
    LookupCons("position", JNum(p), f3, "total");
    LookupCons("action", JStr("play"), f2, "action");
    LookupCons("action", JStr("play"), f2, "position");
    LookupCons("action", JStr("play"), f2, "total");
    LookupCons("episode", JStr(url), f1, "episode");
    LookupCons("episode", JStr(url), f1, "action");
    LookupCons("episode", JStr(url), f1, "position");
    LookupCons("episode", JStr(url), f1, "total");
  }

  /** The fields of a "play" record read back as written. */
  lemma PlayRecordFields(url: string, p: int, t: int)
    requires |url| > 0
    ensures EpisodeOf(PlayRecord(url, p, t)) == Some(url)
    ensures Get(PlayRecord(url, p, t), "action", JStr("")) == JStr("play")
    ensures PlayPosition(PlayRecord(url, p, t)) == Some(p)
    ensures PlayTotal(PlayRecord(url, p, t)) == Some(t)
  {
    PlayRecordLookups(url, p, t);
  }

  /** Any "play" action naming an episode, with numeric position and total, stores
      exactly that position and total. */
  lemma ApplyPlayJson(c: Cache, a: Json, url: string, p: int, t: int)
    requires Valid(c) && a.JObj? && EpisodeOf(a) == Some(url)
    requires Get(a, "action", JStr("")) == JStr("play")
    requires PlayPosition(a) == Some(p) && PlayTotal(a) == Some(t)
    ensures ApplyAction(c, a).1
    ensures Status(ApplyAction(c, a).0, url) == Entry(Progress(p, t), p, t, Progress(p, t) > 95.0)
  {
    assert Lower("play") == "play";
  }

  /** Applying a well-formed "play" record stores exactly its position and total. */
  lemma ApplyPlayRecord(c: Cache, url: string, p: int, t: int)
    requires Valid(c) && |url| > 0
    ensures ApplyAction(c, PlayRecord(url, p, t)).1
    ensures Status(ApplyAction(c, PlayRecord(url, p, t)).0, url) == Entry(Progress(p, t), p, t, Progress(p, t) > 95.0)
  {
    PlayRecordFields(url, p, t);
    ApplyPlayJson(c, PlayRecord(url, p, t), url, p, t);
  }

  /** A "play" without a positive total is accepted whatever its position: nothing
      is divided, and the entry records no progress and no completion. */
  lemma ApplyPlayNoTotal(c: Cache, a: Json, url: string, t: int)
    requires Valid(c) && a.JObj? && EpisodeOf(a) == Some(url)
    requires Get(a, "action", JStr("")) == JStr("play")
    requires PlayTotal(a) == Some(t) && t <= 0
    ensures ApplyAction(c, a).1
    ensures var e := Status(ApplyAction(c, a).0, url);
      e.progress == 0.0 && e.total == t && !e.serverCompleted
  {
    assert Lower("play") == "play";
  }

  /** A "play" record whose position is null and whose total is missing. */
  function NullPlayRecord(url: string): Json {
    JObj([("episode", JStr(url)), ("action", JStr("play")), ("position", JNull)])
  }

  lemma NullPlayRecordFields(url: string)
    requires |url| > 0
    ensures EpisodeOf(NullPlayRecord(url)) == Some(url)
    ensures Get(NullPlayRecord(url), "action", JStr("")) == JStr("play")
    ensures PlayPosition(NullPlayRecord(url)).None?
    ensures PlayTotal(NullPlayRecord(url)) == Some(-1)
  {
    var f2 := [("position", JNull)];
    var f1 := [("action", JStr("play"))] + f2;
    assert NullPlayRecord(url).fields == [("episode", JStr(url))] + f1;
    LookupCons("position", JNull, [], "total");
    LookupCons("position", JNull, [], "position");
    LookupCons("action", JStr("play"), f2, "action");
    LookupCons("action", JStr("play"), f2, "position");
    LookupCons("action", JStr("play"), f2, "total");
    LookupCons("episode", JStr(url), f1, "episode");
    LookupCons("episode", JStr(url), f1, "action");
    LookupCons("episode", JStr(url), f1, "position");
    LookupCons("episode", JStr(url), f1, "total");
  }

  /** A null position with no total stores 0% progress and the default total. */
  lemma PlayWithoutTotal(c: Cache, url: string)
    requires Valid(c) && |url| > 0
    ensures var r := ApplyAction(c, NullPlayRecord(url));
      && r.1
      && Status(r.0, url).progress == 0.0
      && Status(r.0, url).total == -1
      && !Status(r.0, url).serverCompleted
  {
    NullPlayRecordFields(url);
    ApplyPlayNoTotal(c, NullPlayRecord(url), url, -1);
  }

  /** A later "play" with a lower position regresses the entry: positions are
      overwritten, not merged by maximum, and the completion flag can be lost. */
  lemma PlayRegresses(c: Cache, url: string)
    requires Valid(c) && |url| > 0
    ensures var r := UpdateCache(c, [PlayRecord(url, 97, 100), PlayRecord(url, 30, 100)]);
      && r.1
      && Status(r.0, url) == Entry(30.0, 30, 100, false)
      && Status(UpdateCache(c, [PlayRecord(url, 97, 100)]).0, url).serverCompleted
  {
    var first, second := PlayRecord(url, 97, 100), PlayRecord(url, 30, 100);
    assert [first, second][..1] == [first];
    assert [first][..0] == [];
    ApplyPlayRecord(c, url, 97, 100);
    var r1 := ApplyAction(c, first);
    ApplyPlayRecord(r1.0, url, 30, 100);
    assert Progress(97, 100) == 97.0;
    assert Progress(30, 100) == 30.0;
  }
}
