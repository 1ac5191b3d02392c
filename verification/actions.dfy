/** The episode actions litepop.py builds locally before uploading them: by
    `_get_pending_actions`, `mark_episode_completed` and `_sync_episode_position`. */
module LocalActions {
  import opened Base
  import opened Text
  import opened Json
  import opened Episodes
  import opened ActionCache

  datatype Kind = Download | Play(position: int, total: int)

  /** One action dictionary. `podcast` is `episode.podcast_url or episode.podcast_title`
      and `timestamp` is the caller's `datetime.now().isoformat()`. */
  datatype LocalAction = LocalAction(podcast: string, episode: string, kind: Kind, timestamp: string, guid: Json)
  {
    /** The dictionary, keys in the order the source writes them. */
    function ToJson(): Json {
      match kind
      case Download =>
        JObj([("podcast", JStr(podcast)), ("episode", JStr(episode)), ("action", JStr("download")),
              ("timestamp", JStr(timestamp)), ("guid", guid)])
      case Play(p, t) =>
        JObj([("podcast", JStr(podcast)), ("episode", JStr(episode)), ("action", JStr("play")),
              ("timestamp", JStr(timestamp)), ("position", JNum(p)), ("started", JNum(0)),
              ("total", JNum(t)), ("guid", guid)])
    }
  }

  /** `int(episode.duration) if episode.duration else -1`. */
  function TotalOf(ep: Episode): (t: int)
    ensures ep.duration == 0.0 ==> t == -1
    ensures ep.duration >= 1.0 ==> t >= 1
  {
    if ep.duration != 0.0 then Trunc(ep.duration) else -1
  }

  /** `episode.guid`, which is `None` (JSON null) when the feed gave none. */
  function GuidOf(ep: Episode): Json {
    if ep.guid.Some? then JStr(ep.guid.value) else JNull
  }

  /** `episode.guid if episode.guid else ""`. */
  function GuidOrBlank(ep: Episode): (g: Json)
    ensures g.JStr?
  {
    if ep.guid.Some? && |ep.guid.value| > 0 then JStr(ep.guid.value) else JStr("")
  }

  /** A "play" action carrying the episode's position, truncated, and its total. */
  function PlayAction(ep: Episode, now: string, guid: Json): (a: LocalAction)
    ensures a.episode == ep.url && a.kind.Play?
    ensures a.kind.position == Trunc(ep.position) && a.kind.total == TotalOf(ep)
  {
    LocalAction(ep.PodcastName(), ep.url, Play(Trunc(ep.position), TotalOf(ep)), now, guid)
  }

  /** A "download" action, which the server reads as "completed". */
  function DownloadAction(ep: Episode, now: string): (a: LocalAction)
    ensures a.episode == ep.url && a.kind.Download?
  {
    LocalAction(ep.PodcastName(), ep.url, Download, now, GuidOf(ep))
  }

  /** The keys of a "download" action's dictionary look up the values written under them. */
  lemma DownloadLookups(a: LocalAction)
    requires a.kind.Download?
    ensures Lookup(a.ToJson().fields, "episode") == Some(JStr(a.episode))
    ensures Lookup(a.ToJson().fields, "action") == Some(JStr("download"))
  {
    var fs := a.ToJson().fields;
    LookupAt(fs, 1);
    LookupAt(fs, 2);
  }

  /** The episode and action of a "play" action's dictionary read back as written. */
  lemma PlayLookups(a: LocalAction)
    requires a.kind.Play?
    ensures Lookup(a.ToJson().fields, "episode") == Some(JStr(a.episode))
    ensures Lookup(a.ToJson().fields, "action") == Some(JStr("play"))
  {
    var fs := a.ToJson().fields;
    LookupAt(fs, 1);
    LookupAt(fs, 2);
  }

  /** The position and total of a "play" action's dictionary read back as written. */
  lemma PlayNumberLookups(a: LocalAction)
    requires a.kind.Play?
    ensures Lookup(a.ToJson().fields, "position") == Some(JNum(a.kind.position))
    ensures Lookup(a.ToJson().fields, "total") == Some(JNum(a.kind.total))
  {
    PositionLookup(a);
    TotalLookup(a);
  }

  lemma PositionLookup(a: LocalAction)
    requires a.kind.Play?
    ensures Lookup(a.ToJson().fields, "position") == Some(JNum(a.kind.position))
  {
    LookupAt(a.ToJson().fields, 4);
  }

  lemma TotalLookup(a: LocalAction)
    requires a.kind.Play?
    ensures Lookup(a.ToJson().fields, "total") == Some(JNum(a.kind.total))
  {
    LookupAt(a.ToJson().fields, 6);
  }

  /** A "download" action's dictionary names its episode and the action kind. */
  lemma DownloadFields(a: LocalAction)
    requires a.kind.Download?
    ensures EpisodeOf(a.ToJson()) == if |a.episode| > 0 then Some(a.episode) else None
    ensures Get(a.ToJson(), "action", JStr("")) == JStr("download")
  {
    DownloadLookups(a);
  }

  /** A "play" action's dictionary names its episode and the action kind. */
  lemma PlayFields(a: LocalAction)
    requires a.kind.Play?
    ensures EpisodeOf(a.ToJson()) == if |a.episode| > 0 then Some(a.episode) else None
    ensures Get(a.ToJson(), "action", JStr("")) == JStr("play")
  {
    PlayLookups(a);
  }

  /** A "play" action's dictionary carries its position and total as numbers. */
  lemma PlayNumbers(a: LocalAction)
    requires a.kind.Play?
    ensures AsNumber(Get(a.ToJson(), "position", JNum(0))) == Some(a.kind.position)
    ensures AsNumber(Get(a.ToJson(), "total", JNum(-1))) == Some(a.kind.total)
  {
    PlayNumberLookups(a);
  }

  /** Uploading a local "download" action and reading it back marks the episode
      completed on the server's side of the cache. */
  lemma DownloadActionEffect(c: Cache, a: LocalAction)
    requires Valid(c) && |a.episode| > 0 && a.kind.Download?
    ensures ApplyAction(c, a.ToJson()).1
    ensures var e := Status(ApplyAction(c, a.ToJson()).0, a.episode);
      e.serverCompleted && e.progress == 100.0
  {
    DownloadFields(a);
    assert Lower("download") == "download";
  }

  /** Reading a local "play" action back stores its position and total. */
  lemma PlayActionEffect(c: Cache, a: LocalAction)
    requires Valid(c) && |a.episode| > 0 && a.kind.Play?
    ensures ApplyAction(c, a.ToJson()).1
    ensures Status(ApplyAction(c, a.ToJson()).0, a.episode)
      == Entry(Progress(a.kind.position, a.kind.total), a.kind.position, a.kind.total,
               Progress(a.kind.position, a.kind.total) > 95.0)
  {
    PlayFields(a);
    PlayNumbers(a);
    ApplyPlayJson(c, a.ToJson(), a.episode, a.kind.position, a.kind.total);
  }

  /** A "download" followed by a "play" for the same episode leaves exactly what the
      "play" says: the later action overwrites the completion the first one set. */
  lemma DownloadThenPlay(c: Cache, d: LocalAction, p: LocalAction)
    requires Valid(c) && |d.episode| > 0 && d.kind.Download? && p.kind.Play? && p.episode == d.episode
    ensures UpdateCache(c, [d.ToJson(), p.ToJson()]).1
    ensures Status(UpdateCache(c, [d.ToJson(), p.ToJson()]).0, d.episode)
      == Entry(Progress(p.kind.position, p.kind.total), p.kind.position, p.kind.total,
               Progress(p.kind.position, p.kind.total) > 95.0)
  {
    UpdateTwo(c, d.ToJson(), p.ToJson());
    DownloadActionEffect(c, d);
    PlayActionEffect(ApplyAction(c, d.ToJson()).0, p);
  }

  /** The dictionaries of a batch of local actions, as uploaded. */
  function Jsons(xs: seq<LocalAction>): (r: seq<Json>)
    ensures |r| == |xs|
    ensures forall i :: 0 <= i < |xs| ==> r[i] == xs[i].ToJson()
  {
    seq(|xs|, i requires 0 <= i < |xs| => xs[i].ToJson())
  }

  lemma JsonsAppend(xs: seq<LocalAction>, ys: seq<LocalAction>)
    ensures Jsons(xs + ys) == Jsons(xs) + Jsons(ys)
  {
  }

  /** A locally built action never makes the cache update raise. */
  lemma LocalActionApplies(c: Cache, a: LocalAction)
    requires Valid(c)
    ensures ApplyAction(c, a.ToJson()).1
  {
    if a.kind.Download? {
      DownloadFields(a);
      if |a.episode| > 0 {
        DownloadActionEffect(c, a);
      }
    } else {
      PlayFields(a);
      if |a.episode| > 0 {
        PlayActionEffect(c, a);
      }
    }
  }

  /** A batch of locally built actions is applied in full. */
  lemma {:induction false} ReplaySucceeds(c: Cache, xs: seq<LocalAction>)
    requires Valid(c)
    ensures UpdateCache(c, Jsons(xs)).1
  {
    if |xs| > 0 {
      var js := Jsons(xs);
      assert js[..|js| - 1] == Jsons(xs[..|xs| - 1]);
      ReplaySucceeds(c, xs[..|xs| - 1]);
      LocalActionApplies(UpdateCache(c, Jsons(xs[..|xs| - 1])).0, xs[|xs| - 1]);
    }
  }

  /** An action about one episode is not about another. */
  lemma NotMentioned(a: LocalAction, url: string)
    requires a.episode != url
    ensures !Mentions(a.ToJson(), url)
  {
    if a.kind.Download? {
      DownloadFields(a);
    } else {
      PlayFields(a);
    }
  }

  /** A "download" followed only by actions about other episodes leaves its episode
      completed, whatever came before it. */
  lemma DownloadLastWord(c: Cache, pre: seq<LocalAction>, d: LocalAction, post: seq<LocalAction>)
    requires Valid(c) && d.kind.Download? && |d.episode| > 0
    requires forall k :: 0 <= k < |post| ==> post[k].episode != d.episode
    ensures UpdateCache(c, Jsons(pre + [d] + post)).1
    ensures Status(UpdateCache(c, Jsons(pre + [d] + post)).0, d.episode).serverCompleted
  {
    ReplaySucceeds(c, pre + [d] + post);
    JsonsAppend(pre + [d], post);
    ReplaySucceeds(c, pre);
    var mid := UpdateCache(c, Jsons(pre));
    var upto := Jsons(pre + [d]);
    assert upto[..|upto| - 1] == Jsons(pre);
    assert upto[|upto| - 1] == d.ToJson();
    DownloadActionEffect(mid.0, d);
    forall k | 0 <= k < |post|
      ensures !Mentions(Jsons(post)[k], d.episode)
    {
      NotMentioned(post[k], d.episode);
    }
    OtherActionsLeaveEntry(c, upto, Jsons(post), d.episode);
  }
}
