/** The way an episode action travels from the client to the server and back
    (litepop.py): `upload_episode_actions` sends the formatted action, not the
    local dictionary, and `_update_episode_actions_cache` reads what comes back.
    The formatting lower-cases the action, reprints the timestamp, adds the device
    for opodsync, and drops a negative position and a total that is not positive;
    the cache update reads a dropped field at its default, position 0 and total -1. */
module Upload {
  import opened Base
  import opened Text
  import opened Json
  import opened Dialect
  import opened Episodes
  import opened ActionCache
  import opened LocalActions
  import opened Reconcile

  /** The client's side of an upload: the configured backend, the device id, the
      ISO parser and the clock reading `upload_episode_actions` uses. */
  datatype Link = Link(backend: Backend, device: Json, parseIso: string -> Option<DateTime>, now: DateTime)

  /** No field of the list has the key. */
  predicate NoKey(xs: seq<(string, Json)>, key: string) {
    forall i :: 0 <= i < |xs| ==> xs[i].0 != key
  }

  lemma NoKeyAppend(xs: seq<(string, Json)>, ys: seq<(string, Json)>, key: string)
    requires NoKey(xs, key) && NoKey(ys, key)
    ensures NoKey(xs + ys, key)
  {
  }

  /** An optional field: present with its value, or absent. */
  function Opt(key: string, v: Option<Json>): seq<(string, Json)> {
    if v.Some? then [(key, v.value)] else []
  }

  lemma OptOther(key: string, v: Option<Json>, other: string)
    requires key != other
    ensures NoKey(Opt(key, v), other)
  {
  }

  lemma OptLookup(key: string, v: Option<Json>)
    ensures Lookup(Opt(key, v), key) == v
  {
    if v.Some? {
      LookupCons(key, v.value, [], key);
    }
  }

  /** Looking a key up past a list that does not hold it. */
  lemma LookupPast(xs: seq<(string, Json)>, ys: seq<(string, Json)>, key: string)
    requires NoKey(xs, key)
    ensures Lookup(xs + ys, key) == Lookup(ys, key)
  {
    LookupAppend(xs, ys, key);
  }

  /** Looking a key up before a list that does not hold it. */
  lemma LookupBefore(xs: seq<(string, Json)>, ys: seq<(string, Json)>, key: string)
    requires NoKey(ys, key)
    ensures Lookup(xs + ys, key) == Lookup(xs, key)
  {
    LookupAppend(xs, ys, key);
    if !HasKey(xs, key) {
      assert Lookup(xs + ys, key) == Lookup(ys, key);
    }
  }

  function Num(v: Option<int>): Option<Json> {
    if v.Some? then Some(JNum(v.value)) else None
  }

  function Str(v: Option<string>): Option<Json> {
    if v.Some? then Some(JStr(v.value)) else None
  }

  /** The four fields every formatted action has. */
  function Head(f: Formatted): seq<(string, Json)> {
    [("podcast", f.podcast), ("episode", f.episode), ("action", JStr(f.action)), ("timestamp", JStr(f.timestamp))]
  }

  /** A formatted action's fields: the head, then the optional ones. */
  lemma FormattedParts(f: Formatted)
    ensures f.ToJson().fields
      == Head(f) + Opt("device", f.device) + Opt("position", Num(f.position))
         + Opt("started", Num(f.started)) + Opt("total", Num(f.total)) + Opt("guid", Str(f.guid))
  {
  }

  lemma HeadLookups(f: Formatted)
    ensures Lookup(Head(f), "episode") == Some(f.episode)
    ensures Lookup(Head(f), "action") == Some(JStr(f.action))
    ensures NoKey(Head(f), "position") && NoKey(Head(f), "total")
  {
    LookupAt(Head(f), 1);
    LookupAt(Head(f), 2);
  }

  /** The fields of a formatted action that the cache update reads look up as written. */
  lemma FormattedLookups(f: Formatted)
    ensures Lookup(f.ToJson().fields, "episode") == Some(f.episode)
    ensures Lookup(f.ToJson().fields, "action") == Some(JStr(f.action))
    ensures Lookup(f.ToJson().fields, "position") == Num(f.position)
    ensures Lookup(f.ToJson().fields, "total") == Num(f.total)
  {
    FormattedParts(f);
    HeadLookups(f);
    var h, d, p := Head(f), Opt("device", f.device), Opt("position", Num(f.position));
    var s, t, g := Opt("started", Num(f.started)), Opt("total", Num(f.total)), Opt("guid", Str(f.guid));
    forall key | key in {"episode", "action"}
      ensures Lookup(h + d + p + s + t + g, key) == Lookup(h, key)
    {
      OptOther("device", f.device, key);
      OptOther("position", Num(f.position), key);
      OptOther("started", Num(f.started), key);
      OptOther("total", Num(f.total), key);
      OptOther("guid", Str(f.guid), key);
      HeadFirst(h, d, p, s, t, g, key);
    }
    OptOther("device", f.device, "position");
    OptOther("started", Num(f.started), "position");
    OptOther("total", Num(f.total), "position");
    OptOther("guid", Str(f.guid), "position");
    Third(h, d, p, s, t, g, "position");
    OptLookup("position", Num(f.position));
    OptOther("device", f.device, "total");
    OptOther("position", Num(f.position), "total");
    OptOther("started", Num(f.started), "total");
    OptOther("guid", Str(f.guid), "total");
    Fifth(h, d, p, s, t, g, "total");
    OptLookup("total", Num(f.total));
  }

  lemma HeadFirst(h: seq<(string, Json)>, d: seq<(string, Json)>, p: seq<(string, Json)>,
                  s: seq<(string, Json)>, t: seq<(string, Json)>, g: seq<(string, Json)>, key: string)
    requires NoKey(d, key) && NoKey(p, key) && NoKey(s, key) && NoKey(t, key) && NoKey(g, key)
    ensures Lookup(h + d + p + s + t + g, key) == Lookup(h, key)
  {
    NoKeyAppend(d, p, key);
    NoKeyAppend(d + p, s, key);
    NoKeyAppend(d + p + s, t, key);
    NoKeyAppend(d + p + s + t, g, key);
    assert h + d + p + s + t + g == h + (d + p + s + t + g);
    LookupBefore(h, d + p + s + t + g, key);
  }

  lemma Third(h: seq<(string, Json)>, d: seq<(string, Json)>, p: seq<(string, Json)>,
              s: seq<(string, Json)>, t: seq<(string, Json)>, g: seq<(string, Json)>, key: string)
    requires NoKey(h, key) && NoKey(d, key) && NoKey(s, key) && NoKey(t, key) && NoKey(g, key)
    ensures Lookup(h + d + p + s + t + g, key) == Lookup(p, key)
  {
    NoKeyAppend(h, d, key);
    NoKeyAppend(s, t, key);
    NoKeyAppend(s + t, g, key);
    assert h + d + p + s + t + g == (h + d) + (p + (s + t + g));
    LookupPast(h + d, p + (s + t + g), key);
    LookupBefore(p, s + t + g, key);
  }

  lemma Fifth(h: seq<(string, Json)>, d: seq<(string, Json)>, p: seq<(string, Json)>,
              s: seq<(string, Json)>, t: seq<(string, Json)>, g: seq<(string, Json)>, key: string)
    requires NoKey(h, key) && NoKey(d, key) && NoKey(p, key) && NoKey(s, key) && NoKey(g, key)
    ensures Lookup(h + d + p + s + t + g, key) == Lookup(t, key)
  {
    NoKeyAppend(h, d, key);
    NoKeyAppend(h + d, p, key);
    NoKeyAppend(h + d + p, s, key);
    assert h + d + p + s + t + g == (h + d + p + s) + (t + g);
    LookupPast(h + d + p + s, t + g, key);
    LookupBefore(t, g, key);
  }

  // ---------------------------------------------------------------------------
  // One local action, formatted

  /** The guid of a local action is `episode.guid`: text or `None`. Any other
      truthy value would make the formatting raise on `strip()`. */
  predicate GuidSendable(a: LocalAction) {
    !Truthy(a.guid) || a.guid.JStr?
  }

  /** The keys a local "download" dictionary does not have. */
  lemma DownloadLacks(a: LocalAction, key: string)
    requires a.kind.Download? && key in {"position", "started", "total"}
    ensures Lookup(a.ToJson().fields, key).None?
  {
    assert NoKey(a.ToJson().fields, key);
  }

  lemma DownloadGuid(a: LocalAction)
    requires a.kind.Download?
    ensures Lookup(a.ToJson().fields, "guid") == Some(a.guid)
  {
    LookupAt(a.ToJson().fields, 4);
  }

  lemma PlayStarted(a: LocalAction)
    requires a.kind.Play?
    ensures Lookup(a.ToJson().fields, "started") == Some(JNum(0))
  {
    LookupAt(a.ToJson().fields, 5);
  }

  lemma PlayGuid(a: LocalAction)
    requires a.kind.Play?
    ensures Lookup(a.ToJson().fields, "guid") == Some(a.guid)
  {
    LookupAt(a.ToJson().fields, 7);
  }

  /** Every local action with a text or absent guid formats without raising. */
  lemma LocalFormats(a: LocalAction, k: Link)
    requires GuidSendable(a)
    ensures FormatAction(a.ToJson(), k.backend, k.device, k.parseIso, k.now).Some?
  {
    var j := a.ToJson();
    if a.kind.Download? {
      DownloadLookups(a);
      DownloadLacks(a, "position");
      DownloadLacks(a, "started");
      DownloadLacks(a, "total");
      DownloadGuid(a);
    } else {
      PlayLookups(a);
      PlayNumberLookups(a);
      PlayStarted(a);
      PlayGuid(a);
    }
  }

  /** The action as it goes on the wire. */
  function Sent(a: LocalAction, k: Link): (r: Json)
    requires GuidSendable(a)
    ensures FormatAction(a.ToJson(), k.backend, k.device, k.parseIso, k.now).Some?
    ensures r == FormatAction(a.ToJson(), k.backend, k.device, k.parseIso, k.now).value.ToJson()
  {
    LocalFormats(a, k);
    FormatAction(a.ToJson(), k.backend, k.device, k.parseIso, k.now).value.ToJson()
  }

  /** The position the server reads back: a negative one is dropped and reads as 0. */
  function SentPosition(p: int): int {
    if p >= 0 then p else 0
  }

  /** The total the server reads back: one that is not positive is dropped and reads as -1. */
  function SentTotal(t: int): int {
    if t > 0 then t else -1
  }

  /** A numeric field present as a number is kept iff it is in range. */
  lemma NumericPresent(a: Json, key: string, strictlyPositive: bool, n: int)
    requires a.JObj? && Lookup(a.fields, key) == Some(JNum(n))
    ensures NumericField(a, key, strictlyPositive) == Some(if (if strictlyPositive then n > 0 else n >= 0) then Some(n) else None)
  {
  }

  lemma NumericAbsent(a: Json, key: string, strictlyPositive: bool)
    requires a.JObj? && Lookup(a.fields, key).None?
    ensures NumericField(a, key, strictlyPositive) == Some(None)
  {
  }

  /** A formatted action keeps the episode, lower-cases the action, and keeps a
      numeric position or total only in range. */
  lemma FormatReads(j: Json, k: Link, ep: string, act: string, pos: Option<int>, total: Option<int>)
    requires FormatAction(j, k.backend, k.device, k.parseIso, k.now).Some?
    requires Lookup(j.fields, "episode") == Some(JStr(ep)) && Lookup(j.fields, "action") == Some(JStr(act))
    requires Lookup(j.fields, "position") == Num(pos) && Lookup(j.fields, "total") == Num(total)
    ensures var f := FormatAction(j, k.backend, k.device, k.parseIso, k.now).value;
      && f.episode == JStr(ep) && f.action == Lower(act)
      && f.position == (if pos.Some? && pos.value >= 0 then pos else None)
      && f.total == (if total.Some? && total.value > 0 then total else None)
  {
    if pos.Some? {
      NumericPresent(j, "position", false, pos.value);
    } else {
      NumericAbsent(j, "position", false);
    }
    if total.Some? {
      NumericPresent(j, "total", true, total.value);
    } else {
      NumericAbsent(j, "total", true);
    }
  }

  /** The two action names are already lower-case. */
  lemma LowerKinds()
    ensures Lower("download") == "download" && Lower("play") == "play"
  {
    assert forall i :: 0 <= i < |"download"| ==> LowerChar("download"[i]) == "download"[i];
    assert forall i :: 0 <= i < |"play"| ==> LowerChar("play"[i]) == "play"[i];
  }

  /** A formatted "download" names the episode and has no position and no total. */
  lemma FormattedDownload(a: LocalAction, k: Link)
    requires GuidSendable(a) && a.kind.Download?
    ensures FormatAction(a.ToJson(), k.backend, k.device, k.parseIso, k.now).Some?
    ensures var f := FormatAction(a.ToJson(), k.backend, k.device, k.parseIso, k.now).value;
      && f.episode == JStr(a.episode) && f.action == "download" && f.position.None? && f.total.None?
  {
    LocalFormats(a, k);
    DownloadLookups(a);
    DownloadLacks(a, "position");
    DownloadLacks(a, "total");
    FormatReads(a.ToJson(), k, a.episode, "download", None, None);
    LowerKinds();
  }

  /** A formatted "play" names the episode, and keeps the position only when it is
      not negative and the total only when it is positive. */
  lemma FormattedPlay(a: LocalAction, k: Link)
    requires GuidSendable(a) && a.kind.Play?
    ensures FormatAction(a.ToJson(), k.backend, k.device, k.parseIso, k.now).Some?
    ensures var f := FormatAction(a.ToJson(), k.backend, k.device, k.parseIso, k.now).value;
      && f.episode == JStr(a.episode) && f.action == "play"
      && f.position == (if a.kind.position >= 0 then Some(a.kind.position) else None)
      && f.total == (if a.kind.total > 0 then Some(a.kind.total) else None)
  {
    LocalFormats(a, k);
    PlayLookups(a);
    PlayNumberLookups(a);
    FormatReads(a.ToJson(), k, a.episode, "play", Some(a.kind.position), Some(a.kind.total));
    LowerKinds();
  }

  /** What a cache update reads from a local action once it has been formatted:
      the same episode and action, the position with a negative value read as 0,
      and the total with a value that is not positive read as -1. */
  lemma SentReads(a: LocalAction, k: Link)
    requires GuidSendable(a)
    ensures Sent(a, k).JObj?
    ensures EpisodeOf(Sent(a, k)) == EpisodeOf(a.ToJson())
    ensures Get(Sent(a, k), "action", JStr("")) == Get(a.ToJson(), "action", JStr(""))
    ensures a.kind.Download? ==>
      PlayPosition(Sent(a, k)) == PlayPosition(a.ToJson()) && PlayTotal(Sent(a, k)) == PlayTotal(a.ToJson())
    ensures a.kind.Play? ==>
      && PlayPosition(Sent(a, k)) == Some(SentPosition(a.kind.position))
      && PlayTotal(Sent(a, k)) == Some(SentTotal(a.kind.total))
  {
    LocalFormats(a, k);
    var f := FormatAction(a.ToJson(), k.backend, k.device, k.parseIso, k.now).value;
    FormattedLookups(f);
    if a.kind.Download? {
      FormattedDownload(a, k);
      DownloadFields(a);
      DownloadLacks(a, "position");
      DownloadLacks(a, "total");
    } else {
      FormattedPlay(a, k);
      PlayFields(a);
    }
  }

  // ---------------------------------------------------------------------------
  // The server reading a formatted action back

  /** The cache update looks only at the episode, the action, the position and the total. */
  lemma ApplySameReads(c: Cache, x: Json, y: Json)
    requires Valid(c) && x.JObj? && y.JObj?
    requires EpisodeOf(x) == EpisodeOf(y) && Get(x, "action", JStr("")) == Get(y, "action", JStr(""))
    requires PlayPosition(x) == PlayPosition(y) && PlayTotal(x) == PlayTotal(y)
    ensures ApplyAction(c, x) == ApplyAction(c, y)
  {
  }

  /** A local action the formatting sends without dropping anything the cache
      update reads: a "play" with a position of at least 0 and a total that is
      positive or the -1 of an unknown duration. */
  predicate SentWhole(a: LocalAction) {
    a.kind.Play? ==> SentPosition(a.kind.position) == a.kind.position && SentTotal(a.kind.total) == a.kind.total
  }

  /** Reading back what was sent agrees with reading back the local dictionary
      whenever the formatting dropped nothing. */
  lemma SentAgrees(c: Cache, a: LocalAction, k: Link)
    requires Valid(c) && GuidSendable(a) && SentWhole(a)
    ensures ApplyAction(c, Sent(a, k)) == ApplyAction(c, a.ToJson())
  {
    SentReads(a, k);
    if a.kind.Play? {
      PlayNumbers(a);
    }
    ApplySameReads(c, Sent(a, k), a.ToJson());
  }

  /** A formatted "play" stores the position and total as the server reads them
      back: a negative position as 0, a total that is not positive as -1. */
  lemma SentPlayEffect(c: Cache, a: LocalAction, k: Link)
    requires Valid(c) && GuidSendable(a) && a.kind.Play? && |a.episode| > 0
    ensures ApplyAction(c, Sent(a, k)).1
    ensures var p, t := SentPosition(a.kind.position), SentTotal(a.kind.total);
      Status(ApplyAction(c, Sent(a, k)).0, a.episode) == Entry(Progress(p, t), p, t, Progress(p, t) > 95.0)
  {
    SentReads(a, k);
    PlayFields(a);
    ApplyPlayJson(c, Sent(a, k), a.episode, SentPosition(a.kind.position), SentTotal(a.kind.total));
  }

  /** Whatever the formatting drops, a formatted local action never makes the cache
      update raise, and it is about the same episode as the local dictionary. */
  lemma SentApplies(c: Cache, a: LocalAction, k: Link, url: string)
    requires Valid(c) && GuidSendable(a)
    ensures ApplyAction(c, Sent(a, k)).1
    ensures Mentions(Sent(a, k), url) <==> Mentions(a.ToJson(), url)
  {
    SentReads(a, k);
    if a.kind.Download? {
      SentAgrees(c, a, k);
      LocalActionApplies(c, a);
    } else if |a.episode| > 0 {
      SentPlayEffect(c, a, k);
    } else {
      PlayFields(a);
    }
  }

  // ---------------------------------------------------------------------------
  // A batch

  predicate AllSendable(xs: seq<LocalAction>) {
    forall i :: 0 <= i < |xs| ==> GuidSendable(xs[i])
  }

  /** The body `upload_episode_actions` posts for a batch of local actions. */
  function SentAll(xs: seq<LocalAction>, k: Link): (r: seq<Json>)
    requires AllSendable(xs)
    ensures |r| == |xs|
    ensures forall i :: 0 <= i < |xs| ==> r[i] == Sent(xs[i], k)
  {
    seq(|xs|, i requires 0 <= i < |xs| => Sent(xs[i], k))
  }

  /** A batch of local actions is always posted to a known backend, and the body
      is the formatted actions in order. */
  lemma UploadBody(xs: seq<LocalAction>, user: string, k: Link)
    requires AllSendable(xs)
    ensures var plan := UploadEpisodeActions(Jsons(xs), k.backend, user, k.device, k.parseIso, k.now);
      && (plan.Send? <==> |xs| > 0 && !k.backend.OtherBackend?)
      && (plan.Send? ==> plan.request.body == JArr(SentAll(xs, k)))
  {
    var js := Jsons(xs);
    var plan := UploadEpisodeActions(js, k.backend, user, k.device, k.parseIso, k.now);
    forall i | 0 <= i < |js|
      ensures FormatAction(js[i], k.backend, k.device, k.parseIso, k.now).Some?
    {
      LocalFormats(xs[i], k);
    }
    if plan.Send? {
      assert plan.request.body.items == SentAll(xs, k);
    }
  }

  lemma SentAllAppend(xs: seq<LocalAction>, ys: seq<LocalAction>, k: Link)
    requires AllSendable(xs) && AllSendable(ys)
    ensures AllSendable(xs + ys)
    ensures SentAll(xs + ys, k) == SentAll(xs, k) + SentAll(ys, k)
  {
    assert forall i :: 0 <= i < |xs + ys| ==> (xs + ys)[i] == if i < |xs| then xs[i] else ys[i - |xs|];
  }

  /** The server reading back a posted batch never raises. */
  lemma {:induction false} SentReplaySucceeds(c: Cache, xs: seq<LocalAction>, k: Link)
    requires Valid(c) && AllSendable(xs)
    ensures UpdateCache(c, SentAll(xs, k)).1
  {
    if |xs| > 0 {
      var js := SentAll(xs, k);
      var init := xs[..|xs| - 1];
      assert js[..|js| - 1] == SentAll(init, k);
      SentReplaySucceeds(c, init, k);
      SentApplies(UpdateCache(c, SentAll(init, k)).0, xs[|xs| - 1], k, "");
    }
  }

  /** When the formatting drops nothing, reading back the posted batch gives the
      same cache as reading back the local dictionaries. */
  lemma {:induction false} SentReplayAgrees(c: Cache, xs: seq<LocalAction>, k: Link)
    requires Valid(c) && AllSendable(xs)
    requires forall i :: 0 <= i < |xs| ==> SentWhole(xs[i])
    ensures UpdateCache(c, SentAll(xs, k)) == UpdateCache(c, Jsons(xs))
  {
    if |xs| > 0 {
      var js, ls := SentAll(xs, k), Jsons(xs);
      var init := xs[..|xs| - 1];
      assert js[..|js| - 1] == SentAll(init, k);
      assert ls[..|ls| - 1] == Jsons(init);
      SentReplayAgrees(c, init, k);
      var prev := UpdateCache(c, Jsons(init));
      if prev.1 {
        SentAgrees(prev.0, xs[|xs| - 1], k);
      }
    }
  }

  /** A posted "download" followed only by actions about other episodes leaves its
      episode completed when the server reads the batch back. */
  lemma SentLastWord(c: Cache, pre: seq<LocalAction>, d: LocalAction, post: seq<LocalAction>, k: Link)
    requires Valid(c) && d.kind.Download? && |d.episode| > 0
    requires AllSendable(pre) && GuidSendable(d) && AllSendable(post)
    requires forall i :: 0 <= i < |post| ==> post[i].episode != d.episode
    ensures AllSendable(pre + [d] + post)
    ensures UpdateCache(c, SentAll(pre + [d] + post, k)).1
    ensures Status(UpdateCache(c, SentAll(pre + [d] + post, k)).0, d.episode).serverCompleted
  {
    SentAllAppend(pre, [d], k);
    SentAllAppend(pre + [d], post, k);
    SentReplaySucceeds(c, pre + [d] + post, k);
    SentReplaySucceeds(c, pre, k);
    var mid := UpdateCache(c, SentAll(pre, k));
    var upto := SentAll(pre + [d], k);
    assert upto[..|upto| - 1] == SentAll(pre, k);
    assert upto[|upto| - 1] == Sent(d, k);
    SentAgrees(mid.0, d, k);
    DownloadActionEffect(mid.0, d);
    forall i | 0 <= i < |post|
      ensures !Mentions(SentAll(post, k)[i], d.episode)
    {
      NotMentioned(post[i], d.episode);
      SentApplies(c, post[i], k, d.episode);
    }
    OtherActionsLeaveEntry(c, upto, SentAll(post, k), d.episode);
  }

  // ---------------------------------------------------------------------------
  // The uploads of `mark_episode_completed` and `_get_pending_actions`

  lemma SendableParts(pre: seq<LocalAction>, d: LocalAction, post: seq<LocalAction>)
    requires AllSendable(pre + [d] + post)
    ensures AllSendable(pre) && GuidSendable(d) && AllSendable(post)
  {
    var xs := pre + [d] + post;
    assert forall i :: 0 <= i < |pre| ==> xs[i] == pre[i];
    assert xs[|pre|] == d;
    assert forall i :: 0 <= i < |post| ==> xs[|pre| + 1 + i] == post[i];
  }

  /** The per-episode loop only builds actions carrying an episode's guid. */
  lemma {:induction false} QueueSendable(q: seq<Episode>, current: Option<string>, now: string, n: nat)
    requires n <= |q|
    ensures AllSendable(QueueActions(q, current, now, n))
  {
    if n > 0 {
      QueueSendable(q, current, now, n - 1);
    }
  }

  lemma PendingSendable(q: seq<Episode>, index: int, playing: bool, live: real, now: string)
    ensures AllSendable(PendingActions(q, index, playing, live, now).actions)
  {
    var p := PendingActions(q, index, playing, live, now);
    var head := PendingParts(q, index, playing, live, now);
    QueueSendable(p.queue, CurrentUrl(p.queue, index), now, |p.queue|);
  }

  /** A "download" and a "play" for one episode, posted together. */
  predicate CompletionPair(d: LocalAction, pl: LocalAction) {
    && d.kind.Download? && pl.kind.Play? && |d.episode| > 0 && pl.episode == d.episode
    && GuidSendable(d) && GuidSendable(pl)
  }

  lemma PairBody(d: LocalAction, pl: LocalAction, user: string, k: Link)
    requires CompletionPair(d, pl)
    ensures var plan := UploadEpisodeActions(Jsons([d, pl]), k.backend, user, k.device, k.parseIso, k.now);
      && (plan.Send? <==> !k.backend.OtherBackend?)
      && (plan.Send? ==> plan.request.body.items == [Sent(d, k), Sent(pl, k)])
      && Jsons([d, pl]) == [d.ToJson(), pl.ToJson()]
  {
    UploadBody([d, pl], user, k);
    var xs := [d, pl];
    PairSeq(SentAll(xs, k), Sent(d, k), Sent(pl, k));
    PairSeq(Jsons(xs), d.ToJson(), pl.ToJson());
  }

  lemma PairSeq<T>(s: seq<T>, x: T, y: T)
    requires |s| == 2 && s[0] == x && s[1] == y
    ensures s == [x, y]
  {
  }

  /** A posted pair whose "play" loses nothing reads back as the local pair does. */
  lemma PairUploadAgrees(d: LocalAction, pl: LocalAction, server: Cache, user: string, k: Link)
    requires Valid(server) && CompletionPair(d, pl) && SentWhole(pl)
    ensures var plan := UploadEpisodeActions(Jsons([d, pl]), k.backend, user, k.device, k.parseIso, k.now);
      plan.Send? ==> UpdateCache(server, plan.request.body.items) == UpdateCache(server, [d.ToJson(), pl.ToJson()])
  {
    PairBody(d, pl, user, k);
    UpdateTwo(server, Sent(d, k), Sent(pl, k));
    UpdateTwo(server, d.ToJson(), pl.ToJson());
    SentAgrees(server, d, k);
    SentAgrees(ApplyAction(server, d.ToJson()).0, pl, k);
  }

  /** A posted pair whose "play" has no positive total reads back as 0% progress and
      not completed. */
  lemma PairUploadNoTotal(d: LocalAction, pl: LocalAction, server: Cache, user: string, k: Link)
    requires Valid(server) && CompletionPair(d, pl) && pl.kind.total <= 0
    ensures var plan := UploadEpisodeActions(Jsons([d, pl]), k.backend, user, k.device, k.parseIso, k.now);
      plan.Send? ==>
        var replay := UpdateCache(server, plan.request.body.items);
        replay.1 && Status(replay.0, d.episode).progress == 0.0 && !Status(replay.0, d.episode).serverCompleted
  {
    PairBody(d, pl, user, k);
    UpdateTwo(server, Sent(d, k), Sent(pl, k));
    SentApplies(server, d, k, d.episode);
    SentPlayEffect(ApplyAction(server, Sent(d, k)).0, pl, k);
  }

  /** With a known duration, the server reading back the two posted actions of a
      completion reaches the entry the local cache writes. */
  lemma CompletionUploadAgrees(ep: Episode, c: Cache, stamp: string, reply: Json, server: Cache, user: string, k: Link)
    requires Valid(c) && Valid(server) && Truthy(reply) && |ep.url| > 0 && ep.duration >= 1.0
    ensures var r := MarkCompleted(ep, c, stamp, reply);
      var plan := UploadEpisodeActions(Jsons(r.actions), k.backend, user, k.device, k.parseIso, k.now);
      && (plan.Send? <==> !k.backend.OtherBackend?)
      && (plan.Send? ==>
            var replay := UpdateCache(server, plan.request.body.items);
            replay.1 && Status(replay.0, ep.url) == Status(r.cache, ep.url))
  {
    var r := MarkCompleted(ep, c, stamp, reply);
    assert r.actions == [r.actions[0], r.actions[1]];
    PairBody(r.actions[0], r.actions[1], user, k);
    PairUploadAgrees(r.actions[0], r.actions[1], server, user, k);
    CompletionReplayAgrees(ep, c, stamp, reply, server);
  }

  /** With no duration the posted "play" has no total, which the server reads as -1:
      it reports progress 0 and not completed, although the local cache says completed. */
  lemma CompletionUploadWithoutDuration(ep: Episode, c: Cache, stamp: string, reply: Json, server: Cache,
                                        user: string, k: Link)
    requires Valid(c) && Valid(server) && Truthy(reply) && |ep.url| > 0 && ep.duration == 0.0
    ensures var r := MarkCompleted(ep, c, stamp, reply);
      var plan := UploadEpisodeActions(Jsons(r.actions), k.backend, user, k.device, k.parseIso, k.now);
      && (plan.Send? <==> !k.backend.OtherBackend?)
      && (plan.Send? ==>
            var replay := UpdateCache(server, plan.request.body.items);
            && replay.1
            && Status(replay.0, ep.url).progress == 0.0
            && !Status(replay.0, ep.url).serverCompleted
            && Status(r.cache, ep.url).serverCompleted)
  {
    var r := MarkCompleted(ep, c, stamp, reply);
    assert r.actions == [r.actions[0], r.actions[1]];
    PairBody(r.actions[0], r.actions[1], user, k);
    PairUploadNoTotal(r.actions[0], r.actions[1], server, user, k);
  }

  /** Posting the pending actions of a queue without repeated URLs, and reading
      them back, marks every completed queued episode completed on the server. */
  lemma PendingUploadMarksCompleted(q: seq<Episode>, index: int, playing: bool, live: real, stamp: string,
                                    server: Cache, i: nat, user: string, k: Link)
    requires Valid(server) && Distinct(Urls(q)) && i < |q| && q[i].completed && |q[i].url| > 0
    ensures var p := PendingActions(q, index, playing, live, stamp);
      var plan := UploadEpisodeActions(Jsons(p.actions), k.backend, user, k.device, k.parseIso, k.now);
      && (plan.Send? <==> !k.backend.OtherBackend?)
      && (plan.Send? ==>
            var replay := UpdateCache(server, plan.request.body.items);
            replay.1 && Status(replay.0, q[i].url).serverCompleted)
  {
    var p := PendingActions(q, index, playing, live, stamp);
    var pre, post := PendingSplit(q, index, playing, live, stamp, i);
    var d := DownloadAction(p.queue[i], stamp);
    PendingSendable(q, index, playing, live, stamp);
    SendableParts(pre, d, post);
    UploadBody(p.actions, user, k);
    SentLastWord(server, pre, d, post, k);
  }
}
