/** Reconciling the local queue with the server's view (litepop.py): refreshing
    queued episodes and adopting partially played ones (`_load_auto_queue`),
    collecting local progress for upload (`_get_pending_actions`) and marking an
    episode completed (`mark_episode_completed`). */
module Reconcile {
  import opened Base
  import opened Json
  import opened Episodes
  import opened ActionCache
  import opened LocalActions

  // ---------------------------------------------------------------------------
  // Refreshing queued episodes

  /** A queued episode after `_load_auto_queue` has read its cache status. */
  function RefreshOne(ep: Episode, s: Entry): (r: Episode)
    ensures r.url == ep.url
    // the server's completion flag wins, even when it says "not completed"
    ensures r.serverCompleted == s.serverCompleted
    // position and progress never go down
    ensures r.position >= ep.position && r.position >= s.position as real
    ensures r.position == ep.position || r.position == s.position as real
    ensures r.progress >= ep.progress && r.progress >= s.progress
    ensures r.progress == ep.progress || r.progress == s.progress
    ensures r.(serverCompleted := ep.serverCompleted, position := ep.position, progress := ep.progress) == ep
  {
    ep.(serverCompleted := s.serverCompleted,
        position := MaxReal(ep.position, s.position as real),
        progress := MaxReal(ep.progress, s.progress))
  }

  function Refresh(q: seq<Episode>, c: Cache): (r: seq<Episode>)
    ensures |r| == |q| && Urls(r) == Urls(q)
    ensures forall i :: 0 <= i < |q| ==> r[i] == RefreshOne(q[i], Status(c, q[i].url))
  {
    seq(|q|, i requires 0 <= i < |q| => RefreshOne(q[i], Status(c, q[i].url)))
  }

  /** Refreshing twice from the same cache is refreshing once. */
  lemma RefreshIdempotent(q: seq<Episode>, c: Cache)
    ensures Refresh(Refresh(q, c), c) == Refresh(q, c)
  {
    var r := Refresh(q, c);
    forall i | 0 <= i < |q|
      ensures Refresh(r, c)[i] == r[i]
    {
      assert r[i].url == q[i].url;
    }
  }

  // ---------------------------------------------------------------------------
  // Finding an episode in the loaded feeds

  /** The index of the first item with this URL, or -1. */
  function FirstIndex(items: seq<FeedItem>, url: string): (i: int)
    ensures -1 <= i < |items|
    ensures i >= 0 ==> items[i].url == url
    ensures forall j :: 0 <= j < |items| && (i == -1 || j < i) ==> items[j].url != url
  {
    if |items| == 0 then -1
    else if items[0].url == url then 0
    else
      var k := FirstIndex(items[1..], url);
      if k == -1 then -1 else k + 1
  }

  /** The search over `self.subscriptions`: feeds in order, items in order, the first match. */
  function FindInFeeds(feeds: seq<seq<FeedItem>>, url: string): (r: Option<FeedItem>)
    ensures r.Some? ==> r.value.url == url
    ensures r.None? <==> forall f, i :: 0 <= f < |feeds| && 0 <= i < |feeds[f]| ==> feeds[f][i].url != url
  {
    if |feeds| == 0 then None
    else
      var i := FirstIndex(feeds[0], url);
      if i >= 0 then Some(feeds[0][i])
      else
        var r := FindInFeeds(feeds[1..], url);
        assert forall f :: 1 <= f < |feeds| ==> feeds[f] == feeds[1..][f - 1];
        r
  }

  /** Both loops stop at the first match: the search finds the first matching item
      of the first feed that has one. */
  lemma {:induction false} FindInFeedsFirst(feeds: seq<seq<FeedItem>>, url: string, f: nat)
    requires f < |feeds| && FirstIndex(feeds[f], url) >= 0
    requires forall g :: 0 <= g < f ==> FirstIndex(feeds[g], url) == -1
    ensures FindInFeeds(feeds, url) == Some(feeds[f][FirstIndex(feeds[f], url)])
  {
    if f > 0 {
      assert FirstIndex(feeds[0], url) == -1;
      assert forall g :: 0 <= g < |feeds| - 1 ==> feeds[1..][g] == feeds[g + 1];
      FindInFeedsFirst(feeds[1..], url, f - 1);
    }
  }

  // ---------------------------------------------------------------------------
  // Adopting partially played episodes

  /** Partially played as `_load_auto_queue` reads it: progress in [1, 95). */
  predicate Eligible(e: Entry) {
    1.0 <= e.progress < 95.0
  }

  /** An episode the auto-queue wants: partially played and present in a loaded feed. */
  function Wanted(c: Cache, feeds: seq<seq<FeedItem>>, url: string): (r: bool)
    ensures r <==>
      && Eligible(Status(c, url))
      && exists f, i :: 0 <= f < |feeds| && 0 <= i < |feeds[f]| && feeds[f][i].url == url
  {
    Eligible(Status(c, url)) && FindInFeeds(feeds, url).Some?
  }

  /** The new queue entry: a fresh episode carrying the cached progress. */
  function Adopt(item: FeedItem, s: Entry): (r: Episode)
    ensures r.url == item.url && r.title == item.title
    ensures r.progress == s.progress && r.position == s.position as real
    ensures r.serverCompleted == s.serverCompleted
    ensures !r.completed && !r.downloading && r.localFile.None?
  {
    FromFeed(item).(progress := s.progress, position := s.position as real, serverCompleted := s.serverCompleted)
  }

  /** What an adopted episode looks like. */
  predicate Adopted(ep: Episode, c: Cache, feeds: seq<seq<FeedItem>>) {
    Wanted(c, feeds, ep.url) && ep == Adopt(FindInFeeds(feeds, ep.url).value, Status(c, ep.url))
  }

  lemma UrlsAppend(q: seq<Episode>, e: Episode)
    ensures Urls(q + [e]) == Urls(q) + [e.url]
  {
  }

  /** The second loop of `_load_auto_queue` over the first `n` cache keys, in
      insertion order: a wanted URL not yet queued is appended. */
  function AddPartial(q: seq<Episode>, c: Cache, feeds: seq<seq<FeedItem>>, n: nat): (r: seq<Episode>)
    requires n <= |c.order|
    ensures |q| <= |r| && r[..|q|] == q
    ensures Distinct(Urls(q)) ==> Distinct(Urls(r))
    ensures forall i :: |q| <= i < |r| ==> Adopted(r[i], c, feeds) && r[i].url !in Urls(q) && r[i].url in c.order[..n]
    ensures forall k :: 0 <= k < n && Wanted(c, feeds, c.order[k]) ==> c.order[k] in Urls(r)
  {
    if n == 0 then q
    else
      var prev := AddPartial(q, c, feeds, n - 1);
      var url := c.order[n - 1];
      assert c.order[..n] == c.order[..n - 1] + [url];
      if Wanted(c, feeds, url) && url !in Urls(prev) then
        var ep := Adopt(FindInFeeds(feeds, url).value, Status(c, url));
        UrlsAppend(prev, ep);
        assert (prev + [ep])[..|q|] == prev[..|q|];
        assert Urls(q) == Urls(prev)[..|q|];
        prev + [ep]
      else prev
  }

  /** `_load_auto_queue`: the new queue, and the adopted episodes in the order they
      were appended (each is handed to `download_episode`). */
  function AutoQueue(q: seq<Episode>, c: Cache, feeds: seq<seq<FeedItem>>): (r: (seq<Episode>, seq<Episode>))
    ensures |q| <= |r.0| && r.0[..|q|] == Refresh(q, c) && r.1 == r.0[|q|..]
    // queued URLs stay where they were and no URL is queued twice
    ensures Urls(r.0)[..|q|] == Urls(q)
    ensures Distinct(Urls(q)) ==> Distinct(Urls(r.0))
    // only wanted URLs are adopted, and every wanted URL ends up queued
    ensures forall i :: 0 <= i < |r.1| ==> Adopted(r.1[i], c, feeds) && r.1[i].url !in Urls(q) && r.1[i].url in c.order
    ensures forall u :: u in c.order && Wanted(c, feeds, u) ==> u in Urls(r.0)
  {
    var refreshed := Refresh(q, c);
    var all := AddPartial(refreshed, c, feeds, |c.order|);
    assert c.order[..|c.order|] == c.order;
    assert Urls(all)[..|q|] == Urls(all[..|q|]);
    forall i | 0 <= i < |all| - |q|
      ensures Adopted(all[|q|..][i], c, feeds) && all[|q|..][i].url !in Urls(q)
    {
      assert all[|q|..][i] == all[|q| + i];
    }
    (all, all[|q|..])
  }

  /** With every wanted URL already queued, the second loop appends nothing. */
  lemma {:induction false} AddPartialNothingNew(q: seq<Episode>, c: Cache, feeds: seq<seq<FeedItem>>, n: nat)
    requires n <= |c.order|
    requires forall k :: 0 <= k < n && Wanted(c, feeds, c.order[k]) ==> c.order[k] in Urls(q)
    ensures AddPartial(q, c, feeds, n) == q
  {
    if n > 0 {
      AddPartialNothingNew(q, c, feeds, n - 1);
    }
  }

  /** An adopted episode is unchanged by refreshing it from the cache it came from. */
  lemma RefreshAdopted(ep: Episode, c: Cache, feeds: seq<seq<FeedItem>>)
    requires Adopted(ep, c, feeds)
    ensures RefreshOne(ep, Status(c, ep.url)) == ep
  {
  }

  /** Running the auto-queue a second time, with the same cache and feeds, changes nothing. */
  lemma AutoQueueIdempotent(q: seq<Episode>, c: Cache, feeds: seq<seq<FeedItem>>)
    ensures AutoQueue(AutoQueue(q, c, feeds).0, c, feeds).0 == AutoQueue(q, c, feeds).0
    ensures AutoQueue(AutoQueue(q, c, feeds).0, c, feeds).1 == []
  {
    var r := AutoQueue(q, c, feeds).0;
    var rr := Refresh(r, c);
    forall i | 0 <= i < |r|
      ensures rr[i] == r[i]
    {
      if i < |q| {
        assert r[i] == Refresh(q, c)[i];
        assert r[..|q|][i] == r[i];
      } else {
        assert r[i] == AutoQueue(q, c, feeds).1[i - |q|];
        RefreshAdopted(r[i], c, feeds);
      }
    }
    assert rr == r;
    forall k | 0 <= k < |c.order| && Wanted(c, feeds, c.order[k])
      ensures c.order[k] in Urls(rr)
    {
    }
    AddPartialNothingNew(rr, c, feeds, |c.order|);
  }

  // ---------------------------------------------------------------------------
  // Pending actions

  /** The URL of the episode `current_index` names, if it names one. */
  function CurrentUrl(q: seq<Episode>, index: int): (r: Option<string>)
    ensures r.Some? <==> 0 <= index < |q|
    ensures r.Some? ==> r.value == q[index].url
  {
    if 0 <= index < |q| then Some(q[index].url) else None
  }

  /** What the per-episode loop of `_get_pending_actions` reports for one queued
      episode. Episodes compare by URL, so every copy of the current URL is skipped. */
  function EpisodeAction(ep: Episode, current: Option<string>, now: string): (r: Option<LocalAction>)
    ensures ep.completed ==> r == Some(DownloadAction(ep, now))
    ensures !ep.completed && ep.position > 0.0 && current != Some(ep.url) ==>
      r == Some(PlayAction(ep, now, GuidOrBlank(ep)))
    ensures r.Some? ==> r.value.episode == ep.url
    ensures (!ep.completed && (ep.position <= 0.0 || current == Some(ep.url))) <==> r.None?
  {
    if ep.completed then Some(DownloadAction(ep, now))
    else if ep.position > 0.0 && current != Some(ep.url) then Some(PlayAction(ep, now, GuidOrBlank(ep)))
    else None
  }

  /** URLs of the completed episodes among the first `n`. */
  function CompletedUrls(q: seq<Episode>, n: nat): set<string>
    requires n <= |q|
  {
    set i | 0 <= i < n && q[i].completed :: q[i].url
  }

  /** URLs of the first `n` episodes that are paused part-way and not current. */
  function PausedUrls(q: seq<Episode>, current: Option<string>, n: nat): set<string>
    requires n <= |q|
  {
    set i | 0 <= i < n && !q[i].completed && q[i].position > 0.0 && current != Some(q[i].url) :: q[i].url
  }

  /** The per-episode loop over the first `n` queued episodes. */
  function QueueActions(q: seq<Episode>, current: Option<string>, now: string, n: nat): (r: seq<LocalAction>)
    requires n <= |q|
    ensures |r| <= n
  {
    if n == 0 then []
    else
      var prev := QueueActions(q, current, now, n - 1);
      match EpisodeAction(q[n - 1], current, now)
      case None => prev
      case Some(a) => prev + [a]
  }

  /** Every completed episode gets its "download" and every episode paused part-way
      that is not current gets its "play". */
  lemma {:induction false} QueueActionsCover(q: seq<Episode>, current: Option<string>, now: string, n: nat)
    requires n <= |q|
    ensures forall i :: 0 <= i < n && q[i].completed ==> DownloadAction(q[i], now) in QueueActions(q, current, now, n)
    ensures forall i :: 0 <= i < n && !q[i].completed && q[i].position > 0.0 && current != Some(q[i].url) ==>
      PlayAction(q[i], now, GuidOrBlank(q[i])) in QueueActions(q, current, now, n)
  {
    if n > 0 {
      QueueActionsCover(q, current, now, n - 1);
      var prev := QueueActions(q, current, now, n - 1);
      assert forall a :: a in prev ==> a in QueueActions(q, current, now, n);
    }
  }

  /** Conversely, the loop reports nothing else: a "download" only for a completed
      episode, a "play" only for one paused part-way that is not current. */
  lemma {:induction false} QueueActionsOrigin(q: seq<Episode>, current: Option<string>, now: string, n: nat)
    requires n <= |q|
    ensures forall a :: a in QueueActions(q, current, now, n) && a.kind.Download? ==> a.episode in CompletedUrls(q, n)
    ensures forall a :: a in QueueActions(q, current, now, n) && a.kind.Play? ==> a.episode in PausedUrls(q, current, n)
  {
    if n > 0 {
      QueueActionsOrigin(q, current, now, n - 1);
      var ep := q[n - 1];
      assert CompletedUrls(q, n - 1) <= CompletedUrls(q, n);
      assert PausedUrls(q, current, n - 1) <= PausedUrls(q, current, n);
      var step := EpisodeAction(ep, current, now);
      if step.Some? {
        assert step.value.kind.Download? ==> ep.url in CompletedUrls(q, n);
        assert step.value.kind.Play? ==> ep.url in PausedUrls(q, current, n);
      }
    }
  }

  /** One more episode appends at most one action, which is about that episode. */
  lemma QueueActionsStep(q: seq<Episode>, current: Option<string>, now: string, n: nat)
    requires 0 < n <= |q|
    ensures var prev, next := QueueActions(q, current, now, n - 1), QueueActions(q, current, now, n);
      && |prev| <= |next| <= |prev| + 1 && next[..|prev|] == prev
      && (|next| > |prev| ==> next[|prev|].episode == q[n - 1].url)
  {
    var prev := QueueActions(q, current, now, n - 1);
    var step := EpisodeAction(q[n - 1], current, now);
    if step.Some? {
      assert (prev + [step.value])[..|prev|] == prev;
    }
  }

  /** Growing the loop from `m` to `n` episodes only appends, and what it appends is
      about the episodes `m` to `n`. */
  lemma {:induction false} QueueActionsTail(q: seq<Episode>, current: Option<string>, now: string, m: nat, n: nat, url: string)
    requires m <= n <= |q|
    requires forall j :: m <= j < n ==> q[j].url != url
    ensures var small, big := QueueActions(q, current, now, m), QueueActions(q, current, now, n);
      |small| <= |big| && big[..|small|] == small
      && forall k :: |small| <= k < |big| ==> big[k].episode != url
  {
    if m < n {
      QueueActionsTail(q, current, now, m, n - 1, url);
      QueueActionsStep(q, current, now, n);
      var small, prev, big := QueueActions(q, current, now, m), QueueActions(q, current, now, n - 1), QueueActions(q, current, now, n);
      assert big[..|small|] == prev[..|small|];
      forall k | |small| <= k < |big|
        ensures big[k].episode != url
      {
        if k < |prev| {
          assert big[k] == prev[k];
        }
      }
    }
  }

  /** The result of `_get_pending_actions`: it also raises the current episode's
      stored position to the live one. */
  datatype Pending = Pending(queue: seq<Episode>, actions: seq<LocalAction>)

  /** `_get_pending_actions`. `live` is `player.get_position()`. */
  function PendingActions(q: seq<Episode>, index: int, playing: bool, live: real, now: string): (r: Pending)
    ensures |r.queue| == |q| && Urls(r.queue) == Urls(q)
    ensures forall i :: 0 <= i < |q| && i != index ==> r.queue[i] == q[i]
    ensures 0 <= index < |q| ==> r.queue[index] == q[index].(position := r.queue[index].position)
    ensures 0 <= index < |q| ==>
      r.queue[index].position == if playing then MaxReal(q[index].position, live) else q[index].position
    ensures |r.actions| <= |q| + 1
    // while playing, the current position goes first
    ensures playing && 0 <= index < |q| ==>
      |r.actions| > 0 && r.actions[0] == PlayAction(r.queue[index], now, GuidOf(q[index]))
    ensures !(playing && 0 <= index < |q|) ==> r.actions == QueueActions(q, CurrentUrl(q, index), now, |q|)
    // then one action per completed episode and per paused episode that is not current
    ensures forall i :: 0 <= i < |q| && r.queue[i].completed ==> DownloadAction(r.queue[i], now) in r.actions
    ensures forall i :: (0 <= i < |q| && !r.queue[i].completed && r.queue[i].position > 0.0
                         && CurrentUrl(q, index) != Some(r.queue[i].url)) ==>
      PlayAction(r.queue[i], now, GuidOrBlank(r.queue[i])) in r.actions
  {
    var active := playing && 0 <= index < |q|;
    var q1 := if active && live > q[index].position then q[index := q[index].(position := live)] else q;
    var head := if active then [PlayAction(q1[index], now, GuidOf(q1[index]))] else [];
    QueueActionsCover(q1, CurrentUrl(q1, index), now, |q1|);
    Pending(q1, head + QueueActions(q1, CurrentUrl(q1, index), now, |q1|))
  }

  // ---------------------------------------------------------------------------
  // Marking an episode completed

  /** What `mark_episode_completed` leaves behind: the updated episode, the two
      actions it uploads, the cache, and the local file it schedules for removal. */
  datatype Completion = Completion(episode: Episode, actions: seq<LocalAction>, cache: Cache, cleanup: Option<MediaFile>)

  /** `mark_episode_completed`. `reply` is what `upload_episode_actions` returned for
      the two actions; the cache entry is written only when it is truthy. */
  function MarkCompleted(ep: Episode, c: Cache, now: string, reply: Json): (r: Completion)
    requires Valid(c)
    ensures Valid(r.cache)
    ensures r.episode.url == ep.url
    ensures r.episode.completed && r.episode.serverCompleted && r.episode.progress == 100.0
    // a known duration becomes the final position
    ensures r.episode.position == if ep.duration != 0.0 then ep.duration else ep.position
    // first "download", then a final "play" at the final position
    ensures |r.actions| == 2
    ensures r.actions[0] == DownloadAction(r.episode, now)
    ensures r.actions[1].episode == ep.url && r.actions[1].kind.Play?
    ensures r.actions[1].kind.position == Trunc(r.episode.position)
    ensures r.actions[1].kind.total == TotalOf(ep)
    // both carry the episode's guid, `None` when the feed gave none
    ensures r.actions[0].guid == GuidOf(ep) && r.actions[1].guid == GuidOf(ep)
    // the cache records completion only when the upload answered
    ensures Truthy(reply) ==>
      Status(r.cache, ep.url) == Entry(100.0, r.actions[1].kind.position, r.actions[1].kind.total, true)
    ensures !Truthy(reply) ==> r.cache == c
    ensures forall k :: k in c.entries && k != ep.url ==> k in r.cache.entries && r.cache.entries[k] == c.entries[k]
    ensures r.cleanup == ep.localFile
  {
    var done := ep.(completed := true, progress := 100.0, serverCompleted := true,
                    position := if ep.duration != 0.0 then ep.duration else ep.position);
    var position := if done.position != 0.0 then Trunc(done.position) else Trunc(done.duration);
    var total := TotalOf(done);
    var play := LocalAction(done.PodcastName(), done.url, Play(position, total), now, GuidOf(done));
    var cache := if Truthy(reply) then Put(c, done.url, Entry(100.0, position, total, true)) else c;
    Completion(done, [DownloadAction(done, now), play], cache, ep.localFile)
  }

  /** A completion the server acknowledged is never adopted again by the auto-queue,
      and a queued copy is refreshed as server-completed. */
  lemma CompletedNotRequeued(ep: Episode, c: Cache, now: string, reply: Json, q: seq<Episode>, feeds: seq<seq<FeedItem>>)
    requires Valid(c) && Truthy(reply)
    ensures var r := MarkCompleted(ep, c, now, reply);
      && !Wanted(r.cache, feeds, ep.url)
      && (forall i :: 0 <= i < |AutoQueue(q, r.cache, feeds).1| ==> AutoQueue(q, r.cache, feeds).1[i].url != ep.url)
      && (forall i :: 0 <= i < |q| && q[i].url == ep.url ==> AutoQueue(q, r.cache, feeds).0[i].serverCompleted)
  {
    var r := MarkCompleted(ep, c, now, reply);
    var a := AutoQueue(q, r.cache, feeds);
    forall i | 0 <= i < |q| && q[i].url == ep.url
      ensures a.0[i].serverCompleted
    {
      assert a.0[i] == a.0[..|q|][i];
    }
  }

  /** The two uploaded actions, read back by the server and applied to any cache,
      agree with the entry written locally when the duration is at least one second. */
  lemma CompletionReplayAgrees(ep: Episode, c: Cache, now: string, reply: Json, server: Cache)
    requires Valid(c) && Valid(server) && Truthy(reply) && |ep.url| > 0 && ep.duration >= 1.0
    ensures var r := MarkCompleted(ep, c, now, reply);
      var replay := UpdateCache(server, [r.actions[0].ToJson(), r.actions[1].ToJson()]);
      replay.1 && Status(replay.0, ep.url) == Status(r.cache, ep.url)
  {
    var r := MarkCompleted(ep, c, now, reply);
    DownloadThenPlay(server, r.actions[0], r.actions[1]);
    var t := Trunc(ep.duration);
    assert r.actions[1].kind == Play(t, t);
    ProgressFull(t);
  }

  /** With no known duration the final "play" carries total -1, so the server
      computes progress 0 and does not count the episode completed, although the
      local cache says it is. */
  lemma CompletionReplayWithoutDuration(ep: Episode, c: Cache, now: string, reply: Json, server: Cache)
    requires Valid(c) && Valid(server) && Truthy(reply) && |ep.url| > 0 && ep.duration == 0.0
    ensures var r := MarkCompleted(ep, c, now, reply);
      var replay := UpdateCache(server, [r.actions[0].ToJson(), r.actions[1].ToJson()]);
      && replay.1
      && Status(replay.0, ep.url).progress == 0.0
      && !Status(replay.0, ep.url).serverCompleted
      && Status(r.cache, ep.url).serverCompleted
  {
    var r := MarkCompleted(ep, c, now, reply);
    DownloadThenPlay(server, r.actions[0], r.actions[1]);
  }

  /** The "download" the loop reports for a completed episode is followed only by
      actions about later episodes. */
  lemma QueueSplit(q: seq<Episode>, current: Option<string>, now: string, i: nat)
      returns (before: seq<LocalAction>, post: seq<LocalAction>)
    requires i < |q| && q[i].completed
    requires forall j :: i < j < |q| ==> q[j].url != q[i].url
    ensures QueueActions(q, current, now, |q|) == before + [DownloadAction(q[i], now)] + post
    ensures forall k :: 0 <= k < |post| ==> post[k].episode != q[i].url
  {
    var all := QueueActions(q, current, now, |q|);
    QueueActionsTail(q, current, now, i + 1, |q|, q[i].url);
    before := QueueActions(q, current, now, i);
    var upto := QueueActions(q, current, now, i + 1);
    assert upto == before + [DownloadAction(q[i], now)];
    post := all[|upto|..];
    assert all == all[..|upto|] + post;
    forall k | 0 <= k < |post|
      ensures post[k].episode != q[i].url
    {
      assert post[k] == all[|upto| + k];
    }
  }

  /** The pending actions are the optional live "play" followed by the loop's actions. */
  lemma PendingParts(q: seq<Episode>, index: int, playing: bool, live: real, now: string)
      returns (head: seq<LocalAction>)
    ensures var p := PendingActions(q, index, playing, live, now);
      p.actions == head + QueueActions(p.queue, CurrentUrl(p.queue, index), now, |p.queue|)
  {
    var p := PendingActions(q, index, playing, live, now);
    head := if playing && 0 <= index < |q| then [PlayAction(p.queue[index], now, GuidOf(p.queue[index]))] else [];
  }

  /** A queue with the same URLs as one without repeats has no repeats either. */
  lemma LaterUrlsDiffer(q: seq<Episode>, q1: seq<Episode>, i: nat)
    requires Distinct(Urls(q)) && Urls(q1) == Urls(q) && i < |q1|
    ensures forall j :: i < j < |q1| ==> q1[j].url != q1[i].url
  {
    assert forall j :: 0 <= j < |q1| ==> q1[j].url == Urls(q)[j];
  }

  /** In the pending actions of a queue without repeated URLs, the "download" for a
      completed episode is followed only by actions about other episodes. */
  lemma PendingSplit(q: seq<Episode>, index: int, playing: bool, live: real, now: string, i: nat)
      returns (pre: seq<LocalAction>, post: seq<LocalAction>)
    requires Distinct(Urls(q)) && i < |q| && q[i].completed
    ensures var p := PendingActions(q, index, playing, live, now);
      && p.actions == pre + [DownloadAction(p.queue[i], now)] + post
      && p.queue[i].url == q[i].url
      && forall k :: 0 <= k < |post| ==> post[k].episode != q[i].url
  {
    var p := PendingActions(q, index, playing, live, now);
    var q1 := p.queue;
    var head := PendingParts(q, index, playing, live, now);
    LaterUrlsDiffer(q, q1, i);
    var before;
    before, post := QueueSplit(q1, CurrentUrl(q1, index), now, i);
    Regroup(head, before, DownloadAction(q1[i], now), post);
    pre := head + before;
  }

  /** Concatenation regroups: a prefix in front of `before + [d] + post` can be
      joined to `before` instead. */
  lemma Regroup<T>(head: seq<T>, before: seq<T>, d: T, post: seq<T>)
    ensures head + (before + [d] + post) == (head + before) + [d] + post
  {
  }

  /** Uploading the pending actions and reading them back marks every completed
      queued episode as completed, provided no URL is queued twice. */
  lemma PendingMarksCompleted(q: seq<Episode>, index: int, playing: bool, live: real, now: string,
                              server: Cache, i: nat)
    requires Valid(server) && Distinct(Urls(q)) && i < |q| && q[i].completed && |q[i].url| > 0
    ensures var p := PendingActions(q, index, playing, live, now);
      var replay := UpdateCache(server, Jsons(p.actions));
      replay.1 && Status(replay.0, q[i].url).serverCompleted
  {
    var pre, post := PendingSplit(q, index, playing, live, now, i);
    var p := PendingActions(q, index, playing, live, now);
    DownloadLastWord(server, pre, DownloadAction(p.queue[i], now), post);
  }
}
