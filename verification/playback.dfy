/** The play queue of litepop.py: which episode `current_index` names, the
    player state the queue operations read and write, seeking, and the decision
    `_playback_monitor` takes when the player process exits. */
module Playback {
  import opened Base
  import opened Json
  import opened Episodes
  import opened ActionCache
  import opened LocalActions
  import opened Reconcile

  /** The player process: none, running, or exited (`poll()` is not None). */
  datatype Proc = NoProc | Running | Exited

  /** The `Player` fields the queue logic reads. The source shares the current
      episode object with the queue; the model keeps a copy. */
  datatype Player = Player(current: Option<Episode>, proc: Proc, playing: bool, position: real, duration: real)

  const Idle := Player(None, NoProc, false, 0.0, 0.0)

  /** `Player.stop`. */
  function Stop(p: Player): (r: Player)
    ensures r.proc == NoProc && !r.playing
    ensures r.(proc := p.proc, playing := p.playing) == p
  {
    p.(proc := NoProc, playing := false)
  }

  /** `Player.play`. `fileExists` is whether the episode's local file exists and
      `spawned` whether starting the player command succeeded. */
  function Play(p: Player, ep: Episode, fileExists: bool, spawned: bool): (r: (Player, bool))
    ensures r.1 <==> ep.localFile.Some? && fileExists && spawned
    // without a file nothing happens, not even the stop
    ensures !(ep.localFile.Some? && fileExists) ==> r.0 == p
    ensures r.1 ==> r.0 == Player(Some(ep), Running, true, ep.position, ep.duration)
    // a failed start leaves the old playback stopped
    ensures ep.localFile.Some? && fileExists && !spawned ==>
      !r.0.playing && r.0.proc == NoProc && r.0.current == Some(ep)
  {
    if ep.localFile.None? || !fileExists then (p, false)
    else
      var stopped := Stop(p).(current := Some(ep));
      if spawned then (stopped.(proc := Running, playing := true, duration := ep.duration, position := ep.position), true)
      else (stopped, false)
  }

  /** `Player.get_position`. */
  function GetPosition(p: Player): (r: real)
    ensures !p.playing ==> r == 0.0
    ensures p.playing && p.current.Some? ==> r == p.position
  {
    if p.playing && p.current.Some? then p.position else 0.0
  }

  /** `Player.get_duration`. */
  function GetDuration(p: Player): (r: real)
    ensures r != 0.0 ==> r == p.duration && p.current.Some?
    ensures p.current.Some? && p.duration != 0.0 ==> r == p.duration
    ensures p.current.None? ==> r == 0.0
  {
    if p.current.Some? && p.duration != 0.0 then p.duration else 0.0
  }

  // ---------------------------------------------------------------------------
  // Seeking

  /** `max(0, min(position + seconds, duration or inf))`. */
  function SeekClamp(position: real, seconds: int, duration: real): (r: real)
    ensures r >= 0.0
    ensures duration != 0.0 ==> r <= MaxReal(duration, 0.0)
    ensures r == 0.0 || r == position + seconds as real || r == duration
    // a target inside the episode is reached exactly
    ensures 0.0 <= position + seconds as real && (duration == 0.0 || position + seconds as real <= duration) ==>
      r == position + seconds as real
  {
    var target := position + seconds as real;
    var capped := if duration != 0.0 && duration < target then duration else target;
    if capped < 0.0 then 0.0 else capped
  }

  /** Clamping is idempotent: a clamped position stays where it is. */
  lemma SeekClampIdempotent(position: real, seconds: int, duration: real)
    requires duration >= 0.0
    ensures SeekClamp(SeekClamp(position, seconds, duration), 0, duration) == SeekClamp(position, seconds, duration)
  {
  }

  /** `Player.seek`. `ipcOk` is whether mpv accepted the seek command; when it did
      not, the player restarts at the clamped position (`fileExists`, `spawned` as
      for `Play`). */
  function Seek(p: Player, seconds: int, ipcOk: bool, fileExists: bool, spawned: bool): (r: (Player, bool))
    ensures !(p.playing && p.proc == Running) ==> r == (p, false)
    ensures p.playing && p.proc == Running && ipcOk ==>
      r.1 && r.0.position == SeekClamp(p.position, seconds, p.duration) && r.0.playing
    ensures p.playing && p.proc == Running && !ipcOk && p.current.Some? && r.1 ==>
      r.0.position == SeekClamp(p.position, seconds, p.duration) && r.0.playing
    ensures p.playing && p.proc == Running && !ipcOk && p.current.None? ==> r == (p, false)
  {
    if !p.playing || p.proc != Running then (p, false)
    else
      var target := SeekClamp(p.position, seconds, p.duration);
      if ipcOk then
        (p.(position := target, current := if p.current.Some? then Some(p.current.value.(position := target)) else None), true)
      else if p.current.Some? then
        var ep := p.current.value.(position := target);
        Play(p.(position := target, current := Some(ep)), ep, fileExists, spawned)
      else (p, false)
  }

  // ---------------------------------------------------------------------------
  // The queue and its index

  datatype App = App(queue: seq<Episode>, index: int, player: Player)

  /** `current_index` is -1 or names a queued episode. */
  predicate ValidIndex(a: App) {
    -1 <= a.index < |a.queue|
  }

  /** `play_selected`. */
  function PlaySelected(a: App, i: int, fileExists: bool, spawned: bool): (r: (App, bool))
    ensures r.0.queue == a.queue
    ensures r.1 <==> 0 <= i < |a.queue| && Play(a.player, a.queue[i], fileExists, spawned).1
    ensures r.1 ==> r.0.index == i && r.0.player.current == Some(a.queue[i]) && r.0.player.playing
    ensures !r.1 ==> r.0.index == a.index
    ensures ValidIndex(a) ==> ValidIndex(r.0)
  {
    if 0 <= i < |a.queue| then
      var (p, ok) := Play(a.player, a.queue[i], fileExists, spawned);
      if ok then (a.(player := p, index := i), true) else (a.(player := p), false)
    else (a, false)
  }

  /** `play_next`: past the end the player stops. */
  function PlayNext(a: App, fileExists: bool, spawned: bool): (r: (App, bool))
    ensures r.0.queue == a.queue
    ensures r.1 ==> r.0.index == a.index + 1
    ensures a.index + 1 >= |a.queue| ==> !r.1 && r.0.index == a.index && !r.0.player.playing
    ensures !r.1 ==> r.0.index == a.index
    ensures ValidIndex(a) ==> ValidIndex(r.0)
  {
    if a.index + 1 < |a.queue| then PlaySelected(a, a.index + 1, fileExists, spawned)
    else (a.(player := Stop(a.player)), false)
  }

  /** `play_previous`: before the start the player stops. */
  function PlayPrevious(a: App, fileExists: bool, spawned: bool): (r: (App, bool))
    ensures r.0.queue == a.queue
    ensures r.1 ==> r.0.index == a.index - 1
    ensures a.index - 1 < 0 ==> !r.1 && r.0.index == a.index && !r.0.player.playing
    ensures !r.1 ==> r.0.index == a.index
    ensures ValidIndex(a) ==> ValidIndex(r.0)
  {
    if a.index - 1 >= 0 then PlaySelected(a, a.index - 1, fileExists, spawned)
    else (a.(player := Stop(a.player)), false)
  }

  /** Going forward and then back returns to the same episode. */
  lemma NextThenPrevious(a: App, f1: bool, s1: bool, f2: bool, s2: bool)
    requires ValidIndex(a)
    requires PlayNext(a, f1, s1).1
    requires PlayPrevious(PlayNext(a, f1, s1).0, f2, s2).1
    ensures PlayPrevious(PlayNext(a, f1, s1).0, f2, s2).0.index == a.index
    ensures a.index >= 0 ==> PlayPrevious(PlayNext(a, f1, s1).0, f2, s2).0.player.current == Some(a.queue[a.index])
  {
  }

  /** `delete_episode`: the result also names the local file removed with it. */
  function DeleteEpisode(a: App, i: int): (r: (App, bool, Option<MediaFile>))
    ensures r.1 <==> 0 <= i < |a.queue|
    ensures !r.1 ==> r.0 == a && r.2.None?
    ensures r.1 ==> r.0.queue == a.queue[..i] + a.queue[i + 1..] && r.2 == a.queue[i].localFile
    // deleting the current episode stops it; the index keeps naming the same episode otherwise
    ensures r.1 && i == a.index ==> r.0.index == -1 && !r.0.player.playing
    ensures r.1 && i < a.index ==> r.0.index == a.index - 1
    ensures r.1 && i > a.index ==> r.0.index == a.index
    ensures r.1 && i != a.index && 0 <= a.index < |a.queue| ==> r.0.queue[r.0.index] == a.queue[a.index]
    ensures r.1 && i != a.index ==> r.0.player == a.player
    ensures ValidIndex(a) ==> ValidIndex(r.0)
  {
    if 0 <= i < |a.queue| then
      var q := a.queue[..i] + a.queue[i + 1..];
      var file := a.queue[i].localFile;
      if i == a.index then (App(q, -1, Stop(a.player)), true, file)
      else if i < a.index then (a.(queue := q, index := a.index - 1), true, file)
      else (a.(queue := q), true, file)
    else (a, false, None)
  }

  /** `delete_and_mark_done`: the episode is marked completed (its actions uploaded,
      the cache updated as `mark_episode_completed` does) and then deleted. */
  function DeleteAndMarkDone(a: App, c: Cache, i: int, now: string, reply: Json): (r: (App, Cache, seq<LocalAction>, bool))
    requires Valid(c)
    ensures Valid(r.1)
    ensures r.3 <==> 0 <= i < |a.queue|
    ensures !r.3 ==> r.0 == a && r.1 == c && r.2 == []
    ensures r.3 ==> r.0 == DeleteEpisode(a, i).0
    ensures r.3 ==> r.2 == MarkCompleted(a.queue[i], c, now, reply).actions
    ensures r.3 && Truthy(reply) ==> Status(r.1, a.queue[i].url).serverCompleted
  {
    if 0 <= i < |a.queue| then
      var done := MarkCompleted(a.queue[i], c, now, reply);
      var (b, ok, _) := DeleteEpisode(a, i);
      (b, done.cache, done.actions, ok)
    else (a, c, [], false)
  }

  // ---------------------------------------------------------------------------
  // Clearing completed episodes

  /** Episodes `clear_completed_episodes` keeps. */
  predicate Keep(ep: Episode) {
    !(ep.completed || ep.serverCompleted)
  }

  function Unfinished(q: seq<Episode>): (r: seq<Episode>)
    ensures |r| <= |q|
    ensures forall i :: 0 <= i < |r| ==> Keep(r[i]) && r[i] in q
    ensures forall i :: 0 <= i < |q| && Keep(q[i]) ==> q[i] in r
  {
    if |q| == 0 then []
    else
      var rest := Unfinished(q[1..]);
      assert forall i :: 1 <= i < |q| ==> q[i] == q[1..][i - 1];
      if Keep(q[0]) then [q[0]] + rest else rest
  }

  lemma {:induction false} UnfinishedAppend(xs: seq<Episode>, ys: seq<Episode>)
    ensures Unfinished(xs + ys) == Unfinished(xs) + Unfinished(ys)
  {
    if |xs| > 0 {
      assert (xs + ys)[1..] == xs[1..] + ys;
      UnfinishedAppend(xs[1..], ys);
    } else {
      assert xs + ys == ys;
    }
  }

  /** `clear_completed_episodes` as written: the index is kept unless it now runs
      past the end, even when episodes before it were removed. */
  function ClearCompletedAsWritten(a: App): (r: App)
    ensures r.queue == Unfinished(a.queue)
    ensures a.index >= |r.queue| ==> r.index == -1 && !r.player.playing
    ensures a.index < |r.queue| ==> r.index == a.index && r.player == a.player
  {
    var q := Unfinished(a.queue);
    if a.index >= |q| then App(q, -1, Stop(a.player)) else a.(queue := q)
  }

  /** The index as written can name a different episode afterwards: with a finished
      episode before the playing one, the index slides onto the next episode. */
  lemma ClearCompletedRetargets(done: Episode, playing: Episode, next: Episode, p: Player)
    requires !Keep(done) && Keep(playing) && Keep(next) && playing != next
    ensures var r := ClearCompletedAsWritten(App([done, playing, next], 1, p));
      r.queue == [playing, next] && r.index == 1 && r.queue[r.index] != playing
  {
    assert [next][1..] == [];
    assert Unfinished([next]) == [next];
    assert [playing, next][1..] == [next];
    assert Unfinished([playing, next]) == [playing, next];
    assert [done, playing, next][1..] == [playing, next];
  }

  /** `clear_completed_episodes` with the index following the current episode: it
      moves back past the removed episodes, and becomes -1 (stopping the player)
      only when the current episode itself was removed. */
  function ClearCompleted(a: App): (r: App)
    requires ValidIndex(a)
    ensures ValidIndex(r)
    ensures r.queue == Unfinished(a.queue)
    ensures a.index == -1 ==> r == a.(queue := r.queue)
    ensures 0 <= a.index && Keep(a.queue[a.index]) ==>
      r.index >= 0 && r.queue[r.index] == a.queue[a.index] && r.player == a.player
    ensures 0 <= a.index && !Keep(a.queue[a.index]) ==> r.index == -1 && !r.player.playing
  {
    var q := Unfinished(a.queue);
    if a.index == -1 then a.(queue := q)
    else if Keep(a.queue[a.index]) then
      var k := |Unfinished(a.queue[..a.index])|;
      assert a.queue == a.queue[..a.index] + [a.queue[a.index]] + a.queue[a.index + 1..];
      UnfinishedAppend(a.queue[..a.index] + [a.queue[a.index]], a.queue[a.index + 1..]);
      UnfinishedAppend(a.queue[..a.index], [a.queue[a.index]]);
      assert [a.queue[a.index]][1..] == [];
      a.(queue := q, index := k)
    else App(q, -1, Stop(a.player))
  }

  /** Every queue operation keeps `current_index` valid. */
  lemma OperationsKeepIndexValid(a: App, i: int, f: bool, s: bool)
    requires ValidIndex(a)
    ensures ValidIndex(PlaySelected(a, i, f, s).0)
    ensures ValidIndex(PlayNext(a, f, s).0)
    ensures ValidIndex(PlayPrevious(a, f, s).0)
    ensures ValidIndex(DeleteEpisode(a, i).0)
    ensures ValidIndex(ClearCompleted(a))
    ensures ValidIndex(ClearCompletedAsWritten(a))
  {
  }

  // ---------------------------------------------------------------------------
  // The exit decision of `_playback_monitor`

  /** One pass of `_playback_monitor`: nothing to do, an exit with no current
      episode, a completed episode (and whether the next one is scheduled), or an
      interrupted one whose position is synced. */
  datatype MonitorStep = Watching | ExitedIdle | Finished(playNext: bool) | Interrupted

  /** The completion test of `_playback_monitor`. */
  function Complete(duration: real, position: real): (r: bool)
    // 95% of a positive duration; any progress when the duration is unknown
    ensures duration > 0.0 ==> (r <==> position >= 0.95 * duration)
    ensures duration == 0.0 ==> (r <==> position > 0.0)
    // with a negative duration every position at or after the start completes
    ensures duration < 0.0 && position >= 0.0 ==> r
  {
    (duration != 0.0 && position >= duration * 0.95) || (duration == 0.0 && position > 0.0)
  }

  /** The monitor as written: `playing` is cleared before the position is read, so
      `get_position` returns 0. */
  function MonitorAsWritten(a: App): (r: (Player, MonitorStep))
    ensures a.player.proc != Exited ==> r == (a.player, Watching)
    ensures a.player.proc == Exited ==> !r.0.playing
  {
    if a.player.proc != Exited then (a.player, Watching)
    else
      var p := a.player.(playing := false);
      if 0 <= a.index < |a.queue| then
        if Complete(GetDuration(p), GetPosition(p)) then (p, Finished(a.index + 1 < |a.queue|))
        else (p, Interrupted)
      else (p, ExitedIdle)
  }

  /** As written, the completion branch is taken only for a negative duration (one
      `_parse_duration` accepts from "-5"); a real episode never completes here. */
  lemma MonitorAsWrittenCompletion(a: App)
    requires a.player.proc == Exited && 0 <= a.index < |a.queue|
    ensures MonitorAsWritten(a).1.Finished? <==> GetDuration(a.player) < 0.0
  {
  }

  /** A concrete case: an episode of 600 seconds played to its end is reported as
      interrupted, not completed. */
  lemma MonitorMissesCompletion(ep: Episode)
    requires ep.duration == 600.0
    ensures var a := App([ep], 0, Player(Some(ep), Exited, true, 600.0, 600.0));
      MonitorAsWritten(a).1 == Interrupted && Monitor(a).1 == Finished(false)
  {
  }

  /** The monitor reading the last known position before clearing `playing`. */
  function Monitor(a: App): (r: (Player, MonitorStep))
    ensures a.player.proc != Exited ==> r == (a.player, Watching)
    ensures a.player.proc == Exited ==> !r.0.playing && r.0 == a.player.(playing := false)
    ensures a.player.proc == Exited && !(0 <= a.index < |a.queue|) ==> r.1 == ExitedIdle
    ensures (a.player.proc == Exited && 0 <= a.index < |a.queue| && a.player.current.Some?) ==>
      (r.1.Finished? <==> Complete(GetDuration(a.player), a.player.position))
    // the next episode is scheduled exactly when there is one
    ensures r.1.Finished? ==> (r.1.playNext <==> a.index + 1 < |a.queue|)
  {
    if a.player.proc != Exited then (a.player, Watching)
    else
      var position := if a.player.current.Some? then a.player.position else 0.0;
      var p := a.player.(playing := false);
      if 0 <= a.index < |a.queue| then
        if Complete(GetDuration(p), position) then (p, Finished(a.index + 1 < |a.queue|))
        else (p, Interrupted)
      else (p, ExitedIdle)
  }

  /** Played to 95% of a known positive duration, an episode completes. */
  lemma MonitorCompletesAtEnd(a: App)
    requires a.player.proc == Exited && 0 <= a.index < |a.queue| && a.player.current.Some?
    requires a.player.duration > 0.0 && a.player.position >= a.player.duration * 0.95
    ensures Monitor(a).1 == Finished(a.index + 1 < |a.queue|)
  {
  }

  /** `_sync_episode_position`: a "play" action when the episode has a position. */
  function SyncEpisodePosition(ep: Episode, now: string): (r: Option<LocalAction>)
    ensures r.Some? <==> ep.position > 0.0
    ensures r.Some? ==> r.value == PlayAction(ep, now, GuidOf(ep)) && r.value.kind.position >= 0
  {
    if ep.position > 0.0 then Some(PlayAction(ep, now, GuidOf(ep))) else None
  }
}
