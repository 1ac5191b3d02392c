/** The bookkeeping of `DownloadManager` (litepop.py): the table of downloads in
    flight, keyed by episode URL, and the media files present on disk. The HTTP
    transfer itself is an outcome the caller supplies. */
module Downloads {
  import opened Base
  import opened Episodes

  datatype Manager = Manager(inFlight: set<string>, files: set<MediaFile>)

  const Fresh := Manager({}, {})

  /** What a download worker's transfer came to: the file was written in full, the
      request failed before the file was opened, or it failed part-way through
      writing, leaving a truncated file behind. */
  datatype Outcome = Saved | FailedBeforeOpen | FailedAfterOpen

  /** `download_episode`: the result says whether a worker was started. */
  function Request(m: Manager, ep: Episode): (r: (Manager, Episode, bool))
    // a URL already in flight is left alone
    ensures ep.url in m.inFlight ==> r == (m, ep, false)
    // a file already on disk is used as it is
    ensures ep.url !in m.inFlight && FileFor(ep.url) in m.files ==>
      r == (m, ep.(localFile := Some(FileFor(ep.url))), false)
    // otherwise the URL goes in flight and the episode is marked downloading
    ensures r.2 <==> ep.url !in m.inFlight && FileFor(ep.url) !in m.files
    ensures r.2 ==> r.0 == m.(inFlight := m.inFlight + {ep.url}) && r.1 == ep.(downloading := true)
  {
    if ep.url in m.inFlight then (m, ep, false)
    else if FileFor(ep.url) in m.files then (m, ep.(localFile := Some(FileFor(ep.url))), false)
    else (m.(inFlight := m.inFlight + {ep.url}), ep.(downloading := true), true)
  }

  /** The end of `_download_worker`: whatever happened, the URL leaves the table and
      the episode stops downloading; only a full transfer sets the local file. */
  function Finish(m: Manager, ep: Episode, outcome: Outcome): (r: (Manager, Episode))
    ensures r.0.inFlight == m.inFlight - {ep.url}
    ensures !r.1.downloading
    ensures r.1.localFile == if outcome == Saved then Some(FileFor(ep.url)) else ep.localFile
    ensures r.0.files == if outcome == FailedBeforeOpen then m.files else m.files + {FileFor(ep.url)}
    ensures r.1.(downloading := ep.downloading, localFile := ep.localFile) == ep
  {
    var files := if outcome == FailedBeforeOpen then m.files else m.files + {FileFor(ep.url)};
    var local := if outcome == Saved then Some(FileFor(ep.url)) else ep.localFile;
    (Manager(m.inFlight - {ep.url}, files), ep.(downloading := false, localFile := local))
  }

  /** There is no retry: a failure leaves the episode without a file, and a later
      request starts a new worker only when nothing was written. After a failure
      part-way through, the truncated file is taken as the download. */
  lemma NoRetryAfterFailure(m: Manager, ep: Episode, outcome: Outcome)
    requires ep.localFile.None? && outcome != Saved
    ensures var (m1, e1) := Finish(m, ep, outcome);
      && e1.localFile.None?
      && (outcome == FailedAfterOpen ==>
            Request(m1, e1) == (m1, e1.(localFile := Some(FileFor(ep.url))), false))
      && (outcome == FailedBeforeOpen && FileFor(ep.url) !in m.files ==> Request(m1, e1).2)
  {
  }

  // ---------------------------------------------------------------------------
  // Workers over a sequence of events

  /** A request for an episode, or the worker for an episode finishing. */
  datatype Event = Requested(ep: Episode) | Finished(ep: Episode, outcome: Outcome)

  /** The manager together with the workers alive, counted per URL. */
  datatype State = State(m: Manager, workers: multiset<string>)

  /** Every URL in flight has exactly one live worker, and no other URL has one. */
  ghost predicate OneWorkerPerUrl(s: State) {
    forall u :: s.workers[u] == if u in s.m.inFlight then 1 else 0
  }

  /** One event. Only a live worker can finish; a stray finish changes nothing. */
  function Step(s: State, e: Event): (r: State)
    ensures OneWorkerPerUrl(s) ==> OneWorkerPerUrl(r)
  {
    match e
    case Requested(ep) =>
      var (m, _, started) := Request(s.m, ep);
      State(m, if started then s.workers + multiset{ep.url} else s.workers)
    case Finished(ep, outcome) =>
      if ep.url in s.workers then State(Finish(s.m, ep, outcome).0, s.workers - multiset{ep.url})
      else s
  }

  function Run(s: State, events: seq<Event>): (r: State)
    decreases |events|
    // a URL that no event names keeps its workers
    ensures forall u :: (forall i :: 0 <= i < |events| ==> events[i].ep.url != u) ==> r.workers[u] == s.workers[u]
  {
    if |events| == 0 then s else Run(Step(s, events[0]), events[1..])
  }

  /** Whatever the interleaving of requests and finishing workers, a URL never has
      two downloads at once. */
  lemma {:induction false} RunKeepsOneWorker(s: State, events: seq<Event>)
    requires OneWorkerPerUrl(s)
    ensures OneWorkerPerUrl(Run(s, events))
    ensures forall u :: Run(s, events).workers[u] <= 1
    decreases |events|
  {
    if |events| > 0 {
      RunKeepsOneWorker(Step(s, events[0]), events[1..]);
    }
    var r := Run(s, events);
    assert OneWorkerPerUrl(r);
    forall u
      ensures r.workers[u] <= 1
    {
    }
  }
}
