/** The in-memory `Episode` record of litepop.py and the feed item it is built from. */
module Episodes {
  import opened Base

  /** The local file the download manager stores an episode under. The source names
      it after the MD5 digest of the episode URL; the model keeps the URL itself, so
      the naming is injective. */
  datatype MediaFile = MediaFile(url: string)

  function FileFor(url: string): MediaFile {
    MediaFile(url)
  }

  /** A feed item as `PodcastFeed._parse_episode` returns it. */
  datatype FeedItem = FeedItem(
    title: string,
    url: string,
    podcastTitle: string,
    podcast: string,
    guid: Option<string>,
    duration: Option<int>)

  /** An `Episode`. A duration of 0.0 stands for both `None` and 0: every use in the
      source tests the duration for truthiness first. */
  datatype Episode = Episode(
    url: string,
    title: string,
    podcastUrl: string,
    podcastTitle: string,
    guid: Option<string>,
    duration: real,
    position: real,
    completed: bool,
    localFile: Option<MediaFile>,
    downloading: bool,
    progress: real,
    serverCompleted: bool)
  {
    /** `episode.podcast_url or episode.podcast_title`, the podcast an action names. */
    function PodcastName(): string {
      if |podcastUrl| > 0 then podcastUrl else podcastTitle
    }
  }

  /** `Episode(data)`: a fresh episode has no progress, no file and no flags set. */
  function FromFeed(item: FeedItem): (e: Episode)
    ensures e.url == item.url && e.title == item.title && e.guid == item.guid
    ensures e.position == 0.0 && e.progress == 0.0
    ensures !e.completed && !e.serverCompleted && !e.downloading && e.localFile.None?
  {
    Episode(item.url, item.title, item.podcast, item.podcastTitle, item.guid,
      if item.duration.Some? then item.duration.value as real else 0.0,
      0.0, false, None, false, 0.0, false)
  }

  function Urls(q: seq<Episode>): (r: seq<string>)
    ensures |r| == |q|
    ensures forall i :: 0 <= i < |q| ==> r[i] == q[i].url
  {
    seq(|q|, i requires 0 <= i < |q| => q[i].url)
  }

  /** No URL occurs twice. */
  predicate Distinct(urls: seq<string>) {
    forall i, j :: 0 <= i < j < |urls| ==> urls[i] != urls[j]
  }

  /** `int(x)` for a float: truncation toward zero. */
  function Trunc(x: real): (r: int)
    ensures x >= 0.0 ==> 0 <= r && r as real <= x < r as real + 1.0
    ensures x < 0.0 ==> r <= 0 && x <= r as real < x + 1.0
  {
    if x >= 0.0 then x.Floor else -((-x).Floor)
  }

  /** Truncation is symmetric about zero: `int(-x) == -int(x)`. */
  lemma TruncOdd(x: real)
    ensures Trunc(-x) == -Trunc(x)
  {
  }
}
