# litepop, modelled in Dafny

litepop is a terminal podcast player that keeps its queue in step with a
gPodder-compatible server. The server can be an opodsync instance or the
Nextcloud gPodder app. This project models three parts of it:

- **litepop.py**, the player:
  - the sync adapter;
  - feed durations;
  - the `Episode` record;
  - the download manager's bookkeeping;
  - the player's position, seek and duration logic;
  - the episode action cache;
  - the auto-queue;
  - the pending-action builder;
  - `mark_episode_completed`;
  - the way an uploaded action, as `upload_episode_actions` formats it, reads back into the cache;
  - the queue operations (play selected/next/previous, delete, clear completed);
  - the playback monitor.
- **litepop-subs.py**, the subscription manager:
  - its copy of the sync adapter and `upload_subscription_changes`;
  - `clean_text_for_display`, `safe_addstr` and `format_last_update`.
- **litepop_wrapup.py**, "Podcast Wrapped":
  - the year-long action fetch and its filter;
  - `analyze_listening_patterns`: per-episode session grouping, per-podcast summary, completion rule;
  - `calculate_insights`: top-ten rankings, completion rates, most active day and hour;
  - `calculate_streaks`.

Decoded JSON is a datatype (`Json.Json`). Network replies, file existence,
process state, clocks and calendar conversions are parameters. Python's
`sorted(..., reverse=True)[:n]`, `Counter`/`max`, `str.split`, `str.strip` and
slicing with negative bounds are modelled in `Ranking` and `Text`. `int()` of a
string is modelled in `Decimal` for ASCII text: surrounding whitespace, an
optional sign, and digits with single underscores between them. Non-ASCII
decimal digits are not modelled (see "Left out").

On three points of the episode action cache the behaviour is easy to misread,
and the model follows the code (litepop.py:848-877):

- a "play" action overwrites the stored position; no maximum is kept;
- an entry counts as completed when its progress is strictly above 95;
- a "download" action marks the episode completed at 100%.

## Model

| member | source | states |
|---|---|---|
| Dialect.BackendOf | litepop.py:80 | The backend is opodsync or nextcloud exactly when the lower-cased configured name is one of them; anything else is an unknown backend. |
| Dialect.SubscriptionsPath | litepop.py:120-125 | A subscription endpoint exists exactly for the two known backends; an unknown backend has none (the source raises ValueError). |
| Dialect.ActionsPath | litepop.py:164-169 | An episode-action endpoint exists exactly for the two known backends. |
| Dialect.UploadActionsPath | litepop.py:260-265 | The upload endpoint exists for the known backends. For opodsync it is the same path as the fetch; for nextcloud it differs (`episode_action/create`). |
| Dialect.SubscriptionsPathInjective | litepop.py:123 | For user and device names without '/', distinct (user, device) pairs never share an opodsync subscription path. |
| Dialect.DeviceRequest | litepop.py:94-101 | A device listing is requested iff the device id is "default" and the backend is opodsync. |
| Dialect.ResolveDeviceId | litepop.py:94-115 | The id changes only when it was "default" on opodsync and the reply is a non-empty list whose first element is a dict with an "id"; it then becomes that id; in every other case it is unchanged. |
| Dialect.StringsOnly | litepop.py:145 | Keeps exactly the string elements: every kept element is a string from the input, and every string of the input is kept. |
| Dialect.NormalizeSubscriptions | litepop.py:138-151 | A list passes through. In a dict, "add" wins over "subscriptions", which wins over "data" (strings only). Any other reply gives []. |
| Dialect.GetSubscriptions | litepop.py:117-159 | A GET to the subscription path is sent iff the backend is known. A failed, empty or unknown-backend call yields []; otherwise the normalised reply. |
| Dialect.ActionsRequest | litepop.py:161-176 | A GET to the actions path is sent iff the backend is known. It carries a `since` parameter only for opodsync with a cursor, and then always does. |
| Dialect.NormalizeActions | litepop.py:186-195 | A list passes through, a dict's "actions" entry is used, and anything else becomes []; the result is always a sized value. |
| Dialect.IsoText | litepop.py:232 | The `%Y-%m-%dT%H:%M:%S` text is non-empty and ends in a digit, so it never carries a zone suffix. |
| Dialect.NumericField | litepop.py:244-251 | The call raises iff the key is present with a non-null, non-numeric value. The field is carried over iff its number is ≥ 0 ("position", "started") or > 0 ("total"). |
| Dialect.GuidField | litepop.py:254-255 | The call raises iff the guid is truthy but not text. The guid is kept, stripped, iff it is text that is not blank. |
| Dialect.TimestampField | litepop.py:221-237 | The formatted timestamp is never empty and never ends in 'Z'. |
| Dialect.FormatAction | litepop.py:210-257 | The action name is lower-cased; a device field is present iff the backend is opodsync; the timestamp, position, started, total and guid follow their field rules. Formatting fails iff the action is not a dict or one of those fields raises. |
| Dialect.FormatAll | litepop.py:210-257 | Formatting succeeds iff every action formats; the result then has one entry per action, in order. |
| Dialect.UploadEpisodeActions | litepop.py:205-284 | An empty batch sends nothing. A batch is POSTed, to the upload path, iff the backend is known and every action formats. |
| Dialect.UploadReply | litepop.py:286-317 | A failed or unsent upload returns {}, as does a sent one whose reply is empty or not JSON. A sent upload whose reply parsed returns that reply unchanged; a truthy result is always the server's own reply. |
| Dialect.SubscriptionChangeRequests | litepop-subs.py:179-212 | Nextcloud: one POST per added URL, then one DELETE per removed URL. Opodsync: a single POST holding only the non-empty lists. An unknown backend: no request. |
| Dialect.RunRequests | litepop-subs.py:182-212 | Requests go out in order. The run succeeds iff every request is accepted; otherwise it stops right after the first rejected one. |
| Dialect.UploadSubscriptionChanges | litepop-subs.py:169-222 | Nothing to change succeeds with no request. Otherwise the requests sent are a prefix of the planned ones, and success means all were accepted. |
| Duration.ParseDuration | litepop.py:386-397 | More than two colons never parse; one or two colons parse as "M:S" or "H:M:S", and text without a colon is `int()` of the whole text. |
| Duration.ParseDurationAlphabet | litepop.py:386-397 | Whatever parses consists only of digits, signs, underscores, whitespace and colons. |
| Duration.PartsAlphabet | litepop.py:386-397 | Joined parts that each parse as integers contain only numeral characters, whitespace and the separator. |
| Duration.NoParseWithColon | litepop.py:395-397 | `int()` rejects any text containing ':'. |
| Duration.ClockParts | litepop.py:646-653 | The HH:MM:SS text splits on ':' into exactly three fields, which read back as the hours, minutes and seconds of n. |
| Duration.FormatTime | litepop.py:646-653 | A non-positive time prints "00:00:00". Otherwise the text splits on ':' into three numbers, with minutes and seconds below 60. |
| Duration.ClockZero | litepop.py:648 | Zero seconds prints as "00:00:00". |
| Duration.FormatTimeIsClock | litepop.py:646-653 | A non-negative time prints as the clock text of its whole seconds. |
| Duration.ClockArithmetic | litepop.py:650-652 | Hours, minutes and seconds recombine to the whole seconds. |
| Duration.ClockThenParse | litepop.py:386-397 | Parsing the clock text of n whole seconds gives back n. |
| Duration.FormatThenParse | litepop.py:386-397 | Round trip: parsing the formatted text of n whole seconds gives back n. |
| Duration.FormatThenParseReal | litepop.py:646-653 | For a fractional non-negative time, the round trip gives back its whole seconds. |
| Duration.ParseHMS | litepop.py:389-392 | "H:M:S" is H*3600 + M*60 + S when all three parts parse, and nothing otherwise. |
| Duration.ParseMS | litepop.py:393-394 | "M:S" is M*60 + S when both parts parse, and nothing otherwise. |
| Duration.ParsePlain | litepop.py:395 | Text without a colon parses exactly as `Decimal.ParseInt` reads it. |
| Duration.ParsePlainPadded | litepop.py:395 | A bare integer surrounded by whitespace parses as the integer alone. |
| Decimal.ParseInt | litepop.py:392-395 | Digits read as their decimal value; a leading '-' negates it and a leading '+' keeps it. |
| Decimal.ParseUnsigned | litepop.py:392-395 | Parses exactly the digit groups joined by single underscores, to the value of their digits. |
| Decimal.ParseNumeral | litepop.py:392-395 | Parses exactly an optional sign followed by grouped digits. |
| Decimal.GroupedValue | litepop.py:392-395 | Underscore-free digits have their plain decimal value. |
| Decimal.TrimIsStrip | litepop.py:392-395 | The whitespace `int()` skips is what `str.strip()` removes. |
| Decimal.ParseIntStrips | litepop.py:392-395 | `int(s)` is the numeral of `s.strip()`. |
| Decimal.ParseIntPadded | litepop.py:392-395 | Whitespace around a numeral does not change its value. |
| Decimal.ParseIntAlphabet | litepop.py:392-395 | Text that parses holds only digits, signs, underscores and whitespace. |
| Decimal.NumeralAlphabet | litepop.py:392-395 | A numeral holds only digits, signs and underscores. |
| Decimal.ParseGrouped | litepop.py:392-395 | Grouped digits parse to their value. |
| Decimal.ParseSignedGrouped | litepop.py:392-395 | A sign followed by grouped digits parses to the signed value. |
| Decimal.ParseIntUnderscores | litepop.py:392-395 | "1_000" reads as 1000 and "-1_000" as -1000. |
| Decimal.ParseIntMisplacedUnderscores | litepop.py:392-395 | A doubled, leading or trailing underscore makes the text unparsable. |
| Decimal.ParseIntStr | litepop.py:392-395 | `int(str(i)) == i` for every integer. |
| Text.Split | litepop.py:390 | `str.split` on one character: at least one part, no part contains the separator, joining restores the text, and there is a single part iff the separator is absent. |
| Text.SplitThree | litepop.py:390-392 | Three separator-free parts joined by the separator split back into exactly those parts. |
| Text.Strip | litepop-subs.py:39 | `str.strip` leaves no whitespace at either end and never lengthens the text. |
| Text.StripIsSlice | litepop-subs.py:39 | The stripped text is the slice of the input that begins right after its leading whitespace. |
| Text.Lower | litepop.py:80 | The result is as long as the input and is lower-cased character by character. |
| Text.LowerIdempotent | litepop.py:80 | Lower-casing twice is lower-casing once. |
| Episodes.FromFeed | litepop.py:399-415 | A new episode keeps the feed item's url, title and guid. It starts at position 0 and progress 0, not completed, not downloading, with no file. |
| Episodes.Trunc | litepop.py:937 | `int()` of a float truncates toward zero: for x >= 0 the greatest integer not above x, for x < 0 the least integer not below x. |
| Episodes.TruncOdd | litepop.py:937 | Truncation is symmetric about zero: `int(-x) == -int(x)`. |
| LocalActions.TotalOf | litepop.py:939 | No duration gives total -1; a duration of at least one second gives a positive total. |
| LocalActions.GuidOrBlank | litepop.py:963 | The guid sent with a paused episode's play action is always text. |
| LocalActions.PlayAction | litepop.py:932-941 | A play action names the episode and carries its truncated position and its total. |
| LocalActions.DownloadAction | litepop.py:945-951 | A download action names the episode. |
| LocalActions.DownloadFields | litepop.py:945-951 | The cache update reads a download dict's episode and action back as written. |
| LocalActions.PlayFields | litepop.py:932-941 | The cache update reads a play dict's episode and action back as written. |
| LocalActions.PlayNumbers | litepop.py:932-941 | The cache update reads a play dict's position and total back as written. |
| LocalActions.DownloadActionEffect | litepop.py:867-871 | Applying a local download action succeeds and marks the episode completed at 100%. |
| LocalActions.PlayActionEffect | litepop.py:857-866 | Applying a local play action succeeds and stores exactly its position and total. |
| LocalActions.DownloadThenPlay | litepop.py:848-877 | A download followed by a play of the same episode leaves what the play alone says. |
| LocalActions.LocalActionApplies | litepop.py:848-877 | No locally built action makes the cache update raise. |
| LocalActions.ReplaySucceeds | litepop.py:848-877 | A whole batch of locally built actions is applied without raising. |
| LocalActions.JsonsAppend | litepop.py:922-965 | The dicts of two concatenated batches are the concatenation of their dicts. |
| LocalActions.DownloadLastWord | litepop.py:848-877 | A download followed only by actions about other episodes leaves its episode completed. |
| Json.Truthy | litepop_wrapup.py:204-205 | Python truthiness: a value is false exactly when it is None, False, 0, or an empty string, list or dict. |
| Json.AsNumber | litepop.py:244-251 | Numbers and booleans read as integers, a number as itself; the integer is non-zero iff the value is true; nothing else is a number. |
| ActionCache.Put | litepop.py:852-857 | Writing an entry keeps a known key in its place and appends a new one; the key order stays valid. |
| ActionCache.Status | litepop.py:879-886 | A known episode reports its entry; an unknown one reports progress 0, position 0, total -1, not completed. |
| ActionCache.ProgressFull | litepop.py:860 | A position equal to a positive total is 100% progress. |
| ActionCache.ApplyAction | litepop.py:848-877 | A non-dict raises. A dict without an episode URL changes nothing. No entry is lost and the key order only grows. Entries of other episodes are unchanged. A record naming an episode raises exactly when its "action" is not text, or when it is a play whose total is not a number, or whose total is positive and whose position is not a number. An accepted play sets the total and a numeric position, with progress position/total·100 (0 without a positive total) and completion iff progress is above 95. A download marks the episode completed at 100% and keeps position and total. |
| ActionCache.ApplyPlayNoTotal | litepop.py:862-864 | A play without a positive total is accepted whatever its position, with 0% progress, the given total, and not completed. |
| ActionCache.PlayWithoutTotal | litepop.py:861-869 | A play whose position is null and whose total is missing stores 0% progress and total -1. |
| ActionCache.UpdateCache | litepop.py:848-877 | A batch keeps every entry and the order valid; an empty batch changes nothing. |
| ActionCache.OtherActionsLeaveEntry | litepop.py:848-877 | Actions about other episodes never change an episode's status. |
| ActionCache.UpdateTwo | litepop.py:850 | A batch of two applies the second action to what the first left. |
| ActionCache.PlayRecordFields | litepop.py:853-859 | A server play record's episode, action, position and total read back as sent. |
| ActionCache.ApplyPlayRecord | litepop.py:857-866 | A play record stores exactly its position and total, with progress position/total·100 and completion iff that is above 95. |
| ActionCache.PlayRegresses | litepop.py:862-866 | A play at 97% followed by one at 30% leaves the episode not completed: positions are overwritten, not merged. |
| Reconcile.RefreshOne | litepop.py:893-897 | A refreshed episode takes the server's completion flag. Its position and progress are each the larger of the local and cached values. Nothing else changes. |
| Reconcile.Refresh | litepop.py:893-897 | The queue keeps its length and URLs, and every episode is refreshed from its own cache status. |
| Reconcile.RefreshIdempotent | litepop.py:893-897 | Refreshing twice from the same cache is the same as refreshing once. |
| Reconcile.FirstIndex | litepop.py:906-909 | Either the first position with this URL, or -1 when no item has it. |
| Reconcile.FindInFeeds | litepop.py:903-911 | The search finds an item with the URL, and finds nothing iff no feed holds one. |
| Reconcile.FindInFeedsFirst | litepop.py:905-911 | Both loops stop at the first match: the result is the first item with the URL in the first feed that has one. |
| Reconcile.Wanted | litepop.py:900-911 | An episode is wanted iff its cached progress is in [1, 95) and some loaded feed holds an item with its URL. |
| Reconcile.Adopt | litepop.py:913-917 | An adopted episode is the feed item with the cached progress, position and completion flag, not completed, downloading or downloaded. |
| Reconcile.AddPartial | litepop.py:900-920 | Only appends. URLs stay distinct. Each appended episode is adopted from a cache key, was not queued before, and lies among the first n keys. Every wanted key is in the result. |
| Reconcile.AutoQueue | litepop.py:888-920 | The old queue, refreshed, comes first with its URLs. The adopted episodes follow; each is partially played (1 ≤ progress < 95), found in a feed and not already queued. Every such cached episode ends up queued, and URLs stay distinct. |
| Reconcile.AddPartialNothingNew | litepop.py:902 | When every wanted URL is already queued, the second loop appends nothing. |
| Reconcile.RefreshAdopted | litepop.py:893-897 | An adopted episode is unchanged by a refresh from the same cache. |
| Reconcile.AutoQueueIdempotent | litepop.py:888-920 | Running the auto-queue again with the same cache and feeds changes nothing and adopts nothing. |
| Reconcile.CurrentUrl | litepop.py:953 | `current_index` names an episode iff it lies in the queue, and then it names that episode's URL. |
| Reconcile.EpisodeAction | litepop.py:944-964 | A completed episode reports a download. An unfinished episode with a position that is not current reports a play. Every other episode reports nothing. |
| Reconcile.QueueActions | litepop.py:944-964 | At most one action per episode. |
| Reconcile.QueueActionsCover | litepop.py:944-964 | Every completed episode has its download, and every paused non-current episode its play. |
| Reconcile.QueueActionsOrigin | litepop.py:944-964 | Conversely, every download names a completed episode and every play a paused one. |
| Reconcile.QueueActionsTail | litepop.py:944-964 | Episodes with other URLs add only actions about other URLs. |
| Reconcile.PendingActions | litepop.py:922-965 | Only the current episode's position can change, and it is raised to the live position when that is larger. While playing, the first action is the current play; the rest are the per-episode actions. |
| Reconcile.MarkCompleted | litepop.py:967-1004 | The episode becomes completed and server-completed at 100%, at its duration when it has one. Exactly two actions are built: a download, then a play with the final position and total. The cache entry is written iff the upload reply is truthy; other entries are unchanged. |
| Reconcile.CompletedNotRequeued | litepop.py:888-1004 | After an acknowledged completion, the episode is never adopted again and a refresh marks it server-completed. |
| Reconcile.CompletionReplayAgrees | litepop.py:981-1004 | With a known duration, replaying the two locally built dictionaries through the cache update reaches the same completed entry as the local cache. `Upload.CompletionUploadAgrees` carries this over to the posted body. |
| Reconcile.CompletionReplayWithoutDuration | litepop.py:989-1004 | With no duration the final play dictionary carries total -1. Replaying the local dictionaries then reports progress 0 and not completed, although the local cache says completed. |
| Reconcile.QueueSplit | litepop.py:944-964 | In a queue without later repeats of its URL, a completed episode's download is followed only by actions about other episodes. |
| Reconcile.PendingSplit | litepop.py:922-965 | In a queue without repeated URLs, the pending download of a completed episode is followed only by actions about other episodes. |
| Reconcile.PendingMarksCompleted | litepop.py:922-965 | In a queue without repeated URLs, replaying the locally built pending dictionaries through the cache update marks every completed episode completed. `Upload.PendingUploadMarksCompleted` states it for the posted body. |
| Upload.FormattedLookups | litepop.py:214-252 | A formatted action's episode, action, position and total are the values written under those keys, and a position or total left out is absent. |
| Upload.LocalFormats | litepop.py:213-254 | Every locally built action whose guid is text or `None` formats without raising. |
| Upload.FormattedDownload | litepop.py:214-249 | A formatted "download" keeps the episode URL, has the action "download", and has no position and no total. |
| Upload.FormattedPlay | litepop.py:214-249 | A formatted "play" keeps the episode URL and the action "play". It keeps the position iff it is at least 0, and the total iff it is positive. |
| Upload.SentReads | litepop.py:855-864 | The cache update reads from the formatted action the same episode and action as from the local one. A play's position reads as 0 when it was negative, and its total as -1 when it was not positive. |
| Upload.SentAgrees | litepop.py:855-877 | When the formatting drops nothing the cache reads, applying the formatted action gives exactly the cache that applying the local dictionary gives. |
| Upload.SentPlayEffect | litepop.py:858-869 | A formatted play stores the position and total as read back, with the progress and completion they give. |
| Upload.SentApplies | litepop.py:850-877 | A formatted local action never makes the cache update raise, and it names the same episode as the local dictionary. |
| Upload.UploadBody | litepop.py:205-275 | A batch of local actions is posted iff it is non-empty and the backend is known, and the body is the formatted actions in order. |
| Upload.SentReplaySucceeds | litepop.py:848-877 | The cache update reads a whole posted batch without raising. |
| Upload.SentReplayAgrees | litepop.py:848-877 | When no play loses its position or total to the formatting, reading back the posted batch gives the same cache as the local dictionaries. |
| Upload.SentLastWord | litepop.py:848-877 | A posted "download" followed only by other episodes' actions leaves its episode completed after the read-back. |
| Upload.PairUploadAgrees | litepop.py:981-1004 | A posted download and play for one episode read back as the local pair does, when the play loses nothing. |
| Upload.PairUploadNoTotal | litepop.py:989-1004 | A posted pair whose play has no positive total reads back as progress 0 and not completed. |
| Upload.CompletionUploadAgrees | litepop.py:981-1004 | With a known duration, the completion is posted iff the backend is known. The server reading the posted body back reaches the entry the local cache writes. |
| Upload.CompletionUploadWithoutDuration | litepop.py:989-1004 | With no duration, the posted play has no total. Reading it back gives progress 0 and not completed, while the local cache says completed. |
| Upload.PendingUploadMarksCompleted | litepop.py:922-965 | In a queue without repeated URLs, the pending actions are posted iff the backend is known. Reading the posted body back marks every completed queued episode completed. |
| Downloads.Request | litepop.py:439-451 | A URL in flight is left alone, and an existing file is adopted. Otherwise the URL goes in flight and the episode is marked downloading; a worker starts exactly then. |
| Downloads.Finish | litepop.py:453-472 | The URL leaves the table and downloading stops. The local file is set only after a full transfer; a file exists after any failure past the open. |
| Downloads.NoRetryAfterFailure | litepop.py:439-472 | After a failure the episode has no file. A truncated file is adopted by the next request. A failure before the open lets the next request start a worker again. |
| Downloads.Step | litepop.py:439-472 | Each request or finishing worker keeps exactly one live worker per URL in flight, and none elsewhere. |
| Downloads.RunKeepsOneWorker | litepop.py:439-472 | Under any interleaving of requests and finishing workers, no URL ever has two workers. |
| Downloads.Run | litepop.py:439-472 | A URL that no event names keeps its live workers. |
| Playback.Stop | litepop.py:595-607 | The player has no process and is not playing; nothing else changes. |
| Playback.Play | litepop.py:554-593 | Succeeds iff the file exists and the process starts. It then plays the episode from its position with its duration. A missing file changes nothing. |
| Playback.GetPosition | litepop.py:638-640 | 0 when not playing; the tracked position while playing an episode. |
| Playback.GetDuration | litepop.py:642-644 | With a current episode and a non-zero duration, the player's duration; with no current episode, or a zero duration, 0. |
| Playback.SeekClamp | litepop.py:622-631 | The new position is ≥ 0 and within a known duration. It is 0, the target or the duration, and exactly the target when the target is in range. |
| Playback.SeekClampIdempotent | litepop.py:622 | Clamping an already clamped position changes nothing. |
| Playback.Seek | litepop.py:617-636 | Without a live playing process it fails and changes nothing. An IPC seek moves to the clamped position. Without IPC it restarts at the clamped position, or fails with no current episode. |
| Playback.PlaySelected | litepop.py:1215-1222 | The queue is unchanged. Succeeds iff the index is in range and playback starts; the index then moves there, and otherwise stays. The index stays valid. |
| Playback.PlayNext | litepop.py:1224-1230 | Success moves the index forward by one. At the end it stops the player and keeps the index. |
| Playback.PlayPrevious | litepop.py:1232-1238 | Success moves the index back by one. At the start it stops the player and keeps the index. |
| Playback.NextThenPrevious | litepop.py:1224-1238 | Going forward and then back successfully returns to the same index and episode. |
| Playback.DeleteEpisode | litepop.py:1240-1253 | An out-of-range index changes nothing. Otherwise exactly that episode is removed and its file reported. Deleting the current episode stops playback and clears the index; otherwise the index still names the same episode. |
| Playback.DeleteAndMarkDone | litepop.py:1255-1260 | In range, it is a completion followed by a delete; the episode is server-completed when the upload was acknowledged. Out of range, nothing changes. |
| Playback.Unfinished | litepop.py:1265 | Keeps exactly the episodes that are neither completed nor server-completed. |
| Playback.UnfinishedAppend | litepop.py:1265 | The filter distributes over concatenation. |
| Playback.ClearCompleted | litepop.py:1262-1269 | Corrected: the queue is filtered and the index still names the same episode. If that episode was removed, playback stops and the index is cleared. |
| Playback.ClearCompletedAsWritten | litepop.py:1262-1269 | As written: the queue is filtered, and the index is kept as a number unless it now runs past the end. |
| Playback.ClearCompletedRetargets | litepop.py:1262-1269 | Removing a finished episode before the current one leaves the index naming the next episode. |
| Playback.OperationsKeepIndexValid | litepop.py:1215-1269 | Every queue operation leaves `current_index` at -1 or on a queued episode. |
| Playback.MonitorAsWritten | litepop.py:761-781 | As written: nothing happens until the process exits, and then `playing` is cleared. |
| Playback.MonitorAsWrittenCompletion | litepop.py:761-781 | As written, the completion branch fires iff the duration is negative, because the position is read after `playing` is cleared. |
| Playback.MonitorMissesCompletion | litepop.py:761-781 | A 600-second episode that ran to its end is not marked completed as written. |
| Playback.Monitor | litepop.py:761-781 | Corrected: on exit with a current episode, completion fires iff the last position reached 95% of a known duration, or is positive when there is none. It then plays the next episode iff one exists. |
| Playback.MonitorCompletesAtEnd | litepop.py:769-776 | Played to 95% of a positive duration, an episode completes. |
| Playback.Complete | litepop.py:771 | With a positive duration, complete iff the position reaches 95% of it. With no duration, complete iff the position is positive. With a negative duration, any position from 0 on completes. |
| Playback.SyncEpisodePosition | litepop.py:1271-1284 | A play action is uploaded iff the episode has a positive position; it carries the episode's truncated position. |
| Display.RemoveControls | litepop-subs.py:34 | Deletes exactly the control characters other than TAB, LF and CR, and DEL; the rest are kept in order. |
| Display.ReplaceInvalid | litepop-subs.py:35 | Every character outside the displayable ranges becomes '?'; the others stay. |
| Display.ReplaceNewlines | litepop-subs.py:36 | CR and LF become spaces; nothing else changes. |
| Display.Collapse | litepop-subs.py:37 | Never two whitespace characters in a row, and all whitespace is ' '. The non-whitespace text is unchanged, and the result starts with whitespace iff the input does. |
| Display.NonSpaceStrip | litepop-subs.py:39 | Stripping only removes whitespace. |
| Display.NewlineReplacementDead | litepop-subs.py:35-36 | As written, the newline replacement never changes anything, since CR and LF were already replaced by '?'. |
| Display.CleanTextAsWrittenNewline | litepop-subs.py:28-39 | As written, "a\nb" is shown as "a?b". |
| Display.CleanTextAsWrittenShape | litepop-subs.py:28-39 | As written, the result is displayable and stripped, with single spaces. |
| Display.CleanTextAsWritten | litepop-subs.py:28-39 | As written, the newline step changes nothing: the result is the pipeline without it. |
| Display.CleanText | litepop-subs.py:28-39 | Corrected: the result is stripped, has single ' ' separators, and holds only displayable, non-control characters. The non-whitespace text is that of the substituted input. |
| Display.CleanTextNewline | litepop-subs.py:28-39 | Corrected, "a\nb" is shown as "a b". |
| Display.Bucket | litepop-subs.py:525-547 | No date gives Unknown, 0 days Today, 1 day Yesterday. Fewer than 7 days (negative included) gives days; 7-29 gives 1-4 weeks; 30-364 gives 1-12 months; 365 and more gives years. Each count is the whole number of units in the days. |
| Display.FormatLastUpdate | litepop-subs.py:525-547 | No date shows "Unknown", 0 days "Today", 1 day "Yesterday". |
| Display.Label | litepop-subs.py:525-547 | A label ends in " ago" iff it counts days, weeks, months or years. |
| Display.ParseLabelRoundTrip | litepop-subs.py:525-547 | Each label reads back as the bucket it shows, so different buckets never share a label. |
| Display.CountedPlural | litepop-subs.py:541-547 | The plural "s" appears iff the count is above one. |
| Display.AsciiReplace | litepop-subs.py:379 | Same length; every non-ASCII character becomes '?'. |
| Display.Prefix | litepop-subs.py:383-387 | Python's `s[:k]`: a prefix of length min(k, len) for k ≥ 0, and len + k (at least 0) for negative k. |
| Display.SafeAddstr | litepop-subs.py:369-398 | Text is drawn iff (y, x) is inside the window. What is drawn is an ASCII prefix of the text, no wider than the window edge or a positive width limit. It is the whole text when that fits and there is no limit. A negative limit drops characters from the end. |
| Ranking.SortDesc | litepop_wrapup.py:322-326 | `sorted(reverse=True)` gives a permutation of the input with non-increasing keys. |
| Ranking.InsertKeepsOrder | litepop_wrapup.py:322-326 | Inserting into a ranked sequence keeps it ranked. |
| Ranking.Top | litepop_wrapup.py:322-345 | Keeps min(n, len) elements drawn from the input, ranked. Anything cut off has a key no higher than every kept element. |
| Ranking.MostCommon | litepop_wrapup.py:350-357 | The value is in the input and its count is maximal. Among equally frequent values it is the first to appear. |
| Streaks.SortAsc | litepop_wrapup.py:383 | The days, permuted into ascending order. |
| Streaks.RunsCovered | litepop_wrapup.py:387-413 | Every streak the scan closes is at least two days long and spans its length, and every day in it had a session. |
| Streaks.Runs | litepop_wrapup.py:387-413 | The scan keeps only streaks of two days or more. |
| Streaks.RunsMaximal | litepop_wrapup.py:392-413 | No streak the scan closes can be extended: the day before its start and the day after its end have no session. |
| Streaks.RunsComplete | litepop_wrapup.py:387-413 | Every maximal run of two days or more that starts no earlier than the current streak is closed by the scan. |
| Streaks.AllStreaks | litepop_wrapup.py:383-413 | The scan over the sorted days keeps only streaks of two days or more. |
| Streaks.AllStreaksCovered | litepop_wrapup.py:383-413 | Every streak found spans its length and every day in it had a session. |
| Streaks.AllStreaksMaximal | litepop_wrapup.py:383-413 | No streak found can be extended by a listening day at either end. |
| Streaks.AllStreaksComplete | litepop_wrapup.py:383-413 | Every maximal run of two or more consecutive listening days is found. |
| Streaks.StreakIffMaximal | litepop_wrapup.py:383-413 | A streak is found if and only if it is a maximal run of two or more consecutive listening days with its length. |
| Streaks.Streaks | litepop_wrapup.py:377-415 | No sessions give no streaks. Otherwise min(5, number found) streaks, drawn from those found, longest first; any streak cut off is no longer than every kept one. |
| Streaks.StreaksKeepLongest | litepop_wrapup.py:415 | A maximal run missing from the report means five streaks were kept, each at least as long as it. |
| Streaks.StreaksSameDays | litepop_wrapup.py:377-415 | Only the set of listening days matters: inputs with the same days give the same streaks. |
| Streaks.SameDayIgnored | litepop_wrapup.py:392-396 | Another session on a day that already has one changes nothing. |
| Wrapped.KeepRecent | litepop_wrapup.py:84-103 | The kept actions are an ordered subsequence of the fetched ones. Exactly the dicts with a parsable timestamp at or after the cutoff are kept, each as often as it occurred. |
| Wrapped.FetchActions | litepop_wrapup.py:76-103 | Every kept action is a dict with a non-empty text timestamp at or after the cutoff, and every such action of the reply is kept. |
| Wrapped.ActionList | litepop_wrapup.py:73-78 | A list reply is taken whole; otherwise actions come only from a dict's "actions" list. |
| Wrapped.Number | litepop_wrapup.py:204-211 | A missing or false value is 0, a number is itself and true is 1; only text that does not convert, a list or a dict fails. |
| Wrapped.Amounts | litepop_wrapup.py:205-211 | Position and total are `int(float(...))` of their fields, and both are 0 when either conversion fails. |
| Wrapped.Record | litepop_wrapup.py:214-245 | A play less than an hour after the last session's start joins it: only the end time and furthest position move. Otherwise it opens a new session. Sessions stay at least an hour apart. |
| Wrapped.Step | litepop_wrapup.py:178-245 | A download only counts. A non-play changes no episode. A play registers its (podcast, episode) pair, first seen last in order, under its podcast's title; other episodes are unchanged. A timestamped play is grouped into the episode's sessions with its position and total; an unreadable timestamp leaves the sessions as they were. |
| Wrapped.TextKeyCollides | litepop_wrapup.py:191 | As written, two different episodes share the key `podcast&#124;episode`. |
| Wrapped.PlaysStaySeparate | litepop_wrapup.py:191-201 | Corrected: plays of two different (podcast, episode) pairs always keep two entries. |
| Wrapped.PlayByText | litepop_wrapup.py:191-245 | As written: a play adds its `podcast&#124;episode` text key to the episode table and nothing else. |
| Wrapped.PlayEntryAgrees | litepop_wrapup.py:191-245 | When no other episode shares the play's text key, the text-keyed entry equals the pair-keyed one. |
| Wrapped.MirrorsForward | litepop_wrapup.py:191-245 | Without a collision, every pair-keyed entry is stored under its text key after a step. |
| Wrapped.MirrorsBack | litepop_wrapup.py:191-245 | Every text key in the table belongs to an episode the pair-keyed pass holds. |
| Wrapped.PlayByTextMirrors | litepop_wrapup.py:191-245 | While no two episodes share a text key, the source's text-keyed table and the pair-keyed one agree after every step. |
| Wrapped.CollidingPlaysMerge | litepop_wrapup.py:191-245 | As written, two timestamped plays of different episodes with one text key leave one entry. It has the second podcast's title and both plays in one session list. The pair-keyed pass keeps two entries. |
| Wrapped.PassSound | litepop_wrapup.py:178-248 | After the whole pass: one entry per episode, each under its own podcast's title, with sessions at least an hour apart. |
| Wrapped.Pass | litepop_wrapup.py:176-248 | The download count is the number of download actions, and the episode order and the statistics hold the same episodes. |
| Wrapped.StepSessions | litepop_wrapup.py:213-245 | An action adds at most one session over all episodes, and a timestamped play leaves at least one. |
| Wrapped.PassCounts | litepop_wrapup.py:178-248 | After the pass, the episodes with statistics are exactly those some play names; there are at most as many sessions as timestamped plays, and some session iff there is a timestamped play. |
| Wrapped.EpisodeCount | litepop_wrapup.py:312 | The number of episodes listed is the number of distinct episodes with statistics. |
| Wrapped.ListeningTime | litepop_wrapup.py:274-278 | With non-negative positions, the episode's listening time is non-negative and at least each session's furthest position. |
| Wrapped.MaxPositionIsMax | litepop_wrapup.py:288 | The furthest position is attained by a session and bounds all of them. |
| Wrapped.MaxTotalIsMax | litepop_wrapup.py:289 | The largest total is attained by a session and bounds all of them. |
| Wrapped.CompletedIsRatio | litepop_wrapup.py:291-294 | The integer completion rule is exactly `max_position / max_total * 100 >= 98` with both positive. |
| Wrapped.Summarize | litepop_wrapup.py:262-294 | The podcast order and the lines hold the same podcasts; every line counts at least one played episode; the podcast of every episode with a session has a line. |
| Wrapped.SummarizeFacts | litepop_wrapup.py:262-294 | Every podcast has at least one episode played and no more completed than played. Each has at least one session per episode and as many distinct episodes as played. The total time is the sum of the podcasts' times, the episodes played over all podcasts are the episodes with a session, and there is one session time per session. |
| Wrapped.SumOverAdd | litepop_wrapup.py:284-285 | Changing one listed podcast's line changes a sum over the lines by exactly that line's change. |
| Wrapped.AddSum | litepop_wrapup.py:262-285 | An episode with sessions changes a sum over the podcast lines by the change of its podcast's line; an episode without sessions changes nothing. |
| Wrapped.PlayedVsSessions | litepop_wrapup.py:262-282 | Episodes played number at most the episodes listed and at most the sessions; some episode is played iff there is a session. |
| Wrapped.Rates | litepop_wrapup.py:338-342 | Each rate row has played > 0 and rate completed/played·100; when every podcast has played > 0, every podcast has a row. |
| Wrapped.Rankings | litepop_wrapup.py:320-345 | The first ten podcast items by time and by episodes played, and the first ten completion rows by rate: each has min(10, len) entries drawn from its list, ranked by its key, and nothing left out ranks higher than anything kept. |
| Wrapped.MostActive | litepop_wrapup.py:348-357 | There is an answer iff there are sessions. It is a most frequent calendar value with its count; among equally frequent values, the one whose session came first. |
| Wrapped.CalculateInsights | litepop_wrapup.py:317-375 | The three rankings are the first ten by their keys. The most active day and hour, with the first-seen tie-break, and the streaks of the session days are present iff there are sessions. The unique podcast count is the number of podcasts. `total_episodes_played` is the sum of episodes played over the podcasts. |
| Wrapped.AllPodcastsRated | litepop_wrapup.py:338-342 | Every podcast of the summary gets a completion rate. |
| Wrapped.AnalyzeListening | litepop_wrapup.py:160-315 | The podcast order and the summary hold the same podcasts, and the total time is their sum. Per podcast: at least one episode played, no more completed than played, distinct episodes equal to played. The download count is the number of download actions. Unique episodes are the episodes some play names. Sessions number at most the timestamped plays, and exist iff one does. Episodes played total at most the unique episodes and the sessions, and are positive iff there is a session. |

## Left out

- Curses drawing, key handling, configuration files, logging and `print` are left out; only the pure helpers listed above are modelled.
- HTTP is left out; each reply is a parameter (`Dialect.Response`). Reading actions back from the server is modelled as the server returning the posted body unchanged (`Upload`); the server's own storage is not modelled. The same applies to feed fetching and XML parsing, RSS `fetch` and `get_podcast_metadata`: a podcast's title is an abstract function.
- Threads, locks and timers are left out. The download manager's concurrency is modelled as an arbitrary interleaving of request and finish events (`Downloads.Run`).
- The mpv process and its IPC socket are left out. Whether the file exists, whether the process started, whether IPC accepted a seek, and whether the process exited are booleans or states the caller passes.
- The MD5 file name is modelled as an injective map from URL to file (`Episodes.FileFor`).
- Floating-point JSON numbers are left out: JSON numbers are integers. Episode positions and durations are reals, and float truncation is `Episodes.Trunc`. The source compares floats; the model compares exact reals. For `position >= duration * 0.95` (`Playback.Complete`, `Playback.Monitor`) the two can differ right at the boundary, where the rounded product and the exact one fall on either side of the position. The ratio tests on integer positions and totals against 95 and 98 can differ from the exact ones only for totals far beyond any episode length.
- Clock readings and calendar conversions are parameters: ISO parsing, epoch parsing, `weekday()`, `hour`, `date()`. Times are whole seconds; sub-second times and the mixing of naive and aware datetimes are left out.
- Decimal.ParseInt: reads ASCII text only. `int()` also accepts non-ASCII decimal digits (Arabic-Indic, full-width and others); those are left out because the model has no Unicode digit table. The whitespace skipped around the number is the full `str.isspace` set, as in the source.
- Duration.ParseDuration: inherits the limits of `Decimal.ParseInt` for each part; otherwise the shapes and error cases follow litepop.py:386-397.
- `Text.Lower` lower-cases ASCII letters only; other Unicode case mappings are left out.
- `_position_sync_worker`, `_sync_worker`, `_sync_with_gpodder` and `set_status_message` are left out, as are the repetition of the monitor loop and the timer that plays the next episode. They are scheduling around the modelled steps.
- `Player.set_speed` is left out; speed affects only the mpv command line.
- Episode objects are shared between the queue and the player in the source. The model passes values, so aliasing effects are not modelled.
- Display.SafeAddstr: curses `addstr` failures and the "<ERR>" fallback (litepop-subs.py:391-398) are left out; the result is the text handed to `addstr`.
- ActionCache.ApplyAction: a non-string "episode" value is treated as no episode. A non-string "action" value is treated as raising. A play without a positive total whose position is not a number stores that raw value in the source; the model keeps the entry's previous integer position instead, since positions are integers here.
- Wrapped.Step: a non-string podcast, episode or action field counts as missing, where the source would raise and abort the analysis. Episodes are keyed by the (podcast, episode) pair, where litepop_wrapup.py:191 keys them by the text `podcast|episode`. The two agree while no two episodes share that text (`Wrapped.PlayByTextMirrors`); when URLs containing '|' collide, the source merges their statistics (`Wrapped.CollidingPlaysMerge`, see Findings), which the pass does not reproduce.
- Wrapped.FetchActions: a non-string timestamp is skipped. The source's `'T' in timestamp` raises for some non-string values and ends the whole fetch with [].
- Wrapped.AnalyzeListening: requires every action to be a dict, which the fetch guarantees. Its counts follow the pair-keyed pass: `unique_episodes` and the session grouping match the source only while no two played episodes share a `podcast|episode` text, as `Wrapped.Step` above says. It leaves out the rounded `total_hours` and `daily_average` figures (litepop_wrapup.py:363-366) and the report text and JSON file (litepop_wrapup.py:417-524).
- Ranking.Top: the stability of Python's sort among equal keys is implemented by the insertion, but not stated as a property.
- Streaks.Streaks: the scan works on integer day numbers, so converting a session time to its local date is the caller's `day` function.
- Downloads.Finish: the retry-free behaviour is modelled, but the callback after a full transfer is not.

## Findings

| source | as written | input that shows it | evidently intended | confidence | as-written member | corrected member |
|---|---|---|---|---|---|---|
| litepop.py:761-781 | `playing` is cleared before `get_position()` is read, and `get_position()` returns 0 when not playing, so the completion test sees position 0 | an episode of 600 s whose player exits at position 600 | the episode is marked completed and the next one starts | not executed | Playback.MonitorMissesCompletion | Playback.MonitorCompletesAtEnd |
| litepop.py:1262-1269 | `current_index` is kept as a number after finished episodes before it are removed | queue [finished, playing, next] with `current_index` 1 | the index keeps naming the playing episode | not executed | Playback.ClearCompletedRetargets | Playback.ClearCompleted |
| litepop-subs.py:34-36 | CR and LF are turned into '?' by the second substitution before the newline replacement runs, so that replacement is dead | the title "a\nb" | "a b" | not executed | Display.CleanTextAsWrittenNewline | Display.CleanTextNewline |
| litepop_wrapup.py:191 | episodes are keyed by the text `podcast&#124;episode`, so URLs containing '&#124;' collide and their statistics merge | podcast "http://a/f&#124;x" with episode "e", and podcast "http://a/f" with episode "x&#124;e" | two separate episodes | not executed | Wrapped.CollidingPlaysMerge | Wrapped.PlaysStaySeparate |
