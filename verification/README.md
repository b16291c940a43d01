# AITVLive playlist and site adapters in Dafny

This project models the core of AITVLive, an Android TV channel player. The model has three parts.

- **The playlist parser** (`parseM3UTextToJson` in `PlaylistManager`). The downloaded feed is comma-separated text. Each line is either `group,#genre#` or `name,url`. The parser folds over the lines of the text. It tracks the current group, merges lines that share a channel name into one channel with the URLs in order, and drops the channels filed under a group whose name contains "更新时间" ("update time"). Kotlin's `lines()`, `split(',')`, `trim()` and `isBlank()` are modelled explicitly in `text.dfy`.
- **The playlist synchronisation job** (`requestUpdatePlaylist`, `loadPlaylist`, `setLastUpdate`). It is an explicit state machine, modelled in `playlist_sync.dfy`.
  - Events cover requests, the loop-head staleness checks, attempt results, the retry check and `setLastUpdate`.
  - Notices cover the job-state callback, attempt starts, playlist changes, writes without an announcement and the retry delay.
  - The guard is single-flight: a new job starts only when the previous one is complete.
  - The playlist is stale when `now - lastUpdate > 24 h`; the test is strict.
  - A job keeps attempting while the playlist is stale, with a 10 s delay after a failure while it is still stale.
  - The file is written and the change announced only when the rendered text differs from the stored one. The rendering lists the channels in the HashMap's iteration order, which the model takes as a parameter.
  - Suppose the write completed and `createPlaylistFromJson` threw before `onPlaylistChange` ran. lastUpdate is not set, so the job retries. The retry finds the file already equal to the download, so that change is never announced.
- **The seven site adapters.** Each adapter is a record holding:
  - its case-sensitive URL test (`contains` / `startsWith`);
  - its fullscreen protocol: inherited, no-op, or a key press with an explicit or the default key code;
  - optionally, its script, its fullscreen element id and its play-check override.

  `Resolve` / `Dispatch` give first-match resolution over a caller-supplied adapter order.

Files:

- `wrappers.dfy` holds `Option`.
- `text.dfy` holds the Kotlin string functions.
- `playlist_parser.dfy` holds the parser and its reference semantics.
- `playlist_sync.dfy` holds the sync state machine and `loadPlaylist`.
- `site_adapters.dfy` holds the adapters.

The parser is specified by reference definitions over the classified lines:

- `GroupAfter` is the group in effect after a prefix.
- `UrlsFor` is the URLs of all entries for a name, in order.
- `FirstEntryAt` is the position of a name's first entry.

`ApplyAllCorrect` proves that the fold computes them. The sync machine is specified by invariants over arbitrary event sequences:

- the job-state signals alternate;
- the stored text is the last one written;
- no attempt is made while the playlist is fresh.

## Model

| member | source | states |
|---|---|---|
| Text.IsWhitespace | app/src/main/java/com/vasthread/aitv/playlist/PlaylistManager.kt:128-129 | Kotlin's `Char.isWhitespace`, the test `trim()` cuts by. It is true exactly for the listed space, separator and control characters: tab to carriage return, the file/group/record/unit separators, space, no-break space, U+1680, U+2000-U+200A, the line and paragraph separators, U+202F, U+205F and U+3000. It has no contract of its own. |
| Text.IsBlank | app/src/main/java/com/vasthread/aitv/playlist/PlaylistManager.kt:123 | `isBlank()`: every character is whitespace; the empty line is blank. It has no contract of its own. |
| Text.Trim | app/src/main/java/com/vasthread/aitv/playlist/PlaylistManager.kt:128-129 | The result has no surrounding whitespace and is a slice of the input with only whitespace cut from either end. |
| Text.TrimPadded | app/src/main/java/com/vasthread/aitv/playlist/PlaylistManager.kt:128-129 | Trimming `a + m + b` with blank `a`, `b` and trimmed `m` gives back exactly `m`. |
| Text.Split | app/src/main/java/com/vasthread/aitv/playlist/PlaylistManager.kt:127 | `split(',')` yields at least one piece, and no piece contains the separator. |
| Text.JoinSplit | app/src/main/java/com/vasthread/aitv/playlist/PlaylistManager.kt:127 | Joining the pieces with the separator restores the line, so splitting loses nothing. |
| Text.SplitJoin | app/src/main/java/com/vasthread/aitv/playlist/PlaylistManager.kt:127 | Splitting a join of separator-free pieces gives back the pieces, empty ones included. |
| Text.Lines | app/src/main/java/com/vasthread/aitv/playlist/PlaylistManager.kt:121 | `lines()` yields at least one line, and no line contains a CR or LF. |
| Text.LinesFirst | app/src/main/java/com/vasthread/aitv/playlist/PlaylistManager.kt:121 | Each of LF, CRLF and a lone CR ends exactly one line. |
| Text.LinesUnlines | app/src/main/java/com/vasthread/aitv/playlist/PlaylistManager.kt:121 | Text whose lines each end in LF splits back into those lines plus one trailing empty line. |
| Text.LinesWithoutCarriageReturn | app/src/main/java/com/vasthread/aitv/playlist/PlaylistManager.kt:121 | Without CRs, `lines()` is splitting on LF. |
| Text.StartsWith | app/src/main/java/com/vasthread/aitv/adapter/ChromeUrlWebpageAdapter.kt:6 | `startsWith(prefix)`: the string begins with exactly those characters, compared case-sensitively. It has no contract of its own. |
| Text.Contains | app/src/main/java/com/vasthread/aitv/playlist/PlaylistManager.kt:158 | `contains(sub)`: `sub` occurs at some position, compared case-sensitively. It has no contract of its own. `ContainsInfix`, `StartsWithContains` and `ContainsCharacters` characterise it. |
| PlaylistParser.Classify | app/src/main/java/com/vasthread/aitv/playlist/PlaylistManager.kt:123-134 | A line is skipped iff it has no comma. Otherwise group, name and URL are trimmed and comma-free, and an entry's URL is never `#genre#`. |
| PlaylistParser.BlankLineSkipped | app/src/main/java/com/vasthread/aitv/playlist/PlaylistManager.kt:123-125 | A blank line is skipped. |
| PlaylistParser.ClassifyTwoFields | app/src/main/java/com/vasthread/aitv/playlist/PlaylistManager.kt:127-134 | For `a,b`: a group marker named `trim(a)` when `trim(b)` is `#genre#`; otherwise an entry (`trim(a)`, `trim(b)`), with `name,` giving the empty URL. |
| PlaylistParser.ClassifyIgnoresTail | app/src/main/java/com/vasthread/aitv/playlist/PlaylistManager.kt:127-129 | Everything from the second comma on is ignored. |
| PlaylistParser.Apply | app/src/main/java/com/vasthread/aitv/playlist/PlaylistManager.kt:131-149 | A marker sets the current group only. An entry for a known name appends its URL and keeps that channel's group. An entry for a new name creates a channel in the current group with one URL. No other channel changes, and well-formedness is kept. |
| PlaylistParser.ApplyAll | app/src/main/java/com/vasthread/aitv/playlist/PlaylistManager.kt:121-152 | The `forEach` over the classified lines, applying `Apply` in line order. It has no contract of its own; `ApplyAllCorrect` states what it computes. |
| PlaylistParser.ParseLines | app/src/main/java/com/vasthread/aitv/playlist/PlaylistManager.kt:118-152 | The fold started from group `default` and no channels. It has no contract of its own; `ApplyAllCorrect` states what it computes. |
| PlaylistParser.ApplyAllCorrect | app/src/main/java/com/vasthread/aitv/playlist/PlaylistManager.kt:118-152 | After all lines: the group is the last marker's (or `default`); the keys are exactly the names with an entry line; each channel holds all its entries' URLs in line order; its group is the one in effect at its first entry. |
| PlaylistParser.MergeByName | app/src/main/java/com/vasthread/aitv/playlist/PlaylistManager.kt:136-149 | When exactly two entry lines carry a name, however far apart, they make one channel with both URLs in order, in the group of the first. |
| PlaylistParser.SkippedLineInvisible | app/src/main/java/com/vasthread/aitv/playlist/PlaylistManager.kt:121-125 | A line without a comma leaves channels and current group unchanged. |
| PlaylistParser.DropUpdateRows | app/src/main/java/com/vasthread/aitv/playlist/PlaylistManager.kt:154-161 | Exactly the channels whose group name contains "更新时间" are removed; the rest are unchanged. |
| PlaylistParser.Parse | app/src/main/java/com/vasthread/aitv/playlist/PlaylistManager.kt:117-161 | `parseM3UTextToJson` up to the rendering: split the text into lines, fold, drop the update-time group. It has no contract of its own; `ParseCorrect` states what it computes. |
| PlaylistParser.Listing | app/src/main/java/com/vasthread/aitv/playlist/PlaylistManager.kt:154-162 | `channels.values` as handed to `gson.toJson`, in a given iteration order: every listed channel is one of the map's values. |
| PlaylistParser.ListingInOrder | app/src/main/java/com/vasthread/aitv/playlist/PlaylistManager.kt:154-162 | `channels.values` as Gson receives them: when every name of the iteration order is in the map, the listing is exactly the map's channels in that order. |
| PlaylistParser.ListingCoversCatalog | app/src/main/java/com/vasthread/aitv/playlist/PlaylistManager.kt:154-162 | Whatever the iteration order, every surviving channel reaches the JSON writer, and nothing else does. |
| PlaylistParser.ListingNamesDistinct | app/src/main/java/com/vasthread/aitv/playlist/PlaylistManager.kt:154-162 | In a well-formed catalog, no two listed channels share a name, so each channel is rendered once. |
| PlaylistParser.IterationOrderLength | app/src/main/java/com/vasthread/aitv/playlist/PlaylistManager.kt:154-162 | An iteration order that visits every key once is exactly as long as the map. |
| PlaylistParser.ListingIsListingOf | app/src/main/java/com/vasthread/aitv/playlist/PlaylistManager.kt:154-162 | Any iteration order of a well-formed map hands the writer each channel once, every channel, and nothing else. |
| PlaylistParser.ParsedListing | app/src/main/java/com/vasthread/aitv/playlist/PlaylistManager.kt:117-162 | Whatever the iteration order of the parser's map, `gson.toJson` receives each surviving channel once and nothing else. |
| PlaylistParser.ParseCorrect | app/src/main/java/com/vasthread/aitv/playlist/PlaylistManager.kt:117-163 | Whole parser: channels keyed by name with at least one URL; all entry URLs in order; no channel without an entry line; a channel survives iff the group at its first entry lacks the marker, and then has that group. |
| PlaylistParser.SampleParse | app/src/main/java/com/vasthread/aitv/playlist/PlaylistManager.kt:117-163 | A seven-line feed with two groups and an "update time" group yields CCTV-1 (two merged URLs) and VOA; the update-time channel is gone. |
| PlaylistSync.Downloaded | app/src/main/java/com/vasthread/aitv/playlist/PlaylistManager.kt:90-91 | A received body always gives a completed fetch. Whatever the HashMap's iteration order, the text is the JSON writer's rendering of a list holding each surviving channel of the parsed body exactly once and nothing else. |
| PlaylistSync.Step | app/src/main/java/com/vasthread/aitv/playlist/PlaylistManager.kt:62-110 | One stretch of the job between two observations: the single-flight check, the loop-head staleness test, an attempt's three endings (failed before the write, written then thrown, completed) and the post-failure delay test. It has no contract of its own; `StepFacts` states what every step guarantees. |
| PlaylistSync.StepFacts | app/src/main/java/com/vasthread/aitv/playlist/PlaylistManager.kt:62-110 | Per step: the job-state callback fires `true`/`false` exactly when a job starts/ends. An attempt starts only at the loop head when stale. The stored text changes only on an attempt that got as far as writing, and it is always the text last written. lastUpdate moves only by `setLastUpdate` or to a success's time. |
| PlaylistSync.Run | app/src/main/java/com/vasthread/aitv/playlist/PlaylistManager.kt:72-109 | Events applied in order, notices collected in order. It has no contract of its own; `RunInvariants` and `RunAppend` state its properties. |
| PlaylistSync.RunInvariants | app/src/main/java/com/vasthread/aitv/playlist/PlaylistManager.kt:72-109 | Over any event sequence: the job-state signals alternate (two jobs never overlap); a job is in flight at the end iff the signal parity says so; the stored text is the last one written. |
| PlaylistSync.RequestWhileBusyIgnored | app/src/main/java/com/vasthread/aitv/playlist/PlaylistManager.kt:63-67 | A request while a job is in flight changes nothing and notifies nobody. |
| PlaylistSync.NeedUpdate | app/src/main/java/com/vasthread/aitv/playlist/PlaylistManager.kt:74-79 | The `needUpdate` lambda: more than 24 hours since lastUpdate. It has no contract of its own; `StalenessIsStrict` pins the boundary. |
| PlaylistSync.StalenessIsStrict | app/src/main/java/com/vasthread/aitv/playlist/PlaylistManager.kt:74-79 | Exactly 86 400 000 ms after the last update is still fresh; one ms later is stale. |
| PlaylistSync.FreshRequest | app/src/main/java/com/vasthread/aitv/playlist/PlaylistManager.kt:72-108 | A request on a fresh playlist starts a job that signals `true` then `false` and makes no attempt. |
| PlaylistSync.StaleRequest | app/src/main/java/com/vasthread/aitv/playlist/PlaylistManager.kt:72-83 | A request on a stale playlist signals `true` and makes attempt number 1. |
| PlaylistSync.SuccessfulAttempt | app/src/main/java/com/vasthread/aitv/playlist/PlaylistManager.kt:90-100 | A completed attempt ends the job and sets lastUpdate to its time either way. The file is written and the change announced iff the new text differs from the stored one, and only that text is announced. |
| PlaylistSync.SameListingNotAnnounced | app/src/main/java/com/vasthread/aitv/playlist/PlaylistManager.kt:90-98 | A download whose catalog equals that of the stored rendering, listed in the same iteration order, records the time and ends the job without writing or announcing anything, even when the raw body differs. |
| PlaylistSync.ReorderedListingAnnounced | app/src/main/java/com/vasthread/aitv/playlist/PlaylistManager.kt:90-98 | Suppression compares rendered text. The same catalog listed in another iteration order, if it renders differently, is written and announced again. |
| PlaylistSync.OrderChangesRendering | app/src/main/java/com/vasthread/aitv/playlist/PlaylistManager.kt:154-162 | Two iteration orders of a two-channel catalog give different listings, so a writer that follows the order renders them differently. |
| PlaylistSync.WriteThenThrowNeverAnnounced | app/src/main/java/com/vasthread/aitv/playlist/PlaylistManager.kt:92-106 | Suppose an attempt writes the whole new text and then `createPlaylistFromJson` throws, before `onPlaylistChange`. The job retries, downloads the same text, finds it equal to the file, and ends the job without ever announcing it. |
| PlaylistSync.TruncatedWriteAnnouncedOnRetry | app/src/main/java/com/vasthread/aitv/playlist/PlaylistManager.kt:92-106 | A `writeText` that truncated the file and then failed leaves a part of the text. The retry finds the file different from the download, writes the text and announces it. |
| PlaylistSync.FailedAttempt | app/src/main/java/com/vasthread/aitv/playlist/PlaylistManager.kt:101-106 | After a failure the job waits 10 s iff still stale, then returns to the loop head; nothing else changes. |
| PlaylistSync.AbandonWhenFresh | app/src/main/java/com/vasthread/aitv/playlist/PlaylistManager.kt:104-108 | If the playlist became fresh after a failure, the job ends with `false` and without another attempt or a recorded success. |
| PlaylistSync.NoAttemptWhileFresh | app/src/main/java/com/vasthread/aitv/playlist/PlaylistManager.kt:74-81 | While lastUpdate is not reset and every loop-head check is fresh, no attempt is made and lastUpdate and the stored text stay put, whatever events arrive. |
| PlaylistSync.OneAttemptPerExpiry | app/src/main/java/com/vasthread/aitv/playlist/PlaylistManager.kt:62-110 | Two quick requests on a stale playlist, a success, then any requests before the next expiry: exactly one attempt in total. |
| PlaylistSync.ForcedRefresh | app/src/main/java/com/vasthread/aitv/playlist/PlaylistManager.kt:45-60 | `setLastUpdate(0)` followed by a request (as `setPlaylistUrl` does) makes the new job attempt a download whatever lastUpdate was. |
| PlaylistSync.LoadPlaylist | app/src/main/java/com/vasthread/aitv/playlist/PlaylistManager.kt:172-184 | A readable file gives its channels and keeps lastUpdate. A missing or undecodable file gives the empty playlist and lastUpdate 0. Either way a job is requested: it is in flight afterwards, and `true` is signalled iff none was before. |
| PlaylistSync.LoadFailureForcesRefresh | app/src/main/java/com/vasthread/aitv/playlist/PlaylistManager.kt:177-182 | After a failed load, the job's first loop-head check starts a download. |
| SiteAdapters.TbsDebugAdapter | app/src/main/java/com/vasthread/aitv/adapter/TbsDebugWebpageAdapter.kt:5-16 | A URL is adapted iff it contains "debugtbs.qq.com" or "res.imtt.qq.com"; the script is empty; fullscreen does nothing. |
| SiteAdapters.MgtvAdapter | app/src/main/java/com/vasthread/aitv/adapter/MgtvWebpageAdapter.kt:6-13 | Adapted iff the URL contains "live.mgtv.com"; fullscreen presses KEYCODE_F (34); script, element id and play check are inherited. |
| SiteAdapters.VoaNewsAdapter | app/src/main/java/com/vasthread/aitv/adapter/VoaNewsWebpageAdapter.kt:6-14 | Adapted iff the URL contains "voanews.com"; fullscreen presses KEYCODE_F; nothing else overridden. |
| SiteAdapters.ChromeUrlAdapter | app/src/main/java/com/vasthread/aitv/adapter/ChromeUrlWebpageAdapter.kt:5-13 | Adapted iff the URL starts with "chrome:" or "about:"; the script is empty; fullscreen does nothing. |
| SiteAdapters.SztvAdapter | app/src/main/java/com/vasthread/aitv/adapter/SztvWebpageAdapter.kt:5-12 | Adapted iff the URL contains "sztv.com.cn"; fullscreen presses the default key; nothing else overridden. |
| SiteAdapters.FgtvAdapter | app/src/main/java/com/vasthread/aitv/adapter/FgtvWebpageAdapter.kt:3-10 | Adapted iff the URL contains "4gtv"; the fullscreen element id is "#videoPlay_html5_api"; fullscreen itself, script and play check are inherited. |
| SiteAdapters.YangshipinAdapter | app/src/main/java/com/vasthread/aitv/adapter/YangshipinWebpageAdapter.kt:3-8 | Adapted iff the URL contains "yangshipin.cn"; the play check is off; fullscreen and script are inherited. |
| SiteAdapters.SubstringAnywhere | app/src/main/java/com/vasthread/aitv/adapter/FgtvWebpageAdapter.kt:5 | A substring adapter accepts its text at any position: host, path or query. |
| SiteAdapters.UppercaseMatchesNoSite | app/src/main/java/com/vasthread/aitv/adapter/MgtvWebpageAdapter.kt:8 | Matching is case-sensitive: a URL with no lower-case letters is adapted by none of the seven. |
| SiteAdapters.MgtvCaseSensitive | app/src/main/java/com/vasthread/aitv/adapter/MgtvWebpageAdapter.kt:8 | "https://LIVE.MGTV.COM/" is not adapted by Mgtv. |
| SiteAdapters.MgtvNeedsLiveHost | app/src/main/java/com/vasthread/aitv/adapter/MgtvWebpageAdapter.kt:8 | Every URL Mgtv adapts contains "mgtv.com", but "https://www.mgtv.com/" is not adapted. |
| SiteAdapters.SztvNeedsCn | app/src/main/java/com/vasthread/aitv/adapter/SztvWebpageAdapter.kt:7 | "sztv.com" without ".cn" is not adapted. |
| SiteAdapters.ChromeUrlPrefixOnly | app/src/main/java/com/vasthread/aitv/adapter/ChromeUrlWebpageAdapter.kt:6 | "about:blank" is adapted; "about:" later in the URL is not. |
| SiteAdapters.IsAdaptedUrl | app/src/main/java/com/vasthread/aitv/adapter/TbsDebugWebpageAdapter.kt:6-8 | `isAdaptedUrl`: one of the adapter's tests accepts the URL. The per-adapter lemmas give it exactly for each site. It has no contract of its own. |
| SiteAdapters.Resolve | app/src/main/java/com/vasthread/aitv/adapter/ChromeUrlWebpageAdapter.kt:6 | The registry that evaluates the adapters is not in these sources. The cited line is one adapter's `isAdaptedUrl`, which `Resolve` evaluates in list order. It gives the position of the first adapter that accepts the URL, with no earlier one accepting it, and gives nothing iff none accepts. |
| SiteAdapters.Dispatch | app/src/main/java/com/vasthread/aitv/adapter/ChromeUrlWebpageAdapter.kt:6 | The registry is not in these sources; the cited line is one of the predicates it consults. It gives the fallback when no site adapter accepts the URL, and otherwise the first site adapter that does. |
| SiteAdapters.ResolveOrder | app/src/main/java/com/vasthread/aitv/adapter/MgtvWebpageAdapter.kt:8 | The registry is not in these sources; the cited line is one of the predicates it consults. Of two adapters accepting the same URL, the earlier one (or one before it) is chosen. |
| SiteAdapters.CatchAllLast | app/src/main/java/com/vasthread/aitv/adapter/ChromeUrlWebpageAdapter.kt:6 | The registry and its catch-all are not in these sources; the cited line is one of the predicates consulted. With an adapter last that accepts the URL, resolution always finds one. |
| SiteAdapters.OverlapNeedsOrder | app/src/main/java/com/vasthread/aitv/adapter/VoaNewsWebpageAdapter.kt:8 | A URL carrying both "live.mgtv.com" and "voanews.com" is accepted by both, so their registration order decides between them. |

## Left out

- HTTP fetching is left out: the OkHttp client, its timeouts and the response-code check (PlaylistManager.kt:27-29, 85-88). An attempt's result is an input event: `Failed`, `Fetched(text)` or `ThrewAfterWrite(written, announced)`.
- File, preference and Gson I/O are left out (PlaylistManager.kt:30-32, 92-94, 165-170).
  - The stored file is an optional string.
  - JSON rendering of the parsed channels is a `render` parameter of `Downloaded`. It receives them as a list in the HashMap's iteration order, which is also a parameter.
  - JSON decoding in `loadPlaylist` is a `decode` parameter that yields None where the code throws.
  - An exception after the file was touched is `ThrewAfterWrite`. That covers a `writeText` that truncated the file and then failed (the file then holds a part of the new text), a throwing `createPlaylistFromJson` and a throwing callback. The file's new content is the `written` parameter. The model does not say which prefix a failed write leaves, and it does not tie `announced` to a completed write: the source invokes `onPlaylistChange` only after `writeText` returned (PlaylistManager.kt:94-95), so `ThrewAfterWrite(partial, true)` with a truncated `partial` is accepted by the model although it cannot happen.
- Coroutines, `Dispatchers.IO`, `delay` and `System.currentTimeMillis()` are left out. Clock readings are the `now` fields of events, and the delay is a `Delayed(10000)` notice. The job runs one event at a time, so concurrency between the job and the UI thread is not modelled.
- `PlaylistSync.LoadPlaylist` returns the decoded channel list in place of `Playlist.createFromAllChannels`, whose grouping code is not part of this model.
- `isUpdating` has a custom setter that only invokes the callback. Its backing field is never assigned, so the guard relies on job completion alone. The model follows that: signals are notices, and the guard is the phase.
- 64-bit `Long` arithmetic in the staleness test is not modelled. Timestamps are unbounded integers, so `now - lastUpdate` never wraps.
- `parseM3UTextToJson`'s iteration order over the `HashMap` is not computed. Java's order depends on the hash codes, the table's capacity and the insertion history. `Downloaded` takes the order as a parameter, and `PlaylistParser.ListingCoversCatalog` states what every order has in common.
- PlaylistSync.Downloaded: requires its order to be an iteration order of the parsed map, meaning every key once and nothing else, as a HashMap iterator gives. Which such order Java picks is not modelled.
- PlaylistSync.SameListingNotAnnounced: holds only when both downloads are listed in the same iteration order. Because the order is not computed, the model cannot say which feeds that are equal as catalogs keep their order. Two feeds that differ only in line order can be listed differently, and then they are announced again (`PlaylistSync.ReorderedListingAnnounced`).
- The idempotence of serialising and reparsing a catalog is not stated, because JSON rendering is not modelled.
- `Text.IsWhitespace` lists the characters that Kotlin's `Char.isWhitespace` accepts under current Unicode tables. U+180E is not among them. Older JVMs' tables are not modelled.
- `setPlaylistUrl` and `getPlaylistUrl` are left out; the URL is fixed in the code. Their effect on lastUpdate is covered by `PlaylistSync.ForcedRefresh`.
- The base classes `WebpageAdapter` and `CommonWebpageAdapter` are not part of this model. Neither is the adapter registry and its order, nor key dispatch and script injection into the WebView.
  - Whatever an adapter does not override is recorded as inherited.
  - The catch-all fallback is a parameter of `SiteAdapters.Dispatch`.
  - `SiteAdapters.Sites` lists the seven adapters, but its order is not claimed to be the registration order.
- `ChannelPlayerView.kt` (UI glue, channel selection, gestures) is left out, and so is `ChannelGroup.kt` (a bare record).
