# Download King — a Dafny model of the download pipeline

Download King lets a user paste a media URL and get back a downloadable audio or
video file, or a direct stream URL. The real work is delegated to an external
media tool (yt-dlp). This project models the backend's orchestration of that tool,
plus the pure decision logic of the browser client.

Backend (`server/server.js`):

- **Format policy and arguments** (`FormatPolicy`, `ToolArguments`). Builds the argument vector for metadata, download and quick runs. This covers:
  - the `-f` fallback chain chosen per quality tier;
  - the audio-extraction and merge/recode flags;
  - the `--cookies` option, placed just before the URL, with the URL always last.
- **Process supervision** (`Supervisor`). A tool run is the trace of events its child process delivers: stdout and stderr chunks, `close` with an exit code, a spawn error, or the timer firing. The first terminal event settles the run:
  - exit code 0 resolves with the trimmed stdout;
  - any other code rejects with stderr (or `Exit code N`), rewritten by the first matching entry of an ordered pattern table;
  - a spawn error rejects with its own message;
  - the timer rejects with 'Request timed out'.
- **Storage** (`Storage`). The `temp` and `downloads` directories are a map from paths to file entries, held in a `Disk` object. Storage covers:
  - the 30-minute sweep;
  - the prefix lookup of a download's artifact;
  - the content type of a served file;
  - the once-only deletion guard of a delivery.
- **Handlers** (`Handlers`). `/api/info`, `/api/download`, `/api/quick` and `/api/file/:filename` as methods over the `Disk`. Each handler:
  - receives the tool as a function from argument vector and time budget to an event trace;
  - receives the clock value and request token as parameters;
  - receives the directory listing after a download run as a parameter.

Client (`src/`):

- **Helpers** (`Helpers`). Platform detection by ordered substring match, YouTube id extraction, the thumbnail address, and the `h:mm:ss` / `m:ss` duration clock, which is proved to read back to the duration.
- **Download service** (`DownloadService`). The download options built from a backend or media-service reply, and the bitrate-based size estimate.
- **Downloader hook** (`DownloaderHook`). The URL validation ladder, the choice between a direct and a quality download, and the sanitised file name.

`Common` holds the `Option`/`Result` types and JavaScript truthiness of optional strings. `Text` models the JavaScript string operations the code relies on: `trim`, `includes`, `startsWith`, `replace` with a string pattern, `split`, `join`, `toLowerCase` and decimal rendering.

The handlers remove a staged cookie file only after the awaited run has succeeded (server/server.js:143-147, 242-246, 304-308): a rejected run throws past the removal, so a rejected or pending run leaves the file in `temp`, to be reclaimed by the sweep. `Handlers.CookieAfterRun` and `Handlers.CookieFileLifecycle` state exactly this.

## Model

| member | source | states |
|---|---|---|
| FormatPolicy.TierChainShape | server/server.js:204-217 | For each tier T in 360/480/720/1080 the video `-f` chain splits at '/' into exactly five clauses, all the same template with only T changed; the first is `bestvideo[height<=T][ext=mp4][vcodec^=avc1]+bestaudio[ext=m4a]`, the last `best[height<=T]` |
| FormatPolicy.VideoFormat | server/server.js:204-221 | The `-f` chain of a video download: the tier chain for 360/480/720/1080, the uncapped chain otherwise; its clauses are fixed by `TierChainShape` and `DefaultChainShape` |
| FormatPolicy.DefaultChainShape | server/server.js:218-221 | Any quality outside the four tiers, or none, yields the four-clause chain with no height cap, ending in `best` |
| FormatPolicy.QuickFormat | server/server.js:286-291 | Quick mode selects `bestaudio` for audio, and for video a chain that splits into exactly `best[ext=mp4]` then `best`; the quality plays no part |
| ToolArguments.BlankCookiesAreNotStaged | server/server.js:134 | Present cookie text is staged exactly when it is not entirely JavaScript white space, so a blank string creates no file |
| ToolArguments.CookieOption | server/server.js:139-141 | `--cookies temp/cookies_<now>.txt` when cookies are staged, nothing otherwise |
| ToolArguments.InfoArgs | server/server.js:130-141 | The pushes of the metadata endpoint build exactly `InfoVector` of the URL, cookies and clock |
| ToolArguments.InfoVector | server/server.js:130-141 | The metadata vector: `--dump-json --no-warnings --no-playlist`, the cookie option, the URL |
| ToolArguments.InfoVectorLayout | server/server.js:130-141 | The metadata vector is the three fixed options, then `--cookies temp/cookies_<now>.txt` when cookies are staged, then the URL last; `--cookies` occurs before the URL exactly when cookies are staged |
| ToolArguments.FinishArgs | server/server.js:132-141 | Every vector ends the same way: the arguments pushed before, then the cookie option, then the URL |
| ToolArguments.VectorLayout | server/server.js:132-141 | In every vector the fixed options stay in place, `--cookies temp/cookies_<now>.txt` follows them and sits just before the URL when cookies are staged, nothing separates the options from the URL otherwise, and the URL is last |
| ToolArguments.DownloadArgs | server/server.js:187-240 | The pushes of the download endpoint build exactly `DownloadVector` of the URL, cookies, clock, mode, quality and token |
| ToolArguments.DownloadVector | server/server.js:187-240 | The download vector: the fixed options with the output template, the mode options, the cookie option, the URL |
| ToolArguments.DownloadVectorLayout | server/server.js:187-240 | The download vector is the eight fixed options ending in `-o downloads/<token>.%(ext)s`. In audio mode they are followed by `-f bestaudio -x --audio-format mp3` and no merge or recode flag appears among the fixed and mode options; in video mode by `-f <chain> --merge-output-format mp4 --recode-video mp4`. The cookie pair comes just before the URL, and the URL is last |
| ToolArguments.ModeOptions | server/server.js:196-228 | The pushes of the two modes build exactly `ModeFlags` of the mode and quality |
| ToolArguments.ModeFlags | server/server.js:196-228 | Audio mode: `-f bestaudio -x --audio-format mp3`; video mode: `-f <chain for the quality> --merge-output-format mp4 --recode-video mp4` |
| ToolArguments.QuickArgs | server/server.js:284-302 | The pushes of the quick endpoint build exactly `QuickVector` of the URL, cookies, clock and mode |
| ToolArguments.QuickVector | server/server.js:284-302 | The quick vector: `--get-url --no-warnings --no-playlist`, `-f <quick selector>`, the cookie option, the URL |
| ToolArguments.QuickVectorLayout | server/server.js:284-302 | The quick vector is `--get-url --no-warnings --no-playlist -f <quick selector>`, then the cookie pair when staged, then the URL last |
| Supervisor.FirstMatchingMessage | server/server.js:96-105 | The message of the first table entry whose pattern occurs in the failure text, with no earlier entry matching; the text itself when none matches |
| Supervisor.FriendlyMessage | server/server.js:96-105 | The if/else chain of user messages; `FriendlyMessageIsFirstMatch` proves it equal to the ordered table lookup |
| Supervisor.FriendlyMessageIsFirstMatch | server/server.js:97-105 | The if/else chain equals the first-match lookup in the table ordered age-restricted, private, unavailable, invalid URL |
| Supervisor.FriendlyMessageRange | server/server.js:96-106 | The user message is one of the four fixed messages or the failure text unchanged |
| Supervisor.Supervise | server/server.js:72-113 | The event loop settles exactly as `Settle` of the trace: output is captured until the first terminal event, which alone decides the outcome |
| Supervisor.Settle | server/server.js:72-113 | The settlement of a trace: the outcome of its first terminal event over the output captured before it, or none; pinned down by `FirstTerminalDecides`, `Classification` and `NoTerminalPending` |
| Supervisor.Outcome | server/server.js:90-113 | The settlement a terminal event gives: resolve on trimmed stdout for exit 0, reject with the classified failure text otherwise, the spawn error's message, or 'Request timed out'; stated case by case in `Classification` |
| Supervisor.FirstTerminalDecides | server/server.js:80-113 | With only data events before the first terminal event, the run settles on that event with all output captured before it, and later events change nothing |
| Supervisor.Classification | server/server.js:75-113 | Exit 0 resolves to the trimmed stdout. Another exit code (or a null one) rejects with the first-match message of stderr, or of `Exit code N` when stderr is empty. A spawn error rejects with its message, and the timer with 'Request timed out' |
| Supervisor.NoTerminalPending | server/server.js:62-114 | A trace with no close, error or timer event leaves the promise unsettled |
| Storage.Disk.WriteFile | server/server.js:137 | Writing creates or overwrites exactly one file and leaves every other file as it was |
| Storage.Disk.Unlink | server/server.js:146 | Unlinking succeeds exactly when the file exists and the system does not refuse; it then removes exactly that file, and otherwise changes nothing |
| Storage.CleanOldFiles | server/server.js:37-54 | The directory-by-directory, file-by-file sweep leaves exactly `AfterSweep` of the initial files, whatever order the listing has |
| Storage.AfterSweep | server/server.js:37-54 | The files a complete sweep leaves; `SweepEffect`, `SweepBoundary` and `SweepIdempotent` state what it keeps and removes |
| Storage.SweepDir | server/server.js:41-52 | Visiting every file of one directory, in any order, extends the swept set by exactly that directory's files |
| Storage.SweepFile | server/server.js:43-50 | One file not yet visited is removed when it has expired and its removal does not throw; nothing else changes |
| Storage.SweepEffect | server/server.js:47-50 | A file is removed exactly when `now - mtimeMs > 1800000` (with a fractional `mtimeMs`) and its removal does not throw; a surviving file keeps its contents and time, and a failure on one file does not affect any other |
| Storage.SweepBoundary | server/server.js:38-47 | The age test is strict: a file exactly 30 minutes old stays, as does a younger one; one older by any fraction of a millisecond goes |
| Storage.SweepIdempotent | server/server.js:37-56 | A second sweep at the same instant removes nothing more |
| Storage.FindArtifactIsFirstMatch | server/server.js:249-254 | The artifact is found exactly when some listed entry starts with the token, and is then the first such entry in listing order; otherwise the lookup fails with 'Download failed - file not created' |
| Storage.FindArtifact | server/server.js:249-254 | The first entry of the listing that starts with the token, or the missing-file failure; `FindArtifactIsFirstMatch` states both directions |
| Storage.ContentTypeByExtension | server/server.js:335-336 | The content type is `audio/mpeg` exactly when the text after the last '.' lowercases to `mp3`, and `video/mp4` otherwise; a name without '.' is judged by the whole name |
| Storage.ContentType | server/server.js:335-336 | `audio/mpeg` for an `mp3` extension, `video/mp4` otherwise; `ContentTypeByExtension` ties it to the text after the last '.' |
| Storage.Delivery.DeleteFile | server/server.js:351-356 | The first call sets the flag and schedules one deletion; later calls change nothing; at most one deletion is ever scheduled |
| Storage.Delivery.Dispatch | server/server.js:369-378 | However many finish, close and stream-error events fire, the flag is set once some event fired, and exactly one deletion is scheduled |
| Storage.Delivery.ScheduledDeletion | server/server.js:356-365 | The deferred deletion removes the file only if it still exists and the removal does not throw; otherwise nothing changes and no error escapes |
| Handlers.CookieFileLifecycle | server/server.js:134-147 | A staged cookie file is gone after a resolved run and still holds the cookie text after a rejected or pending run. Blank or absent cookies change nothing, and no other file is touched |
| Handlers.CookieAfterRun | server/server.js:134-147 | The storage after a run: unchanged without staged cookies, less the cookie file after a resolved run, with the cookie file written otherwise; `CookieFileLifecycle` states its effect file by file |
| Handlers.CookieStateAfterRun | server/server.js:134-147 | The storage after a run is the staged storage, less the cookie file exactly when the run resolved with cookies staged |
| Handlers.StageCookies | server/server.js:134-138 | Non-blank cookie text is written verbatim to `temp/cookies_<now>.txt`; otherwise storage is unchanged |
| Handlers.RemoveCookies | server/server.js:145-147 | After a resolved run the staged cookie file, if any, is removed |
| Handlers.HandleInfo | server/server.js:120-166 | Without a URL the answer is 400 'URL is required', with no run and no file change. Otherwise one run with the 120000 ms budget on exactly `InfoVector` of the URL, cookies and clock. It answers the metadata or 400 with the classified failure, and storage follows `CookieAfterRun` |
| Handlers.HandleDownload | server/server.js:171-269 | Without a URL the answer is 400 'URL is required', with no run and no file change. Otherwise one run with the 300000 ms budget on exactly `DownloadVector` of the URL, cookies, clock, mode, quality and token. After a resolved run, the answer is the artifact lookup; otherwise 400 with the classified failure; storage follows `CookieAfterRun` |
| Handlers.LocateArtifact | server/server.js:249-263 | The answer after a resolved download is the fixed service URL with the found artifact's name, or 400 with the lookup's failure |
| Handlers.DownloadAnswerIsFirstArtifact | server/server.js:249-263 | A resolved download answers success exactly when some listed entry starts with the token, naming the first such entry, and otherwise 400 'Download failed - file not created' |
| Handlers.FirstLineIsPrefix | server/server.js:310 | The quick answer is a line-feed-free prefix of the output, followed in the output by a line feed unless it is the whole output |
| Handlers.FirstLine | server/server.js:310 | `split('\n')[0]` of the output; `FirstLineIsPrefix` and `FirstLineOfLines` state what it keeps |
| Handlers.FirstLineOfLines | server/server.js:310 | The first line of `line + "\n" + rest` is `line`, whatever follows |
| Handlers.HandleQuick | server/server.js:274-321 | Without a URL the answer is 400 'URL is required', with no run and no file change. Otherwise one run with the 120000 ms budget on exactly `QuickVector` of the URL, cookies, clock and mode. It answers the first line of the output or 400 with the classified failure; storage follows `CookieAfterRun` |
| Handlers.QuickAnswersFirstLine | server/server.js:304-310 | A quick run whose child prints `line`, a line feed and anything at all, then exits 0, answers exactly `line`, provided `line` is non-empty, holds no line feed and neither starts nor ends with white space |
| Handlers.FirstLineOfTrim | server/server.js:310 | The first line of the trimmed `line + "\n" + rest` is `line` when `line` has no surrounding white space, whatever `rest` is, even all white space |
| Handlers.ServeFile | server/server.js:326-347 | A missing file is answered 404 'File not found' with no delivery and no change to storage. An existing file is streamed with the content type of its extension, an attachment disposition under its own name and its contents, and a fresh, unfired deletion guard |
| Helpers.MatchPlatform | src/utils/helpers.js:33-37 | The first platform, in table order, with a domain occurring in the host, with no earlier platform matching; none exactly when no domain of any platform occurs |
| Helpers.DetectPlatform | src/utils/helpers.js:16-43 | null for a URL that does not parse, otherwise the first platform matching the host with its first 'www.' removed, or 'other'; `DetectPlatformOutcome` states each case |
| Helpers.DetectPlatformOutcome | src/utils/helpers.js:30-42 | Detection gives null only for a URL that does not parse, 'other' exactly when no domain occurs in the host with its first 'www.' removed, and otherwise the first matching platform |
| Helpers.RedditHostIsTwitter | src/utils/helpers.js:20-35 | Overlapping domains resolve by table order: a URL whose host is 'reddit.com' or 'www.reddit.com' contains 't.co' and is detected as twitter |
| Helpers.DetectsTwitter | src/utils/helpers.js:31-37 | A host with a twitter domain and no youtube or instagram domain is detected as twitter, whatever later platforms it also matches |
| Helpers.StripWwwReddit | src/utils/helpers.js:31 | 'reddit.com' holds no 'www.' and is kept as it is; 'www.reddit.com' loses its leading 'www.' |
| Helpers.StripLeadingWww | src/utils/helpers.js:31 | A leading 'www.' is the occurrence removed from the host |
| Helpers.YouTubeIdCases | src/utils/helpers.js:48-65 | On a short-link host, the id is the path after '/' up to the first '?'. On a youtube.com host that is not a short link, it is the `v` parameter. On any other host there is none |
| Helpers.ExtractYouTubeId | src/utils/helpers.js:48-65 | The id of a YouTube address: from the path on a short-link host, from `v` on a youtube.com host, none otherwise; `YouTubeIdCases` states each case |
| Helpers.ThumbnailCarriesId | src/utils/helpers.js:70-76 | There is a thumbnail exactly when the id is non-empty; its address is `https://img.youtube.com/vi/` + id + `/maxresdefault.jpg`, from which the id reads back |
| Helpers.YouTubeThumbnail | src/utils/helpers.js:70-76 | The `maxresdefault.jpg` address of a truthy id, or none; `ThumbnailCarriesId` states it with the id read back |
| Helpers.FormatDuration | src/utils/helpers.js:92-93 | The text is '--:--' exactly when the duration is missing or zero |
| Helpers.Clock | src/utils/helpers.js:95-102 | The `h:mm:ss` or `m:ss` text of a positive duration; it starts with a digit, and `FormatDurationReadsBack` proves its fields read back as the duration |
| Helpers.FormatDurationReadsBack | src/utils/helpers.js:95-102 | A positive duration renders as three fields from one hour up, two below. The first field is an unpadded numeral (no leading zero). Every field after the first is exactly two digits and below 60, and with two fields the first is below 60 too. The fields read back (each counting sixty of the next) as the duration, so the text is the only such rendering of it |
| Helpers.LongClockReadsBack | src/utils/helpers.js:95-100 | From one hour up the clock splits into unpadded hours, then minutes and seconds of two digits each and below 60, that read back as the duration |
| Helpers.ShortClockReadsBack | src/utils/helpers.js:95-102 | Below one hour the clock splits into unpadded minutes below 60 and two-digit seconds below 60 that read back as the duration |
| Helpers.ReadThreeFields | src/utils/helpers.js:100 | Three numerals joined by ':' split back into themselves and read as hours, minutes and seconds |
| Helpers.Pad2Numeral | src/utils/helpers.js:100-102 | A minute or second field below 100 pads to exactly two digits that keep its value |
| Helpers.ClockArithmetic | src/utils/helpers.js:95-97 | `hrs*3600 + mins*60 + secs` is the duration, minutes and seconds are below 60, and hours are positive exactly from 3600 seconds up |
| DownloadService.Bitrate | src/services/downloader.js:303-313 | The bitrate is the table entry for a listed key, otherwise 128 for audio and 5000 for video, and never zero |
| DownloadService.EstimateFileSize | src/services/downloader.js:299-321 | No estimate for a zero duration; otherwise `bytes * 8 == bitrate * 1000 * duration` at the key's bitrate |
| DownloadService.ParseDownloadResult | src/services/downloader.js:326-434 | The reply's status decides the options: 'info' gives the three MP3 and four MP4 tiers at the reply's duration (0 when missing). Link statuses give one 'Download Video' option carrying the reply's URL. 'picker' gives one option per item, in order. Anything else gives nothing. The name is title, else file name, else 'Video Download', and the duration passes through |
| DownloadService.PickerOptions | src/services/downloader.js:416-425 | A picker reply gives one option per item, in order, with the item's label, URL and type, the first as primary |
| DownloadService.PickerOption | src/services/downloader.js:416-424 | One picker item as an option: its label by type and 1-based position, its URL and type, primary for the first; `PickerOptions` and `PickerLabelReadsBack` state these |
| DownloadService.InfoTiers | src/services/downloader.js:330-406 | The audio tiers all have quality 'audio', at 256, 128 and 64 kbit/s in that order. The video tiers run 1080, 720, 480, 360 at 8000, 5000, 2500, 1000 kbit/s; only 1080 is primary and fast. No tier has a size exactly when the duration is zero |
| DownloadService.PickerLabelReadsBack | src/services/downloader.js:416-424 | A picker label is 'Video ', 'Photo ' or 'Download ' by item type, followed by a numeral that reads back as the 1-based position |
| DownloaderHook.ValidationLadder | src/hooks/useDownloader.js:29-48 | Blank text is refused as 'Please enter a video URL'. Other text that is not an http(s) URL is refused as 'Please enter a valid URL'. Everything else is accepted, trimmed, with its platform; the 'Invalid URL format' rung is never reached |
| DownloaderHook.ValidateUrl | src/hooks/useDownloader.js:29-48 | The validation ladder of the submitted text: empty after trimming, not an http(s) URL, no platform, or accepted; `ValidationLadder` states each rung |
| DownloaderHook.PlanChoice | src/hooks/useDownloader.js:79-89 | An option with a link always downloads directly, under the direct file name. The quality path runs exactly when there is no link but a quality and an original URL |
| DownloaderHook.PlanDownload | src/hooks/useDownloader.js:79-105 | A direct download under the direct file name when the option has a link, a quality download when it has a quality and the result an original URL, nothing otherwise; `PlanChoice` states each branch |
| DownloaderHook.DirectFileNameExtension | src/hooks/useDownloader.js:83 | A direct download's name ends, after its last '.', in the lowercased format, or 'mp4' when there is none (for a format without '.') |
| DownloaderHook.Sanitize | src/hooks/useDownloader.js:102-104 | The sanitised title has length min(\|title\|, 100), maps every character outside [A-Za-z0-9] to '_' one for one, and contains only [A-Za-z0-9_] |
| DownloaderHook.SanitizeIdempotent | src/hooks/useDownloader.js:102-104 | Sanitising a sanitised title changes nothing |
| DownloaderHook.QualityFileNameShape | src/hooks/useDownloader.js:100-105 | A quality download's name starts with the sanitised title ('video' when empty) and '_'; its text after the last '.' is 'mp3' exactly for the audio quality and 'mp4' otherwise |
| DownloaderHook.QualityFileName | src/hooks/useDownloader.js:100-105 | The sanitised title (or 'video'), '_', the option label, '.' and the extension of the quality; `QualityFileNameShape` states its shape |
| Text.TrimEmptyIffBlank | server/server.js:134 | `trim` yields the empty string exactly when the text is all JavaScript white space or line terminators |
| Text.ReplaceFirst | src/utils/helpers.js:31 | A string pattern replaces only its first occurrence; text without it is unchanged |
| Text.SplitJoin | server/server.js:310 | Splitting the join of separator-free parts gives back the parts |
| Text.JoinSplit | server/server.js:335 | Joining the parts of a split with the separator gives back the text |
| Text.FirstPart | server/server.js:310 | The first part of a split is the prefix before the first separator, or the whole text |
| Text.SplitAppendsPart | server/server.js:335 | Splitting `s + sep + ext`, where `ext` holds no separator, gives the parts of `s` followed by `ext` |
| Text.LastPartAfterSeparator | server/server.js:335 | The last part of a split (`pop`) of `stem + sep + ext` is `ext` when `ext` holds no separator |
| Text.SplitPartsSeparatorFree | server/server.js:335 | No part of a split contains the separator |
| Text.ParseNatToString | src/utils/helpers.js:100 | A rendered numeral reads back as the number |

## Left out

- Child-process spawning, chunked stream decoding and `proc.kill()`. A run is its event trace; killing the child on timeout is not modelled beyond the settled outcome.
- Timers. The 10-minute sweep interval, the tool timeout and the one-second deletion delay are not modelled as time. The budget is passed to the tool function, the timer is an event in the trace, and a delivery counts its scheduled deletions.
- The clock, `Math.random` and the base-36 token. `now` and the request token are parameters; `readdirSync` order is a parameter listing.
- Concurrency between requests, and files the tool process itself writes: the artifact appears only in the listing parameter, not in the `Disk` map.
- Handlers.HandleInfo: `JSON.parse` of the metadata and the selection of its fields are not modelled. The answer carries the printed metadata text, so a parse failure (a 400 in the code) is not represented.
- Handlers.HandleInfo: a throwing `writeFileSync` or cookie-file `unlinkSync` (each a 400 with the system's message) is not modelled. The same holds for `HandleDownload` and `HandleQuick`.
- Handlers.ServeFile: `Content-Length`, the cache and expose headers, and the byte stream itself are not modelled. Names containing path separators are treated as plain names inside `downloads`; `join` normalisation (`..`) is not modelled.
- Express, CORS, JSON body parsing, the health and root routes, the 404 catch-all and `listen`. Request body fields are taken as optional strings; non-string bodies are not modelled.
- Storage.CleanOldFiles: `faulty` stands for files whose `statSync` or `unlinkSync` throws. Both leave the file, so the two are not told apart, and a missing directory is not modelled.
- Helpers.FormatDuration: whole non-negative seconds only. Fractional seconds (`Math.floor`) and negative values are not modelled.
- DownloadService.EstimateFileSize: whole-second durations only. The `formatted` field (`formatFileSize`, floating point) is left out, and the bitrate-table lookup of inherited object keys is not modelled.
- DownloadService.ParseDownloadResult: an absent `size` field and a null one are both `None`. The unused `originalUrl` argument is not modelled.
- `isValidUrl` and `new URL` parsing are not modelled. Helpers receive parsed components, or `None` where parsing throws; the validation ladder receives the parser as a function.
- Strings are sequences of Unicode scalar values, not UTF-16 code units. `substring(0, 100)` and the per-character replacement in `DownloaderHook.Sanitize` count characters, and `toLowerCase` is modelled on ASCII letters only.
- `formatFileSize` (floating point), `getPlaceholderImage`, the fetch-based client functions, `initiateDownload`, `downloadAudio`, React state, toasts, local storage and every component, page and context are not part of this model.
