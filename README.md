# movie-mcp-prototype: a verified model of its session and capture core

movie-mcp-prototype drives a real browser (via puppeteer) over a streaming
player. It takes frames and subtitles from the page, turns them into "Nyra"
memory records, and exposes all of this in two ways:

- an HTTP/WebSocket API (`APIServer`);
- an MCP tool server (`MovieMCPServer`).

A separate Python script backs up the workspace into a RAR archive, or a ZIP
archive as a fallback, and keeps only the newest archives.

This project models five pieces of that code in Dafny and proves properties
of each.

* `Types.dfy`: the records of `src/types/index.ts` as datatypes. These are
  `FrameData`, `SubtitleData`, `PlaybackState`, `NyraMemory`, `MovieSession`
  and its four histories. It also holds the `Option`, `Result` and `Outcome`
  wrappers.
* `Text.dfy`: string helpers the other modules share:
  - decimal rendering of clock readings (`Date.now()` in ids);
  - `String.prototype.trim` with the JavaScript whitespace set;
  - `includes`, `startsWith` and `endsWith`;
  - ASCII lower-casing;
  - joining.
* `Browser.dfy`: the capture engine (`BrowserMCPIntegration`). It is a class
  whose `browser` and `page` fields are set by `Initialize` and `Cleanup`.
  The page is data:
  - a selector → probe function;
  - a click oracle;
  - the optional list of buttons with their text contents;
  - the node texts `evaluate` returns.

  The module covers:
  - the cookie-banner resolver: ordered selectors, then a text fallback;
  - subtitle extraction;
  - the playback read with its zeroed default;
  - frame capture.
* `Nyra.dfy`: the analysis mapping of `NyraIntegration`. This covers the
  content kind → memory kind and confidence mapping, and the memory records
  it builds. It also states the error policy: sending never throws, fetching
  memories degrades to `[]`, and starting conversation mode rethrows.
* `ApiServer.dfy`: the HTTP routes over `activeSessions`. The class has a
  `map<string, MovieSession>` field and its own capture engine. Every route
  returns `Ok` (200), `NotFound` (404) or `ServerError` (500).
* `McpServer.dfy`: the MCP tool list and `CallTool` dispatch. The six handlers
  work over a second, independent map with its own capture engine. Every
  failure becomes an `Error: …` text result.
* `Backup.dfy`: `backup/backup.py`:
  - log sanitising, the safe-path test and `should_exclude`;
  - the recursive workspace scan, as a method proved against a recursive
    specification over an abstract directory tree;
  - the relative-path lines of the temporary list file;
  - the "keep the 250 newest" retention;
  - the archiver lookup;
  - the control flow of `create_rar_backup`, `run_backup` and `main`.

The browser, the network, the file system and the clocks are oracles. Every
puppeteer call, `mockApiCall`, `os.scandir`/`stat`/`unlink`, every subprocess
and every `Date.now()`/`datetime.now()` is a parameter: a `Result` or
`Outcome` that may fail, or a value the caller supplies. One handler that
reads the clock several times receives a single `now`.

Where the code and the design description disagree, the model follows the
code:

- `captureFrame` throws when no video element matches, with no full-page
  fallback.
- Frames and subtitles carry `movieId` `'unknown'`.
- The memory built by `analyzeContent` takes the session id as its `movieId`.
- The API's DELETE removes the session from the map. The MCP server's
  `stop_movie_session` keeps it, marked inactive.
- Nothing rejects a second session while one is active. A second start calls
  `initialize()` again, which connects or launches anew and overwrites the
  engine's `browser` and `page`, as `Browser.CaptureEngine.Initialize` does.

## Model

| member | source | states |
|---|---|---|
| Text.NatToStringRoundTrip | src/api/server.ts:68 | the decimal text of a clock reading reads back as that reading |
| Text.IntToStringInjective | src/api/server.ts:68 | two different clock readings never give the same decimal text, so ids built from them differ |
| Text.TrimShape | src/browser/integration.ts:207 | `trim()` returns the infix of the text left after a whitespace-only prefix and a whitespace-only suffix, and neither of its ends is whitespace |
| Text.TrimIdempotent | src/browser/integration.ts:207 | trimming an already trimmed text changes nothing |
| Browser.CaptureEngine.constructor | src/browser/integration.ts:5-21 | a new engine has no browser and no page |
| Browser.CaptureEngine.Initialize | src/browser/integration.ts:23-56 | the browser is the connected one if `connect` succeeds, else the launched one; the page is opened on it; success iff a browser was acquired and the page opened, and then `IsInitialized()`; a failure is re-raised |
| Browser.CaptureEngine.NavigateToUrl | src/browser/integration.ts:58-79 | without a page it fails with `Browser nicht initialisiert` and does nothing; otherwise its outcome is the page load's, and cookie handling runs exactly when the load succeeded |
| Browser.CaptureEngine.HandleCookieBanners | src/browser/integration.ts:81-151 | without a page nothing is probed or clicked; otherwise the result is the resolver specification over the twelve selectors of the source, and the method never fails |
| Browser.TrySelectors | src/browser/integration.ts:108-121 | the selector loop computes the selector-phase specification: probe in order, click on a hit, return on a click that resolves, count a throwing probe or click as no match |
| Browser.TryButtonTexts | src/browser/integration.ts:124-145 | the button loop computes the text-phase specification: skip null or throwing texts, click the first button whose text contains a phrase, return when the click resolves |
| Browser.ProbeSelectorsOrder | src/browser/integration.ts:108-121 | probed selectors are a prefix of the list in its order, every click but the last failed, and the banner counts as dismissed iff the last click resolved |
| Browser.ProbeSelectorsStop | src/browser/integration.ts:108-121 | probing stops exactly at the first selector whose element's click resolves; if none does, every selector is probed and nothing is dismissed |
| Browser.SelectorsFirstMatchWins | src/browser/integration.ts:93-121 | for the first dismissing selector `sels[k]`, exactly `sels[..k+1]` are probed and `sels[k]` is the dismissal; with no dismissing selector all are probed |
| Browser.OnlySecondSelectorMatches | src/browser/integration.ts:108-117 | with `[s1, s2, s3]` where only `s2` yields an element, `s2` is clicked and `s3` is never probed |
| Browser.ProbeButtonsFacts | src/browser/integration.ts:124-145 | the text phase probes no selectors, keeps the click log shape, and can only dismiss by a text containing an acceptance phrase |
| Browser.CookieHandlingFacts | src/browser/integration.ts:93-150 | at most one click ever resolves and every earlier click failed; a text dismissal happens only after every selector was probed without a dismissal, and only for a text containing a phrase |
| Browser.LowerCaseTextIgnored | src/browser/integration.ts:128-135 | the phrase test is case-sensitive: a button text `accept` does not match |
| Browser.CaptureEngine.CaptureFrame | src/browser/integration.ts:155-192 | fails with `Browser nicht initialisiert` without a page and `Video-Element nicht gefunden` without a video element; succeeds iff page, element and screenshot are there, and then the frame is `frame_<now>`, movie `unknown`, the screenshot, 3840×2160 whatever the image |
| Browser.CollectSubtitles | src/browser/integration.ts:202-221 | the `forEach` loop produces exactly the subtitle specification: one entry per node with non-empty trimmed text, in order, id from the node's index |
| Browser.CaptureEngine.GetSubtitles | src/browser/integration.ts:194-230 | fails without a page; a failed evaluation gives `[]`; otherwise the extracted list |
| Browser.KeptBounds | src/browser/integration.ts:206-208 | the indices of kept nodes are in range |
| Browser.KeptAscending | src/browser/integration.ts:206-208 | kept indices are strictly increasing, so document order is kept |
| Browser.KeptMembership | src/browser/integration.ts:206-208 | a node is kept iff its trimmed text is non-empty |
| Browser.ExtractFollowsKept | src/browser/integration.ts:206-218 | entry j is the subtitle built from the j-th kept node: id `subtitle_<index>`, trimmed text, times 0, language `de` |
| Browser.ExtractCharacterized | src/browser/integration.ts:202-221 | combines the four facts above for the whole node list |
| Browser.ExtractedTextsTrimmed | src/browser/integration.ts:207-212 | every extracted text is non-empty and already trimmed |
| Browser.CaptureEngine.GetPlaybackState | src/browser/integration.ts:232-279 | fails iff there is no page; a missing video element or a failed evaluation gives the zeroed state (not playing, 0, 0, 0, rate 1); otherwise `isPlaying = !paused` and the other four fields are copied |
| Browser.CaptureEngine.Cleanup | src/browser/integration.ts:281-293 | close is called iff there is a browser; after a successful close browser and page are null and `IsInitialized()` is false; otherwise both are unchanged and no error escapes |
| Nyra.PerformContentAnalysis | src/nyra/integration.ts:47-106 | frame → scene 0.8, subtitle → quote 0.9, audio → emotion 0.7, anything else → highlight 0.5 (each an if-and-only-if); never character; confidence in [0, 1]; metadata holds the timestamp and the analysis type |
| Nyra.SendMemoryToNyra | src/nyra/integration.ts:108-130 | delivered iff the call answers success, rejected iff it answers failure, send error iff it throws; it never throws itself |
| Nyra.ContentMemory | src/nyra/integration.ts:26-35 | id `memory_<now>`, movie id is the session id, kind, content, confidence and metadata from the analysis, timestamps `now` |
| Nyra.AnalyzeContent | src/nyra/integration.ts:18-45 | the returned memory has id `memory_<now>`, the session id as movie id, timestamps `now`, and the analysis's kind, content, confidence and metadata; the delivery is delivered, rejected or a send error iff the endpoint answers true, answers false or throws, so the call never fails |
| Nyra.AnalyzeContentIgnoresDelivery | src/nyra/integration.ts:37-40 | the returned memory is the same whatever the send answers, and its movie id is the session id |
| Nyra.ContentMemoryIdEncodesClock | src/nyra/integration.ts:27 | equal memory ids mean equal clock readings |
| Nyra.FrameMemory | src/nyra/integration.ts:187-208 | id `frame_memory_<now>`, kind scene, confidence in range, movie id and timestamp copied from the frame, metadata `dimensions` = `<width>x<height>` and `frameId` = the frame's id |
| Nyra.AnalyzeFrame | src/nyra/integration.ts:180-216 | the returned memory has id `frame_memory_<now>`, kind scene, confidence 0.8, the frame's movie id and timestamp, and metadata `dimensions` = `<width>x<height>` and `frameId` = the frame's id; the delivery reports the endpoint's answer as for the content memory |
| Nyra.DimensionsInjective | src/nyra/integration.ts:204 | `<width>x<height>` determines width and height |
| Nyra.FrameMemoryRecordsSize | src/nyra/integration.ts:202-207 | equal frame-memory metadata means equal frame ids, sizes and timestamps |
| Nyra.SubtitleMemory | src/nyra/integration.ts:225-247 | id `subtitle_memory_<now>`, kind quote, content `Wichtiger Dialog: "<text>"`, timestamp from `startTime`, movie id copied, metadata language copied |
| Nyra.QuoteRecoversText | src/nyra/integration.ts:230 | the subtitle text can be read back out of the quote content |
| Nyra.AnalyzeSubtitle | src/nyra/integration.ts:218-255 | the returned memory has id `subtitle_memory_<now>`, kind quote, confidence 0.9, content `Wichtiger Dialog: "<text>"`, timestamp `startTime`, the subtitle's movie id and language; the delivery reports the endpoint's answer |
| Nyra.ConfidencesInRange | src/nyra/integration.ts:62-99 | every confidence the class produces lies in [0, 1] |
| Nyra.GetMemoriesForMovie | src/nyra/integration.ts:132-141 | a throwing call, or a `data` that is missing or not a memory list, gives `[]`; otherwise the list (the code returns a truthy non-list as it is) |
| Nyra.StartConversationMode | src/nyra/integration.ts:143-164 | fails iff the start call fails, rethrowing its error; a failed memory fetch does not make it fail |
| Nyra.ErrorPolicies | src/nyra/integration.ts:136-163 | fetching degrades to `[]` while starting rethrows |
| ApiServer.Status | src/api/server.ts:93-111 | 200 iff ok, 404 iff not found, 500 iff server error |
| ApiServer.SessionIdInjective | src/api/server.ts:68 | `session_<now>` ids differ for different clock readings |
| ApiServer.NewSession | src/api/server.ts:69-80 | the new session has the given ids and start time, is active with no end time, and has four empty histories |
| ApiServer.WithFrame | src/api/server.ts:175 | one frame is appended at the end of the frames; the other histories and every other field are unchanged |
| ApiServer.WithSubtitles | src/api/server.ts:210 | the whole list is appended in order; the other histories are unchanged; an empty list changes nothing |
| ApiServer.WithMemory | src/api/server.ts:245 | one memory is appended; the other histories are unchanged |
| ApiServer.MemoryKeepsInvariant | src/api/server.ts:244-245 | appending an analysis memory for the session keeps the session invariant (every history entry has the shape its route produces) |
| ApiServer.ApiServer.constructor | src/api/server.ts:21-43 | the registry starts empty with a fresh engine without browser or page |
| ApiServer.ApiServer.CreateSession | src/api/server.ts:64-99 | ok iff a browser was acquired, the page opened and navigation succeeded, and only then is `session_<now>` filed as a new active session with the body's (possibly missing) movie id and empty histories, with the message `Film-Session gestartet: <title>` (`undefined` for a missing title); on failure a 500 with the map unchanged; the engine's handles are left as `initialize()` leaves them (unchanged without a browser, the new browser with the old page when no page opens, else both new, whether or not navigation then succeeds), so an ok start leaves the engine initialised |
| ApiServer.ApiServer.DeleteSession | src/api/server.ts:101-131 | 404 iff the id is unknown, then nothing changes; otherwise the ended session (inactive, end time `now`) is returned, cleanup runs and the id is removed, so a second DELETE is 404 |
| ApiServer.ApiServer.Playback | src/api/server.ts:134-158 | 404 iff unknown; without a page 500; otherwise the engine's playback state; changes nothing |
| ApiServer.ApiServer.CaptureFrame | src/api/server.ts:161-193 | 404 iff unknown; ok iff the capture succeeds, and then exactly that frame is appended to that session and nothing else changes; a failed capture is a 500 with the map unchanged |
| ApiServer.ApiServer.Subtitles | src/api/server.ts:196-228 | 404 iff unknown; without a page 500; otherwise the extracted list is appended to the session's subtitles and returned |
| ApiServer.ApiServer.Analyze | src/api/server.ts:231-263 | 404 iff unknown; otherwise exactly one memory, the content memory for this session and the body's content type (`undefined` when missing), is appended and returned |
| ApiServer.ApiServer.Conversation | src/api/server.ts:266-290 | 404 iff unknown; otherwise ok iff the start call succeeds, with a 500 carrying its error otherwise; changes nothing |
| ApiServer.ApiServer.Data | src/api/server.ts:293-308 | ok with the stored session iff the id is known, else 404; never a 500; changes nothing |
| McpServer.SpecOf | src/mcp/server.ts:49-121 | each tool's declaration carries the tool's name and declares every property it requires |
| McpServer.ToolList | src/mcp/server.ts:47-125 | exactly the six tools in the source's order, each with its declaration |
| McpServer.ToolFor | src/mcp/server.ts:131-146 | a name that dispatches selects the tool of that name |
| McpServer.DispatchInvertsToolName | src/mcp/server.ts:131-143 | each of the six names dispatches to its own handler |
| McpServer.ToolListMatchesDispatch | src/mcp/server.ts:47-146 | a name dispatches iff it is the name of a listed tool, and the i-th listed tool dispatches to the i-th handler |
| McpServer.AnalysisChoicesAreKnownKinds | src/mcp/server.ts:111-121 | `analyze_content.contentType` is restricted to frame, subtitle and audio, the kinds the analysis maps |
| McpServer.AsToolResult | src/mcp/server.ts:147-156 | a success is its text; a failure is one text `Error: <message>` |
| McpServer.MovieMcpServer.constructor | src/mcp/server.ts:20-43 | the registry starts empty with a fresh engine of its own |
| McpServer.MovieMcpServer.Lookup | src/mcp/server.ts:192-195 | a session is found iff an id was given and is in the map |
| McpServer.MovieMcpServer.StartMovieSession | src/mcp/server.ts:160-187 | succeeds iff acquire, page and navigation succeed, and only then files `session_<now>` as active with the call's fields; otherwise the map is unchanged; the engine's handles are left as `initialize()` leaves them, so a successful start leaves the engine initialised |
| McpServer.MovieMcpServer.StopMovieSession | src/mcp/server.ts:189-211 | unknown id: `Session <id> nicht gefunden` and nothing changes; otherwise the entry is kept, marked inactive with end time `now`, the browser is released, so a second stop succeeds again |
| McpServer.MovieMcpServer.GetPlaybackState | src/mcp/server.ts:213-232 | unknown id fails with the not-found message; otherwise fails without a page, else reports the playback state; changes nothing |
| McpServer.MovieMcpServer.CaptureFrame | src/mcp/server.ts:234-253 | unknown id fails; otherwise the capture's error, or `Frame erfasst: <id>`; stores nothing |
| McpServer.MovieMcpServer.GetSubtitles | src/mcp/server.ts:255-274 | unknown id fails; without a page fails; otherwise reports the number of extracted subtitles; stores nothing |
| McpServer.MovieMcpServer.AnalyzeContent | src/mcp/server.ts:276-295 | unknown id fails; otherwise reports the kind of the content memory built for the session; stores nothing |
| McpServer.MovieMcpServer.CallTool | src/mcp/server.ts:127-157 | the result is always the text form of the outcome, so no failure escapes; an unknown name gives `Error: Unknown tool: <name>`; an unknown session gives `Error: Session <id> nicht gefunden` with the map and the engine unchanged; the four read-only tools change neither map nor engine; each of the six names yields exactly its handler's outcome: start's success condition, new entry, text and the engine handles `initialize()` leaves, stop's text, ended entry and browser release (both handles null after a successful close of an existing browser, otherwise unchanged), and the playback, frame, subtitle and analysis reports of their handlers |
| Backup.SanitizeLogInput | backup/backup.py:31-36 | the output has the length of the input |
| Backup.SanitizeCharwise | backup/backup.py:36 | each `\r`, `\n`, `\t` becomes `_` and every other character is kept |
| Backup.SanitizeRemovesControls | backup/backup.py:36 | the output contains none of the three characters |
| Backup.SanitizeIdempotent | backup/backup.py:31-36 | sanitising twice is sanitising once |
| Backup.UnsafePaths | backup/backup.py:52-60 | a path with a `..` part, or one starting with `\\`, is never safe |
| Backup.NewWorkspace | backup/backup.py:39-50 | accepted iff the resolved path is safe, with the backup folder `<workspace>\backup`; an unsafe path is refused with `Unsicherer Workspace-Pfad: <given>` |
| Backup.Suffix | backup/backup.py:72 | `path.suffix`: empty, or a dot and at least one more character, itself containing no further dot, ending the name and shorter than it |
| Backup.WalNeverASuffix | backup/backup.py:47 | no name has `.duckdb.wal` as its suffix |
| Backup.WalFileNotExcludedAsWritten | backup/backup.py:47-72 | `x.duckdb.wal` has suffix `.wal`, which is not excluded, so the file passes `should_exclude` as written |
| Backup.FixedExtendsAsWritten | backup/backup.py:62-72 | the corrected test excludes everything the written test excludes, and also every `*.duckdb.wal` |
| Backup.ScanDirectory | backup/backup.py:81-107 | the recursive scan returns exactly the scan specification for the exclusion test it is given (`should_exclude` as written, or as intended): an unreadable directory contributes nothing; excluded directory names and the backup folder are skipped; files are kept unless the test excludes them |
| Backup.ScanEntry | backup/backup.py:85-105 | one entry of the listing contributes exactly its part of the specification: nothing for an excluded directory or the backup folder, the sub-scan for another directory, the file unless excluded |
| Backup.ScanFacts | backup/backup.py:81-107 | for either test, every file found lies below the scanned directory and is not excluded by that test; at the top level nothing lies in a folder named `backup` |
| Backup.EntryFacts | backup/backup.py:85-105 | the same, for either test, for the files one directory entry contributes |
| Backup.ScanResultsAllowed | backup/backup.py:81-105 | every file the scan returns as the program runs it (with `should_exclude` as written) lies below the workspace, passes `should_exclude`, has no excluded directory among its parts and is not under the backup folder |
| Backup.IntendedScanAllowed | backup/backup.py:81-105 | the scan with the intended extension test gives the same guarantees, also passes the intended test, and returns only files the written scan returns |
| Backup.IntendedScanWithinWritten | backup/backup.py:81-105 | every file the intended scan keeps, the written scan keeps too |
| Backup.WalFileScannedAsWritten | backup/backup.py:72-107 | a workspace `F:\ws` holding only `db.duckdb.wal`: the program's scan returns `F:\ws\db.duckdb.wal`, the intended scan returns nothing |
| Backup.BackupFolderMatch | backup/backup.py:91-93 | at the top level an entry equals the backup folder (compared case-insensitively, as Windows paths are) iff its name is `backup` in any letter case |
| Backup.RelPath | backup/backup.py:146 | `relpath` raises exactly when the file is on another drive than the workspace (drive letters compared case-insensitively) |
| Backup.TempLine | backup/backup.py:145-151 | a file gets a line iff `relpath` does not raise |
| Backup.WriteFileList | backup/backup.py:143-151 | the loop writes exactly the specified lines: one per file for which `relpath` succeeds, in order, skipping the others |
| Backup.ReplaceJoin | backup/backup.py:147 | replacing `\` by `/` in a backslash-joined path gives the slash-joined path |
| Backup.TempLineBelow | backup/backup.py:146-148 | a file below the workspace gets the line of its remaining parts joined with `/` |
| Backup.TempLinesBelow | backup/backup.py:143-151 | for files below the workspace the list has one line per file, in order, each its relative path with `/` |
| Backup.CollectArchivesFacts | backup/backup.py:270-275 | only regular `*.rar`/`*.zip` files are collected, each with its mtime; the collection fails iff one of their mtimes cannot be read |
| Backup.SortPermutes | backup/backup.py:280 | the sort keeps exactly the same archives |
| Backup.SortIsNewestFirst | backup/backup.py:280 | the sort orders archives by descending mtime |
| Backup.RetentionKeepsNewest | backup/backup.py:276-283 | with at most `keep_count` archives nothing is deleted; otherwise `keep_count` are kept, the rest are deletion candidates, together they are all the archives, and no candidate is newer than a kept one |
| Backup.CleanupOldBackups | backup/backup.py:265-291 | removal is attempted for exactly the candidates, in order, and the removed ones are those whose unlink succeeds |
| Backup.RemoveEach | backup/backup.py:283-288 | the delete loop tries every candidate and carries on after a failed unlink |
| Backup.RemovedAreAttempted | backup/backup.py:283-288 | removed archives were attempted; when every unlink succeeds all candidates are removed |
| Backup.FirstExistingIsFirst | backup/backup.py:128-131 | the lookup returns the earliest existing path of the list, and nothing iff none exists |
| Backup.FindRarExecutable | backup/backup.py:114-133 | the first truthy search-path hit (`rar`, then `winrar`), else the first of the four install paths that exists, else none |
| Backup.ZipFallbackName | backup/backup.py:219-228 | the fallback archive is `movie-mcp-prototype_backup_<timestamp>.zip` |
| Backup.RarSucceeded | backup/backup.py:178-214 | a RAR backup succeeds iff the list file was written, the archiver ran to exit code 0 and the archive exists |
| Backup.CreateRarBackup | backup/backup.py:216-230 | without an archiver, a ZIP backup at the same name with suffix `.zip`; with one, a RAR archive in the backup folder whose command line is `<exe> a -r -m5 <archive> @<list>` |
| Backup.RunBackup | backup/backup.py:293-313 | the result is the backup's success, and old archives are cleaned up only after a successful backup |
| Backup.ExitStatus | backup/backup.py:315-330 | exit status 0 iff the workspace was accepted, exists and the backup succeeded, else 1 |

## Left out

- Nyra.GetMemoriesForMovie: `response.data || []` returns a truthy `data` as it is, even when it is not a list (the mock returns a single `{id, timestamp}` object there); the model types the answer as an optional memory list and gives `[]` for anything else, so it does not model a non-list being returned.
- The puppeteer engine is not modelled. `connect`, `launch`, `newPage`, `goto`, `$`, `$$`, `evaluate`, `screenshot`, `click` and `close` are oracle results.
- The fixed `waitForTimeout` delays are timing only.
- Console logging and the Python logging setup, including the log file path in its handler, are not modelled.
- Express middleware, CORS and helmet, JSON parsing, `listen`/`close`, the `/health` route and `start`/`stop` of both servers are transport. Only each route's 200, 404 or 500 outcome is modelled.
- socket.io `join_session`/`leave_session` and the `io.emit` broadcasts are left out. `io.emit` goes to every client, so there is no per-session fan-out to state.
- `src/index.ts` (process startup, port retry, signals) is not part of this model.
- `mockApiCall`, axios and the environment variables read by the `NyraIntegration` constructor are left out. Each API call is an oracle result.
- Concurrency across `await` points is not modelled. Each handler runs to completion before the next one starts.
- Request bodies and tool arguments are modelled as optional strings (the API's `movieId`, `title`, `url` and `contentType`, and every MCP argument). `Render` writes a missing value as `undefined`, as a template literal does. JSON values of other types and a missing MCP `arguments` object are not modelled. The API's `duration` is read but never used, so it is not modelled.
- `JSON.stringify` of the playback state is an oracle.
- Browser.CaptureEngine.GetPlaybackState: the numeric fields are passed through as opaque reals. No float semantics is modelled.
- Nyra.PerformContentAnalysis: confidences are exact reals.
- Text.IntToStringInjective: JavaScript's number-to-text conversion is modelled exactly only for integers. Clock readings are integers.
- `isInitialized`, `getPage` and `getBrowser` read the two fields. Browser.CaptureEngine.IsInitialized is the predicate. The two getters need no model.
- Backup.ScanDirectory:
  - does not model the `total_size` sum, which is only logged;
  - treats an entry that is neither a directory nor a file as skipped;
  - does not model symbolic links or an error raised part-way through one listing.
- Backup.ScanFacts: the comparison with the backup folder is stated for the top level of the workspace. Below it, entry paths are one level deeper than the backup folder and cannot equal it, and the model skips that comparison there.
- Backup.BackupFolderMatch: case folding is ASCII-only. Windows compares paths with full Unicode case folding.
- Backup.RelPath: `..` parts for a file outside the workspace on the same drive are produced as `ntpath.relpath` does. The model does not normalise `.` or `..` inside the input paths, which are already resolved.
- Backup.SortIsNewestFirst: the stability of `list.sort` for equal mtimes is built into the definition but not stated as a lemma. The sort is also modelled on a sequence, not in place.
- Backup.CreateRarBackup: the ZIP fallback writes its files one by one and skips those that fail. That inner loop is I/O and is only represented by its final success flag.
- Backup.NewWorkspace: the `mkdir` of the backup folder is file-system I/O and is not modelled.
- Backup.SanitizeLogInput: is modelled on strings. The `str()` conversion of non-string arguments is not modelled.
- The subprocess call, its 3600-second timeout, and the elapsed-time and progress logging are left out. The archiver's run is a `RarRun` record: the list file, the exit code or `None`, and whether the archive exists.

## Findings

| source | as written | input that shows it | evidently intended | confidence | as-written member | corrected member |
|---|---|---|---|---|---|---|
| backup/backup.py:47-72 | `should_exclude` compares `path.suffix` (only the last extension) with a set containing `.duckdb.wal` | a file `x.duckdb.wal`: its suffix is `.wal`, so it is backed up | `*.duckdb.wal` files (DuckDB write-ahead logs) are excluded like `*.duckdb` | not executed | Backup.WalFileScannedAsWritten | Backup.FixedExtendsAsWritten |

The corrected test, `Backup.ShouldExcludeFixed`, matches an excluded extension at the end of the file name. The scan (`Backup.Scan`, `Backup.ScanDirectory`) takes the test as a parameter, `Backup.ExclusionRule`. `AsWritten` is the program's own scan and `AsIntended` the corrected one. `Backup.WalFileNotExcludedAsWritten` shows a write-ahead log passing the written test. `Backup.WalFileScannedAsWritten` shows it reaching the file list.
