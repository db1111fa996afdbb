# torrent-video-streamer, modelled in Dafny

This project models the decision-making core of torrent-video-streamer, a web application
that searches the YTS movie index, adds torrents to a WebTorrent server and plays their video
in the browser. Only the logic is modelled; the network and the browser are inputs.

- **`Mse`** (`mse_player.dfy`) is the browser's MediaSource player (`MSEPlayer`) as a class.
  It holds the segment table, the append queue, the `isAppending` flag, the last appended
  segment and the start-up flags. Each `await` of the player becomes an explicit event
  method: the manifest or a segment fetch resolves, a back-off or cool-down timer fires, the source buffer
  ends an update, the 50 ms poll of a queued append runs, or the video element reports
  `timeupdate`, `seeking`, `waiting` or `playing`. Each segment load in flight is a record in
  `loads`, keyed by a load number, that says which fetch attempt it is on. The class
  invariant `Valid` says:
  - the queue is non-empty only while the buffer is updating;
  - the queue holds, in order, the appends queued and not yet taken out;
  - every load is within its three attempts;
  - the listeners of a direct append belong to a load that is appending directly.
- **`MseSpec`** (`mse_spec.dfy`) holds the player's pure decisions:
  - the MIME fallback;
  - the segment count and `floor(t/d)` on whole seconds;
  - the discontinuity offset;
  - the retry policy as a step function;
  - the choice of range that an eviction removes.
- **`WebSocket`** (`websocket_client.dfy`) is the reconnecting WebSocket client, with its
  handler registry and its status subscribers.
- **`Torrents`** (`torrent_manager.dfy`) is the server's torrent registry. It is a map keyed by
  magnet URI, kept as a sequence of entries in insertion order, together with the serializer.
- **`TorrentSearch`** (`search_service.dfy`) is the server's YTS search service: the rate
  limiter, the request parameters, result flattening, magnet links and the error messages.
- **`BrowserSearch`** (`browser_search.dfy`) is the browser's direct YTS search, proved to
  flatten results exactly as the server does.
- **`SearchApi`** (`search_controller.dfy`) and **`TorrentApi`** (`torrent_controller.dfy`) are
  the HTTP controllers: validation, options and status codes. `SearchApi` also models
  JavaScript's `trim` and `parseInt` on the query-string limit.
- **`FileUtils`** (`file_utils.dfy`) covers the extension-to-MIME switch and the video-file
  test.
- **`Subtitles`** (`subtitles.dfy`) covers the SRT-to-WebVTT conversion, with the timestamp
  regex replace written as a left-to-right scan, and the subtitle label.
- **`Strings`** and **`Wrappers`** hold the shared text helpers and `Option`/`Result`.
- **`Http`** (`http.dfy`) holds the shared reply type of the two controllers.

Times in the player are whole seconds. `Math.floor(t / d)` is Dafny's `/`, which for
`d > 0` is floor division.

## Model

| member | source | states |
|---|---|---|
| Strings.LowerChar | src/utils/fileUtils.ts:34 | ASCII upper-case letters become lower-case letters; every other character is unchanged; no result is an upper-case letter |
| Strings.Lower | src/utils/fileUtils.ts:34 | lower-casing keeps the length and maps each character on its own |
| Strings.LowerIdempotent | src/utils/fileUtils.ts:9 | lower-casing twice is lower-casing once |
| Strings.DecimalText | server/src/services/torrentSearchService.js:73 | a number's text is non-empty and all decimal digits |
| Strings.Split | src/utils/fileUtils.ts:9 | `split` yields at least one part, and no part contains the separator |
| Strings.SplitWithout | src/utils/fileUtils.ts:9 | text without the separator splits into itself alone |
| Strings.SplitAtFirst | src/utils/fileUtils.ts:9 | splitting at the first separator gives the text before it, then the split of the rest |
| Strings.SplitJoin | server/src/services/torrentSearchService.js:114-115 | joining parts that lack the separator and splitting again gives the parts back |
| Strings.LastIndexOf | src/utils/fileUtils.ts:9 | the result is -1 or a position holding the character, and no later position holds it |
| Strings.StartsWithConcat | server/src/controllers/torrentController.js:18 | a concatenation starts with its first part |
| FileUtils.MimeTypeKnownIff | src/utils/fileUtils.ts:33-48 | an extension gets a type of its own exactly when its lower-cased form is one of the twelve cases; every other extension gets `application/octet-stream` |
| FileUtils.KnownTypesAreVideo | src/utils/fileUtils.ts:35-46 | every type other than the fallback starts with `video/` |
| FileUtils.MimeTypeIgnoresCase | src/utils/fileUtils.ts:34 | extensions equal up to case get the same type |
| FileUtils.MpegSpellings | src/utils/fileUtils.ts:42-43 | `mpeg` and `MPG` both map to `video/mpeg` |
| FileUtils.LastSegment | src/utils/fileUtils.ts:9 | `split('.').pop()` is a suffix of the name without a '.' |
| FileUtils.TrailingDotIsNotVideo | src/utils/fileUtils.ts:8-11 | a name ending in '.' is never a video |
| FileUtils.ExtensionSplitIsLastDot | src/utils/fileUtils.ts:9 | the only split of a name into stem and extension is at its last '.' |
| FileUtils.IsVideoFileAtLastDot | src/utils/fileUtils.ts:8-11 | a name is a video exactly when the text after its last '.' (the whole name when it has none) is non-empty and, lower-cased, listed |
| FileUtils.IsVideoFileSplit | src/utils/fileUtils.ts:8-11 | the same, stated with an explicit split position |
| Subtitles.ReplaceTimestamps | src/components/VideoPlayer/VideoPlayer.tsx:194 | the replace keeps the length; each character is kept or is a ',' turned into '.'; and every changed ',' is the comma of a `DD:DD:DD,DDD` match in the input |
| Subtitles.MatchInOutputWasInInput | src/components/VideoPlayer/VideoPlayer.tsx:194 | every timestamp match in the output was already a match in the input |
| Subtitles.SurvivingTimestamps | src/components/VideoPlayer/VideoPlayer.tsx:194 | every comma timestamp left in the output overlaps one that was converted, so the scan leaves no isolated match unconverted |
| Subtitles.TimestampOverlap | src/components/VideoPlayer/VideoPlayer.tsx:194 | two matches of the pattern are disjoint or start 10 or 11 characters apart |
| Subtitles.ConvertSrtToVtt | src/components/VideoPlayer/VideoPlayer.tsx:190-197 | the output is the `WEBVTT` header then the input with only timestamp commas turned into '.', and is 8 characters longer |
| Subtitles.SubtitleContent | src/components/VideoPlayer/VideoPlayer.tsx:81-84 | names ending in `.srt` are converted; any other upload passes through unchanged |
| Subtitles.ExtensionAtLastDot | src/components/VideoPlayer/VideoPlayer.tsx:92 | the extension pattern can only match at the last '.' |
| Subtitles.ExtensionAtIff | src/components/VideoPlayer/VideoPlayer.tsx:92 | the pattern matches exactly when the last '.' is followed by at least one character and no '/' |
| Subtitles.SubtitleLabel | src/components/VideoPlayer/VideoPlayer.tsx:92 | the label is the name cut before the matched extension, or the whole name when nothing matches |
| MseSpec.FirstSupported | src/utils/MSEPlayer.ts:107 | `find` returns the first supported candidate, and none exactly when no candidate is supported |
| MseSpec.ChooseMime | src/utils/MSEPlayer.ts:98-113 | the chosen type is supported; it differs from the manifest's only when that one is unsupported, and then it is a listed fallback; the choice fails, with the source's message, exactly when nothing is supported |
| MseSpec.SegmentDurationOf | src/utils/MSEPlayer.ts:92 | the segment duration is positive: the manifest's value, or 6 when it gives none |
| MseSpec.SegmentCount | src/utils/MSEPlayer.ts:237 | `ceil(total/d)`: the segments cover the stream and the last one starts inside it |
| MseSpec.InRangeIff | src/utils/MSEPlayer.ts:237-240 | an index passes the bounds check exactly when it is non-negative and its start time lies before the end |
| MseSpec.SegmentAt | src/utils/MSEPlayer.ts:416 | `floor(t/d)` is the segment whose interval contains `t` |
| MseSpec.AppendOffset | src/utils/MSEPlayer.ts:281-285 | no offset exactly when the segment directly follows the last appended one; otherwise the segment's start time |
| MseSpec.Next | src/utils/MSEPlayer.ts:252-311 | an appended attempt ends the load loaded; a 503 or any failure uses up the attempt and moves to the next, or fails after the third |
| MseSpec.ThreeNotReadyFail | src/utils/MSEPlayer.ts:259-264 | three 503 answers in a row end the load in failure |
| MseSpec.AttemptsBounded | src/utils/MSEPlayer.ts:249-252 | a load never reaches a fourth attempt |
| MseSpec.LoadedIff | src/utils/MSEPlayer.ts:252-311 | a load ends loaded exactly when some attempt among the first three appends, with no earlier one appending |
| MseSpec.EvictionTarget | src/utils/MSEPlayer.ts:522-543 | the range chosen is the first one, in order, whose part older than `now - 30` is non-empty and whose removal is accepted; the part removed is its start up to `min(end, now - 30)` |
| MseSpec.ForgetSegments | src/utils/MSEPlayer.ts:534-536 | exactly the entries from `first` to `last` are deleted; the others keep their state |
| MseSpec.EvictionKeepsRecent | src/utils/MSEPlayer.ts:519-536 | every segment whose entry an eviction forgets starts at least 30 s before `now` |
| Mse.MSEPlayer.constructor | src/utils/MSEPlayer.ts:36-74 | a new player has the default 6 s segments, no manifest, media source or buffer, an empty segment table and queue, and `lastAppendedSegment` -1 |
| Mse.MSEPlayer.Submit | src/utils/MSEPlayer.ts:372 | handing data to an idle buffer makes it busy and records the append with its offset |
| Mse.MSEPlayer.Remove | src/utils/MSEPlayer.ts:528 | a removal on an idle buffer makes it busy and records the range |
| Mse.MSEPlayer.MarkEnded | src/utils/MSEPlayer.ts:288-318 | success makes the segment the last appended and loaded; giving up marks it an error and schedules its cool-down; both report buffering over |
| Mse.MSEPlayer.Settle | src/utils/MSEPlayer.ts:352-364 | the direct append's listener settles its waiter: a segment load ends loaded when the append resolved and counts a failed attempt when it was rejected (backing off 1 s, or marking the segment an error after the third); the init waiter marks the init segment loaded and requests segment 0, or ends start-up with `onError`; with no listener nothing is reported and no load or segment changes |
| Mse.Skipped | src/utils/MSEPlayer.ts:390-402 | the entries taken out before one is handed to the buffer are exactly the refused ones at the front |
| Mse.AfterFailure | src/utils/MSEPlayer.ts:302-304 | a failed attempt backs off before the next one only while an attempt is left |
| Mse.PlayerFollowsPolicy | src/utils/MSEPlayer.ts:259-311 | the player's back-off transitions take the step the retry policy `Next` prescribes |
| Mse.MSEPlayer.StartAppend | src/utils/MSEPlayer.ts:324-380 | `appendBuffer` rejects without a source buffer or once destroyed; while an update or an append runs, the data joins the back of the queue; otherwise it goes to the buffer at once with its listeners attached, or is rejected with the buffer's message |
| Mse.MSEPlayer.ProcessPendingAppends | src/utils/MSEPlayer.ts:385-404 | on an idle buffer, the refused front entries leave the queue; the first accepted one is handed to the buffer, which is then busy; `isAppending` ends up equal to `updating`; on a busy buffer nothing changes |
| Mse.MSEPlayer.LoadSegment | src/utils/MSEPlayer.ts:227-245 | a load starts exactly when the player is not destroyed and the segment is in range and neither loading nor loaded; otherwise nothing changes; a started load marks the segment loading, reports buffering and starts fetch attempt 0 |
| Mse.MSEPlayer.Destroy | src/utils/MSEPlayer.ts:549-594 | a second call changes nothing; the first marks the player destroyed, detaches everything and empties the segment table and the queue |
| Mse.MSEPlayer.OnCooldownFired | src/utils/MSEPlayer.ts:313-318 | the cool-down deletes a segment's entry only if it is still an error |
| Mse.MSEPlayer.EndLoad | src/utils/MSEPlayer.ts:290-311 | success makes the segment the last appended and loaded; giving up marks it an error and starts its cool-down; both report buffering over; an abandoned load changes nothing |
| Mse.MSEPlayer.BootReady | src/utils/MSEPlayer.ts:166-174 | start-up ends with the listeners attached, the player initialized and `onReady` called |
| Mse.MSEPlayer.Resume | src/utils/MSEPlayer.ts:161-174 | once a load ends, whoever awaited it carries on: `onSeeking` requests the next segment, and start-up finishes |
| Mse.MSEPlayer.StartFirstSegment | src/utils/MSEPlayer.ts:163-174 | after the init segment, segment 0 is requested; start-up finishes when that load ends, or at once when no load starts |
| Mse.MSEPlayer.LoadAppendSettled | src/utils/MSEPlayer.ts:288-311 | a resolved append ends the load: the segment becomes the last appended one and is marked loaded, and buffering is reported over; a rejected one is a failed attempt that backs off 1 s with nothing else changed, or after the third marks the segment an error, starts its cool-down and reports buffering over |
| Mse.MSEPlayer.FailAttempt | src/utils/MSEPlayer.ts:297-311 | a failed attempt backs off 1 s while an attempt is left, with the segment table and callbacks untouched; after the third the load ends, the segment is marked an error, its cool-down starts and buffering is reported over |
| Mse.MSEPlayer.OnBackoffFired | src/utils/MSEPlayer.ts:259-264 | the back-off timer starts the next attempt's fetch with nothing else changed, or, when the 503 came on the third attempt, ends the load: the segment is marked an error, its cool-down starts, buffering is reported over and the last appended segment stays |
| Mse.MSEPlayer.OnFetchResolved | src/utils/MSEPlayer.ts:257-311 | a 503 waits 2 s and uses up the attempt; an error status, empty body or network error is a failed attempt (back-off, or the segment marked an error after the third); data arriving after `destroy` abandons the load with nothing recorded; other data is appended at the discontinuity offset, directly or through the queue |
| Mse.MSEPlayer.AppendFetched | src/utils/MSEPlayer.ts:276-288 | the data is appended, with no offset when the segment follows the last appended one and at its start time otherwise: to an idle buffer with the load's listeners attached, or at the back of the queue; a rejected append is a failed attempt |
| Mse.MSEPlayer.InitAppendSettled | src/utils/MSEPlayer.ts:218-220 | once the init append resolves, the init segment is loaded and segment 0 is requested; a rejected one ends start-up with `onError` and requests nothing |
| Mse.MSEPlayer.OnUpdateEnd | src/utils/MSEPlayer.ts:145-153 | at the end of an update the queue is drained as `processPendingAppends` does and `isAppending` matches the buffer; the direct append's waiter settles: a segment load ends loaded on success, and on an error counts a failed attempt after `onError` is called; the init waiter finishes or fails start-up |
| Mse.MSEPlayer.EndUpdate | src/utils/MSEPlayer.ts:145-153 | the buffer's own listeners report an error and drain the queue, leaving no direct-append listener |
| Mse.MSEPlayer.OnWaiterPoll | src/utils/MSEPlayer.ts:335-341 | a queued append's waiter resolves as soon as its entry has left the queue, even when the buffer refused it: a segment load ends loaded with buffering reported over, the init segment counts as loaded; while it is queued, nothing changes |
| Mse.MSEPlayer.Initialize | src/utils/MSEPlayer.ts:79-91 | a destroyed player and a browser without MediaSource throw at once; otherwise the manifest fetch starts |
| Mse.MSEPlayer.OnManifestFetched | src/utils/MSEPlayer.ts:91-128 | a failed manifest fetch is reported to `onError` and thrown; otherwise the manifest's durations and the chosen MIME type are applied and the media source created, or the MIME error is reported and thrown; no check of `isDestroyed` comes after the fetch |
| Mse.MSEPlayer.ApplyManifest | src/utils/MSEPlayer.ts:91-122 | the durations are set, then either the MIME type is chosen and the media source created, or the error is reported and thrown |
| Mse.MSEPlayer.OnSourceOpen | src/utils/MSEPlayer.ts:134-180 | nothing happens when destroyed or not set up; a refused source buffer ends start-up with the error; otherwise the init segment is fetched, or segment 0 is requested when the init segment was already loaded |
| Mse.MSEPlayer.OnInitFetched | src/utils/MSEPlayer.ts:200-220 | a failed init fetch ends start-up with the source's message; otherwise `lastAppendedSegment` becomes -1 and the data is appended once, with no offset |
| Mse.MSEPlayer.CleanupOldBuffers | src/utils/MSEPlayer.ts:512-544 | nothing happens without a source buffer, while it is updating, or once destroyed; otherwise exactly the eviction target's part is removed, and the segments it spans are forgotten |
| Mse.MSEPlayer.ForgetAll | src/utils/MSEPlayer.ts:534-536 | the deletion loop forgets exactly the segments from `first` to `last` |
| Mse.MSEPlayer.OnTimeUpdate | src/utils/MSEPlayer.ts:409-429 | the segment after the current one is requested exactly when it is absent or an error, and starts loading when admitted; past the first minute, on every fifth segment, the eviction target's part is removed and its segments forgotten; otherwise nothing is removed |
| Mse.MSEPlayer.OnSeeking | src/utils/MSEPlayer.ts:434-451 | the target segment is loaded unless it is loaded already; the next one is requested after that load ends, or at once |
| Mse.MSEPlayer.OnWaiting | src/utils/MSEPlayer.ts:456-478 | buffering is reported; both the current and the next segment are requested; neither is left an error; each in range is loading or loaded afterwards |
| Mse.MSEPlayer.Retry | src/utils/MSEPlayer.ts:465-470 | an error entry is cleared and the segment requested; other entries are untouched |
| Mse.MSEPlayer.OnPlaying | src/utils/MSEPlayer.ts:483-485 | playing reports buffering over |
| Mse.MSEPlayer.IsBuffered | src/utils/MSEPlayer.ts:497-507 | true exactly when the time lies in some buffered range, ends included |
| WebSocket.Calls | src/services/websocketClient.ts:151-158 | `forEach` calls every handler once, in order, with the same argument: the new status for subscribers, the data for message handlers |
| WebSocket.IndexOf | src/services/websocketClient.ts:109 | `indexOf` gives the first position of the handler, or -1 exactly when it is absent |
| WebSocket.RemoveFirst | src/services/websocketClient.ts:106-114 | `off` removes the first occurrence of a registered handler, keeping the others in order, and changes nothing otherwise |
| WebSocket.OnThenOff | src/services/websocketClient.ts:96-114 | `on` then `off` of a handler not yet registered restores the list |
| WebSocket.OnThenOffReorders | src/services/websocketClient.ts:106-114 | `off` removes the first occurrence, so a handler registered twice around another moves behind it |
| WebSocket.CloseOutcome | src/services/websocketClient.ts:61-74 | an unintended close with fewer than five attempts counts one more and reconnects; otherwise the status is closed (intended) or failed |
| WebSocket.ReconnectsAreBounded | src/services/websocketClient.ts:66-70 | however many closes follow without an open, at most five reconnects are scheduled in all |
| WebSocket.IntendedCloseStays | src/services/websocketClient.ts:66-73 | after `disconnect`, a close never reconnects and reports closed |
| WebSocket.WebSocketClient.constructor | src/services/websocketClient.ts:12-19 | a new client has no socket, no handlers or subscribers, no attempts, and status closed |
| WebSocket.WebSocketClient.IsConnected | src/services/websocketClient.ts:163-165 | connected exactly when a socket is held and open |
| WebSocket.WebSocketClient.SetStatus | src/services/websocketClient.ts:21-24 | the status is set and every subscriber hears it once |
| WebSocket.WebSocketClient.Connect | src/services/websocketClient.ts:29-79 | nothing changes when the socket is open; otherwise the close stops counting as intended, the status becomes reconnecting or connecting, and a new socket is created, or the status becomes failed |
| WebSocket.WebSocketClient.OnSocketOpen | src/services/websocketClient.ts:42-46 | an open resets the attempts to 0 and reports open |
| WebSocket.WebSocketClient.OnSocketClose | src/services/websocketClient.ts:61-74 | a close drops the socket and follows `CloseOutcome`; the attempts never exceed five |
| WebSocket.WebSocketClient.OnReconnectTimer | src/services/websocketClient.ts:70 | the timer calls `connect`, which opens a new socket when none is held |
| WebSocket.WebSocketClient.Disconnect | src/services/websocketClient.ts:84-91 | the close is marked intended, the socket is closed and dropped, and closed is reported |
| WebSocket.WebSocketClient.On | src/services/websocketClient.ts:96-101 | the handler joins the end of its type's list, which is created when missing |
| WebSocket.WebSocketClient.Off | src/services/websocketClient.ts:106-114 | the first occurrence of the handler is removed; an unknown type or handler changes nothing |
| WebSocket.WebSocketClient.OnStatusChange | src/services/websocketClient.ts:119-121 | subscribing twice keeps one subscription |
| WebSocket.WebSocketClient.OffStatusChange | src/services/websocketClient.ts:126-128 | unsubscribing removes the subscriber |
| WebSocket.WebSocketClient.Send | src/services/websocketClient.ts:140-146 | a frame is sent only on an open socket |
| WebSocket.WebSocketClient.OnSocketMessage | src/services/websocketClient.ts:48-55 | a parsed message is dispatched; one that does not parse reaches no handler |
| WebSocket.WebSocketClient.HandleMessage | src/services/websocketClient.ts:151-158 | every handler of the type is called in registration order with the data; an unknown type calls none |
| WebSocket.DisconnectDuringBackoff | src/services/websocketClient.ts:61-91 | as written, a reconnect scheduled before `disconnect` still fires and reopens a socket that no longer counts as intended |
| WebSocket.WebSocketClient.DisconnectCancellingReconnects | src/services/websocketClient.ts:84-91 | `disconnect` that also cancels scheduled reconnects leaves none pending |
| WebSocket.DisconnectStaysClosed | src/services/websocketClient.ts:84-91 | with reconnects cancelled, the same run stays closed with nothing pending |
| Torrents.SerializeFiles | server/src/torrent/TorrentManager.js:185-190 | each file keeps its name, path and length and gets its position as its index |
| Torrents.Serialize | server/src/torrent/TorrentManager.js:172-191 | a paused torrent reports speed 0; a missing name becomes `Loading metadata...`; the files are numbered by position |
| Torrents.FindByInfoHash | server/src/torrent/TorrentManager.js:126-133 | the first torrent, in insertion order, with that info hash, and none exactly when no torrent has it |
| Torrents.FindByKey | server/src/torrent/TorrentManager.js:34 | the entry with that magnet URI, and none exactly when the URI is absent |
| Torrents.RemoveAt | server/src/torrent/TorrentManager.js:84 | deleting one entry keeps the keys distinct |
| Torrents.SetEntry | server/src/torrent/TorrentManager.js:43 | `set` replaces the value of a present key in place or appends a new key, keeping keys distinct |
| Torrents.DeleteKey | server/src/torrent/TorrentManager.js:50 | `delete` removes the key's entry, and changes nothing when it is absent |
| Torrents.TorrentManager.constructor | server/src/torrent/TorrentManager.js:6-17 | a new manager has an empty map and has asked the engine for nothing |
| Torrents.TorrentManager.GetTorrentByInfoHash | server/src/torrent/TorrentManager.js:126-133 | the search loop returns the first match, or nothing exactly when none matches |
| Torrents.TorrentManager.AddTorrent | server/src/torrent/TorrentManager.js:31-46 | a known magnet URI resolves to its torrent's serialization and adds nothing; an unknown one is handed to the engine |
| Torrents.TorrentManager.OnTorrentReady | server/src/torrent/TorrentManager.js:42-46 | the ready torrent is stored under its magnet URI and its serialization resolves |
| Torrents.TorrentManager.OnTorrentError | server/src/torrent/TorrentManager.js:48-52 | the magnet URI's entry is removed and the promise rejects with the engine's message |
| Torrents.TorrentManager.RemoveTorrent | server/src/torrent/TorrentManager.js:67-80 | an unknown info hash resolves at once; a known one has its torrent destroyed with the delete-data option |
| Torrents.TorrentManager.OnTorrentDestroyed | server/src/torrent/TorrentManager.js:80-89 | after destruction, exactly the first entry with the info hash is deleted |
| Torrents.TorrentManager.PauseTorrent | server/src/torrent/TorrentManager.js:97-105 | true exactly when a torrent has the info hash, and only that torrent is paused |
| Torrents.TorrentManager.ResumeTorrent | server/src/torrent/TorrentManager.js:111-119 | true exactly when a torrent has the info hash, and only that torrent is resumed |
| Torrents.TorrentManager.AllTorrents | server/src/torrent/TorrentManager.js:139-141 | one serialization per entry, in insertion order |
| Torrents.TorrentManager.TorrentProgressOf | server/src/torrent/TorrentManager.js:148-165 | no progress exactly when no torrent has the info hash |
| Torrents.TorrentManager.Destroy | server/src/torrent/TorrentManager.js:197-201 | the engine is destroyed and the map emptied |
| Torrents.FirstMatchIsFound | server/src/torrent/TorrentManager.js:127-131 | a torrent with no earlier match is the one found |
| Torrents.ErrorUndoesReady | server/src/torrent/TorrentManager.js:42-52 | an error after `ready` leaves the map as the error alone would |
| Torrents.KeyPositionIsUnique | server/src/torrent/TorrentManager.js:12 | with distinct keys, a key's entry is the one found |
| TorrentSearch.WaitTime | server/src/services/torrentSearchService.js:24-34 | the limiter waits only when less than the delay has passed, and then exactly until the delay is over |
| TorrentSearch.RequestLimit | server/src/services/torrentSearchService.js:44 | `min(limit \|\| 20, 50)` |
| TorrentSearch.RequestFor | server/src/services/torrentSearchService.js:42-47 | the query as given, the limit `min(limit \|\| 20, 50)`, a given non-empty sort passed through and `seeds` otherwise, and always descending order |
| TorrentSearch.TrackerParams | server/src/services/torrentSearchService.js:106-114 | one `tr=` parameter per tracker, in the fixed order |
| TorrentSearch.BuildMagnetLink | server/src/services/torrentSearchService.js:105-116 | the link starts with the info-hash topic and then the `dn` field |
| TorrentSearch.MagnetLinkIsJoin | server/src/services/torrentSearchService.js:114-115 | the link is the topic, the encoded name and the five trackers joined by '&' |
| TorrentSearch.MagnetLinkFields | server/src/services/torrentSearchService.js:105-116 | splitting the link at '&' gives back exactly those seven fields |
| TorrentSearch.FieldsHaveNoAmpersand | server/src/services/torrentSearchService.js:114-115 | no field contains '&' when the hash and the encoder emit none |
| TorrentSearch.MovieResults | server/src/services/torrentSearchService.js:71-83 | one result per torrent of a movie, in order |
| TorrentSearch.Flatten | server/src/services/torrentSearchService.js:68-85 | every result is in the Movies category and carries a magnet link |
| TorrentSearch.FlattenLength | server/src/services/torrentSearchService.js:68-85 | there are as many results as torrents over all movies |
| TorrentSearch.FlattenMembers | server/src/services/torrentSearchService.js:68-85 | a result is produced exactly when it is the result of some torrent of some movie |
| TorrentSearch.FlattenSound | server/src/services/torrentSearchService.js:69-83 | every result comes from a torrent of a movie |
| TorrentSearch.FlattenComplete | server/src/services/torrentSearchService.js:69-83 | every torrent of every movie yields its result |
| TorrentSearch.FailureMessage | server/src/services/torrentSearchService.js:97-101 | the timed-out message exactly for `ECONNABORTED` and `ETIMEDOUT`; otherwise the message prefixed with `Failed to search: ` |
| TorrentSearch.SearchOutcome | server/src/services/torrentSearchService.js:57-101 | success exactly when the call succeeds with status `ok`, and then the flattened movies (none when missing); every failure is one of the two rethrown forms |
| TorrentSearch.CollectResults | server/src/services/torrentSearchService.js:68-85 | the nested loops build exactly the flattening |
| TorrentSearch.TorrentSearchService.constructor | server/src/services/torrentSearchService.js:19-22 | a new service has made no request yet and waits 1 s between requests |
| TorrentSearch.TorrentSearchService.WaitForRateLimit | server/src/services/torrentSearchService.js:24-34 | the wait is the limiter's wait, and `lastRequest` becomes the time after it |
| TorrentSearch.TorrentSearchService.SearchTorrents | server/src/services/torrentSearchService.js:36-103 | the search waits as the limiter says, sends the request parameters and returns the search outcome |
| BrowserSearch.IntText | src/services/browserSearchClient.ts:33 | `toString` of an integer |
| BrowserSearch.AskedLimit | src/services/browserSearchClient.ts:33 | `limit \|\| 20`, with no cap |
| BrowserSearch.RequestFor | src/services/browserSearchClient.ts:31-36 | the limit as text, the sort (`seeds` when none is given) and descending order |
| BrowserSearch.BrowserLimitIsUncapped | src/services/browserSearchClient.ts:33 | a limit above 50 reaches the browser's request unchanged, where the server caps it at 50 |
| BrowserSearch.BuildMagnetLink | src/services/browserSearchClient.ts:93-104 | the browser's link is the server's link |
| BrowserSearch.ToResult | src/services/browserSearchClient.ts:68-78 | the browser's result for a torrent is the server's |
| BrowserSearch.CollectResults | src/services/browserSearchClient.ts:64-81 | the browser's nested loops build exactly the server's flattening |
| BrowserSearch.SearchOutcome | src/services/browserSearchClient.ts:47-87 | success exactly when the HTTP status is ok and the body's status is `ok`; a non-ok status throws `API returned <status>`; a failed fetch rethrows its message |
| BrowserSearch.SearchTorrentsBrowser | src/services/browserSearchClient.ts:23-88 | the request parameters and the outcome of one browser search |
| BrowserSearch.BrowserAgreesWithServer | src/services/browserSearchClient.ts:53-83 | on the same ok reply, the browser and the server succeed together and return the same results |
| SearchApi.TrimStart | server/src/controllers/searchController.js:10 | the leading JavaScript white space is removed, and nothing else |
| SearchApi.TrimEnd | server/src/controllers/searchController.js:10 | the trailing JavaScript white space is removed, and nothing else |
| SearchApi.TrimEmptyIff | server/src/controllers/searchController.js:10 | a query trims to nothing exactly when it is all white space |
| SearchApi.DigitRun | server/src/controllers/searchController.js:27 | the length of the leading run of digits |
| SearchApi.ParseInt | server/src/controllers/searchController.js:27 | `parseInt` is NaN exactly when no digit follows the optional white space, sign and hex prefix |
| SearchApi.DecimalDigitsValue | server/src/controllers/searchController.js:27 | a number's decimal text reads back as the number |
| SearchApi.ParseIntDecimal | server/src/controllers/searchController.js:27 | `parseInt` of a number's text is that number |
| SearchApi.ParseIntOfDigits | server/src/controllers/searchController.js:27 | `parseInt` of a run of decimal digits is their value |
| SearchApi.ParseIntNegative | server/src/controllers/searchController.js:27 | `parseInt` of `-` and a number's text is its negation |
| SearchApi.DigitsReadBack | server/src/controllers/searchController.js:27 | a number's text is all digits with no hex prefix, and reads back as the number |
| SearchApi.DigitRunAll | server/src/controllers/searchController.js:27 | text of digits only is one run |
| SearchApi.Utf16Length | server/src/controllers/searchController.js:18 | `length` counts UTF-16 code units: one per character of the Basic Multilingual Plane, two for any other |
| SearchApi.QueryError | server/src/controllers/searchController.js:10-23 | `required` exactly for a missing or blank query; `too long` exactly for a non-blank query over 200 UTF-16 code units, counted untrimmed; otherwise the query is valid |
| SearchApi.ControllerLimitFor | server/src/controllers/searchController.js:27 | an absent or empty limit becomes 200; a given one is `min(parseInt(limit), 200)`, and NaN exactly when `parseInt` fails |
| SearchApi.OptionsFor | server/src/controllers/searchController.js:25-29 | the category passes through, the limit is the controller's, a given non-empty sort passes through and `seeders` replaces a missing one |
| SearchApi.SearchTorrents | server/src/controllers/searchController.js:6-42 | 400 exactly for an invalid query; otherwise 200 echoing the query with the results and their count, or the service's error handed on |
| SearchApi.ControllerSearchLimit | server/src/controllers/searchController.js:27 | with the service's own cap, what the controller asks for reaches the API as at most 50, and as 50 when no limit is given |
| SearchApi.ControllerSortKey | server/src/controllers/searchController.js:28 | without a sort, the API is asked to sort by `seeders` |
| SearchApi.Categories | server/src/controllers/searchController.js:47-58 | the six fixed categories, movies 14, tv 18, music 23, games 27, software 33 and ebook 35, with distinct ids and increasing values |
| TorrentApi.MagnetError | server/src/controllers/torrentController.js:10-23 | a magnet URI is accepted exactly when given and starting with `magnet:?`; a missing one is `required` |
| TorrentApi.AddedReply | server/src/controllers/torrentController.js:25-33 | an added torrent is a 201 reply; a failure goes to the error handler |
| TorrentApi.AddTorrent | server/src/controllers/torrentController.js:6-34 | an invalid URI gets 400 and reaches no manager; a known one gets 201 at once; an unknown one is handed to the engine |
| TorrentApi.SearchResultsAreAddable | server/src/controllers/torrentController.js:18 | every magnet link the search builds passes the controller's check |
| TorrentApi.GetAllTorrents | server/src/controllers/torrentController.js:39-51 | the count equals the number of torrents, listed in order |
| TorrentApi.GetTorrent | server/src/controllers/torrentController.js:56-75 | 404 exactly when no torrent has the info hash; otherwise 200 with the serialization of the first torrent that has it |
| TorrentApi.GetTorrentProgress | server/src/controllers/torrentController.js:80-99 | 404 exactly when no torrent has the info hash; otherwise 200 with its progress |
| TorrentApi.DeleteDataFlag | server/src/controllers/torrentController.js:107 | `deleteData` is true exactly for the text `true` |
| TorrentApi.RemoveTorrent | server/src/controllers/torrentController.js:104-118 | the reply is success whether or not the torrent exists; a known one is destroyed with the flag |
| TorrentApi.PauseTorrent | server/src/controllers/torrentController.js:120-133 | 404 exactly when the manager finds nothing, and then nothing changes |
| TorrentApi.ResumeTorrent | server/src/controllers/torrentController.js:135-148 | 404 exactly when the manager finds nothing, and then nothing changes |
| TorrentApi.PausedTorrentReportsNoSpeed | server/src/torrent/TorrentManager.js:97-180 | a torrent paused through the controller still matches and reports speed 0 |

## Left out

- The browser APIs are inputs, not code:
  - `fetch` and the manifest, init and segment responses;
  - `MediaSource`, `SourceBuffer` (`addSourceBuffer`, `appendBuffer`, `remove`, `abort`, their exceptions) and `isTypeSupported`;
  - `video.currentTime` and `video.buffered`.
- A `SourceBuffer` method that throws is a refusal parameter, by name or by ticket.
- `URL.createObjectURL`, `revokeObjectURL`, `video.src`, `video.load`, `mediaSource.duration`, `endOfStream`, the `sequence` mode and `timestampOffset` are not modelled beyond the offset recorded with each append.
- Timers are events, not clock time. These are methods called by the environment in the order it chooses:
  - the 2 s and 1 s back-offs, the 5 s cool-down and the 50 ms poll of the player;
  - the 2 s reconnect timer of the WebSocket client.
- Times in the player are whole seconds, where the browser uses floating point.
- Mse.MSEPlayer.Resume: the code that awaited a load carries on in a later microtask. The model makes that a separate event, `Resume`, which the environment calls after the load ends.
- Mse.MSEPlayer.OnUpdateEnd: the buffer's `updateend` handler runs first and then the waiter's handler, whatever the order the browser uses. The two touch disjoint state.
- `encodeURIComponent` is a function parameter. `new Date().toISOString()` is the parameter `now`.
- The YTS reply is already decoded. A number that is absent or not a number is `None`. `rating` is kept as a `real` and passed through.
- The JSON parsing of a WebSocket message is an input (`OnSocketMessage` gets the parsed pair or nothing).
- Strings.Lower: `toLowerCase` is modelled for ASCII letters only.
- SearchApi.ParseInt: the value is an unbounded integer, where JavaScript's `parseInt` loses precision past 2^53.
- `formatFileSize`, the `ratio` in `getTorrentProgress`, and the buffer percentage are floating-point and not modelled.
- Torrents.TorrentManager.TorrentProgressOf: states only whether progress exists and for which torrent, since the progress figures are floating-point.
- WebSocket.WebSocketClient.IsConnected: a socket counts as open from its `open` event until its `close` event, so a socket in the CLOSING state (the server began the close, `onclose` has not run) counts as connected, where `readyState === OPEN` is false. The same holds for `Send`.
- BrowserSearch.SearchOutcome: a failure is always an `Error` with a message. The `'Browser search failed'` text for a thrown value that is not an `Error` is not modelled.
- The WebTorrent client, its torrents and their events are outside the model. The model keeps:
  - `client.add` and `torrent.destroy` as logs of requests;
  - their callbacks as methods (`OnTorrentReady`, `OnTorrentError`, `OnTorrentDestroyed`).
- The singleton in `TorrentManager.getInstance` and the `websocketClient` instance are not modelled: each model object is one instance.
- `console` logging, React components, the route table, the configuration files, `apiClient.ts`, `searchClient.ts` and `WebSocketServer.js` are not part of this model.
- The controllers' `next(error)` paths are modelled as a reply carrying the error (`ToErrorHandler`). Express itself is not modelled.

## Findings

| source | as written | input that shows it | evidently intended | confidence | as-written member | corrected member |
|---|---|---|---|---|---|---|
| src/services/websocketClient.ts:61-91 | `disconnect` sets the intended flag but does not cancel a reconnect timer that `onclose` already scheduled; when the timer fires, `connect` clears the flag and opens a new socket | connect; the socket closes (a reconnect is scheduled); `disconnect` within 2 s; the timer fires | a disconnected client stays closed until `connect` is called again | not executed | WebSocket.DisconnectDuringBackoff | WebSocket.WebSocketClient.DisconnectCancellingReconnects, WebSocket.DisconnectStaysClosed |
