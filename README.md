# Packing station: a verified model

This project models the core of a browser packing station. A packer scans
an order barcode to start a video recording of the packing and scans the
same barcode again to stop it. The clip is then stored in a local record
database and downloaded. A still frame goes to an AI analysis service, whose
note is patched into the stored record a little later. A history view lists
the stored records with a search filter and three figures. An optional
Cloudflare R2 upload service builds object keys and public links.

The model has six modules, one file each:

- `Types` (`types.dfy`): the stored record, the four upload statuses, the
  recorder's five states, and media chunks with the blob built from them.
- `Text` (`text.dfy`): JavaScript `trim`, an ASCII `toLowerCase`, and
  `includes`, each with a reference definition or properties.
- `Store` (`store.dfy`): the `records` table as a class. It has an
  auto-increment key (`++id`), the station's `add`, `orderBy('id').last()`
  and `update` calls, and the version-2 upgrade loop that migrates every
  record in place.
- `R2` (`r2.dfy`): the configuration predicates, the object key, and the
  public link with its slash-collapsing rewrite modelled character by
  character. The upload is a method whose progress reports and errors are
  its outputs.
- `Station` (`station.dfy`): the session controller. `Snapshot` holds the
  component's state, its refs, and the closure copy kept by the memoised
  `startRecording`. Each event is a pure step function on snapshots. The
  `PackingStation` class runs the handlers on its fields, and each handler
  is proved equal to its step function. The lemmas about the steps state the
  controller's guarantees: the invariant, the state-machine edges, and the
  scan, tick, chunk, camera and patch behaviour. The events include the
  two buttons: "Stop (Or Scan)", shown only while recording, runs the
  same stop handler as a matching scan, and "Pack Next Order", shown only
  when the pack is completed, resets the station.
- `Dashboard` (`dashboard.dfy`): the search filter, the "Total Packs",
  "AI Analyzed" and "Latest Pack" figures, and the download name.

Browser and vendor effects are inputs to the methods:

- what each camera attempt came to;
- whether the frame capture worked;
- whether the store accepted a record;
- whether the upload's `send` succeeded;
- the clock reading.

Alerts and downloads are outputs.

Behaviour of the code worth knowing:

- `ondataavailable` has no state guard, so a chunk delivered after `stop()`,
  such as the recorder's last one, is still appended.
- `resetStation` does not clear the chunk buffer. The next start does.
- The saved duration is not the number of ticks counted (see Findings).
- The station downloads `Order_<id>.webm`, but the history view downloads
  `order-<id>.webm`.

## Model

| member | source | states |
|---|---|---|
| Types.Concat | components/PackingStation.tsx:127 | the blob built from a non-empty chunk list ends with the last chunk's bytes |
| Types.ConcatSize | components/PackingStation.tsx:127 | the blob built from the chunks is as long as the chunks' sizes added up |
| Types.ConcatPlacesChunk | components/PackingStation.tsx:127 | every byte of chunk k sits in the blob right after the bytes of the earlier chunks: nothing dropped or reordered |
| Text.Trim | components/PackingStation.tsx:217 | the trimmed scan is empty exactly when the input is all whitespace; otherwise it neither starts nor ends with whitespace and is the input without its leading and trailing whitespace |
| Text.TrimIdempotent | components/PackingStation.tsx:217 | trimming a trimmed scan changes nothing |
| Text.Lower | components/Dashboard.tsx:15 | lower-casing keeps the length and maps each character on its own: upper-case ASCII letters map to their lower-case letter (code point + 32), every other character is unchanged |
| Text.LowerIdempotent | components/Dashboard.tsx:15 | lower-casing twice is lower-casing once, and no upper-case letter is left |
| Text.Includes | components/Dashboard.tsx:15 | a string includes only needles no longer than itself, and includes a needle of its own length exactly when the two are equal |
| Text.IncludesIffOccurs | components/Dashboard.tsx:15 | the scanning `includes` is true exactly when the needle occurs at some index of the string |
| Text.IncludesEmpty | components/Dashboard.tsx:15 | every string includes the empty string |
| Text.IncludesConcat | components/PackingStation.tsx:228 | a string placed inside a larger one is included in it |
| Store.Migrated | services/db.ts:15-18 | the upgrade sets a missing status to `completed` and a missing or empty link to the order's tracking link, keeps present values, and leaves id, order id, timestamp, blob, duration, flag, note and key alone |
| Store.MigratedIdempotent | services/db.ts:16-17 | running the upgrade callback on its own output changes nothing |
| Store.MigratedFixpoint | services/db.ts:16-17 | a record is untouched by the upgrade exactly when it already has a status and a non-empty link |
| Store.WithAnalysis | components/PackingStation.tsx:190 | `update(key, {aiAnalysis})` keeps the table's length and keys, sets the note of the record under `key`, and leaves every other record as it was |
| Store.RecordStore.constructor | services/db.ts:11-12 | an empty table whose first key is 1 |
| Store.RecordStore.Add | services/db.ts:12 | `add` appends the record under a fresh key greater than every stored key and returns that key; keys stay ascending |
| Store.RecordStore.LastById | components/PackingStation.tsx:188 | `orderBy('id').last()` gives nothing on an empty table, otherwise the record with the greatest key |
| Store.RecordStore.UpdateAnalysis | components/PackingStation.tsx:190 | the table afterwards is the table with the note of the record under `key` set |
| Store.RecordStore.Upgrade | services/db.ts:13-19 | the upgrade loop rewrites every record with the upgrade callback, in place, adding and removing none and keeping the key generator |
| R2.HasClient | services/r2Service.ts:27-36 | the client exists exactly when the account id, the access key id and the secret key are all set and non-empty |
| R2.IsR2Configured | services/r2Service.ts:77-79 | the service counts as configured exactly when the account id, both credentials and the bucket are all set and non-empty |
| R2.ConfiguredHasClient | services/r2Service.ts:27-36 | a configured service always has a client, but a client without a bucket exists while `isR2Configured` is false |
| R2.Decimal | services/r2Service.ts:47 | the timestamp prints as a non-empty string of digits without a leading zero, except for 0 itself |
| R2.DecimalRoundTrip | services/r2Service.ts:47 | reading the printed timestamp back as a decimal number gives the timestamp |
| R2.ObjectKeyRoundTrip | services/r2Service.ts:47 | the object key names the order it was built from, whatever characters the id holds |
| R2.ObjectKey | services/r2Service.ts:47 | the key starts with `orders/`, ends with `.webm` and is longer than the two together |
| R2.DistinctTimesDistinctKeys | services/r2Service.ts:47 | two uploads of the same order at different clock readings get different keys |
| R2.DropSlashes | services/r2Service.ts:67 | the `\/+` part drops exactly the leading run of slashes |
| R2.CollapseSlashes | services/r2Service.ts:67 | the rewrite never lengthens the link and keeps its first character |
| R2.CollapseLeavesNoRun | services/r2Service.ts:67 | after the rewrite no non-colon character is followed by two slashes |
| R2.CollapseKeepsOtherChars | services/r2Service.ts:67 | the rewrite deletes slashes only: all other characters survive in order |
| R2.CollapseIdentity | services/r2Service.ts:67 | a link with nothing to match is left as it is |
| R2.CollapseIdempotent | services/r2Service.ts:67 | rewriting twice gives what rewriting once gives |
| R2.CollapseSplit | services/r2Service.ts:67 | the rewrite of a concatenation is the concatenation of the rewrites when the left part ends in a character other than a slash and either that character is a colon or the right part does not start with `//` |
| R2.SplitBeforeNonSlash | services/r2Service.ts:67 | whatever the left part ends with, the rewrite of a concatenation is the concatenation of the rewrites when the right part starts with a character other than a slash: no match reaches across it |
| R2.SchemeSeparatorKept | services/r2Service.ts:67 | the `//` after a colon (as in `https://`) is kept wherever it stands, and the parts on either side are rewritten on their own |
| R2.RunCollapsed | services/r2Service.ts:67 | a run of one or more slashes after a character other than a colon or slash shrinks to exactly one slash wherever it stands, and the parts on either side are rewritten on their own |
| R2.CollapseMatchesRuns | services/r2Service.ts:67 | the scanning rewrite equals an independent run-by-run definition: a run of slashes after a character other than a colon becomes one slash, a run after a colon or at the start keeps at most two slashes, every other character is copied |
| R2.PublicUrl | services/r2Service.ts:66-68 | with a public domain the link is non-empty, no longer than domain, slash and key, and starts with the domain's first character; without one it ends with the key |
| R2.PublicUrlShape | services/r2Service.ts:66-68 | with a public domain the link is the run-by-run rewrite of domain, slash and key, no run is left to match, and every character other than a slash is kept in order; without one it is exactly `https://<account>.r2.cloudflarestorage.com/<bucket>/<key>`, unset values printing as `undefined` |
| R2.KeyFixed | services/r2Service.ts:47-67 | an object key made from an order id without slashes is left unchanged by the rewrite |
| R2.PublicUrlOfDomain | services/r2Service.ts:47-67 | for a domain `https://<host>` with any number of trailing slashes and an order id without slashes, the link is exactly `https://<host>/<key>` |
| R2.UploadVideo | services/r2Service.ts:38-75 | without a client the upload fails with "R2 Client not configured." before any progress report or send; otherwise the put command carries the bucket, the key, the blob and `video/webm`; success returns the public link, failure returns "Failed to upload video to Cloudflare R2"; with a callback and a client the reports are exactly 10, 50 and, after a successful send, 100; without a callback there are none; they are strictly increasing and at most 100, with 100 reported exactly on a successful upload with a callback |
| Station.TriedCount | components/PackingStation.tsx:56-73 | the fallback tries profiles up to and including the first attach or permission error, or all three |
| Station.CameraResultCharacterised | components/PackingStation.tsx:56-76 | the camera is ready exactly when the last profile tried was attached; a permission error ends it with PERMISSION_DENIED; it ends with GENERIC_ERROR exactly when no attempt was decisive |
| Station.Decide | components/PackingStation.tsx:215-233 | on Enter, an empty trimmed scan is ignored; from IDLE it starts a session with the trimmed scan; from RECORDING it stops exactly when the scan equals the active id and otherwise rejects the scan with the expected and scanned values; other states ignore it |
| Station.SameBarcodeStops | components/PackingStation.tsx:217-226 | the barcode that starts a session stops it when scanned again, raw or trimmed |
| Station.MismatchAlertNamesBoth | components/PackingStation.tsx:228 | the wrong-barcode alert contains both the expected and the scanned id |
| Station.AfterStart | components/PackingStation.tsx:98-137 | without a stream the start is refused with the camera alert and nothing changes; with one the station records under the id with duration 0, an empty chunk buffer and a stop handler holding the id and the start-time `duration` and closure analysis |
| Station.AfterStop | components/PackingStation.tsx:139-160 | a live recorder is stopped and the station goes to PROCESSING with the stop handler pending; the frame goes to analysis exactly when the video element is mounted and the capture works; with no live recorder nothing happens |
| Station.KeyDown | components/PackingStation.tsx:215-233 | non-Enter keys, empty scans and disabled states change nothing; a handled scan clears the input; from IDLE a scan starts recording or, with no stream, alerts and leaves the state; in RECORDING a mismatch alerts and keeps the session; a match moves to PROCESSING |
| Station.AfterTick | components/PackingStation.tsx:23-35 | a tick adds one second to `duration` exactly while recording, changes nothing else but the memoised closure copy, and keeps the invariant |
| Station.TicksAccumulate | components/PackingStation.tsx:23-35 | while recording, n ticks add exactly n to `duration`; in any other state ticks change nothing |
| Station.AfterData | components/PackingStation.tsx:122-124 | a delivered chunk is appended to the buffer when non-empty and dropped when empty; nothing else changes and the invariant is kept |
| Station.NonEmpty | components/PackingStation.tsx:122-124 | the kept chunks are non-empty and no more than were delivered |
| Station.ChunksKeepArrivalOrder | components/PackingStation.tsx:122-124 | a run of deliveries appends exactly the non-empty chunks, in arrival order, and changes nothing else |
| Station.AfterCamera | components/PackingStation.tsx:38-77 | after the camera start a stream is available exactly when no camera error is set, and exactly when the attempts ended ready; nothing else changes and the invariant is kept |
| Station.AfterSave | components/PackingStation.tsx:173-203 | the save clears the pending stop and goes to COMPLETED with one more patch scheduled on success, to IDLE with none on failure; nothing else changes; from PROCESSING the invariant is kept along a state-machine edge |
| Station.Reset | components/PackingStation.tsx:205-210 | reset yields IDLE with empty input, no active id, duration 0 and no analysis |
| Station.NextPreservesInv | components/PackingStation.tsx:23-410 | every event, including the "Stop (Or Scan)" and "Pack Next Order" buttons, keeps the invariant: never UPLOADING, recorder live exactly in RECORDING, a stop pending exactly in PROCESSING, a non-empty active id in RECORDING, no stream while the camera is in error, no empty chunk; every event follows an edge IDLE→RECORDING→PROCESSING→COMPLETED/IDLE, COMPLETED→IDLE |
| Station.RunPreservesInv | components/PackingStation.tsx:405-411 | every state reached by any run of events, button clicks included, keeps the invariant, so UPLOADING is never entered |
| Station.SavedRecord | components/PackingStation.tsx:176-185 | the saved record carries the given key, order id, clock reading, blob and duration, no object key, the note "Processing...", status `completed`, an empty link and no flag |
| Station.PatchTouchesOnlyNewest | components/PackingStation.tsx:187-192 | the delayed patch changes only the record with the greatest key, and only its note, and nothing when the analysis is null or empty |
| Station.SessionDurationCountsTicks | components/PackingStation.tsx:126-137 | a session of n ticks ends in PROCESSING with the counter at n; the stop handler holds the duration and analysis from before the session began |
| Station.StaleDurationOnFreshStation | components/PackingStation.tsx:126-137 | on a freshly mounted station a session of n ticks is saved with duration 0 as written, and with n from the live counter |
| Station.SessionPatchNote | components/PackingStation.tsx:187-192 | when the memoised closure holds no analysis, the patch as written carries null whatever arrives; the live patch carries what arrived |
| Station.StalePatchOnFreshStation | components/PackingStation.tsx:187-192 | on a freshly mounted station the patch as written leaves "Processing..." even after the analysis arrived; the live patch writes it |
| Station.DownloadName | components/PackingStation.tsx:195 | the automatic download is named `Order_`, the id, `.webm` |
| Station.PackingStation.constructor | components/PackingStation.tsx:9-20 | the mounted component: IDLE, empty input, no id, duration 0, no analysis, no camera error, no chunks, no stream |
| Station.PackingStation.StartCamera | components/PackingStation.tsx:38-77 | clears the error, reports whether the shown stream's tracks were stopped, tries exactly the profiles `Attempts[..TriedCount]` in order, and ends with the camera result of the outcomes |
| Station.PackingStation.Tick | components/PackingStation.tsx:23-35 | the interval callback is the tick step and keeps the invariant |
| Station.PackingStation.SetInput | components/PackingStation.tsx:272-274 | typing changes the input only while it is enabled |
| Station.PackingStation.StartRecording | components/PackingStation.tsx:98-137 | the start handler is the start step and keeps the invariant |
| Station.PackingStation.StopRecording | components/PackingStation.tsx:139-160 | the stop handler, called by a matching scan and by the "Stop (Or Scan)" button, is the stop step and keeps the invariant |
| Station.PackingStation.HandleKeyDown | components/PackingStation.tsx:215-233 | the key handler is the key step, with its alert and analysis request, and keeps the invariant |
| Station.PackingStation.OnDataAvailable | components/PackingStation.tsx:122-124 | a delivered chunk is appended when non-empty |
| Station.PackingStation.OnAnalysis | components/PackingStation.tsx:154 | the analysis result becomes `lastAnalysis` |
| Station.PackingStation.SaveRecord | components/PackingStation.tsx:173-203 | on success exactly one record is added under the next key, a patch is scheduled, the blob is downloaded as `Order_<id>.webm` and the station is COMPLETED; on failure nothing is stored, the save alert is shown and the station is IDLE |
| Station.PackingStation.OnRecorderStop | components/PackingStation.tsx:126-129 | the recorder's stop event saves the chunks' blob with the id, duration and analysis the handler closed over at start |
| Station.PackingStation.OnRecorderStopLive | components/PackingStation.tsx:126-129 | the corrected stop event saves the duration counted in the session and schedules a patch that reads the analysis when it fires |
| Station.PackingStation.FirePatch | components/PackingStation.tsx:187-192 | the oldest patch firing sets the note of the record with the greatest key when its analysis is non-empty; nothing else in the table changes |
| Station.PackingStation.ResetStation | components/PackingStation.tsx:205-212 | reset is the reset step and keeps the invariant |
| Dashboard.Matching | components/Dashboard.tsx:14-16 | a record is kept exactly when its lower-cased order id includes the lower-cased term, as many times as it occurs in the list; never more records than given |
| Dashboard.FilteredRecords | components/Dashboard.tsx:14-16 | the filtered list is missing exactly while the list is missing |
| Dashboard.MatchingIsSubsequence | components/Dashboard.tsx:14-16 | filtering only drops records and keeps the rest in order |
| Dashboard.FilterKeepsNewestFirst | components/Dashboard.tsx:8-16 | filtering a newest-first list gives a newest-first list |
| Dashboard.EmptySearchKeepsAll | components/Dashboard.tsx:14-16 | an empty search keeps every record |
| Dashboard.TotalPacks | components/Dashboard.tsx:72 | "Total Packs" is 0 exactly when the list is missing or empty, and otherwise the number of records an empty search shows |
| Dashboard.WithNote | components/Dashboard.tsx:81 | the analysed records are exactly those with a non-empty note, each as many times as it occurs in the list |
| Dashboard.AnalyzedPacks | components/Dashboard.tsx:81 | "AI Analyzed" is the number of positions in the list that hold a record with a non-empty note, and never exceeds "Total Packs" |
| Dashboard.AnalyzedAtMostTotal | components/Dashboard.tsx:72-81 | the "AI Analyzed" figure never exceeds "Total Packs" and equals it exactly when every record has a note |
| Dashboard.LatestPack | components/Dashboard.tsx:91-93 | "Latest Pack" has a value exactly when the list is there and non-empty |
| Dashboard.LatestIsNewest | components/Dashboard.tsx:8-93 | on a newest-first list "Latest Pack" is the greatest timestamp |
| Dashboard.OrderIdOfDownloadName | components/Dashboard.tsx:30 | a name read back as an order id is the download name of that id |
| Dashboard.DownloadNameRoundTrip | components/Dashboard.tsx:30 | every download name `order-<id>.webm` gives back its order id |
| Dashboard.DownloadVideo | components/Dashboard.tsx:26-35 | a download happens exactly with an object URL and a selected record; it uses that URL and a name that reads back as the record's order id |

## Left out

- Console logging: the warnings and errors written to the console when a
  camera attempt, a frame capture, a save or an upload fails.
- Rendering, layout, icons and navigation between the two screens.
- Browser media and DOM APIs: `getUserMedia`, `MediaRecorder` and its
  codec check, canvas capture, `Blob`, object URLs, anchor clicks,
  `alert` and the clipboard. Their outcomes are method inputs and their
  effects are outputs.
- The recorder's mime type and bitrate options, and an exception from the
  `MediaRecorder` constructor.
- The analysis service. Its result is an opaque string that arrives as an
  event.
- Wall-clock timing: the one-second interval, the two-second patch delay,
  the refocus timers and the focus poll are discrete events. `Date.now` is
  a parameter. The duration display format is not modelled.
- The order in which the analysis, the save and the patch timer settle.
  The patch is an explicit event that takes the state at the time it fires.
- The database engine, `useLiveQuery`, and the history list's
  `orderBy('timestamp').reverse()`. The list is an input, and its
  newest-first order is a hypothesis of the lemmas that need it.
- The S3 SDK's `send` (its outcome is an input) and how the environment
  variables are discovered (they are an `Env` value).
- The cloud/UPLOADING path in the station. The station never enters
  UPLOADING and never calls the upload service.
- The history view's `copyLink` and its two-second `copiedId` reset, and
  the selected-record effect that creates and revokes the object URL.
- Text.Lower: models `toLowerCase` on ASCII letters only; Unicode case
  mapping is not modelled.
- Station.PackingStation.StartRecording: requires IDLE and a non-empty id.
  Its only caller, the key handler, starts only from IDLE with a non-empty
  trimmed scan.
- Station.PackingStation.SaveRecord: requires PROCESSING. Its only caller
  is the recorder's stop event, which follows a stop.
- Station.PackingStation.ResetStation: requires COMPLETED. Its only caller
  is the "Pack Next Order" button, which is shown only on the COMPLETED
  screen.
- Station.PackingStation.StartCamera: stopping a stream's tracks is
  reported as a flag. The srcObject keeps pointing at the stopped stream
  until a new one is attached or the element unmounts.

## Findings

| source | as written | input that shows it | evidently intended | confidence | as-written member | corrected member |
|---|---|---|---|---|---|---|
| components/PackingStation.tsx:126-137 | `onstop` saves the `duration` captured when the memoised `startRecording` was created; its deps are `[duration]`, so this is the value before the session, which is 0 after mount or reset | Start "ORD-1" on a freshly mounted station, three ticks, scan "ORD-1": the record is saved with duration 0 | the saved duration is the number of seconds counted in the session (3) | high, not executed | Station.StaleDurationOnFreshStation | Station.PackingStation.OnRecorderStopLive |
| components/PackingStation.tsx:187-192 | the patch timer reads the `lastAnalysis` of the render that created `startRecording`, which is null on a fresh station, so the analysis is never written | Start "ORD-1" on a freshly mounted station, three ticks, scan "ORD-1", analysis "Intact" arrives, patch fires: the record keeps "Processing..." | the patch writes the analysis that has arrived ("Intact") | high, not executed | Station.StalePatchOnFreshStation | Station.PackingStation.FirePatch |
