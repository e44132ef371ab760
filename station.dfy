/** The packing-station session controller: a small state machine over
    `RecorderState`, driven by barcode scans, timer ticks and media events.

    `Snapshot` holds the component's state (its React state, its refs and
    the closure copy held by the memoised `startRecording`); each event has
    a pure step function on snapshots, and the `PackingStation` class runs
    the handlers on its fields, each proved to agree with its step. */
module Station {
  import opened Types
  import opened Text
  import Store

  /** The two values `cameraError` takes besides `null`. */
  datatype CameraError = PermissionDenied | GenericError

  /** A `getUserMedia` constraint profile. */
  datatype Constraints = Constraints(idealWidth: Option<nat>, idealHeight: Option<nat>, audio: bool)

  /** The profiles tried, in order: HD with audio, default with audio,
      video only. */
  const Attempts: seq<Constraints> := [
    Constraints(Some(1280), Some(720), true),
    Constraints(None, None, true),
    Constraints(None, None, false)]

  /** What one camera attempt came to: a stream attached to the mounted
      video element; a stream obtained while no element was mounted; a
      `NotAllowedError`/`PermissionDeniedError`; any other failure. */
  datatype AttemptOutcome = Attached | Unattached | Denied | Failed

  /** Outcomes that end the fallback loop. */
  predicate Decisive(o: AttemptOutcome) {
    o == Attached || o == Denied
  }

  datatype CameraResult = CameraReady | CameraFailed(error: CameraError)

  /** The result of running the fallback over `outcomes`, one per profile. */
  function CameraResultOf(outcomes: seq<AttemptOutcome>): CameraResult {
    if outcomes == [] then CameraFailed(GenericError)
    else if outcomes[0] == Attached then CameraReady
    else if outcomes[0] == Denied then CameraFailed(PermissionDenied)
    else CameraResultOf(outcomes[1..])
  }

  /** How many profiles the fallback tries: up to and including the first
      decisive outcome, or all of them. */
  function TriedCount(outcomes: seq<AttemptOutcome>): (n: nat)
    ensures n <= |outcomes|
    ensures outcomes != [] ==> 1 <= n
    ensures forall j :: 0 <= j < n - 1 ==> !Decisive(outcomes[j])
    ensures n < |outcomes| ==> Decisive(outcomes[n - 1])
  {
    if outcomes == [] then 0
    else if Decisive(outcomes[0]) then 1
    else 1 + TriedCount(outcomes[1..])
  }

  /** The fallback ends ready exactly when the last profile tried was
      attached, with a permission error exactly when it was denied, and
      with a generic error exactly when no attempt was decisive. */
  lemma {:induction false} CameraResultCharacterised(o: seq<AttemptOutcome>)
    ensures CameraResultOf(o) == CameraReady <==> 0 < TriedCount(o) && o[TriedCount(o) - 1] == Attached
    ensures CameraResultOf(o) == CameraFailed(PermissionDenied) <==> 0 < TriedCount(o) && o[TriedCount(o) - 1] == Denied
    ensures CameraResultOf(o) == CameraFailed(GenericError) <==> forall j :: 0 <= j < |o| ==> !Decisive(o[j])
  {
    if o != [] && !Decisive(o[0]) {
      CameraResultCharacterised(o[1..]);
      assert TriedCount(o) == 1 + TriedCount(o[1..]);
      assert forall j :: 1 <= j < |o| ==> o[j] == o[1..][j - 1];
      if forall j :: 0 <= j < |o[1..]| ==> !Decisive(o[1..][j]) {
        assert forall j :: 0 <= j < |o| ==> !Decisive(o[j]);
      }
    }
  }

  /** Dropping a non-decisive first outcome: one step of the loop. */
  lemma CameraStep(o: seq<AttemptOutcome>, i: nat)
    requires i < |o| && !Decisive(o[i])
    ensures CameraResultOf(o[i..]) == CameraResultOf(o[i + 1..])
    ensures TriedCount(o[i..]) == 1 + TriedCount(o[i + 1..])
  {
    assert o[i..][1..] == o[i + 1..];
  }

  /** The values `onstop` closes over: the scanned id, and the `duration`
      and `lastAnalysis` of the render that created `startRecording`. */
  datatype StopClosure = StopClosure(orderId: string, duration: nat, analysis: Option<string>)

  /** The analysis the delayed patch writes: a closure copy, or the state
      as it is when the timer fires. */
  datatype PatchNote = Captured(analysis: Option<string>) | Live

  /** The station's state.
      - `onStop`: the stop handler of the current recorder.
      - `pendingStop`: the handler of a stopped recorder whose `stop`
        event has not yet been delivered.
      - `recorderActive`: a recorder exists and is not `inactive`.
      - `streamAvailable`: the mounted video element has a stream.
      - `memoAnalysis`: the `lastAnalysis` seen by the memoised
        `startRecording`, refreshed whenever `duration` changes.
      - `patches`: pending delayed analysis patches, oldest first. */
  datatype Snapshot = Snapshot(
    state: RecorderState,
    activeOrderId: Option<string>,
    inputValue: string,
    duration: nat,
    lastAnalysis: Option<string>,
    cameraError: Option<CameraError>,
    chunks: seq<Chunk>,
    streamAvailable: bool,
    recorderActive: bool,
    onStop: Option<StopClosure>,
    pendingStop: Option<StopClosure>,
    memoAnalysis: Option<string>,
    patches: seq<PatchNote>)

  /** The state on mount, before the camera starts. */
  function Initial(): Snapshot {
    Snapshot(Idle, None, "", 0, None, None, [], false, false, None, None, None, [])
  }

  /** What the station keeps true in every reachable state. */
  predicate Inv(s: Snapshot) {
    && s.state != Uploading
    && (s.recorderActive <==> s.state == Recording)
    && (s.pendingStop.Some? <==> s.state == Processing)
    && (s.state == Recording ==>
          && s.activeOrderId.Some? && s.activeOrderId.value != ""
          && s.onStop.Some? && s.onStop.value.orderId == s.activeOrderId.value)
    && (s.cameraError.Some? ==> !s.streamAvailable)
    && (forall i :: 0 <= i < |s.chunks| ==> |s.chunks[i]| > 0)
  }

  /** The edges of the state machine; UPLOADING has none. */
  predicate Forward(a: RecorderState, b: RecorderState) {
    || a == b
    || (a == Idle && b == Recording)
    || (a == Recording && b == Processing)
    || (a == Processing && (b == Completed || b == Idle))
    || (a == Completed && b == Idle)
  }

  /** The input is disabled while processing, uploading or completed. */
  predicate InputDisabled(state: RecorderState) {
    state == Processing || state == Uploading || state == Completed
  }

  // ---------------------------------------------------------------------
  // Alerts

  datatype Alert = CameraNotReady | IncorrectBarcode(expected: Option<string>, scanned: string) | SaveFailed

  /** A nullable string inside a template literal. */
  function RenderNullable(v: Option<string>): string {
    if v.Some? then v.value else "null"
  }

  function AlertText(a: Alert): string {
    match a
    case CameraNotReady => "Camera not ready! Please resolve camera errors first."
    case IncorrectBarcode(expected, scanned) =>
      "Incorrect closing barcode. \nExpected: " + RenderNullable(expected) + "\nScanned: " + scanned
    case SaveFailed => "Error saving recording."
  }

  /** The wrong-barcode alert shows both the expected and the scanned id. */
  lemma MismatchAlertNamesBoth(expected: string, scanned: string)
    ensures Includes(AlertText(IncorrectBarcode(Some(expected), scanned)), expected)
    ensures Includes(AlertText(IncorrectBarcode(Some(expected), scanned)), scanned)
  {
    var head := "Incorrect closing barcode. \nExpected: ";
    var text := AlertText(IncorrectBarcode(Some(expected), scanned));
    assert text == head + expected + ("\nScanned: " + scanned);
    IncludesConcat(head, expected, "\nScanned: " + scanned);
    assert text == (head + expected + "\nScanned: ") + scanned + "";
    IncludesConcat(head + expected + "\nScanned: ", scanned, "");
  }

  // ---------------------------------------------------------------------
  // Barcode interpreter

  datatype Action = Ignore | StartSession(id: string) | StopSession | RejectScan(expected: Option<string>, scanned: string)

  /** The decision `handleInputKeyDown` makes on Enter, from the state, the
      active order id and the input. */
  function Decide(state: RecorderState, active: Option<string>, input: string): (a: Action)
    ensures a != Ignore ==> Trim(input) != ""
    ensures a.StartSession? <==> state == Idle && Trim(input) != ""
    ensures a.StartSession? ==> a.id == Trim(input)
    ensures a == StopSession <==> state == Recording && Trim(input) != "" && active == Some(Trim(input))
    ensures a.RejectScan? <==> state == Recording && Trim(input) != "" && active != Some(Trim(input))
    ensures a.RejectScan? ==> a.expected == active && a.scanned == Trim(input)
  {
    var scanned := Trim(input);
    if scanned == "" then Ignore
    else if state == Idle then StartSession(scanned)
    else if state == Recording then
      (if active == Some(scanned) then StopSession else RejectScan(active, scanned))
    else Ignore
  }

  /** The barcode that starts a session stops it when scanned again, as
      scanned or as stored. */
  lemma SameBarcodeStops(active: Option<string>, x: string)
    requires Trim(x) != ""
    ensures Decide(Idle, active, x) == StartSession(Trim(x))
    ensures Decide(Recording, Some(Trim(x)), x) == StopSession
    ensures Decide(Recording, Some(Trim(x)), Trim(x)) == StopSession
  {
    TrimIdempotent(x);
  }

  /** A handler's effect: the next state, the alert shown, and whether a
      frame was sent for analysis. */
  datatype Outcome = Outcome(next: Snapshot, alert: Option<Alert>, analysisRequested: bool)

  /** `startRecording(id)`. */
  function AfterStart(s: Snapshot, id: string): (o: Outcome)
    ensures !s.streamAvailable ==> o == Outcome(s, Some(CameraNotReady), false)
    ensures s.streamAvailable ==>
      && o.alert == None && o.next.state == Recording && o.next.recorderActive
      && o.next.activeOrderId == Some(id) && o.next.duration == 0 && o.next.chunks == []
      && o.next.onStop == Some(StopClosure(id, s.duration, s.memoAnalysis))
  {
    if !s.streamAvailable then Outcome(s, Some(CameraNotReady), false)
    else
      var started := s.(
        recorderActive := true,
        chunks := [],
        onStop := Some(StopClosure(id, s.duration, s.memoAnalysis)),
        activeOrderId := Some(id),
        state := Recording,
        duration := 0,
        memoAnalysis := if s.duration != 0 then s.lastAnalysis else s.memoAnalysis);
      Outcome(started, None, false)
  }

  /** `stopRecording()`: only a live recorder is stopped; the frame goes to
      analysis when the video element is mounted and the capture works. */
  function AfterStop(s: Snapshot, frameCaptured: bool): (o: Outcome)
    ensures !s.recorderActive ==> o == Outcome(s, None, false)
    ensures s.recorderActive ==>
      && o.next == s.(recorderActive := false, state := Processing, pendingStop := s.onStop)
      && o.alert == None
      && o.analysisRequested == (s.cameraError.None? && frameCaptured)
  {
    if !s.recorderActive then Outcome(s, None, false)
    else
      Outcome(s.(recorderActive := false, state := Processing, pendingStop := s.onStop),
              None, s.cameraError.None? && frameCaptured)
  }

  /** `handleInputKeyDown`. */
  function KeyDown(s: Snapshot, key: string, frameCaptured: bool): (o: Outcome)
    ensures key != "Enter" || Trim(s.inputValue) == "" || InputDisabled(s.state) ==> o == Outcome(s, None, false)
    ensures key == "Enter" && Trim(s.inputValue) != "" && !InputDisabled(s.state) ==> o.next.inputValue == ""
    ensures o.next.state != s.state ==> key == "Enter" && Trim(s.inputValue) != ""
    ensures key == "Enter" && s.state == Idle && Trim(s.inputValue) != "" ==>
      if s.streamAvailable then
        o.alert == None && o.next.state == Recording && o.next.activeOrderId == Some(Trim(s.inputValue))
        && o.next.duration == 0 && o.next.chunks == []
      else
        o.next == s.(inputValue := "") && o.alert == Some(CameraNotReady)
    ensures key == "Enter" && s.state == Recording && Trim(s.inputValue) != "" && s.activeOrderId != Some(Trim(s.inputValue)) ==>
      o.next == s.(inputValue := "") && o.alert == Some(IncorrectBarcode(s.activeOrderId, Trim(s.inputValue)))
    ensures key == "Enter" && s.state == Recording && s.recorderActive && Trim(s.inputValue) != "" && s.activeOrderId == Some(Trim(s.inputValue)) ==>
      o.next.state == Processing && o.next.activeOrderId == s.activeOrderId && o.alert == None
      && o.next.pendingStop == s.onStop
  {
    if key != "Enter" then Outcome(s, None, false)
    else match Decide(s.state, s.activeOrderId, s.inputValue)
      case Ignore => Outcome(s, None, false)
      case StartSession(id) =>
        var o := AfterStart(s, id);
        o.(next := o.next.(inputValue := ""))
      case StopSession =>
        var o := AfterStop(s, frameCaptured);
        o.(next := o.next.(inputValue := ""))
      case RejectScan(expected, scanned) =>
        Outcome(s.(inputValue := ""), Some(IncorrectBarcode(expected, scanned)), false)
  }

  // ---------------------------------------------------------------------
  // Other events

  /** The input's `onChange`; it cannot fire while the input is disabled. */
  function AfterInput(s: Snapshot, v: string): Snapshot {
    if InputDisabled(s.state) then s else s.(inputValue := v)
  }

  /** One tick of the one-second interval, which runs only while recording.
      Each change of `duration` re-creates `startRecording`. */
  function AfterTick(s: Snapshot): (t: Snapshot)
    ensures t.duration == s.duration + (if s.state == Recording then 1 else 0)
    ensures t.(duration := s.duration, memoAnalysis := s.memoAnalysis) == s
    ensures Inv(s) ==> Inv(t)
  {
    if s.state == Recording then s.(duration := s.duration + 1, memoAnalysis := s.lastAnalysis) else s
  }

  function AfterTicks(s: Snapshot, n: nat): Snapshot
    decreases n
  {
    if n == 0 then s else AfterTicks(AfterTick(s), n - 1)
  }

  /** While recording, n ticks add exactly n to `duration` and change
      nothing else that is observable; in any other state they do nothing. */
  lemma {:induction false} TicksAccumulate(s: Snapshot, n: nat)
    ensures s.state == Recording ==>
      AfterTicks(s, n) == s.(duration := s.duration + n,
                             memoAnalysis := if n == 0 then s.memoAnalysis else s.lastAnalysis)
    ensures s.state != Recording ==> AfterTicks(s, n) == s
    decreases n
  {
    if n > 0 {
      TicksAccumulate(AfterTick(s), n - 1);
    }
  }

  /** `ondataavailable`: only non-empty chunks are kept, at the end. */
  function AfterData(s: Snapshot, c: Chunk): (t: Snapshot)
    ensures t.(chunks := s.chunks) == s
    ensures |c| > 0 ==> t.chunks == s.chunks + [c]
    ensures |c| == 0 ==> t.chunks == s.chunks
    ensures Inv(s) ==> Inv(t)
  {
    if |c| > 0 then
      assert forall i :: 0 <= i < |s.chunks| ==> (s.chunks + [c])[i] == s.chunks[i];
      s.(chunks := s.chunks + [c])
    else s
  }

  function AfterDataAll(s: Snapshot, cs: seq<Chunk>): Snapshot
    decreases |cs|
  {
    if cs == [] then s else AfterDataAll(AfterData(s, cs[0]), cs[1..])
  }

  /** The non-empty chunks of `cs`, in order. */
  function NonEmpty(cs: seq<Chunk>): (r: seq<Chunk>)
    ensures |r| <= |cs|
    ensures forall i :: 0 <= i < |r| ==> |r[i]| > 0
  {
    if cs == [] then [] else (if |cs[0]| > 0 then [cs[0]] else []) + NonEmpty(cs[1..])
  }

  /** A run of deliveries appends exactly the non-empty chunks, in arrival
      order, and touches nothing else. */
  lemma {:induction false} ChunksKeepArrivalOrder(s: Snapshot, cs: seq<Chunk>)
    ensures AfterDataAll(s, cs) == s.(chunks := s.chunks + NonEmpty(cs))
    decreases |cs|
  {
    if cs == [] {
      assert s.chunks + [] == s.chunks;
    } else {
      var head := if |cs[0]| > 0 then [cs[0]] else [];
      var t := AfterData(s, cs[0]);
      assert t == s.(chunks := s.chunks + head);
      ChunksKeepArrivalOrder(t, cs[1..]);
      assert NonEmpty(cs) == head + NonEmpty(cs[1..]);
      assert s.chunks + head + NonEmpty(cs[1..]) == s.chunks + (head + NonEmpty(cs[1..]));
    }
  }

  /** The analysis result arriving (`setLastAnalysis`). */
  function AfterAnalysis(s: Snapshot, text: string): Snapshot {
    s.(lastAnalysis := Some(text))
  }

  /** `startCamera` as a whole. */
  function AfterCamera(s: Snapshot, outcomes: seq<AttemptOutcome>): (t: Snapshot)
    ensures t.streamAvailable <==> t.cameraError.None?
    ensures t.streamAvailable <==> CameraResultOf(outcomes) == CameraReady
    ensures t.(cameraError := s.cameraError, streamAvailable := s.streamAvailable) == s
    ensures Inv(s) ==> Inv(t)
  {
    match CameraResultOf(outcomes)
    case CameraReady => s.(cameraError := None, streamAvailable := true)
    case CameraFailed(e) => s.(cameraError := Some(e), streamAvailable := false)
  }

  /** `saveRecord`'s effect on the station: COMPLETED with a patch
      scheduled, or back to IDLE. */
  function AfterSave(s: Snapshot, succeeded: bool, note: PatchNote): (t: Snapshot)
    ensures t.pendingStop.None? && t.state == (if succeeded then Completed else Idle)
    ensures t.patches == s.patches + (if succeeded then [note] else [])
    ensures t.(pendingStop := s.pendingStop, state := s.state, patches := s.patches) == s
    ensures Inv(s) && s.state == Processing ==> Inv(t) && Forward(s.state, t.state)
  {
    if succeeded then s.(pendingStop := None, state := Completed, patches := s.patches + [note])
    else s.(pendingStop := None, state := Idle)
  }

  /** The patch the stop handler schedules: the closure copy as written,
      or the live value. */
  function NoteFromStop(c: StopClosure, live: bool): PatchNote {
    if live then Live else Captured(c.analysis)
  }

  /** The recorder's `stop` event. */
  function AfterRecorderStop(s: Snapshot, succeeded: bool, live: bool): Snapshot {
    if s.pendingStop.None? then s
    else AfterSave(s, succeeded, NoteFromStop(s.pendingStop.value, live))
  }

  /** The oldest delayed patch firing. */
  function AfterPatch(s: Snapshot): Snapshot {
    if s.patches == [] then s else s.(patches := s.patches[1..])
  }

  /** `resetStation`. */
  function Reset(s: Snapshot): (t: Snapshot)
    ensures t.state == Idle && t.inputValue == "" && t.activeOrderId == None
    ensures t.duration == 0 && t.lastAnalysis == None
  {
    s.(inputValue := "", activeOrderId := None, duration := 0, lastAnalysis := None, state := Idle,
       memoAnalysis := if s.duration != 0 then None else s.memoAnalysis)
  }

  /** Everything that can happen to the station: the interval, the input,
      the recorder and camera callbacks, the analysis and patch timers, and
      the two buttons. The "Stop (Or Scan)" button is shown only in
      RECORDING, the "Pack Next Order" button only in COMPLETED; in the
      other states the button shown is disabled. */
  datatype Event =
    | Tick
    | Typed(v: string)
    | Key(key: string, frameCaptured: bool)
    | Data(c: Chunk)
    | AnalysisArrived(text: string)
    | StopClicked(frameCaptured: bool)
    | PackNextOrder
    | CameraStarted(outcomes: seq<AttemptOutcome>)
    | RecorderStopped(succeeded: bool, live: bool)
    | PatchFired

  function Next(s: Snapshot, e: Event): Snapshot {
    match e
    case Tick => AfterTick(s)
    case Typed(v) => AfterInput(s, v)
    case Key(key, fc) => KeyDown(s, key, fc).next
    case Data(c) => AfterData(s, c)
    case AnalysisArrived(text) => AfterAnalysis(s, text)
    case StopClicked(fc) => if s.state == Recording then AfterStop(s, fc).next else s
    case PackNextOrder => if s.state == Completed then Reset(s) else s
    case CameraStarted(outcomes) => AfterCamera(s, outcomes)
    case RecorderStopped(ok, live) => AfterRecorderStop(s, ok, live)
    case PatchFired => AfterPatch(s)
  }

  /** Every event keeps the invariant and follows an edge of the state
      machine; in particular UPLOADING is never entered. */
  lemma NextPreservesInv(s: Snapshot, e: Event)
    requires Inv(s)
    ensures Inv(Next(s, e))
    ensures Forward(s.state, Next(s, e).state)
  {
  }

  /** A reachable state satisfies the invariant. */
  function Run(s: Snapshot, es: seq<Event>): Snapshot
    decreases |es|
  {
    if es == [] then s else Run(Next(s, es[0]), es[1..])
  }

  lemma {:induction false} RunPreservesInv(s: Snapshot, es: seq<Event>)
    requires Inv(s)
    ensures Inv(Run(s, es)) && Run(s, es).state != Uploading
    decreases |es|
  {
    if es != [] {
      NextPreservesInv(s, es[0]);
      RunPreservesInv(Next(s, es[0]), es[1..]);
    }
  }

  // ---------------------------------------------------------------------
  // The record a stop saves, and the delayed patch

  /** The record `saveRecord` adds, under the key the store assigns. */
  function SavedRecord(key: nat, id: string, now: int, blob: seq<byte>, finalDuration: nat): (r: PackingRecord)
    ensures r.id == key && r.orderId == id && r.timestamp == now
    ensures r.videoBlob == blob && r.duration == finalDuration && r.r2Key.None?
    ensures r.aiAnalysis == Some("Processing...") && !r.isFlagged
    ensures r.uploadStatus == Some(StatusCompleted) && r.publicUrl == Some("")
  {
    PackingRecord(key, id, now, blob, finalDuration, Some("Processing..."), false, Some(""), Some(StatusCompleted), None)
  }

  /** The record the pending stop saves: as written with the closure's
      duration, corrected (`live`) with the current counter. */
  function RecordFromStop(s: Snapshot, key: nat, now: int, live: bool): PackingRecord
    requires s.pendingStop.Some?
  {
    var c := s.pendingStop.value;
    SavedRecord(key, c.orderId, now, Concat(s.chunks), if live then s.duration else c.duration)
  }

  /** The analysis a patch writes, given the state when its timer fires. */
  function ResolveNote(note: PatchNote, current: Option<string>): Option<string> {
    match note
    case Captured(a) => a
    case Live => current
  }

  /** The delayed patch on the stored table: the record with the greatest
      key gets the note, when the note is non-empty. */
  function PatchedRecords(rs: seq<PackingRecord>, analysis: Option<string>): seq<PackingRecord> {
    if rs != [] && Truthy(analysis) then Store.WithAnalysis(rs, rs[|rs| - 1].id, analysis.value) else rs
  }

  /** The patch changes at most the newest record, and only its note. */
  lemma PatchTouchesOnlyNewest(rs: seq<PackingRecord>, analysis: Option<string>)
    requires Store.IdsAscending(rs)
    ensures |PatchedRecords(rs, analysis)| == |rs|
    ensures forall i :: 0 <= i < |rs| - 1 ==> PatchedRecords(rs, analysis)[i] == rs[i]
    ensures !Truthy(analysis) ==> PatchedRecords(rs, analysis) == rs
    ensures rs != [] && Truthy(analysis) ==>
      PatchedRecords(rs, analysis)[|rs| - 1] == rs[|rs| - 1].(aiAnalysis := analysis)
  {
    if rs != [] && Truthy(analysis) {
      forall i | 0 <= i < |rs| - 1
        ensures PatchedRecords(rs, analysis)[i] == rs[i]
      {
        assert rs[i].id < rs[|rs| - 1].id;
      }
    }
  }

  // ---------------------------------------------------------------------
  // One session from IDLE, and what the stop handler sees

  /** Type the id and press Enter, let n ticks pass, type the id again and
      press Enter. */
  function RunSession(s: Snapshot, id: string, n: nat, frameCaptured: bool): Snapshot {
    var started := KeyDown(AfterInput(s, id), "Enter", frameCaptured).next;
    KeyDown(AfterInput(AfterTicks(started, n), id), "Enter", frameCaptured).next
  }

  /** A session of n ticks ends in PROCESSING with the counter at n, while
      the stop handler holds the `duration` and the closure copy of
      `lastAnalysis` from before the session started. */
  lemma SessionDurationCountsTicks(s: Snapshot, id: string, n: nat, frameCaptured: bool)
    requires Inv(s) && s.state == Idle && s.streamAvailable && Trim(id) != ""
    ensures var t := RunSession(s, id, n, frameCaptured);
      && t.state == Processing && t.duration == n && t.activeOrderId == Some(Trim(id))
      && t.pendingStop == Some(StopClosure(Trim(id), s.duration, s.memoAnalysis))
      && RecordFromStop(t, 0, 0, true).duration == n
      && RecordFromStop(t, 0, 0, false).duration == s.duration
  {
    var started := KeyDown(AfterInput(s, id), "Enter", frameCaptured).next;
    assert started.state == Recording && started.duration == 0;
    TicksAccumulate(started, n);
  }

  /** The station on mount once the HD profile has been attached. */
  function Ready(): Snapshot {
    AfterCamera(Initial(), [Attached, Failed, Failed])
  }

  /** On a freshly mounted station, a session of n ticks is saved with
      duration 0 as written, while the live counter says n. */
  lemma StaleDurationOnFreshStation(id: string, n: nat, frameCaptured: bool)
    requires Trim(id) != ""
    ensures var t := RunSession(Ready(), id, n, frameCaptured);
      && t.pendingStop.Some?
      && RecordFromStop(t, 1, 0, false).duration == 0
      && RecordFromStop(t, 1, 0, true).duration == n
  {
    var s := Ready();
    assert Inv(s) && s.state == Idle && s.streamAvailable && s.duration == 0;
    SessionDurationCountsTicks(s, id, n, frameCaptured);
  }

  /** When the station starts a session with no analysis in its memoised
      closure, the patch scheduled as written carries null whatever
      analysis arrives later; the live patch carries that analysis. */
  lemma SessionPatchNote(s: Snapshot, id: string, n: nat, frameCaptured: bool, text: string)
    requires Inv(s) && s.state == Idle && s.streamAvailable && Trim(id) != "" && s.memoAnalysis == None
    ensures var t := RunSession(s, id, n, frameCaptured);
      && t.pendingStop.Some?
      && ResolveNote(NoteFromStop(t.pendingStop.value, false), AfterAnalysis(t, text).lastAnalysis) == None
      && ResolveNote(NoteFromStop(t.pendingStop.value, true), AfterAnalysis(t, text).lastAnalysis) == Some(text)
  {
    SessionDurationCountsTicks(s, id, n, frameCaptured);
  }

  /** On a freshly mounted station, when the analysis arrives before the
      patch fires, the patch as written leaves the saved record at
      "Processing..." (its closure copy is null); reading the live value
      writes the analysis. */
  lemma StalePatchOnFreshStation(id: string, n: nat, frameCaptured: bool, text: string)
    requires Trim(id) != "" && text != ""
    ensures var t := RunSession(Ready(), id, n, frameCaptured);
      && t.pendingStop.Some?
      && (var saved := [RecordFromStop(t, 1, 0, false)];
          var asWritten := ResolveNote(NoteFromStop(t.pendingStop.value, false), AfterAnalysis(t, text).lastAnalysis);
          var live := ResolveNote(NoteFromStop(t.pendingStop.value, true), AfterAnalysis(t, text).lastAnalysis);
          && PatchedRecords(saved, asWritten)[0].aiAnalysis == Some("Processing...")
          && PatchedRecords(saved, live)[0].aiAnalysis == Some(text))
  {
    var s := Ready();
    assert Inv(s) && s.state == Idle && s.streamAvailable && s.memoAnalysis == None;
    SessionPatchNote(s, id, n, frameCaptured, text);
    var t := RunSession(s, id, n, frameCaptured);
    var saved := [RecordFromStop(t, 1, 0, false)];
    PatchTouchesOnlyNewest(saved, None);
    PatchTouchesOnlyNewest(saved, Some(text));
  }

  // ---------------------------------------------------------------------
  // The component

  /** Where a download went: the blob and the file name. */
  datatype Download = Download(blob: seq<byte>, filename: string)

  /** The file name of the automatic download after a save. */
  function DownloadName(id: string): (name: string)
    ensures |name| == |id| + 11
    ensures name[..6] == "Order_" && name[6..6 + |id|] == id && name[|name| - 5..] == ".webm"
  {
    "Order_" + id + ".webm"
  }

  class PackingStation {
    var state: RecorderState
    var activeOrderId: Option<string>
    var inputValue: string
    var duration: nat
    var lastAnalysis: Option<string>
    var cameraError: Option<CameraError>
    var chunks: seq<Chunk>
    var streamAvailable: bool
    var recorderActive: bool
    var onStop: Option<StopClosure>
    var pendingStop: Option<StopClosure>
    var memoAnalysis: Option<string>
    var patches: seq<PatchNote>

    function View(): Snapshot
      reads this
    {
      Snapshot(state, activeOrderId, inputValue, duration, lastAnalysis, cameraError, chunks,
               streamAvailable, recorderActive, onStop, pendingStop, memoAnalysis, patches)
    }

    predicate Valid()
      reads this
    {
      Inv(View())
    }

    /** The mounted component, before `startCamera` runs. */
    constructor ()
      ensures Valid() && View() == Initial()
    {
      state := Idle;
      activeOrderId := None;
      inputValue := "";
      duration := 0;
      lastAnalysis := None;
      cameraError := None;
      chunks := [];
      streamAvailable := false;
      recorderActive := false;
      onStop := None;
      pendingStop := None;
      memoAnalysis := None;
      patches := [];
    }

    /** `startCamera`: clears the error, stops the tracks of any stream
        already shown, then tries the profiles in order; it stops at the
        first stream attached to the video element or at a permission
        error, and otherwise ends with a generic error. `outcomes[i]` is
        what trying `Attempts[i]` comes to. */
    method StartCamera(outcomes: seq<AttemptOutcome>) returns (tried: seq<Constraints>, stoppedPrevious: bool)
      requires Valid() && |outcomes| == |Attempts|
      modifies this
      ensures Valid()
      ensures View() == AfterCamera(old(View()), outcomes)
      ensures tried == Attempts[..TriedCount(outcomes)]
      ensures stoppedPrevious == old(streamAvailable)
    {
      cameraError := None;
      stoppedPrevious := streamAvailable;
      tried := [];
      var i := 0;
      while i < |Attempts|
        invariant 0 <= i <= |Attempts|
        invariant tried == Attempts[..i]
        invariant CameraResultOf(outcomes) == CameraResultOf(outcomes[i..])
        invariant TriedCount(outcomes) == i + TriedCount(outcomes[i..])
        invariant View() == old(View()).(cameraError := None)
      {
        tried := tried + [Attempts[i]];
        if outcomes[i] == Attached {
          streamAvailable := true;
          cameraError := None;
          return;
        } else if outcomes[i] == Denied {
          cameraError := Some(PermissionDenied);
          streamAvailable := false;
          return;
        }
        CameraStep(outcomes, i);
        i := i + 1;
      }
      cameraError := Some(GenericError);
      streamAvailable := false;
    }

    /** The interval callback. */
    method Tick()
      requires Valid()
      modifies this
      ensures Valid()
      ensures View() == AfterTick(old(View()))
    {
      if state == Recording {
        duration := duration + 1;
        memoAnalysis := lastAnalysis;
      }
    }

    /** The input's `onChange`. */
    method SetInput(v: string)
      requires Valid()
      modifies this
      ensures Valid()
      ensures View() == AfterInput(old(View()), v)
    {
      if !InputDisabled(state) {
        inputValue := v;
      }
    }

    /** `startRecording(id)`. */
    method StartRecording(id: string) returns (alert: Option<Alert>)
        requires Valid() && state == Idle && id != ""
      modifies this
      ensures Valid()
      ensures View() == AfterStart(old(View()), id).next
      ensures alert == AfterStart(old(View()), id).alert
    {
      if !streamAvailable {
        alert := Some(CameraNotReady);
        return;
      }
      recorderActive := true;
      chunks := [];
      onStop := Some(StopClosure(id, duration, memoAnalysis));
      activeOrderId := Some(id);
      state := Recording;
      if duration != 0 {
        memoAnalysis := lastAnalysis;
      }
      duration := 0;
      alert := None;
    }

    /** `stopRecording()`. */
    method StopRecording(frameCaptured: bool) returns (analysisRequested: bool)
      requires Valid()
      modifies this
      ensures Valid()
      ensures View() == AfterStop(old(View()), frameCaptured).next
      ensures analysisRequested == AfterStop(old(View()), frameCaptured).analysisRequested
    {
      analysisRequested := false;
      if recorderActive {
        recorderActive := false;
        state := Processing;
        pendingStop := onStop;
        analysisRequested := cameraError.None? && frameCaptured;
      }
    }

    /** `handleInputKeyDown`. */
    method HandleKeyDown(key: string, frameCaptured: bool) returns (alert: Option<Alert>, analysisRequested: bool)
      requires Valid()
      modifies this
      ensures Valid()
      ensures View() == KeyDown(old(View()), key, frameCaptured).next
      ensures alert == KeyDown(old(View()), key, frameCaptured).alert
      ensures analysisRequested == KeyDown(old(View()), key, frameCaptured).analysisRequested
    {
      alert, analysisRequested := None, false;
      if key != "Enter" {
        return;
      }
      var scanned := Trim(inputValue);
      if scanned == "" {
        return;
      }
      if state == Idle {
        alert := StartRecording(scanned);
        inputValue := "";
      } else if state == Recording {
        if activeOrderId == Some(scanned) {
          analysisRequested := StopRecording(frameCaptured);
          inputValue := "";
        } else {
          alert := Some(IncorrectBarcode(activeOrderId, scanned));
          inputValue := "";
        }
      }
    }

    /** `ondataavailable`. */
    method OnDataAvailable(c: Chunk)
      requires Valid()
      modifies this
      ensures Valid()
      ensures View() == AfterData(old(View()), c)
    {
      if |c| > 0 {
        chunks := chunks + [c];
      }
    }

    /** The analysis promise resolving. */
    method OnAnalysis(text: string)
      requires Valid()
      modifies this
      ensures Valid()
      ensures View() == AfterAnalysis(old(View()), text)
    {
      lastAnalysis := Some(text);
    }

    /** `saveRecord(blob, id, finalDuration)`: when the store accepts the
        record, exactly one record is added, a patch is scheduled, the
        blob is downloaded and the station is COMPLETED; otherwise nothing
        is stored, an alert is shown and the station is IDLE. The patch's
        analysis is a parameter. */
    method SaveRecord(store: Store.RecordStore, blob: seq<byte>, id: string, finalDuration: nat,
                      note: PatchNote, now: int, succeeded: bool)
      returns (alert: Option<Alert>, download: Option<Download>)
      requires Valid() && store.Valid() && state == Processing
      modifies this, store
      ensures Valid() && store.Valid()
      ensures View() == AfterSave(old(View()), succeeded, note)
      ensures succeeded ==>
        && store.records == old(store.records) + [SavedRecord(old(store.nextId), id, now, blob, finalDuration)]
        && store.nextId == old(store.nextId) + 1
        && alert == None && download == Some(Download(blob, DownloadName(id)))
      ensures !succeeded ==>
        && store.records == old(store.records) && store.nextId == old(store.nextId)
        && alert == Some(SaveFailed) && download == None
    {
      if succeeded {
        var key := store.Add(SavedRecord(0, id, now, blob, finalDuration));
        pendingStop := None;
        patches := patches + [note];
        download := Some(Download(blob, DownloadName(id)));
        state := Completed;
        alert := None;
      } else {
        alert := Some(SaveFailed);
        download := None;
        pendingStop := None;
        state := Idle;
      }
    }

    /** The recorder's `stop` event as written: the blob of the buffered
        chunks is saved with the id, `duration` and `lastAnalysis` copies
        the handler closed over when the session started. */
    method OnRecorderStop(store: Store.RecordStore, now: int, succeeded: bool)
      returns (alert: Option<Alert>, download: Option<Download>)
      requires Valid() && store.Valid()
      modifies this, store
      ensures Valid() && store.Valid()
      ensures View() == AfterRecorderStop(old(View()), succeeded, false)
      ensures old(pendingStop).Some? && succeeded ==>
        store.records == old(store.records) + [RecordFromStop(old(View()), old(store.nextId), now, false)]
      ensures old(pendingStop).None? || !succeeded ==> store.records == old(store.records)
    {
      alert, download := None, None;
      if pendingStop.None? {
        return;
      }
      var c := pendingStop.value;
      alert, download := SaveRecord(store, Concat(chunks), c.orderId, c.duration, Captured(c.analysis), now, succeeded);
    }

    /** The `stop` event with the live values: the current counter is saved
        and the patch reads `lastAnalysis` when its timer fires. */
    method OnRecorderStopLive(store: Store.RecordStore, now: int, succeeded: bool)
      returns (alert: Option<Alert>, download: Option<Download>)
      requires Valid() && store.Valid()
      modifies this, store
      ensures Valid() && store.Valid()
      ensures View() == AfterRecorderStop(old(View()), succeeded, true)
      ensures old(pendingStop).Some? && succeeded ==>
        && store.records == old(store.records) + [RecordFromStop(old(View()), old(store.nextId), now, true)]
        && store.records[|store.records| - 1].duration == old(duration)
      ensures old(pendingStop).None? || !succeeded ==> store.records == old(store.records)
    {
      alert, download := None, None;
      if pendingStop.None? {
        return;
      }
      var c := pendingStop.value;
      alert, download := SaveRecord(store, Concat(chunks), c.orderId, duration, Live, now, succeeded);
    }

    /** The oldest delayed patch firing: it looks up the record with the
        greatest key and, when the analysis is non-empty, sets its note. */
    method FirePatch(store: Store.RecordStore)
      requires Valid() && store.Valid()
      modifies this, store
      ensures Valid() && store.Valid()
      ensures View() == AfterPatch(old(View()))
      ensures store.nextId == old(store.nextId)
      ensures old(patches) == [] ==> store.records == old(store.records)
      ensures old(patches) != [] ==>
        store.records == PatchedRecords(old(store.records), ResolveNote(old(patches)[0], old(lastAnalysis)))
    {
      if patches == [] {
        return;
      }
      var analysis := ResolveNote(patches[0], lastAnalysis);
      patches := patches[1..];
      var last := store.LastById();
      if last.Some? && Truthy(analysis) {
        store.UpdateAnalysis(last.value.id, analysis.value);
        assert store.records == Store.WithAnalysis(old(store.records), last.value.id, analysis.value);
      }
    }

    /** `resetStation`, reached only from the COMPLETED screen's button. */
    method ResetStation()
      requires Valid() && state == Completed
      modifies this
      ensures Valid()
      ensures View() == Reset(old(View()))
    {
      inputValue := "";
      activeOrderId := None;
      if duration != 0 {
        memoAnalysis := None;
      }
      duration := 0;
      lastAnalysis := None;
      state := Idle;
    }
  }
}
