/**
 * The recording variant of the camera service (`tmp/camera_stream.js`). Like the live
 * service it cuts JPEG frames out of the camera output and sends each one to every
 * viewer, but it also keeps the latest frame for snapshots, appends every frame to an
 * `.mjpg` container while a recording is on, publishes a frame count to a file once a
 * second, and answers a small control API that takes snapshots and starts and stops
 * recordings. Stopping a recording hands the container to an encoder process, whose
 * exit deletes a container.
 */
module CameraRecorder {
  import opened Wrappers
  import opened JpegFraming
  import opened Multipart
  import opened Search
  import Decimal

  const FPS_REPORT_MS: nat := 1000
  const SNAP_DIR: string := "/opt/jarvis/snapshots"
  const REC_DIR: string := "/opt/jarvis/recordings"

  /** The snapshot file named after the clock reading `now`. */
  function SnapshotPath(now: nat): string {
    SNAP_DIR + "/" + Decimal.Format(now) + ".jpg"
  }

  /** The recording container named after the clock reading `now`. */
  function RecordingPath(now: nat): string {
    REC_DIR + "/" + Decimal.Format(now) + ".mjpg"
  }

  /** The encoder's output: the first `.mjpg` of the container path becomes `.mp4`. */
  function EncodedPath(raw: string): string {
    ReplaceFirst(raw, ".mjpg", ".mp4")
  }

  /**
   * Recordings taken at distinct milliseconds use distinct containers, and the encoder
   * writes next to the container, under the same timestamp, with the `.mp4` extension.
   */
  lemma RecordingPathInjective(m: nat, n: nat)
    requires m != n
    ensures RecordingPath(m) != RecordingPath(n)
  {
    var pre := REC_DIR + "/";
    var dm := Decimal.Format(m);
    var dn := Decimal.Format(n);
    if RecordingPath(m) == RecordingPath(n) {
      var a := RecordingPath(m);
      assert |dm| == |dn|;
      assert dm == a[|pre|..|pre| + |dm|];
      assert dn == a[|pre|..|pre| + |dn|];
      Decimal.FormatInjective(m, n);
    }
  }

  lemma EncodedRecordingPath(now: nat)
    ensures EncodedPath(RecordingPath(now)) == REC_DIR + "/" + Decimal.Format(now) + ".mp4"
  {
    var pre := REC_DIR + "/";
    var digits := Decimal.Format(now);
    var stem := pre + digits;
    var raw := RecordingPath(now);
    assert raw == stem + ".mjpg";
    assert raw[|stem|..|stem| + 5] == ".mjpg";
    assert '.' !in pre;
    forall i | 0 <= i < |stem|
      ensures raw[i] != '.'
    {
      if i < |pre| {
        assert raw[i] == pre[i];
        assert pre[i] in pre;
      } else {
        assert raw[i] == digits[i - |pre|];
        assert Decimal.IsDigit(digits[i - |pre|]);
      }
    }
    forall i | 0 <= i < |stem|
      ensures !OccursAt(raw, ".mjpg", i)
    {
      assert raw[i] != '.';
      if i + 5 <= |raw| {
        assert raw[i..i + 5][0] == raw[i];
      }
    }
    IndexOfFirst(raw, ".mjpg", |stem|);
    assert raw[..|stem|] == stem;
    assert raw[|stem| + 5..] == [];
  }

  /**
   * The frame-count publication state: `frameCount`, `lastFpsTime` and the contents
   * of the frame-rate file.
   */
  datatype FpsWindow = FpsWindow(frameCount: nat, lastFpsTime: nat, published: string)

  /**
   * The bookkeeping for one frame at time `now`: once a second has passed since the
   * last publication, the number of frames counted since then (this one included) is
   * written to the file as a decimal and a new window opens at `now`.
   */
  function Count(w: FpsWindow, now: nat): FpsWindow {
    var n := w.frameCount + 1;
    if now - w.lastFpsTime >= FPS_REPORT_MS then FpsWindow(0, now, Decimal.Format(n))
    else w.(frameCount := n)
  }

  /** `k` frames of one chunk; `clock(i)` is the reading taken for the `i`-th of them. */
  function CountN(w: FpsWindow, clock: nat -> nat, k: nat): FpsWindow {
    if k == 0 then w else Count(CountN(w, clock, k - 1), clock(k - 1))
  }

  /**
   * `k > 0` frames read within one millisecond: after a full second, the first frame
   * publishes the count of the closed window (itself included) and the other `k - 1`
   * open the next one; before it, the count only grows by `k`.
   */
  lemma {:induction false} CountNAfter(w: FpsWindow, clock: nat -> nat, k: nat, now: nat)
    requires k > 0
    requires forall i | 0 <= i < k :: clock(i) == now
    ensures now - w.lastFpsTime >= FPS_REPORT_MS ==>
      CountN(w, clock, k) == FpsWindow(k - 1, now, Decimal.Format(w.frameCount + 1))
    ensures now - w.lastFpsTime < FPS_REPORT_MS ==>
      CountN(w, clock, k) == w.(frameCount := w.frameCount + k)
  {
    if k > 1 {
      CountNAfter(w, clock, k - 1, now);
    }
  }

  /**
   * With a clock that does not run backwards, a counted frame leaves the window start
   * at or before its reading and less than a second behind it.
   */
  lemma {:induction false} CountNLag(w: FpsWindow, clock: nat -> nat, k: nat)
    requires k > 0
    requires forall i, j | 0 <= i <= j < k :: clock(i) <= clock(j)
    requires w.lastFpsTime <= clock(0)
    ensures w.lastFpsTime <= CountN(w, clock, k).lastFpsTime <= clock(k - 1)
    ensures clock(k - 1) < CountN(w, clock, k).lastFpsTime + FPS_REPORT_MS
  {
    if k > 1 {
      CountNLag(w, clock, k - 1);
    }
  }

  /** An open or ended write stream onto a container file, with the bytes written to it. */
  datatype RecordStream = RecordStream(path: string, written: seq<byte>, ended: bool)

  /** The stream after `bytes` are written to it, if recording is on and a stream is open. */
  function Recorded(rs: Option<RecordStream>, on: bool, bytes: seq<byte>): Option<RecordStream> {
    if on && rs.Some? then Some(rs.value.(written := rs.value.written + bytes)) else rs
  }

  lemma RecordedSnoc(rs: Option<RecordStream>, on: bool, frames: seq<seq<byte>>, frame: seq<byte>)
    ensures Recorded(Recorded(rs, on, Concat(frames)), on, frame) == Recorded(rs, on, Concat(frames + [frame]))
  {
    ConcatSnoc(frames, frame);
    if on && rs.Some? {
      AppendAssoc(rs.value.written, Concat(frames), frame);
    }
  }

  /** The frames of the current session after `frames` arrive, if recording is on. */
  function Session(session: seq<seq<byte>>, on: bool, frames: seq<seq<byte>>): seq<seq<byte>> {
    if on then session + frames else session
  }

  /** One more frame through the data handler, in terms of the frames before it. */
  lemma DrainStep(w0: seq<Write>, cs: seq<ClientId>, rs0: Option<RecordStream>, s0: seq<seq<byte>>, on: bool,
                  frames: seq<seq<byte>>, frame: seq<byte>)
    ensures w0 + BroadcastFrames(cs, frames) + BroadcastFrame(cs, frame) == w0 + BroadcastFrames(cs, frames + [frame])
    ensures Recorded(Recorded(rs0, on, Concat(frames)), on, frame) == Recorded(rs0, on, Concat(frames + [frame]))
    ensures Session(Session(s0, on, frames), on, [frame]) == Session(s0, on, frames + [frame])
  {
    BroadcastFramesSnoc(cs, frames, frame);
    AppendAssoc(w0, BroadcastFrames(cs, frames), BroadcastFrame(cs, frame));
    RecordedSnoc(rs0, on, frames, frame);
    AppendAssoc(s0, frames, [frame]);
  }

  /** The latest frame after `frames` have been seen, starting from `prev`. */
  function Latest(prev: Option<seq<byte>>, frames: seq<seq<byte>>): Option<seq<byte>> {
    if frames == [] then prev else Some(frames[|frames| - 1])
  }

  /** A running encoder process: the container it reads and the file it writes. */
  datatype EncodeJob = EncodeJob(input: string, output: string)

  /** The control API's answer: status code and body. */
  datatype ControlReply = ControlReply(status: nat, body: string)

  const OK_REPLY := ControlReply(200, "OK")
  const NOT_FOUND_REPLY := ControlReply(404, "Not found")

  class RecorderService {
    var clients: seq<ClientId>
    var nextClient: ClientId
    var buffer: seq<byte>
    var lastFrame: Option<seq<byte>>
    var frameCount: nat
    var lastFpsTime: nat
    /** The contents of the frame-rate file. */
    var fpsFile: string
    var recording: bool
    var recordStream: Option<RecordStream>
    var currentRecFile: Option<string>
    /** The contents of the recording-state file: `"1"` while recording, else `"0"`. */
    var recStateFile: string
    /** The recording containers present on disk. */
    var rawFiles: set<string>
    /** The snapshot files written, by path. */
    var snapshots: map<string, seq<byte>>
    /** The encoder processes started and not yet exited, oldest first. */
    var encoders: seq<EncodeJob>
    /** Everything written to viewers, in order. */
    var writes: seq<Write>
    /** The frames extracted since the current recording started. */
    ghost var sessionFrames: seq<seq<byte>>

    /**
     * The state file mirrors `recording`; the stream and the current container name
     * are set together; a recording in progress has an open stream holding exactly
     * the frames extracted since it started; the latest frame is a complete JPEG.
     */
    ghost predicate Valid()
      reads this`clients, this`nextClient, this`recStateFile, this`recording, this`recordStream
      reads this`currentRecFile, this`sessionFrames, this`encoders, this`lastFrame
    {
      && Distinct(clients) && (forall c | c in clients :: c < nextClient)
      && recStateFile == (if recording then "1" else "0")
      && (recordStream.Some? <==> currentRecFile.Some?)
      && (recordStream.Some? ==> currentRecFile == Some(recordStream.value.path))
      && (recording ==> recordStream.Some? && !recordStream.value.ended)
      && (recording ==> recordStream.value.written == Concat(sessionFrames))
      && (!recording && recordStream.Some? ==> recordStream.value.ended)
      && (encoders != [] ==> currentRecFile.Some?)
      && (lastFrame.Some? ==> IsFrame(lastFrame.value))
    }

    function Window(): FpsWindow
      reads this
    {
      FpsWindow(frameCount, lastFpsTime, fpsFile)
    }

    /** Start-up: both status files hold `"0"` and the window opens at `now`. */
    constructor (now: nat)
      ensures Valid()
      ensures clients == [] && buffer == [] && lastFrame == None && writes == []
      ensures Window() == FpsWindow(0, now, "0")
      ensures !recording && recStateFile == "0" && recordStream == None && currentRecFile == None
      ensures rawFiles == {} && snapshots == map[] && encoders == []
    {
      clients, nextClient, buffer, lastFrame := [], 0, [], None;
      frameCount, lastFpsTime, fpsFile := 0, now, "0";
      recording, recordStream, currentRecFile, recStateFile := false, None, None, "0";
      rawFiles, snapshots, encoders := {}, map[], [];
      writes := [];
      sessionFrames := [];
    }

    /** Any request to the stream port opens the multipart stream and joins the list. */
    method Request() returns (c: ClientId)
      requires Valid()
      modifies this`clients, this`nextClient, this`writes
      ensures Valid()
      ensures c !in old(clients) && clients == old(clients) + [c]
      ensures writes == old(writes) + [Write(c, Head(STREAM_CONTENT_TYPE))]
    {
      c := nextClient;
      assert c !in clients;
      nextClient := nextClient + 1;
      writes := writes + [Write(c, Head(STREAM_CONTENT_TYPE))];
      clients := clients + [c];
    }

    /** The viewer's request closed: exactly that response leaves the list. */
    method Close(c: ClientId)
      requires Valid()
      modifies this`clients
      ensures Valid()
      ensures clients == Without(old(clients), c)
    {
      WithoutDistinct(clients, c);
      clients := Without(clients, c);
    }

    /**
     * The camera's `data` handler: every frame of `Extract(buffer + chunk)` becomes the
     * latest frame, is counted, is appended to the container while recording, and is
     * sent to every viewer; the buffer keeps the unparsed rest. `clock(i)` is the
     * `Date.now()` reading taken for the `i`-th frame of the event.
     */
    method OnData(chunk: seq<byte>, clock: nat -> nat)
      requires Valid()
      modifies this`buffer, this`lastFrame, this`frameCount, this`lastFpsTime, this`fpsFile
      modifies this`recordStream, this`sessionFrames, this`writes
      ensures Valid()
      ensures
        var ex := Extract(old(buffer) + chunk);
        && buffer == ex.rest
        && lastFrame == Latest(old(lastFrame), ex.frames)
        && Window() == CountN(old(Window()), clock, |ex.frames|)
        && recordStream == Recorded(old(recordStream), recording, Concat(ex.frames))
        && sessionFrames == Session(old(sessionFrames), recording, ex.frames)
        && writes == old(writes) + BroadcastFrames(clients, ex.frames)
    {
      buffer := DrainFrames(buffer + chunk, clock);
    }

    /** The `while (true)` loop of the data handler, over the buffer `buf`; `rest` is what it leaves. */
    method DrainFrames(buf: seq<byte>, clock: nat -> nat) returns (rest: seq<byte>)
      requires Valid()
      modifies this`lastFrame, this`frameCount, this`lastFpsTime, this`fpsFile
      modifies this`recordStream, this`sessionFrames, this`writes
      ensures Valid()
      ensures
        var ex := Extract(buf);
        && rest == ex.rest
        && lastFrame == Latest(old(lastFrame), ex.frames)
        && Window() == CountN(old(Window()), clock, |ex.frames|)
        && recordStream == Recorded(old(recordStream), recording, Concat(ex.frames))
        && sessionFrames == Session(old(sessionFrames), recording, ex.frames)
        && writes == old(writes) + BroadcastFrames(clients, ex.frames)
    {
      ghost var emitted: seq<seq<byte>> := [];
      var n := 0;
      rest := buf;
      assert emitted + Extract(rest).frames == Extract(rest).frames;
      if recordStream.Some? {
        assert recordStream.value.written + Concat(emitted) == recordStream.value.written;
      }
      while true
        invariant Valid()
        invariant n == |emitted|
        invariant Extract(buf).frames == emitted + Extract(rest).frames
        invariant Extract(buf).rest == Extract(rest).rest
        invariant lastFrame == Latest(old(lastFrame), emitted)
        invariant Window() == CountN(old(Window()), clock, |emitted|)
        invariant recordStream == Recorded(old(recordStream), recording, Concat(emitted))
        invariant sessionFrames == Session(old(sessionFrames), recording, emitted)
        invariant writes == old(writes) + BroadcastFrames(clients, emitted)
        decreases |rest|
      {
        var start := IndexOf(rest, SOI, 0);
        var end := IndexOf(rest, EOI, start + 2);
        if start == -1 || end == -1 {
          ExtractLoopExit(rest, start, end);
          assert emitted + [] == emitted;
          break;
        }
        ExtractLoopStep(rest, start, end);
        var frame := rest[start..end + 2];
        rest := rest[end + 2..];
        Deliver(frame, clock(n));
        AppendAssoc(emitted, [frame], Extract(rest).frames);
        DrainStep(old(writes), clients, old(recordStream), old(sessionFrames), recording, emitted, frame);
        emitted := emitted + [frame];
        n := n + 1;
      }
    }

    /** Everything done with one extracted frame, in the handler's order. */
    method Deliver(frame: seq<byte>, now: nat)
      requires Valid() && IsFrame(frame)
      modifies this`lastFrame, this`frameCount, this`lastFpsTime, this`fpsFile
      modifies this`recordStream, this`sessionFrames, this`writes
      ensures Valid()
      ensures lastFrame == Some(frame)
      ensures Window() == Count(old(Window()), now)
      ensures recordStream == Recorded(old(recordStream), recording, frame)
      ensures sessionFrames == Session(old(sessionFrames), recording, [frame])
      ensures writes == old(writes) + BroadcastFrame(clients, frame)
    {
      KeepFrame(frame);
      CountFrame(now);
      RecordFrame(frame);
      SendFrame(frame);
    }

    /** The frame goes to every viewer, in list order. */
    method SendFrame(frame: seq<byte>)
      requires Valid()
      modifies this`writes
      ensures Valid()
      ensures writes == old(writes) + BroadcastFrame(clients, frame)
    {
      var ws := Broadcast(clients, frame);
      writes := writes + ws;
    }

    /** The frame becomes the one a snapshot saves. */
    method KeepFrame(frame: seq<byte>)
      requires Valid() && IsFrame(frame)
      modifies this`lastFrame
      ensures Valid() && lastFrame == Some(frame)
    {
      lastFrame := Some(frame);
    }

    /** While recording, the frame is appended to the open container. */
    method RecordFrame(frame: seq<byte>)
      requires Valid()
      modifies this`recordStream, this`sessionFrames
      ensures Valid()
      ensures recordStream == Recorded(old(recordStream), recording, frame)
      ensures sessionFrames == Session(old(sessionFrames), recording, [frame])
    {
      if recording && recordStream.Some? {
        ConcatSnoc(sessionFrames, frame);
        recordStream := Some(recordStream.value.(written := recordStream.value.written + frame));
        sessionFrames := sessionFrames + [frame];
      }
    }

    /** The per-frame count and the once-a-second publication. */
    method CountFrame(now: nat)
      requires Valid()
      modifies this`frameCount, this`lastFpsTime, this`fpsFile
      ensures Valid()
      ensures Window() == Count(old(Window()), now)
    {
      frameCount := frameCount + 1;
      if now - lastFpsTime >= FPS_REPORT_MS {
        fpsFile := Decimal.Format(frameCount);
        frameCount := 0;
        lastFpsTime := now;
      }
    }

    /**
     * A snapshot succeeds exactly when a frame has been seen; it writes that frame, a
     * complete JPEG, to the file named after `now`. Nothing else changes.
     */
    method TakeSnapshot(now: nat) returns (taken: bool)
      requires Valid()
      modifies this`snapshots
      ensures taken <==> lastFrame.Some?
      ensures taken ==> snapshots == old(snapshots)[SnapshotPath(now) := lastFrame.value]
      ensures taken ==> IsFrame(snapshots[SnapshotPath(now)])
      ensures !taken ==> snapshots == old(snapshots)
    {
      if lastFrame.None? {
        return false;
      }
      snapshots := snapshots[SnapshotPath(now) := lastFrame.value];
      taken := true;
    }

    /**
     * Starting while recording does nothing; otherwise a new, empty container named
     * after `now` is opened and the state file switches to `"1"`.
     */
    method StartRecording(now: nat)
      requires Valid()
      modifies this`recording, this`recordStream, this`currentRecFile, this`recStateFile
      modifies this`rawFiles, this`sessionFrames
      ensures Valid()
      ensures recording
      ensures old(recording) ==>
        && recordStream == old(recordStream) && currentRecFile == old(currentRecFile)
        && rawFiles == old(rawFiles)
      ensures !old(recording) ==>
        && currentRecFile == Some(RecordingPath(now))
        && recordStream == Some(RecordStream(RecordingPath(now), [], false))
        && rawFiles == old(rawFiles) + {RecordingPath(now)}
    {
      if recording {
        return;
      }
      currentRecFile := Some(RecordingPath(now));
      recordStream := Some(RecordStream(RecordingPath(now), [], false));
      rawFiles := rawFiles + {RecordingPath(now)};
      sessionFrames := [];
      recording := true;
      recStateFile := "1";
    }

    /**
     * Stopping while not recording does nothing; otherwise the stream is ended, the
     * state file switches to `"0"` and an encoder is started on the current container.
     */
    method StopRecording()
      requires Valid()
      modifies this`recording, this`recordStream, this`recStateFile, this`encoders
      ensures Valid()
      ensures !recording
      ensures !old(recording) ==> recordStream == old(recordStream) && encoders == old(encoders)
      ensures old(recording) ==>
        && recordStream == Some(old(recordStream).value.(ended := true))
        && encoders == old(encoders) + [EncodeJob(currentRecFile.value, EncodedPath(currentRecFile.value))]
    {
      if !recording {
        return;
      }
      recordStream := Some(recordStream.value.(ended := true));
      recording := false;
      recStateFile := "0";
      var raw := currentRecFile.value;
      encoders := encoders + [EncodeJob(raw, EncodedPath(raw))];
    }

    /**
     * The exit of encoder `k` AS WRITTEN: the callback unlinks the container named by
     * `currentRecFile` when it runs, not the one the encoder read. `unlinkSync` throws
     * when that file is already gone.
     */
    method EncoderExitAsWritten(k: nat) returns (threw: bool)
      requires Valid() && k < |encoders|
      modifies this`encoders, this`rawFiles
      ensures Valid()
      ensures encoders == old(encoders[..k] + encoders[k + 1..])
      ensures threw <==> currentRecFile.value !in old(rawFiles)
      ensures rawFiles == old(rawFiles) - {currentRecFile.value}
    {
      encoders := encoders[..k] + encoders[k + 1..];
      var victim := currentRecFile.value;
      threw := victim !in rawFiles;
      rawFiles := rawFiles - {victim};
    }

    /** The exit of encoder `k`, deleting the container that encoder read. */
    method EncoderExit(k: nat) returns (threw: bool)
      requires Valid() && k < |encoders|
      modifies this`encoders, this`rawFiles
      ensures Valid()
      ensures encoders == old(encoders[..k] + encoders[k + 1..])
      ensures threw <==> old(encoders[k].input) !in old(rawFiles)
      ensures rawFiles == old(rawFiles) - {old(encoders[k].input)}
      ensures currentRecFile.Some? && currentRecFile.value != old(encoders[k].input) ==>
        (currentRecFile.value in rawFiles <==> currentRecFile.value in old(rawFiles))
    {
      var victim := encoders[k].input;
      encoders := encoders[..k] + encoders[k + 1..];
      threw := victim !in rawFiles;
      rawFiles := rawFiles - {victim};
    }

    /**
     * The control API, by request path: the three known paths act and answer `OK`;
     * anything else answers 404 and changes nothing.
     */
    method Control(pathname: string, now: nat) returns (reply: ControlReply)
      requires Valid()
      modifies this`snapshots, this`recording, this`recordStream, this`currentRecFile
      modifies this`recStateFile, this`rawFiles, this`encoders, this`sessionFrames
      ensures Valid()
      ensures pathname in {"/snapshot", "/record/start", "/record/stop"} <==> reply == OK_REPLY
      ensures pathname !in {"/snapshot", "/record/start", "/record/stop"} ==> reply == NOT_FOUND_REPLY
      ensures pathname != "/snapshot" ==> snapshots == old(snapshots)
      ensures pathname == "/snapshot" ==>
        && snapshots == (if lastFrame.Some? then old(snapshots)[SnapshotPath(now) := lastFrame.value] else old(snapshots))
        && recording == old(recording) && recordStream == old(recordStream) && currentRecFile == old(currentRecFile)
        && rawFiles == old(rawFiles) && encoders == old(encoders)
      ensures pathname == "/record/start" ==>
        && recording && encoders == old(encoders)
        && (old(recording) ==>
              && recordStream == old(recordStream) && currentRecFile == old(currentRecFile)
              && rawFiles == old(rawFiles))
        && (!old(recording) ==>
              && currentRecFile == Some(RecordingPath(now))
              && recordStream == Some(RecordStream(RecordingPath(now), [], false))
              && rawFiles == old(rawFiles) + {RecordingPath(now)})
      ensures pathname == "/record/stop" ==>
        && !recording && rawFiles == old(rawFiles) && currentRecFile == old(currentRecFile)
        && (!old(recording) ==> recordStream == old(recordStream) && encoders == old(encoders))
        && (old(recording) ==>
              && currentRecFile.Some?
              && recordStream == Some(old(recordStream).value.(ended := true))
              && encoders == old(encoders) + [EncodeJob(currentRecFile.value, EncodedPath(currentRecFile.value))])
      ensures pathname !in {"/snapshot", "/record/start", "/record/stop"} ==>
        && recording == old(recording) && recordStream == old(recordStream) && currentRecFile == old(currentRecFile)
        && rawFiles == old(rawFiles) && encoders == old(encoders)
    {
      if pathname == "/snapshot" {
        var _ := TakeSnapshot(now);
        return OK_REPLY;
      }
      if pathname == "/record/start" {
        StartRecording(now);
        return OK_REPLY;
      }
      if pathname == "/record/stop" {
        StopRecording();
        return OK_REPLY;
      }
      reply := NOT_FOUND_REPLY;
    }
  }

  /** A recording started at 1 ms and stopped, then a second one started at 2 ms. */
  method TwoRecordings() returns (r: RecorderService)
    ensures fresh(r) && r.Valid()
    ensures r.recording && r.currentRecFile == Some(RecordingPath(2))
    ensures r.rawFiles == {RecordingPath(1), RecordingPath(2)}
    ensures |r.encoders| == 1 && r.encoders[0].input == RecordingPath(1)
  {
    r := new RecorderService(0);
    r.StartRecording(1);
    r.StopRecording();
    r.StartRecording(2);
  }

  /**
   * After `TwoRecordings`, the first encoder exits, then the second recording is
   * stopped and its encoder exits. As written, the first exit deletes the container
   * still being recorded and keeps the one already encoded, and the second exit throws
   * because its file is gone.
   */
  method StaleUnlinkAsWritten() returns (activeKept: bool, staleKept: bool, secondThrew: bool)
    ensures !activeKept && staleKept && secondThrew
  {
    var p1, p2 := RecordingPath(1), RecordingPath(2);
    RecordingPathInjective(1, 2);
    var r := TwoRecordings();
    var _ := r.EncoderExitAsWritten(0);
    assert p1 in r.rawFiles && p2 !in r.rawFiles;
    activeKept := p2 in r.rawFiles;
    staleKept := p1 in r.rawFiles;
    r.StopRecording();
    secondThrew := r.EncoderExitAsWritten(0);
  }

  /** The same sequence with each exit deleting its own encoder's container. */
  method StaleUnlinkCorrected() returns (activeKept: bool, staleKept: bool, secondThrew: bool)
    ensures activeKept && !staleKept && !secondThrew
  {
    var p1, p2 := RecordingPath(1), RecordingPath(2);
    RecordingPathInjective(1, 2);
    var r := TwoRecordings();
    var _ := r.EncoderExit(0);
    assert p2 in r.rawFiles && p1 !in r.rawFiles && r.encoders == [];
    activeKept := p2 in r.rawFiles;
    staleKept := p1 in r.rawFiles;
    r.StopRecording();
    assert r.encoders[0].input == p2;
    secondThrew := r.EncoderExit(0);
  }
}
