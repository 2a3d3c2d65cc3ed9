/**
 * The robot's Socket.IO control server (`server.js`): it gates manual drive commands
 * behind a controller switch, forwards stop commands unconditionally, toggles an MJPEG
 * recording taken from the camera stream, reports snapshots, and starts or stops the
 * camera service. Motor calls, broadcast events and shell commands are kept as logs.
 */
module ControlServer {
  import opened Wrappers

  const SNAPSHOT_DIR: string := "/opt/jarvis/snapshot"
  const RECORDING_DIR: string := "/opt/jarvis/recording"
  const START_CAMERA: string := "systemctl start leo-camera.service"
  const STOP_CAMERA: string := "systemctl stop leo-camera.service && systemctl kill leo-camera.service"

  /** A Socket.IO event argument, as far as JavaScript truthiness can tell values apart. */
  datatype JsValue = Undefined | Null | Bool(b: bool) | Number(n: int) | NaN | Str(s: string) | Object

  /** `!!v`: `false`, `0`, `NaN`, `""`, `null` and `undefined` are falsy, all else truthy. */
  predicate Truthy(v: JsValue) {
    match v
    case Undefined => false
    case Null => false
    case Bool(b) => b
    case Number(n) => n != 0
    case NaN => false
    case Str(s) => s != []
    case Object => true
  }

  /** `.replace(/[:.]/g, '-')` on one character. */
  function SafeChar(c: char): (d: char)
    ensures d != ':' && d != '.'
    ensures c != ':' && c != '.' ==> d == c
  {
    if c == ':' || c == '.' then '-' else c
  }

  /**
   * `.replace(/[:.]/g, '-')`: every colon and every dot becomes a dash, and every other
   * character stays where it was.
   */
  function Sanitize(s: string): (r: string)
    ensures |r| == |s|
    ensures forall i | 0 <= i < |s| :: r[i] == SafeChar(s[i])
    ensures ':' !in r && '.' !in r
  {
    if s == [] then [] else [SafeChar(s[0])] + Sanitize(s[1..])
  }

  /** Sanitising a sanitised name changes nothing. */
  lemma SanitizeIdempotent(s: string)
    ensures Sanitize(Sanitize(s)) == Sanitize(s)
  {
    var t := Sanitize(s);
    assert forall i | 0 <= i < |t| :: SafeChar(t[i]) == t[i];
  }

  /** The snapshot file for the ISO timestamp `iso`. */
  function SnapshotFile(iso: string): string {
    SNAPSHOT_DIR + "/" + Sanitize(iso) + ".jpg"
  }

  /** The recording file for the ISO timestamp `iso`. */
  function RecordingFile(iso: string): string {
    RECORDING_DIR + "/" + Sanitize(iso) + ".mjpeg"
  }

  /**
   * Both file names put the sanitised timestamp, free of `:` and `.`, between their
   * directory and their suffix, so the suffix is the only dot after the directory.
   */
  lemma FileNames(iso: string)
    ensures exists stem :: && SnapshotFile(iso) == SNAPSHOT_DIR + "/" + stem + ".jpg"
                           && RecordingFile(iso) == RECORDING_DIR + "/" + stem + ".mjpeg"
                           && |stem| == |iso| && ':' !in stem && '.' !in stem
  {
    var stem := Sanitize(iso);
    assert SnapshotFile(iso) == SNAPSHOT_DIR + "/" + stem + ".jpg";
  }

  /** The command `stream:toggle` runs for its argument. */
  function CameraCommand(enabled: JsValue): (cmd: string)
    ensures Truthy(enabled) <==> cmd == START_CAMERA
    ensures !Truthy(enabled) <==> cmd == STOP_CAMERA
  {
    if Truthy(enabled) then START_CAMERA else STOP_CAMERA
  }

  /** The calls the server makes into the motor module. */
  datatype MotorCall = Forward | Backward | Left | Right | StopAll

  /** The drive call a `move` direction names, if it names one. */
  function DriveCall(dir: string): (r: Option<MotorCall>)
    ensures r.Some? <==> dir in {"forward", "backward", "left", "right"}
    ensures r.Some? ==> r.value != StopAll
  {
    if dir == "forward" then Some(Forward)
    else if dir == "backward" then Some(Backward)
    else if dir == "left" then Some(Left)
    else if dir == "right" then Some(Right)
    else None
  }

  /**
   * The events broadcast to every socket with `io.emit`: `SnapshotTaken` is `'snapshot'`,
   * `RecordStart` is `'record:start'` and `RecordStop` is `'record:stop'`.
   */
  datatype Event = SnapshotTaken | RecordStart | RecordStop

  /** The camera request a recording holds open. */
  datatype CameraRequest = CameraRequest(host: string, port: nat, path: string)

  const CAMERA_REQUEST := CameraRequest("127.0.0.1", 8888, "/")

  class Server {
    var controllerEnabled: bool
    var recording: bool
    /** The path of the open recording write stream, if any. */
    var recordStream: Option<string>
    var recordRequest: Option<CameraRequest>
    /** The recording files ended, in order. */
    var endedRecordings: seq<string>
    /** The camera requests destroyed, in order. */
    var destroyedRequests: seq<CameraRequest>
    /** The snapshot files written. */
    var snapshots: set<string>
    var motorCalls: seq<MotorCall>
    var events: seq<Event>
    var commands: seq<string>

    /** A recording is on exactly when both of its handles are held. */
    ghost predicate Valid()
      reads this
    {
      && (recording <==> recordStream.Some?)
      && (recording <==> recordRequest.Some?)
    }

    constructor ()
      ensures Valid()
      ensures controllerEnabled && !recording && recordStream == None && recordRequest == None
      ensures endedRecordings == [] && destroyedRequests == [] && snapshots == {}
      ensures motorCalls == [] && events == [] && commands == []
    {
      controllerEnabled := true;
      recording, recordStream, recordRequest := false, None, None;
      endedRecordings, destroyedRequests, snapshots := [], [], {};
      motorCalls, events, commands := [], [], [];
    }

    /** `controller:toggle`: the switch takes the argument's truthiness. */
    method ControllerToggle(enabled: JsValue)
      modifies this`controllerEnabled
      ensures controllerEnabled == Truthy(enabled)
    {
      controllerEnabled := Truthy(enabled);
    }

    /**
     * `move`: with the switch off nothing happens; with it on, the four known
     * directions each make one drive call and any other direction makes none.
     */
    method Move(dir: string)
      modifies this`motorCalls
      ensures !controllerEnabled ==> motorCalls == old(motorCalls)
      ensures controllerEnabled && DriveCall(dir).Some? ==> motorCalls == old(motorCalls) + [DriveCall(dir).value]
      ensures DriveCall(dir).None? ==> motorCalls == old(motorCalls)
    {
      if !controllerEnabled {
        return;
      }
      if dir == "forward" {
        motorCalls := motorCalls + [Forward];
      }
      if dir == "backward" {
        motorCalls := motorCalls + [Backward];
      }
      if dir == "left" {
        motorCalls := motorCalls + [Left];
      }
      if dir == "right" {
        motorCalls := motorCalls + [Right];
      }
    }

    /** `stopAll` and `disconnect`: the motors stop whatever the controller switch says. */
    method StopMotors()
      modifies this`motorCalls
      ensures motorCalls == old(motorCalls) + [StopAll]
    {
      motorCalls := motorCalls + [StopAll];
    }

    /**
     * `snapshot`: when the capture from the camera stream succeeds, the file named after
     * `iso` is written and `snapshot` is broadcast; a failed capture is swallowed.
     */
    method Snapshot(iso: string, captured: bool)
      modifies this`snapshots, this`events
      ensures captured ==> snapshots == old(snapshots) + {SnapshotFile(iso)} && events == old(events) + [SnapshotTaken]
      ensures !captured ==> snapshots == old(snapshots) && events == old(events)
    {
      if captured {
        snapshots := snapshots + {SnapshotFile(iso)};
        events := events + [SnapshotTaken];
      }
    }

    /** Opens the recording file named after `iso` and the camera request feeding it. */
    method StartRecording(iso: string)
      modifies this`recording, this`recordStream, this`recordRequest
      ensures Valid()
      ensures recording && recordStream == Some(RecordingFile(iso)) && recordRequest == Some(CAMERA_REQUEST)
    {
      recordStream := Some(RecordingFile(iso));
      recording := true;
      recordRequest := Some(CAMERA_REQUEST);
    }

    /**
     * Clears the flag, destroys the camera request and ends the stream, whichever of
     * them are held; afterwards both handles are gone, so a second call changes nothing.
     */
    method StopRecording()
      modifies this`recording, this`recordStream, this`recordRequest
      modifies this`endedRecordings, this`destroyedRequests
      ensures Valid()
      ensures !recording && recordStream == None && recordRequest == None
      ensures destroyedRequests == old(destroyedRequests) + (if old(recordRequest).Some? then [old(recordRequest).value] else [])
      ensures endedRecordings == old(endedRecordings) + (if old(recordStream).Some? then [old(recordStream).value] else [])
    {
      recording := false;
      if recordRequest.Some? {
        destroyedRequests := destroyedRequests + [recordRequest.value];
        recordRequest := None;
      }
      if recordStream.Some? {
        endedRecordings := endedRecordings + [recordStream.value];
        recordStream := None;
      }
    }

    /**
     * `record`: when idle, starts a recording named after `iso` and broadcasts
     * `record:start`; when recording, stops it, ending exactly the file it was
     * writing, and broadcasts `record:stop`.
     */
    method Record(iso: string)
      requires Valid()
      modifies this`recording, this`recordStream, this`recordRequest
      modifies this`endedRecordings, this`destroyedRequests, this`events
      ensures Valid()
      ensures recording == !old(recording)
      ensures !old(recording) ==>
        && recordStream == Some(RecordingFile(iso)) && recordRequest == Some(CAMERA_REQUEST)
        && endedRecordings == old(endedRecordings) && destroyedRequests == old(destroyedRequests)
        && events == old(events) + [RecordStart]
      ensures old(recording) ==>
        && recordStream == None && recordRequest == None
        && endedRecordings == old(endedRecordings) + [old(recordStream).value]
        && destroyedRequests == old(destroyedRequests) + [old(recordRequest).value]
        && events == old(events) + [RecordStop]
    {
      if !recording {
        StartRecording(iso);
        events := events + [RecordStart];
      } else {
        StopRecording();
        events := events + [RecordStop];
      }
    }

    /** `stream:toggle`: runs the start command for a truthy argument, else stop-then-kill. */
    method StreamToggle(enabled: JsValue)
      modifies this`commands
      ensures commands == old(commands) + [CameraCommand(enabled)]
    {
      var cmd := if Truthy(enabled) then START_CAMERA else STOP_CAMERA;
      commands := commands + [cmd];
    }
  }

  /**
   * Two `record` events from idle come back to idle, having written and then ended
   * exactly one file and broadcast `record:start` then `record:stop`.
   */
  method RecordTwice(s: Server, iso1: string, iso2: string)
    requires s.Valid() && !s.recording
    modifies s
    ensures s.Valid() && !s.recording && s.recordStream == None && s.recordRequest == None
    ensures s.endedRecordings == old(s.endedRecordings) + [RecordingFile(iso1)]
    ensures s.events == old(s.events) + [RecordStart, RecordStop]
  {
    s.Record(iso1);
    s.Record(iso2);
  }
}
