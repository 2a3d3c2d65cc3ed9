# Robot camera, control and assistant core — a Dafny model

This project models the core of a small Raspberry Pi robot written in Node.js:

- **camera_stream.js** — the MJPEG streaming server. It cuts JPEG frames (start marker
  `FF D8` … end marker `FF D9`) out of the camera process's standard output and pushes
  each frame to every connected viewer as a part of a `multipart/x-mixed-replace`
  response. It counts frames per second and skips all work while nobody watches.
- **tmp/camera_stream.js** — the recording variant of the same server. It keeps the last
  frame for snapshots, records the raw frames to a `.mjpg` container, publishes the
  recording state and FPS to status files, and has the encoder turn a finished container
  into an `.mp4` and delete the raw file.
- **server.js** — the Socket.IO control server. It gates motor commands on the
  controller switch, takes snapshots, starts and stops recordings, and turns the camera
  service on and off.
- **controller.js** — the gamepad mapping. The sticks map to drive commands, the triggers
  to a bounded speed, and the A/B buttons to edge-triggered snapshot and record commands.
- **sensors.js** — the obstacle sensor. A HIGH→LOW edge must be confirmed by a read
  after a 5 ms timer; an obstacle is reported once until the line goes HIGH again.
- **motor.js** / **tmp/motor.js** — the L298N H-bridge driver. It covers the four
  direction patterns, the light, the enable pins and the start-up sequence. motor.js drives the pins through the
  pigpio daemon; tmp/motor.js drives them directly through the `pigpio` library.
- **Jarvis/ai.js** — the assistant's intent request. It covers the bounded conversation
  memory, the prompt built from memory and the entity registry, the trimming of the
  model's reply, and the fall-back intent when the reply does not parse.

Modules:

- **Pure logic**:
  - `Search` — `indexOf` and string `replace`
  - `Decimal` — decimal rendering of timestamps
  - `JpegFraming` — frame extraction
  - `Multipart` — viewer writes
  - `HBridge` — pin patterns
- **Stateful classes**:
  - `CameraStream.StreamService`
  - `CameraRecorder.RecorderService`
  - `ControlServer.Server`
  - `Gamepad.Controller`
  - `ObstacleSensor.Sensor`
  - `Motor.MotorDriver`
  - `DirectMotor.DirectDriver`
  - `Assistant.Conversation`

Each data handler that loops over the buffer is a `while` loop proved against the pure
extraction function `JpegFraming.Extract`. Writes to sockets, files and GPIO pins are
recorded in sequence- and map-valued fields, so every contract can say exactly what was
written.

The code has none of the following, and neither does the model:

- No removal of a viewer whose write fails. A viewer is dropped only when its connection closes.
- No disk or link watchdog that stops a recording. The header of tmp/camera_stream.js (line 6) lists "Disk protection", but nothing in that file checks free space.
- No restart of the capture process when it exits.
- No check of the encoder's exit status: the raw container is deleted whenever the encoder exits.
- No discarding of bytes before a start marker until a complete frame has been cut.

## Model

| member | source | states |
|---|---|---|
| Search.IndexOf | camera_stream.js:144-145 | the result is -1 exactly when the pattern occurs nowhere at or after `from`; otherwise it is the first position at or after `from` where it occurs |
| Search.IndexOfExtend | camera_stream.js:140-145 | appending bytes to the buffer does not move a match that was already found |
| Search.IndexOfFirst | tmp/camera_stream.js:124 | a position where the pattern occurs, with no earlier occurrence, is what `indexOf` returns, so `replace` acts on that first occurrence |
| Decimal.Format | tmp/camera_stream.js:84 | the decimal rendering of a number is non-empty, all digits, and has no leading zero unless the number is 0 |
| Decimal.ValueFormat | tmp/camera_stream.js:84 | reading the decimal rendering back gives the original number (round trip) |
| Decimal.FormatInjective | tmp/camera_stream.js:112 | distinct timestamps render to distinct strings |
| JpegFraming.NextCut | camera_stream.js:144-150 | a cut splits the buffer into skipped bytes, a frame of at least four bytes and the rest, whose lengths add up to the buffer's |
| JpegFraming.NextCutSpec | camera_stream.js:144-150 | no cut exists if and only if the buffer holds no complete frame; a cut yields a frame that starts with FF D8 and ends with FF D9, and the three parts concatenate back to the buffer; no start marker lies in the skipped bytes |
| JpegFraming.NextCutAfter | camera_stream.js:150 | what remains after a cut is a suffix of the buffer |
| JpegFraming.NextCutParts | camera_stream.js:149-150 | skipped bytes, frame and rest concatenate back to the buffer |
| JpegFraming.NoCompleteFrame | camera_stream.js:144-147 | when either search fails (the loop's `break`), the buffer holds no complete frame |
| JpegFraming.FrameAt | camera_stream.js:144-149 | when both searches succeed, the slice from the start marker through the end marker is a frame |
| JpegFraming.NoEarlyEoi | camera_stream.js:145-149 | a cut frame has no end marker before its last two bytes (the end search starts after the start marker) |
| JpegFraming.ExtractSpec | camera_stream.js:143-151 | every extracted frame is a frame; the leftover holds no complete frame and is a suffix of the input |
| JpegFraming.ExtractFrames | camera_stream.js:143-151 | every extracted frame starts with FF D8 and ends with FF D9 |
| JpegFraming.ExtractRest | camera_stream.js:143-151 | the leftover buffer contains no complete frame, so the loop leaves nothing behind that it could have cut |
| JpegFraming.ExtractTail | camera_stream.js:143-151 | the leftover buffer is a suffix of the input |
| JpegFraming.NextCutExtend | camera_stream.js:140-150 | appending a chunk does not change a cut that was already possible; the chunk lands in the rest |
| JpegFraming.NextCutAt | camera_stream.js:144-150 | the cut is exactly the source's slices `buffer.slice(start, end + 2)` and `buffer.slice(end + 2)` |
| JpegFraming.ExtractLoopStep | camera_stream.js:144-150 | one iteration that finds both markers emits that frame and continues extraction on the rest |
| JpegFraming.ExtractLoopExit | camera_stream.js:144-147 | an iteration that breaks leaves the whole buffer as the rest, with no frames |
| JpegFraming.CutFrame | camera_stream.js:144-150 | one loop iteration: either a frame is found, the buffer shrinks and extraction of the buffer is that frame followed by extraction of the rest, or nothing is found and the buffer is kept whole |
| JpegFraming.ConcatAppend | tmp/camera_stream.js:89-91 | the bytes written for two batches of frames are the bytes of the first batch followed by those of the second |
| JpegFraming.ExtractAppend | camera_stream.js:140-151 | chunk boundaries do not matter: extracting from buffer + chunk yields the frames of the buffer followed by the frames of its leftover + chunk, with the same final leftover |
| Multipart.Broadcast | camera_stream.js:168-176 | the loop over viewers produces, for each viewer in order, the boundary/header write followed by the frame bytes and trailing CRLF |
| Multipart.BroadcastFrameTo | camera_stream.js:168-176 | with distinct viewers, a viewer receives exactly one part per broadcast if it is connected and nothing otherwise |
| Multipart.BroadcastIsolation | camera_stream.js:168-176 | over any number of frames, each connected viewer receives exactly its parts for those frames in order, and an unconnected one receives nothing |
| Multipart.BroadcastFramesSnoc | camera_stream.js:168-176 | broadcasting one more frame appends exactly that frame's writes |
| Multipart.WritesToAppend | camera_stream.js:168-176 | the writes one viewer sees from two consecutive batches are its writes from the first followed by those from the second |
| Multipart.Without | camera_stream.js:91 | the filtered viewer list holds exactly the old viewers other than the closed one |
| Multipart.WithoutListed | camera_stream.js:91 | closing a connected viewer removes just that entry and keeps the order of the others |
| Multipart.WithoutAbsent | camera_stream.js:91 | closing a viewer that is not listed changes nothing |
| Multipart.WithoutDistinct | camera_stream.js:91 | filtering keeps the viewer list free of duplicates |
| CameraStream.RoundedFps | camera_stream.js:160 | the result is `Math.round(count * 1000 / elapsed)`: it lies within one half of the exact rate |
| CameraStream.TickNAfter | camera_stream.js:155-163 | frames arriving at the same instant either only add to the counter or, once the 2000 ms window has passed, publish the rounded rate and restart the window at that instant |
| CameraStream.TickNLag | camera_stream.js:155-163 | with a non-decreasing clock, the window start never moves backwards and never lags the latest frame by a full window or more |
| CameraStream.StreamService.constructor | camera_stream.js:39-54 | the server starts with no viewers, an empty buffer, no writes and a zero counter |
| CameraStream.StreamService.Request | camera_stream.js:60-93 | `/fps` answers the current rate and changes nothing; any other path registers a fresh viewer at the end of the list and writes the multipart stream head to it |
| CameraStream.StreamService.Close | camera_stream.js:90-92 | a closed viewer is removed from the list, and the list stays duplicate-free |
| CameraStream.StreamService.OnData | camera_stream.js:126-178 | with no viewers the buffer and counter are reset and nothing is written; otherwise the new buffer is the leftover of extracting from old buffer + chunk, the meter has counted every extracted frame, and every viewer has been sent every extracted frame in order |
| CameraStream.StreamService.DrainFrames | camera_stream.js:143-177 | the extraction loop leaves the leftover of `Extract` in the buffer, counts each frame and broadcasts each frame in order |
| CameraStream.StreamService.Deliver | camera_stream.js:155-176 | one frame is counted and broadcast to every viewer |
| CameraStream.StreamService.CountFrame | camera_stream.js:155-163 | the FPS meter advances by one frame at the given time |
| CameraRecorder.RecordingPathInjective | tmp/camera_stream.js:112 | recordings started at different milliseconds get different container paths |
| CameraRecorder.EncodedRecordingPath | tmp/camera_stream.js:124 | the encoder's output path is the recording path with `.mjpg` replaced by `.mp4` |
| CameraRecorder.CountNAfter | tmp/camera_stream.js:81-87 | frames at the same instant either only add to the count or, once the 1000 ms window has passed, publish the count and restart the window |
| CameraRecorder.CountNLag | tmp/camera_stream.js:81-87 | with a non-decreasing clock, the window start never moves backwards and never lags the latest frame by a full window or more |
| CameraRecorder.RecordedSnoc | tmp/camera_stream.js:89-91 | recording frames one by one writes the same bytes as recording their concatenation |
| CameraRecorder.DrainStep | tmp/camera_stream.js:72-98 | one more frame extends both the viewer writes and the recorded bytes by exactly that frame |
| CameraRecorder.RecorderService.constructor | tmp/camera_stream.js:27-40 | the service starts idle with the status file at "0", no last frame, no recording, no files and no viewers |
| CameraRecorder.RecorderService.Request | tmp/camera_stream.js:43-49 | a new viewer gets a fresh identity at the end of the list and the stream head |
| CameraRecorder.RecorderService.Close | tmp/camera_stream.js:50 | a closed viewer is removed from the list |
| CameraRecorder.RecorderService.OnData | tmp/camera_stream.js:69-99 | for old buffer + chunk: the leftover is kept; the last frame becomes the last extracted one (if any); every frame is counted; the container receives the concatenated frames while recording, and the session's frame list grows by exactly those frames; every viewer receives every frame in order; the recording invariants are kept |
| CameraRecorder.RecorderService.DrainFrames | tmp/camera_stream.js:72-98 | the extraction loop has the same effect as `Extract` on the buffer, frame by frame |
| CameraRecorder.RecorderService.Deliver | tmp/camera_stream.js:77-97 | one frame becomes the last frame, is counted, is appended to the container and the session's frame list while recording, and is sent to every viewer |
| CameraRecorder.RecorderService.SendFrame | tmp/camera_stream.js:93-97 | every viewer is sent the frame |
| CameraRecorder.RecorderService.KeepFrame | tmp/camera_stream.js:79 | the frame becomes the last frame |
| CameraRecorder.RecorderService.RecordFrame | tmp/camera_stream.js:89-91 | while recording, the frame is appended to the open container and to the session's frame list; otherwise nothing is written |
| CameraRecorder.RecorderService.CountFrame | tmp/camera_stream.js:81-87 | the FPS window advances by one frame and the status file gets the published count |
| CameraRecorder.RecorderService.TakeSnapshot | tmp/camera_stream.js:102-107 | a snapshot is written exactly when a frame exists, under the timestamped name, with that frame's bytes; otherwise nothing changes |
| CameraRecorder.RecorderService.StartRecording | tmp/camera_stream.js:110-116 | afterwards the service is recording; a second start changes nothing; a first start opens a fresh container named by the timestamp and sets the status file to "1" |
| CameraRecorder.RecorderService.StopRecording | tmp/camera_stream.js:118-131 | afterwards the service is idle; stopping while idle changes nothing; stopping a recording ends the container and starts one encoder from it to the `.mp4` path |
| CameraRecorder.RecorderService.EncoderExitAsWritten | tmp/camera_stream.js:125-130 | as written, an exiting encoder deletes the currently named container, not its own input, and throws when that file is already gone |
| CameraRecorder.RecorderService.EncoderExit | tmp/camera_stream.js:125-130 | corrected: an exiting encoder deletes exactly its own input, so the active recording's container is never touched |
| CameraRecorder.RecorderService.Control | tmp/camera_stream.js:134-155 | the three control paths answer OK; `/snapshot` writes the last frame, if any, under the timestamped name and changes nothing else; `/record/start` opens a fresh container with its path recorded and the raw file created, unless already recording (then nothing changes); `/record/stop` ends the open container and queues one encoder job for it, or changes nothing when idle; any other path answers 404 and changes nothing |
| CameraRecorder.TwoRecordings | tmp/camera_stream.js:110-131 | record, stop and record again leaves two containers on disk, the second one active and one encoder working on the first |
| CameraRecorder.StaleUnlinkAsWritten | tmp/camera_stream.js:118-130 | in that scenario, the code as written deletes the active container, keeps the stale one and throws on the second exit |
| CameraRecorder.StaleUnlinkCorrected | tmp/camera_stream.js:118-130 | with the corrected exit handler, the active container is kept, the stale one is deleted and nothing throws |
| ControlServer.SafeChar | server.js:107 | `:` and `.` become `-`; every other character is kept |
| ControlServer.Sanitize | server.js:107 | the sanitised timestamp has the same length, maps each character by `SafeChar`, and contains no `:` or `.` |
| ControlServer.SanitizeIdempotent | server.js:107 | sanitising twice is the same as sanitising once |
| ControlServer.FileNames | server.js:107-108 | snapshot and recording names share one sanitised stem of the timestamp's length, differing only in directory and extension |
| ControlServer.CameraCommand | server.js:205-207 | a truthy `enabled` gives the start command and a falsy one the stop command |
| ControlServer.DriveCall | server.js:175-178 | exactly the four direction names map to a motor call, and none of them is a stop |
| ControlServer.Server.constructor | server.js:62-65 | the server starts with the controller enabled, no recording and nothing written |
| ControlServer.Server.ControllerToggle | server.js:169-171 | the controller switch becomes the truthiness of the payload |
| ControlServer.Server.Move | server.js:173-179 | a known direction drives the motors only while the controller is enabled; an unknown direction or a disabled controller issues no call |
| ControlServer.Server.StopMotors | server.js:181 | `stopAll` is called unconditionally |
| ControlServer.Server.Snapshot | server.js:183-188 | a captured frame adds the timestamped snapshot file and broadcasts `'snapshot'`; otherwise nothing changes |
| ControlServer.Server.StartRecording | server.js:136-146 | a recording file named by the timestamp is open and a camera request feeds it |
| ControlServer.Server.StopRecording | server.js:149-161 | the open request is destroyed and the file ended, if any; afterwards nothing is recording |
| ControlServer.Server.Record | server.js:190-198 | the record event toggles recording: from idle it opens a file and broadcasts `'record:start'`; while recording it ends that file, destroys its request and broadcasts `'record:stop'` |
| ControlServer.RecordTwice | server.js:190-198 | two record events in a row leave the server idle with exactly one finished recording |
| ControlServer.Server.StreamToggle | server.js:204-214 | one systemctl command is issued, start or stop according to the payload |
| Gamepad.StickCommand | controller.js:42-53 | the stick beyond -20000 gives the negative direction, beyond 20000 the positive one, and inside the dead zone `stopAll` (three exclusive cases) |
| Gamepad.NextSpeed | controller.js:55-65 | the speed stays within 0..100; the right trigger raises it by one and the left lowers it by one, saturating at the ends; other inputs keep it |
| Gamepad.Latch | controller.js:74-82 | a press fires only when the button was released; value 1 latches, 0 releases, anything else keeps the latch |
| Gamepad.LatchStaysClosed | controller.js:74-93 | once latched, the button stays latched until a release value arrives |
| Gamepad.LatchSeparation | controller.js:74-93 | between any two firings there is a release, so holding a button fires once |
| Gamepad.Controller.constructor | controller.js:32-34 | the controller starts at the initial speed with both buttons released and nothing sent |
| Gamepad.Controller.OnAxis | controller.js:40-66 | the speed follows `NextSpeed`, and the commands sent are those of the axis event |
| Gamepad.Controller.OnButton | controller.js:72-94 | A sends `snapshot` and B sends `record`, each only on a fresh press; other buttons do nothing |
| ObstacleSensor.ReportActions | sensors.js:88-90 | a confirmed obstacle stops the motors, calls the callback and emits the event exactly when each hook is present |
| ObstacleSensor.Sensor.constructor | sensors.js:64-66 | the sensor starts with the line HIGH, no timer and nothing reported |
| ObstacleSensor.Sensor.Notify | sensors.js:68-107 | a HIGH→LOW edge arms a fresh confirmation timer; a LOW→HIGH edge clears the confirmation and the timer; other changes leave both alone; the last level is always recorded |
| ObstacleSensor.Sensor.TimerFires | sensors.js:74-77 | a firing timer is disarmed and starts one read |
| ObstacleSensor.Sensor.ReadDone | sensors.js:77-91 | a read of LOW while unconfirmed confirms and appends the report actions; an error, a HIGH read or an already confirmed obstacle leaves `actions` unchanged, so at most one report per obstacle |
| HBridge.Pattern | motor.js:74-108 | every direction's pin pattern is safe (no side has both inputs high), and only stop is all-low |
| HBridge.PatternStructure | motor.js:82-108 | the five patterns are distinct; backward reverses forward; right reverses and mirrors left; forward is its own mirror |
| HBridge.Writes | motor.js:74-108 | each command writes IN1, IN2, IN3, IN4 in that order |
| HBridge.TransientBrake | motor.js:85-94 | going from backward to forward, the first pin write already leaves one side with both inputs high, so the writes are not atomic |
| Motor.GpioDistinct | motor.js:39-49 | the seven pins are wired to distinct GPIO numbers |
| Motor.MotorDriver.constructor | motor.js:28 | the driver starts not ready, over whatever levels the daemon holds |
| Motor.MotorDriver.WritePin | motor.js:57 | one pin changes and the write is logged |
| Motor.MotorDriver.Apply | motor.js:74-108 | the inputs become the direction's pattern, the enables and the light are untouched, and the four writes are logged |
| Motor.MotorDriver.Command | motor.js:74-108 | before connection nothing is written; afterwards the inputs become the direction's safe pattern and nothing else changes |
| Motor.MotorDriver.StopAll | motor.js:74-80 | once ready, all four inputs are low |
| Motor.MotorDriver.Forward | motor.js:82-87 | once ready, the inputs are 1,0,1,0 |
| Motor.MotorDriver.Backward | motor.js:89-94 | once ready, the inputs are 0,1,0,1 |
| Motor.MotorDriver.Left | motor.js:96-101 | once ready, the inputs are 0,1,1,0 |
| Motor.MotorDriver.Right | motor.js:103-108 | once ready, the inputs are 1,0,0,1 |
| Motor.MotorDriver.LightOn | motor.js:114-116 | once ready, the light pin goes high and nothing else changes |
| Motor.MotorDriver.LightOff | motor.js:118-120 | once ready, the light pin goes low and nothing else changes |
| Motor.MotorDriver.OnSignal | motor.js:127-135 | on SIGINT/SIGTERM a connected driver stops the motors and turns the light off, writing the four stop levels and then the light, and leaves the enables as they were |
| Motor.MotorDriver.ConnectAsWritten | motor.js:57-64 | as written, a first connect enables both sides but leaves the inputs and the light as the daemon held them |
| Motor.MotorDriver.Connect | motor.js:57-64 | corrected: after connecting, the bridge is enabled over the all-low safe pattern with the light off |
| Motor.StartupDrift | motor.js:57-64 | with the daemon holding the forward pattern, the code as written drives at start-up and the corrected one does not |
| DirectMotor.DirectDriver.constructor | tmp/motor.js:14-17 | the driver starts over whatever levels the pins hold |
| DirectMotor.DirectDriver.DigitalWrite | tmp/motor.js:20 | exactly the written input pin changes and the write is logged |
| DirectMotor.DirectDriver.Drive | tmp/motor.js:19-44 | the inputs become the direction's safe pattern, written IN1..IN4 in order |
| DirectMotor.DirectDriver.StopAll | tmp/motor.js:19-24 | all four inputs are low |
| DirectMotor.DirectDriver.Forward | tmp/motor.js:26-29 | the inputs are 1,0,1,0 |
| DirectMotor.DirectDriver.Backward | tmp/motor.js:31-34 | the inputs are 0,1,0,1 |
| DirectMotor.DirectDriver.Left | tmp/motor.js:36-39 | the inputs are 0,1,1,0 |
| DirectMotor.DirectDriver.Right | tmp/motor.js:41-44 | the inputs are 1,0,0,1 |
| DirectMotor.GetDistance | tmp/motor.js:50-52 | the distance sensor is a stub that never gives a reading |
| DirectMotor.Run | tmp/motor.js:19-44 | a usage scenario, not a loop of the source: after any non-empty sequence of the exported commands, the inputs hold the last command's safe pattern |
| Assistant.KeepLast | Jarvis/ai.js:229-231 | the kept memory is the last `min(n, length)` messages, in order |
| Assistant.RememberSpec | Jarvis/ai.js:225-234 | after remembering a message, memory holds at most 100 messages; the new one is last and is preceded by the most recent older messages; below the bound nothing is dropped |
| Assistant.ExchangeRemembered | Jarvis/ai.js:316-317 | after one exchange the memory ends with the user prompt followed by the reply, preceded by the most recent older messages, and holds at most 100 |
| Assistant.LoadMemory | Jarvis/ai.js:213-219 | a missing memory file gives an empty memory; an existing one gives its messages |
| Assistant.RegistryKeys | Jarvis/ai.js:240-246 | a missing or unparsable registry gives no entities; a parsed registry object gives one key per entry, in `Object.keys` order (the entries are given in that order) |
| Assistant.Upper | Jarvis/ai.js:310 | upper-casing keeps the length and maps each character on its own |
| Assistant.RenderAll | Jarvis/ai.js:310 | one rendered line per message, in order |
| Assistant.RoleNames | Jarvis/ai.js:305-310 | the roles render as `SYSTEM` and `USER` |
| Assistant.PromptLines | Jarvis/ai.js:304-311 | the prompt has memory + 3 lines: the system prompt, the entity list, each remembered message in order, and the user's prompt last |
| Assistant.SplitJoinLines | Jarvis/ai.js:311 | joining lines without newlines by `\n` and splitting again gives back the lines |
| Assistant.PromptSplit | Jarvis/ai.js:304-311 | when no line contains a newline, the prompt sent splits back into exactly the rendered messages |
| Assistant.FirstNonSpace | Jarvis/ai.js:314 | the index of the first non-whitespace character at or after `i`, with only whitespace skipped |
| Assistant.EndOfNonSpace | Jarvis/ai.js:314 | the end of the text once trailing whitespace is dropped, with only whitespace dropped |
| Assistant.TrimSpec | Jarvis/ai.js:314 | `trim` removes exactly the leading and trailing JavaScript whitespace and keeps the middle |
| Assistant.RawReply | Jarvis/ai.js:314 | the raw reply is never empty: a missing or blank response becomes `{}`, and anything else is the trimmed response |
| Assistant.IntentOf | Jarvis/ai.js:319-324 | a reply that parses is the intent; one that does not gives the stop intent |
| Assistant.MissingReplyIntent | Jarvis/ai.js:314-320 | a missing response gives the empty object, not the stop intent |
| Assistant.Conversation.AddToMemory | Jarvis/ai.js:225-234 | the memory file becomes the old memory plus the new message, cut to the last 100 |
| Assistant.Conversation.GetIntent | Jarvis/ai.js:299-325 | the prompt sent is built from the old memory and the registry; a failed request changes nothing and gives no intent; an answer is remembered together with the prompt and yields the parsed or stop intent |

## Left out

- Socket.IO and HTTP transport, `url.parse`, and the Express/`http` servers are not modelled. The pathname, event payloads and connection identities are parameters, and a viewer's writes are recorded in a `writes` log.
- Writes to viewers cannot fail in the model. The code drops a viewer only when its connection closes, and so does the model.
- The `multipart` delimiter is the token `--frame` itself, not `--` + boundary as section 5.1.1 of RFC 2046 prescribes. The model writes what the code writes.
- Spawning `rpicam-vid` and `ffmpeg`, and the shutdown handler with its 3000 ms timer (camera_stream.js:184-194), are not modelled. The camera's output arrives as `OnData` chunks, and the encoder is modelled only by its exit, which unlinks the raw container.
- `Date.now()` is a clock parameter: `clock(i)` is the time when the `i`-th frame of a chunk is handled. Wall-clock ISO strings in server.js are parameters.
- `Math.round` on the frame rate is modelled with integers, with halves rounded up.
- The server.js stats loop (server.js:225-233), CPU, RAM and temperature readings are not modelled, because they are OS queries and floating point.
- ControlServer.Server.Snapshot: the HTTP capture of one frame is a `captured` parameter. The byte piping of the recording request is not modelled. The file holds whatever the camera sent up to the chunk with FF D9.
- The `speed` event sent by the controller has no handler in server.js, so the model has none either.
- CameraRecorder.RecorderService.OnData: the source reassigns the module-level `buffer` on every loop iteration. The model drains a parameter through `DrainFrames` and stores the leftover once at the end. The handler is synchronous, so nothing can observe the intermediate buffer.
- Status-file writes are modelled as field updates (`recStateFile`, `fpsFile`); directory creation is not modelled.
- `unlinkSync` throwing on a missing file is modelled as a `threw` result. The process crash that follows is not modelled.
- ObstacleSensor.Sensor: pigpio timers and reads are explicit events (`TimerFires`, `ReadDone`), with outstanding reads as a count. `modeSet`, `pullUpDown` and console logging are not modelled.
- Motor.MotorDriver: `Safe` holds between commands only. The four pin writes of a command are not atomic (see `HBridge.TransientBrake`). Before `connected`, the pins hold whatever the daemon last set.
- The pigpio daemon connection itself and its `connected` event timing are not modelled. `Connect` is called where the event fires. `tmp/motor.js` uses the local `pigpio` library and needs no connection.
- `Assistant.Upper` upper-cases ASCII letters only. Other characters are kept, whereas `toUpperCase` would also map non-ASCII letters.
- `JSON.parse` is a parameter. The memory file is given as its parsed message list and the registry as its parsed object's entries. A memory file that parses to something other than an array, or a registry that parses to something other than an object, is not modelled.
- JSON numbers are exact `real` values in `Assistant.Json`, not IEEE doubles. Intent fields such as `speed` (0..1) and `steering` (-1..1) are representable, but double rounding is not modelled.
- The ollama HTTP request is the `Outcome` parameter (answered with an optional response, or failed).
- The system prompt text is a parameter. `buildSystemPrompt` interpolates fields the personal context object does not have, so its output contains the word `undefined`. This is not modelled.
- Assistant.PromptSplit: the lemma only applies when no prompt line contains a newline. The system prompt that `buildSystemPrompt` produces starts with a newline and spans many lines, so the prompts the program actually sends are not line-decodable. The lemma is not a guarantee about them; `Assistant.PromptLines` is the statement that applies to every prompt.
- Assistant.Conversation.AddToMemory: the synchronous file write is modelled as setting `memoryFile` to the new contents.
- The entity registry is read only for its keys. `ollamaRequest` (the HTTP call, its model name and its 11434 port) is the `Outcome` parameter, and `saveMemory`'s JSON formatting is not modelled.

## Findings

| source | as written | input that shows it | evidently intended | confidence | as-written member | corrected member |
|---|---|---|---|---|---|---|
| tmp/camera_stream.js:130 | the encoder's exit handler unlinks `currentRecFile` as it stands when the encoder exits, not the file that encoder read | start recording at 1 ms, stop, start again at 2 ms, then the first encoder exits: the active `2.mjpg` is deleted, `1.mjpg` stays, and a later exit throws on the missing file | unlink the container the exiting encoder was given | not executed | CameraRecorder.StaleUnlinkAsWritten | CameraRecorder.StaleUnlinkCorrected |
| motor.js:61-64 | `stopAll()` and `lightOff()` run before `ready = true`, so on the first connect they return without writing, and the bridge is enabled over the daemon's held levels | the pigpio daemon still holds IN1..IN4 = 1,0,1,0 from a run killed while driving: connecting enables both sides and the robot drives off | set `ready` before stopping, so the bridge is enabled over the all-low pattern | not executed | Motor.StartupDrift | Motor.MotorDriver.Connect |
