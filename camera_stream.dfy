/**
 * The live MJPEG service of `camera_stream.js`: viewers connect to the stream endpoint
 * and are appended to an ordered client list; every chunk of camera output is appended
 * to a byte buffer from which complete JPEG frames are cut and sent to every viewer;
 * a frame-rate figure is recomputed over windows of at least two seconds. With no
 * viewer connected, a chunk is thrown away together with the buffer.
 */
module CameraStream {
  import opened JpegFraming
  import opened Multipart
  import opened Search
  import Decimal

  const FPS_WINDOW_MS: nat := 2000

  /** `Math.round(count * 1000 / elapsed)`: the nearest integer, halves rounded up. */
  function RoundedFps(count: nat, elapsed: nat): (r: nat)
    requires elapsed > 0
    ensures (2 * r - 1) * elapsed <= 2000 * count < (2 * r + 1) * elapsed
  {
    (2000 * count + elapsed) / (2 * elapsed)
  }

  /** The frame-rate state: `frameCounter`, `currentFps`, `lastFpsTime`. */
  datatype FpsMeter = FpsMeter(frameCounter: nat, currentFps: nat, lastFpsTime: nat)

  /** The bookkeeping done for one extracted frame at time `now`. */
  function Tick(m: FpsMeter, now: nat): FpsMeter {
    var count := m.frameCounter + 1;
    var elapsed := now - m.lastFpsTime;
    if elapsed >= FPS_WINDOW_MS then FpsMeter(0, RoundedFps(count, elapsed), now)
    else FpsMeter(count, m.currentFps, m.lastFpsTime)
  }

  /**
   * `k` frames extracted from one chunk; `clock(i)` is the `Date.now()` reading taken
   * while counting the `i`-th of them.
   */
  function TickN(m: FpsMeter, clock: nat -> nat, k: nat): FpsMeter {
    if k == 0 then m else Tick(TickN(m, clock, k - 1), clock(k - 1))
  }

  /**
   * The frame-rate state after `k > 0` frames read within one millisecond: once two
   * seconds have passed since the last report, the first frame publishes the rounded
   * rate over the whole window (counting itself) and opens a new window, which the
   * remaining `k - 1` frames fill; otherwise every frame only increments the counter.
   */
  lemma {:induction false} TickNAfter(m: FpsMeter, clock: nat -> nat, k: nat, now: nat)
    requires k > 0
    requires forall i | 0 <= i < k :: clock(i) == now
    ensures now - m.lastFpsTime >= FPS_WINDOW_MS ==>
      TickN(m, clock, k) == FpsMeter(k - 1, RoundedFps(m.frameCounter + 1, now - m.lastFpsTime), now)
    ensures now - m.lastFpsTime < FPS_WINDOW_MS ==>
      TickN(m, clock, k) == FpsMeter(m.frameCounter + k, m.currentFps, m.lastFpsTime)
  {
    if k > 1 {
      TickNAfter(m, clock, k - 1, now);
    }
  }

  /**
   * With a clock that does not run backwards, the window never lags behind it by a
   * full two seconds once a frame has been counted: the window start stays at or
   * before the latest reading and within two seconds of it.
   */
  lemma {:induction false} TickNLag(m: FpsMeter, clock: nat -> nat, k: nat)
    requires k > 0
    requires forall i, j | 0 <= i <= j < k :: clock(i) <= clock(j)
    requires m.lastFpsTime <= clock(0)
    ensures m.lastFpsTime <= TickN(m, clock, k).lastFpsTime <= clock(k - 1)
    ensures clock(k - 1) < TickN(m, clock, k).lastFpsTime + FPS_WINDOW_MS
  {
    if k > 1 {
      TickNLag(m, clock, k - 1);
    }
  }

  /** What the HTTP handler answers: the `/fps` JSON document, or a new stream viewer. */
  datatype Response = FpsDocument(status: nat, body: string) | StreamOpened(client: ClientId)

  function FpsBody(fps: nat): string {
    "{\"fps\":" + Decimal.Format(fps) + "}"
  }

  class StreamService {
    var clients: seq<ClientId>
    var nextClient: ClientId
    var buffer: seq<byte>
    var frameCounter: nat
    var currentFps: nat
    var lastFpsTime: nat
    /** Everything written to viewers, in order. */
    var writes: seq<Write>

    ghost predicate Valid()
      reads this
    {
      Distinct(clients) && forall c | c in clients :: c < nextClient
    }

    function Meter(): FpsMeter
      reads this
    {
      FpsMeter(frameCounter, currentFps, lastFpsTime)
    }

    constructor (now: nat)
      ensures Valid()
      ensures clients == [] && buffer == [] && writes == []
      ensures Meter() == FpsMeter(0, 0, now)
    {
      clients, nextClient, buffer := [], 0, [];
      frameCounter, currentFps, lastFpsTime := 0, 0, now;
      writes := [];
    }

    /**
     * An HTTP request: `/fps` answers the current rate and changes nothing; any other
     * path opens the multipart stream and appends the response to the client list.
     */
    method Request(url: string) returns (resp: Response)
      requires Valid()
      modifies this
      ensures Valid()
      ensures url == "/fps" ==>
        && resp == FpsDocument(200, FpsBody(currentFps))
        && clients == old(clients) && nextClient == old(nextClient) && writes == old(writes)
      ensures url != "/fps" ==>
        && resp.StreamOpened? && resp.client !in old(clients)
        && clients == old(clients) + [resp.client] && nextClient == old(nextClient) + 1
        && writes == old(writes) + [Write(resp.client, Head(STREAM_CONTENT_TYPE))]
      ensures buffer == old(buffer) && Meter() == old(Meter())
    {
      if url == "/fps" {
        resp := FpsDocument(200, FpsBody(currentFps));
        return;
      }
      var c := nextClient;
      assert c !in clients;
      nextClient := nextClient + 1;
      writes := writes + [Write(c, Head(STREAM_CONTENT_TYPE))];
      clients := clients + [c];
      resp := StreamOpened(c);
    }

    /** The viewer's request closed: exactly that response leaves the list. */
    method Close(c: ClientId)
      requires Valid()
      modifies this`clients
      ensures Valid()
      ensures clients == Without(old(clients), c)
    {
      WithoutDistinct(clients, c);
      clients := Without(clients, c);
    }

    /**
     * The camera's `data` handler. With viewers connected, the chunk is appended to the
     * buffer and the loop cuts frames until no complete SOI/EOI pair remains: every
     * frame of `Extract(buffer + chunk)` is counted and broadcast, in order, and the
     * buffer keeps exactly the unparsed rest. With no viewer, the buffer is emptied,
     * the counter reset and the window restarted at the event's first clock reading.
     * `clock(i)` is the `i`-th `Date.now()` reading of the event.
     */
    method OnData(chunk: seq<byte>, clock: nat -> nat)
      requires Valid()
      modifies this`buffer, this`frameCounter, this`currentFps, this`lastFpsTime, this`writes
      ensures Valid()
      ensures old(clients) == [] ==>
        buffer == [] && Meter() == FpsMeter(0, old(currentFps), clock(0)) && writes == old(writes)
      ensures old(clients) != [] ==>
        var ex := Extract(old(buffer) + chunk);
        && buffer == ex.rest
        && Meter() == TickN(old(Meter()), clock, |ex.frames|)
        && writes == old(writes) + BroadcastFrames(clients, ex.frames)
    {
      if |clients| == 0 {
        buffer := [];
        frameCounter := 0;
        lastFpsTime := clock(0);
        return;
      }

      buffer := buffer + chunk;
      DrainFrames(clock);
    }

    /**
     * The `while (true)` loop of the data handler: cut, count and broadcast frames until
     * no complete SOI/EOI pair is left in the buffer.
     */
    method DrainFrames(clock: nat -> nat)
      modifies this`buffer, this`frameCounter, this`currentFps, this`lastFpsTime, this`writes
      ensures buffer == Extract(old(buffer)).rest
      ensures Meter() == TickN(old(Meter()), clock, |Extract(old(buffer)).frames|)
      ensures writes == old(writes) + BroadcastFrames(clients, Extract(old(buffer)).frames)
    {
      ghost var emitted: seq<seq<byte>> := [];
      var n := 0;
      assert emitted + Extract(buffer).frames == Extract(buffer).frames;
      while true
        invariant n == |emitted|
        invariant Extract(old(buffer)).frames == emitted + Extract(buffer).frames
        invariant Extract(old(buffer)).rest == Extract(buffer).rest
        invariant Meter() == TickN(old(Meter()), clock, |emitted|)
        invariant writes == old(writes) + BroadcastFrames(clients, emitted)
        decreases |buffer|
      {
        var found, frame, rest := CutFrame(buffer);
        if !found {
          assert emitted + [] == emitted;
          assert Extract(old(buffer)).frames == emitted;
          break;
        }
        buffer := rest;
        AppendAssoc(emitted, [frame], Extract(buffer).frames);
        BroadcastFramesSnoc(clients, emitted, frame);
        AppendAssoc(old(writes), BroadcastFrames(clients, emitted), BroadcastFrame(clients, frame));
        Deliver(frame, clock(n));
        emitted := emitted + [frame];
        n := n + 1;
      }
    }

    /** Everything done with one extracted frame: count it, then send it to every viewer. */
    method Deliver(frame: seq<byte>, now: nat)
      modifies this`frameCounter, this`currentFps, this`lastFpsTime, this`writes
      ensures Meter() == Tick(old(Meter()), now)
      ensures writes == old(writes) + BroadcastFrame(clients, frame)
    {
      CountFrame(now);
      var ws := Broadcast(clients, frame);
      writes := writes + ws;
    }

    /** The per-frame frame-rate bookkeeping. */
    method CountFrame(now: nat)
      modifies this`frameCounter, this`currentFps, this`lastFpsTime
      ensures Meter() == Tick(old(Meter()), now)
    {
      frameCounter := frameCounter + 1;
      var elapsed := now - lastFpsTime;
      if elapsed >= FPS_WINDOW_MS {
        currentFps := RoundedFps(frameCounter, elapsed);
        frameCounter := 0;
        lastFpsTime := now;
      }
    }
  }
}
