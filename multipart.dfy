/**
 * The viewer side of the MJPEG stream: the ordered list of connected responses and the
 * writes each frame produces on them. Both camera services write a part as three
 * writes: a header text whose first line is the declared boundary token `--frame`
 * itself (no extra `--` is prepended), the frame bytes, and a closing CRLF.
 */
module Multipart {
  import opened JpegFraming
  import Decimal

  /** An HTTP response object, identified by the order in which it was accepted. */
  type ClientId = nat

  const BOUNDARY: string := "--frame"
  const STREAM_CONTENT_TYPE: string := "multipart/x-mixed-replace; boundary=" + BOUNDARY

  datatype Payload = Head(contentType: string) | Text(text: string) | Bytes(data: seq<byte>)

  /** One `writeHead` / `write` call on one response. */
  datatype Write = Write(to: ClientId, payload: Payload)

  function PartHeader(length: nat): string {
    BOUNDARY + "\r\n" + "Content-Type: image/jpeg\r\n" + "Content-Length: " + Decimal.Format(length) + "\r\n\r\n"
  }

  /** The three writes one client receives for one frame. */
  function PartWrites(c: ClientId, frame: seq<byte>): seq<Write> {
    [Write(c, Text(PartHeader(|frame|))), Write(c, Bytes(frame)), Write(c, Text("\r\n"))]
  }

  /** One frame sent to every client, in list order. */
  function BroadcastFrame(cs: seq<ClientId>, frame: seq<byte>): seq<Write>
    decreases |cs|
  {
    if cs == [] then [] else BroadcastFrame(cs[..|cs| - 1], frame) + PartWrites(cs[|cs| - 1], frame)
  }

  /** The `for (const c of clients)` loop: the writes one frame produces, in list order. */
  method Broadcast(cs: seq<ClientId>, frame: seq<byte>) returns (ws: seq<Write>)
    ensures ws == BroadcastFrame(cs, frame)
  {
    ws := [];
    for i := 0 to |cs|
      invariant ws == BroadcastFrame(cs[..i], frame)
    {
      var c := cs[i];
      ws := ws + [Write(c, Text(PartHeader(|frame|)))];
      ws := ws + [Write(c, Bytes(frame))];
      ws := ws + [Write(c, Text("\r\n"))];
      assert cs[..i + 1][..i] == cs[..i];
    }
    assert cs[..|cs|] == cs;
  }

  /** Each frame in turn sent to every client. */
  function BroadcastFrames(cs: seq<ClientId>, frames: seq<seq<byte>>): seq<Write>
    decreases |frames|
  {
    if frames == [] then []
    else BroadcastFrames(cs, frames[..|frames| - 1]) + BroadcastFrame(cs, frames[|frames| - 1])
  }

  lemma BroadcastFramesSnoc(cs: seq<ClientId>, frames: seq<seq<byte>>, frame: seq<byte>)
    ensures BroadcastFrames(cs, frames + [frame]) == BroadcastFrames(cs, frames) + BroadcastFrame(cs, frame)
  {
    assert (frames + [frame])[..|frames|] == frames;
  }

  /** The writes of a log that reach client `c`, in order. */
  function WritesTo(ws: seq<Write>, c: ClientId): seq<Write>
    decreases |ws|
  {
    if ws == [] then []
    else WritesTo(ws[..|ws| - 1], c) + (if ws[|ws| - 1].to == c then [ws[|ws| - 1]] else [])
  }

  /** What a single viewer should see for a sequence of frames: one part per frame. */
  function PartsFor(c: ClientId, frames: seq<seq<byte>>): seq<Write>
    decreases |frames|
  {
    if frames == [] then [] else PartsFor(c, frames[..|frames| - 1]) + PartWrites(c, frames[|frames| - 1])
  }

  predicate Distinct(cs: seq<ClientId>) {
    forall i, j :: 0 <= i < j < |cs| ==> cs[i] != cs[j]
  }

  lemma {:induction false} WritesToAppend(a: seq<Write>, b: seq<Write>, c: ClientId)
    ensures WritesTo(a + b, c) == WritesTo(a, c) + WritesTo(b, c)
    decreases |b|
  {
    if b == [] {
      assert a + b == a;
    } else {
      var b' := b[..|b| - 1];
      assert (a + b)[..|a + b| - 1] == a + b';
      WritesToAppend(a, b', c);
    }
  }

  /** A log addressed entirely to `d` reaches `c` whole or not at all. */
  lemma {:induction false} WritesToSingle(ws: seq<Write>, d: ClientId, c: ClientId)
    requires forall k :: 0 <= k < |ws| ==> ws[k].to == d
    ensures WritesTo(ws, c) == if d == c then ws else []
    decreases |ws|
  {
    if ws != [] {
      WritesToSingle(ws[..|ws| - 1], d, c);
    }
  }

  lemma WritesToParts(d: ClientId, frame: seq<byte>, c: ClientId)
    ensures WritesTo(PartWrites(d, frame), c) == if d == c then PartWrites(d, frame) else []
  {
    WritesToSingle(PartWrites(d, frame), d, c);
  }

  /** One broadcast gives a client its part exactly when it is (once) in the list. */
  lemma {:induction false} BroadcastFrameTo(cs: seq<ClientId>, frame: seq<byte>, c: ClientId)
    requires Distinct(cs)
    ensures WritesTo(BroadcastFrame(cs, frame), c) == if c in cs then PartWrites(c, frame) else []
    decreases |cs|
  {
    if cs != [] {
      var init := cs[..|cs| - 1];
      var last := cs[|cs| - 1];
      assert Distinct(init);
      assert c == last ==> c !in init;
      assert c in cs <==> c in init || c == last;
      BroadcastFrameTo(init, frame, c);
      WritesToAppend(BroadcastFrame(init, frame), PartWrites(last, frame), c);
      WritesToParts(last, frame, c);
    }
  }

  /**
   * Viewers are isolated from each other: out of the whole broadcast log a connected
   * client sees exactly its own part for every frame, in frame order, and a client
   * that is not connected sees nothing.
   */
  lemma {:induction false} BroadcastIsolation(cs: seq<ClientId>, frames: seq<seq<byte>>, c: ClientId)
    requires Distinct(cs)
    ensures WritesTo(BroadcastFrames(cs, frames), c) == if c in cs then PartsFor(c, frames) else []
    decreases |frames|
  {
    if frames != [] {
      var init := frames[..|frames| - 1];
      var last := frames[|frames| - 1];
      BroadcastIsolation(cs, init, c);
      WritesToAppend(BroadcastFrames(cs, init), BroadcastFrame(cs, last), c);
      BroadcastFrameTo(cs, last, c);
    }
  }

  /** `clients.filter(c => c !== res)`: every entry equal to `c` is dropped, the rest keep their order. */
  function Without(cs: seq<ClientId>, c: ClientId): (r: seq<ClientId>)
    ensures forall x :: x in r <==> x in cs && x != c
    ensures |r| <= |cs|
    decreases |cs|
  {
    if cs == [] then []
    else if cs[|cs| - 1] == c then Without(cs[..|cs| - 1], c)
    else Without(cs[..|cs| - 1], c) + [cs[|cs| - 1]]
  }

  /** Removing a client that is listed once deletes exactly that entry, keeping the others in order. */
  lemma {:induction false} WithoutListed(cs: seq<ClientId>, i: nat)
    requires Distinct(cs) && i < |cs|
    ensures Without(cs, cs[i]) == cs[..i] + cs[i + 1..]
    decreases |cs|
  {
    var init := cs[..|cs| - 1];
    if i == |cs| - 1 {
      WithoutAbsent(init, cs[i]);
      assert cs[i + 1..] == [];
    } else {
      assert init[i] == cs[i];
      WithoutListed(init, i);
      assert cs[..i] + cs[i + 1..] == init[..i] + init[i + 1..] + [cs[|cs| - 1]];
    }
  }

  /** Removing a client that is not listed changes nothing. */
  lemma {:induction false} WithoutAbsent(cs: seq<ClientId>, c: ClientId)
    requires c !in cs
    ensures Without(cs, c) == cs
    decreases |cs|
  {
    if cs != [] {
      WithoutAbsent(cs[..|cs| - 1], c);
    }
  }

  lemma {:induction false} WithoutDistinct(cs: seq<ClientId>, c: ClientId)
    requires Distinct(cs)
    ensures Distinct(Without(cs, c))
    decreases |cs|
  {
    if cs != [] {
      var init := cs[..|cs| - 1];
      var last := cs[|cs| - 1];
      assert Distinct(init);
      assert last !in init;
      WithoutDistinct(init, c);
      if last != c {
        var r := Without(init, c);
        assert last !in r;
        assert Without(cs, c) == r + [last];
      }
    }
  }
}
