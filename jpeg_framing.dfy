/**
 * Cutting JPEG images out of a raw MJPEG byte stream by their start-of-image (SOI,
 * FF D8) and end-of-image (EOI, FF D9) markers, the two-byte markers of ITU-T T.81
 * Annex B, Table B.1. One step finds the first SOI, then the first EOI at or after
 * SOI + 2, emits the bytes from the SOI through the EOI, and drops everything up to
 * and including the EOI. `Extract` repeats the step until no complete pair remains.
 */
module JpegFraming {
  import opened Wrappers
  import opened Search

  newtype byte = b: int | 0 <= b < 256

  const SOI: seq<byte> := [0xFF, 0xD8]
  const EOI: seq<byte> := [0xFF, 0xD9]

  /**
   * A complete frame: it starts with SOI, ends with EOI, and its final EOI is the
   * only EOI in it (the cut stops at the first EOI after the SOI).
   */
  predicate IsFrame(f: seq<byte>) {
    |f| >= 4 && OccursAt(f, SOI, 0) && OccursAt(f, EOI, |f| - 2) &&
    forall i :: 0 <= i < |f| - 2 ==> !OccursAt(f, EOI, i)
  }

  /** Somewhere in `buf` an SOI is followed, at least two bytes later, by an EOI. */
  ghost predicate HasCompleteFrame(buf: seq<byte>) {
    exists s, e :: OccursAt(buf, SOI, s) && OccursAt(buf, EOI, e) && s + 2 <= e
  }

  /** One cut: the bytes dropped before the SOI, the frame, and the bytes after its EOI. */
  datatype Cut = Cut(skipped: seq<byte>, frame: seq<byte>, after: seq<byte>)

  /** One pass of the extraction loop body: the two `indexOf` calls and the two slices. */
  function NextCut(buf: seq<byte>): (r: Option<Cut>)
    ensures r.Some? ==> |r.value.frame| >= 4 && |r.value.skipped| + |r.value.frame| + |r.value.after| == |buf|
  {
    var start := IndexOf(buf, SOI, 0);
    var end := IndexOf(buf, EOI, start + 2);
    if start == -1 || end == -1 then None
    else
      Some(Cut(buf[..start], buf[start..end + 2], buf[end + 2..]))
  }

  /**
   * A cut exists exactly when the buffer holds an SOI followed by an EOI; the frame cut
   * is well formed, the three parts make up the buffer, and the bytes skipped before
   * the frame contain no SOI.
   */
  lemma NextCutSpec(buf: seq<byte>)
    ensures NextCut(buf).None? <==> !HasCompleteFrame(buf)
    ensures NextCut(buf).Some? ==> IsFrame(NextCut(buf).value.frame)
    ensures NextCut(buf).Some? ==> buf == NextCut(buf).value.skipped + NextCut(buf).value.frame + NextCut(buf).value.after
    ensures NextCut(buf).Some? ==> forall i :: 0 <= i < |NextCut(buf).value.skipped| ==> !OccursAt(buf, SOI, i)
  {
    var start := IndexOf(buf, SOI, 0);
    var end := IndexOf(buf, EOI, start + 2);
    if start == -1 || end == -1 {
      NoCompleteFrame(buf, start, end);
    } else {
      NextCutAt(buf, start, end);
      FrameAt(buf, start, end);
      NextCutParts(buf);
    }
  }

  /** What follows the cut frame is a tail of the buffer. */
  lemma NextCutAfter(buf: seq<byte>)
    ensures NextCut(buf).Some? ==> IsTail(NextCut(buf).value.after, buf)
  {
  }

  lemma NextCutParts(buf: seq<byte>)
    ensures NextCut(buf).Some? ==> buf == NextCut(buf).value.skipped + NextCut(buf).value.frame + NextCut(buf).value.after
  {
    var start := IndexOf(buf, SOI, 0);
    var end := IndexOf(buf, EOI, start + 2);
    if start != -1 && end != -1 {
      assert buf == buf[..start] + buf[start..end + 2] + buf[end + 2..];
    }
  }

  lemma NoCompleteFrame(buf: seq<byte>, start: int, end: int)
    requires start == IndexOf(buf, SOI, 0) && end == IndexOf(buf, EOI, start + 2)
    requires start == -1 || end == -1
    ensures !HasCompleteFrame(buf)
  {
  }

  lemma FrameAt(buf: seq<byte>, start: int, end: int)
    requires start == IndexOf(buf, SOI, 0) && end == IndexOf(buf, EOI, start + 2)
    requires start != -1 && end != -1
    ensures HasCompleteFrame(buf)
    ensures IsFrame(buf[start..end + 2])
  {
    var f := buf[start..end + 2];
    assert OccursAt(f, SOI, 0) by {
      assert f[..2] == buf[start..start + 2];
    }
    assert OccursAt(f, EOI, |f| - 2) by {
      assert f[|f| - 2..] == buf[end..end + 2];
    }
    forall i | 0 <= i < |f| - 2 ensures !OccursAt(f, EOI, i) {
      NoEarlyEoi(buf, start, end, i);
    }
  }

  /** Before its last two bytes, the cut frame holds no EOI. */
  lemma NoEarlyEoi(buf: seq<byte>, start: int, end: int, i: int)
    requires OccursAt(buf, SOI, start) && end == IndexOf(buf, EOI, start + 2) && end != -1
    requires 0 <= i < end - start
    ensures !OccursAt(buf[start..end + 2], EOI, i)
  {
    var f := buf[start..end + 2];
    if i < 2 {
      assert f[1] == buf[start..start + 2][1] == 0xD8;
    } else {
      OccursAtSlice(buf, start, end + 2, EOI, i);
    }
  }

  /** The frames cut from `buf`, in order, and the bytes kept for the next chunk. */
  datatype Extraction = Extraction(frames: seq<seq<byte>>, rest: seq<byte>)

  function Extract(buf: seq<byte>): Extraction
    decreases |buf|
  {
    match NextCut(buf)
    case None => Extraction([], buf)
    case Some(c) =>
      var more := Extract(c.after);
      Extraction([c.frame] + more.frames, more.rest)
  }

  /**
   * What `Extract` produces: every frame is well formed, the rest holds no complete
   * SOI/EOI pair, and the rest is the buffer's own tail (kept for the next chunk).
   */
  lemma ExtractSpec(buf: seq<byte>)
    ensures forall f | f in Extract(buf).frames :: IsFrame(f)
    ensures !HasCompleteFrame(Extract(buf).rest)
    ensures |Extract(buf).rest| <= |buf| && Extract(buf).rest == buf[|buf| - |Extract(buf).rest|..]
  {
    ExtractFrames(buf);
    ExtractRest(buf);
    ExtractTail(buf);
    assert IsTail(Extract(buf).rest, buf);
  }

  lemma {:induction false} ExtractFrames(buf: seq<byte>)
    ensures forall f | f in Extract(buf).frames :: IsFrame(f)
    decreases |buf|
  {
    match NextCut(buf)
    case None =>
      ExtractDone(buf);
    case Some(c) =>
      NextCutSpec(buf);
      ExtractFrames(c.after);
      ExtractStep(buf, c);
      var more := Extract(c.after);
      assert forall f | f in [c.frame] + more.frames :: f == c.frame || f in more.frames;
  }

  lemma {:induction false} ExtractRest(buf: seq<byte>)
    ensures !HasCompleteFrame(Extract(buf).rest)
    decreases |buf|
  {
    match NextCut(buf)
    case None =>
      NextCutSpec(buf);
      ExtractDone(buf);
    case Some(c) =>
      ExtractRest(c.after);
      ExtractStep(buf, c);
  }

  /** `u` is the last `|u|` elements of `s`. */
  ghost predicate IsTail<T>(u: seq<T>, s: seq<T>) {
    |u| <= |s| && u == s[|s| - |u|..]
  }

  lemma {:induction false} ExtractTail(buf: seq<byte>)
    ensures IsTail(Extract(buf).rest, buf)
    decreases |buf|
  {
    match NextCut(buf)
    case None =>
      ExtractDone(buf);
    case Some(c) =>
      var rest := Extract(c.after).rest;
      ExtractTail(c.after);
      ExtractStep(buf, c);
      NextCutAfter(buf);
      TailOfTail(buf, c.after, rest);
  }

  /** A tail of a tail is a tail. */
  lemma TailOfTail<T>(s: seq<T>, t: seq<T>, u: seq<T>)
    requires IsTail(t, s) && IsTail(u, t)
    ensures IsTail(u, s)
  {
  }

  /** A cut found in `x` is the same cut in `x + y`, with `y` appended to what follows it. */
  lemma NextCutExtend(x: seq<byte>, y: seq<byte>)
    requires NextCut(x).Some?
    ensures NextCut(x + y) == Some(Cut(NextCut(x).value.skipped, NextCut(x).value.frame, NextCut(x).value.after + y))
  {
    var start := IndexOf(x, SOI, 0);
    var end := IndexOf(x, EOI, start + 2);
    IndexOfExtend(x, y, SOI, 0);
    IndexOfExtend(x, y, EOI, start + 2);
    NextCutAt(x, start, end);
    NextCutAt(x + y, start, end);
    SlicesOfAppend(x, y, start, end + 2);
  }

  /** `NextCut` where both markers were found. */
  lemma NextCutAt(buf: seq<byte>, start: int, end: int)
    requires start == IndexOf(buf, SOI, 0) && end == IndexOf(buf, EOI, start + 2)
    requires start != -1 && end != -1
    ensures 0 <= start <= end && end + 2 <= |buf|
    ensures NextCut(buf) == Some(Cut(buf[..start], buf[start..end + 2], buf[end + 2..]))
  {
  }

  lemma SlicesOfAppend<T>(x: seq<T>, y: seq<T>, i: nat, j: nat)
    requires i <= j <= |x|
    ensures (x + y)[..i] == x[..i] && (x + y)[i..j] == x[i..j] && (x + y)[j..] == x[j..] + y
  {
  }

  /** Unfolding `Extract` where no cut exists. */
  lemma ExtractDone(buf: seq<byte>)
    requires NextCut(buf).None?
    ensures Extract(buf) == Extraction([], buf)
  {
  }

  lemma AppendAssoc<T>(a: seq<T>, b: seq<T>, c: seq<T>)
    ensures a + (b + c) == (a + b) + c
  {
  }

  /** Unfolding one step of `Extract` where a cut exists. */
  lemma ExtractStep(buf: seq<byte>, c: Cut)
    requires NextCut(buf) == Some(c)
    ensures Extract(buf) == Extraction([c.frame] + Extract(c.after).frames, Extract(c.after).rest)
  {
  }

  /** One iteration of the extraction loop, in the loop's own terms: the two indices and the slices. */
  lemma ExtractLoopStep(buf: seq<byte>, start: int, end: int)
    requires start == IndexOf(buf, SOI, 0) && end == IndexOf(buf, EOI, start + 2)
    requires start != -1 && end != -1
    ensures 0 <= start <= end && end + 2 <= |buf|
    ensures IsFrame(buf[start..end + 2])
    ensures Extract(buf) == Extraction([buf[start..end + 2]] + Extract(buf[end + 2..]).frames, Extract(buf[end + 2..]).rest)
  {
    var c := Cut(buf[..start], buf[start..end + 2], buf[end + 2..]);
    NextCutAt(buf, start, end);
    NextCutSpec(buf);
    ExtractStep(buf, c);
  }

  /** The extraction loop stops exactly where `Extract` stops. */
  lemma ExtractLoopExit(buf: seq<byte>, start: int, end: int)
    requires start == IndexOf(buf, SOI, 0) && end == IndexOf(buf, EOI, start + 2)
    requires start == -1 || end == -1
    ensures Extract(buf) == Extraction([], buf)
  {
    ExtractDone(buf);
  }

  /**
   * One pass of the extraction loop body: find the first SOI and the first EOI at or
   * after SOI + 2; if both exist, cut the frame out and keep what follows its EOI.
   * The pass strictly shortens the buffer, and it is the first step of `Extract`.
   */
  method CutFrame(buf: seq<byte>) returns (found: bool, frame: seq<byte>, rest: seq<byte>)
    ensures found ==> |rest| < |buf| && IsFrame(frame)
    ensures found ==> Extract(buf) == Extraction([frame] + Extract(rest).frames, Extract(rest).rest)
    ensures !found ==> rest == buf && Extract(buf) == Extraction([], buf)
  {
    var start := IndexOf(buf, SOI, 0);
    var end := IndexOf(buf, EOI, start + 2);
    if start == -1 || end == -1 {
      ExtractLoopExit(buf, start, end);
      return false, [], buf;
    }
    frame := buf[start..end + 2];
    rest := buf[end + 2..];
    ExtractLoopStep(buf, start, end);
    found := true;
  }

  /** The bytes of a sequence of frames, back to back. */
  function Concat(frames: seq<seq<byte>>): seq<byte>
    decreases |frames|
  {
    if frames == [] then [] else Concat(frames[..|frames| - 1]) + frames[|frames| - 1]
  }

  lemma ConcatSnoc(frames: seq<seq<byte>>, frame: seq<byte>)
    ensures Concat(frames + [frame]) == Concat(frames) + frame
  {
    assert (frames + [frame])[..|frames|] == frames;
  }

  lemma {:induction false} ConcatAppend(a: seq<seq<byte>>, b: seq<seq<byte>>)
    ensures Concat(a + b) == Concat(a) + Concat(b)
    decreases |b|
  {
    if b == [] {
      assert a + b == a;
    } else {
      var b' := b[..|b| - 1];
      assert (a + b)[..|a + b| - 1] == a + b';
      ConcatAppend(a, b');
      AppendAssoc(Concat(a), Concat(b'), b[|b| - 1]);
    }
  }

  /** `ExtractAppend` where `x` holds no complete frame: both sides extract from `x + y`. */
  lemma ExtractAppendDone(x: seq<byte>, y: seq<byte>)
    requires NextCut(x).None?
    ensures Extract(x + y).frames == Extract(x).frames + Extract(Extract(x).rest + y).frames
    ensures Extract(x + y).rest == Extract(Extract(x).rest + y).rest
  {
    ExtractDone(x);
  }

  /** `ExtractAppend` where `x` holds a frame, given the claim for what follows that frame. */
  lemma ExtractAppendCut(x: seq<byte>, y: seq<byte>, c: Cut)
    requires NextCut(x) == Some(c)
    requires Extract(c.after + y).frames == Extract(c.after).frames + Extract(Extract(c.after).rest + y).frames
    requires Extract(c.after + y).rest == Extract(Extract(c.after).rest + y).rest
    ensures Extract(x + y).frames == Extract(x).frames + Extract(Extract(x).rest + y).frames
    ensures Extract(x + y).rest == Extract(Extract(x).rest + y).rest
  {
    NextCutExtend(x, y);
    var inner := Extract(c.after);
    var tail := Extract(inner.rest + y);
    ExtractStep(x, c);
    ExtractStep(x + y, Cut(c.skipped, c.frame, c.after + y));
    AppendAssoc([c.frame], inner.frames, tail.frames);
  }

  /**
   * Chunk boundaries are invisible: extracting from `x + y` yields the frames of `x`
   * followed by the frames of (what `x` left over) + `y`, with the same final rest.
   */
  lemma {:induction false} ExtractAppend(x: seq<byte>, y: seq<byte>)
    ensures Extract(x + y).frames == Extract(x).frames + Extract(Extract(x).rest + y).frames
    ensures Extract(x + y).rest == Extract(Extract(x).rest + y).rest
    decreases |x|
  {
    match NextCut(x)
    case None =>
      ExtractAppendDone(x, y);
    case Some(c) =>
      ExtractAppend(c.after, y);
      ExtractAppendCut(x, y, c);
  }
}
