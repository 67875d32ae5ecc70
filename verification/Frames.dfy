/** The length-prefixed frames between the gateway and its worker processes. */
module Frames {
  import opened Wrappers
  import opened Unicode
  import opened ByteOrder

  const MAX_FRAME_BYTES := 256 * 1024

  /** `EndOfStream` is `Ok(None)`; the other two failures are errors. */
  datatype Outcome = Frame(payload: seq<Byte>) | EndOfStream | BadLength | Truncated

  /** How a reader that takes frames until something else happens stops. */
  datatype End = Clean | Broken

  predicate Fits(payload: seq<Byte>) {
    |payload| <= MAX_FRAME_BYTES
  }

  function FrameBytes(payload: seq<Byte>): (b: seq<Byte>)
    requires Fits(payload)
    ensures |b| == 4 + |payload|
  {
    U32Bytes(|payload|) + payload
  }

  /** The next frame of a stream and the rest. A stream that ends inside a header counts as ended. */
  function ReadFrame(s: seq<Byte>): (r: (Outcome, seq<Byte>))
    ensures r.0.Frame? ==> |r.1| < |s|
  {
    if |s| < 4 then (EndOfStream, [])
    else
      var len := U32At(s, 0);
      if len > MAX_FRAME_BYTES then (BadLength, s[4..])
      else if |s| < 4 + len then (Truncated, [])
      else (Frame(s[4..4 + len]), s[4 + len..])
  }

  function ReadAll(s: seq<Byte>): (seq<seq<Byte>>, End)
    decreases |s|
  {
    match ReadFrame(s)
    case (Frame(payload), rest) => var (more, end) := ReadAll(rest); ([payload] + more, end)
    case (EndOfStream, _) => ([], Clean)
    case (_, _) => ([], Broken)
  }

  function Stream(payloads: seq<seq<Byte>>): seq<Byte>
    requires forall i :: 0 <= i < |payloads| ==> Fits(payloads[i])
  {
    if payloads == [] then [] else FrameBytes(payloads[0]) + Stream(payloads[1..])
  }

  /** How many frames lie entirely in the first `k` bytes. */
  function Complete(payloads: seq<seq<Byte>>, k: nat): (j: nat)
    ensures j <= |payloads|
  {
    if payloads == [] || k < 4 + |payloads[0]| then 0 else 1 + Complete(payloads[1..], k - 4 - |payloads[0]|)
  }

  lemma ReadFrameOfFrame(payload: seq<Byte>, rest: seq<Byte>)
    requires Fits(payload)
    ensures ReadFrame(FrameBytes(payload) + rest) == (Frame(payload), rest)
  {
    var s := FrameBytes(payload) + rest;
    U32RoundTrip(|payload|);
    assert s[..4] == U32Bytes(|payload|);
    U32AtSlice(s, 0, 4);
    assert s[4..4 + |payload|] == payload && s[4 + |payload|..] == rest;
  }

  lemma ReadCutFrame(payload: seq<Byte>, k: nat)
    requires Fits(payload) && k < 4 + |payload|
    ensures ReadFrame(FrameBytes(payload)[..k]).0 == if k < 4 then EndOfStream else Truncated
  {
    var s := FrameBytes(payload)[..k];
    if k >= 4 {
      U32RoundTrip(|payload|);
      assert s[..4] == U32Bytes(|payload|);
      U32AtSlice(s, 0, 4);
    }
  }

  /**
   * Any prefix of a written stream gives back exactly the frames it holds in full. It then ends cleanly if the
   * cut is at a frame boundary or in a header, and with an error if the cut is in a payload.
   */
  lemma {:induction false} ReadAnyPrefix(payloads: seq<seq<Byte>>, k: nat)
    requires forall i :: 0 <= i < |payloads| ==> Fits(payloads[i])
    requires k <= |Stream(payloads)|
    ensures var j := Complete(payloads, k);
            && |Stream(payloads[..j])| <= k
            && ReadAll(Stream(payloads)[..k])
               == (payloads[..j], if k - |Stream(payloads[..j])| < 4 then Clean else Broken)
    decreases |payloads|
  {
    if payloads == [] {
    } else {
      var first := FrameBytes(payloads[0]);
      var s := Stream(payloads)[..k];
      if k < |first| {
        assert s == first[..k];
        ReadCutFrame(payloads[0], k);
        assert payloads[..0] == [];
      } else {
        var rest := Stream(payloads[1..])[..k - |first|];
        assert s == first + rest;
        ReadFrameOfFrame(payloads[0], rest);
        ReadAnyPrefix(payloads[1..], k - |first|);
        var j := Complete(payloads[1..], k - |first|);
        assert payloads[..j + 1] == [payloads[0]] + payloads[1..][..j];
        assert payloads[..j + 1][1..] == payloads[1..][..j];
      }
    }
  }

  lemma {:induction false} CompleteAll(payloads: seq<seq<Byte>>)
    requires forall i :: 0 <= i < |payloads| ==> Fits(payloads[i])
    ensures Complete(payloads, |Stream(payloads)|) == |payloads|
  {
    if payloads != [] {
      CompleteAll(payloads[1..]);
    }
  }

  /** What was written is read back, and then the stream ends cleanly. */
  lemma ReadBack(payloads: seq<seq<Byte>>)
    requires forall i :: 0 <= i < |payloads| ==> Fits(payloads[i])
    ensures ReadAll(Stream(payloads)) == (payloads, Clean)
  {
    var s := Stream(payloads);
    CompleteAll(payloads);
    ReadAnyPrefix(payloads, |s|);
    assert s[..|s|] == s && payloads[..|payloads|] == payloads;
  }

  /** The length is the first four bytes, the lowest first. */
  lemma HeaderBytes(payload: seq<Byte>)
    requires Fits(payload)
    ensures var (b, n) := (FrameBytes(payload), |payload|);
            b[0] == n % 256 && b[1] == n / 256 % 256 && b[2] == n / 65536 && b[3] == 0 && b[4..] == payload
  {
  }

  /** A payload of 262144 bytes is the longest that is written. */
  lemma LongestPayload(payload: seq<Byte>)
    ensures Fits(payload) <==> |payload| <= 262144
  {
  }

  /** A header with a larger length is an error, even with all its bytes behind it; frames before it are kept. */
  lemma {:induction false} OversizedLengthIsAnError(payloads: seq<seq<Byte>>, rest: seq<Byte>)
    requires forall i :: 0 <= i < |payloads| ==> Fits(payloads[i])
    requires |rest| >= 4 && U32At(rest, 0) > 262144
    ensures ReadAll(Stream(payloads) + rest) == (payloads, Broken)
    ensures ReadFrame(rest) == (BadLength, rest[4..])
  {
    if payloads == [] {
      assert Stream(payloads) + rest == rest;
    } else {
      var more := Stream(payloads[1..]) + rest;
      assert Stream(payloads) + rest == FrameBytes(payloads[0]) + more;
      ReadFrameOfFrame(payloads[0], more);
      OversizedLengthIsAnError(payloads[1..], rest);
      assert [payloads[0]] + payloads[1..] == payloads;
    }
  }

  lemma {:induction false} StreamAppend(payloads: seq<seq<Byte>>, p: seq<Byte>)
    requires (forall i :: 0 <= i < |payloads| ==> Fits(payloads[i])) && Fits(p)
    ensures Stream(payloads + [p]) == Stream(payloads) + FrameBytes(p)
  {
    if payloads == [] {
      assert [p][1..] == [] && [] + [p] == [p];
    } else {
      StreamAppend(payloads[1..], p);
      assert (payloads + [p])[1..] == payloads[1..] + [p];
    }
  }

  /** A pipe end: what has been written to it, or what is still to be read from it. */
  class Pipe {
    var bytes: seq<Byte>

    constructor (bytes: seq<Byte>)
      ensures this.bytes == bytes
    {
      this.bytes := bytes;
    }

    /** An oversized payload is refused before anything is written. */
    method WriteFramed(payload: seq<Byte>) returns (ok: bool)
      modifies this
      ensures ok == Fits(payload)
      ensures bytes == if ok then old(bytes) + FrameBytes(payload) else old(bytes)
    {
      if |payload| > MAX_FRAME_BYTES {
        return false;
      }
      bytes := bytes + U32Bytes(|payload|);
      bytes := bytes + payload;
      ok := true;
    }

    /** `read_exact`: all `n` bytes, or nothing and the stream is used up. */
    method ReadExact(n: nat) returns (r: Option<seq<Byte>>)
      modifies this
      ensures n <= |old(bytes)| ==> r == Some(old(bytes)[..n]) && bytes == old(bytes)[n..]
      ensures n > |old(bytes)| ==> r == None && bytes == []
    {
      if n > |bytes| {
        bytes := [];
        return None;
      }
      r, bytes := Some(bytes[..n]), bytes[n..];
    }

    method ReadFramed() returns (r: Outcome)
      modifies this
      ensures (r, bytes) == ReadFrame(old(bytes))
    {
      ghost var before := bytes;
      var header := ReadExact(4);
      if header.None? {
        return EndOfStream;
      }
      U32AtSlice(before, 0, 4);
      var len := U32At(header.value, 0);
      if len > MAX_FRAME_BYTES {
        return BadLength;
      }
      var payload := ReadExact(len);
      if payload.None? {
        return Truncated;
      }
      r := Frame(payload.value);
      assert before[4..][..len] == before[4..4 + len] && before[4..][len..] == before[4 + len..];
    }

    /** The worker's request loop. */
    method ReadFrames() returns (payloads: seq<seq<Byte>>, end: End)
      modifies this
      ensures (payloads, end) == ReadAll(old(bytes))
    {
      payloads, end := [], Clean;
      ghost var all := ReadAll(bytes);
      while true
        invariant payloads + ReadAll(bytes).0 == all.0 && ReadAll(bytes).1 == all.1
        invariant end == Clean
        decreases |bytes|
      {
        ghost var before := bytes;
        var next := ReadFramed();
        assert !next.Frame? ==> ReadAll(before).0 == [] && payloads == all.0;
        match next
        case Frame(payload) => payloads := payloads + [payload];
        case EndOfStream => break;
        case BadLength =>
          end := Broken;
          break;
        case Truncated =>
          end := Broken;
          break;
      }
    }
  }

  /** Whatever one side writes, refused payloads aside, the other side reads. */
  method SendAndReceive(requests: seq<seq<Byte>>, pipe: Pipe) returns (received: seq<seq<Byte>>, end: End)
    requires pipe.bytes == [] && forall i :: 0 <= i < |requests| ==> Fits(requests[i])
    modifies pipe
    ensures received == requests && end == Clean
  {
    var i := 0;
    while i < |requests|
      invariant i <= |requests|
      invariant pipe.bytes == Stream(requests[..i])
    {
      var ok := pipe.WriteFramed(requests[i]);
      StreamAppend(requests[..i], requests[i]);
      assert requests[..i + 1] == requests[..i] + [requests[i]];
      i := i + 1;
    }
    assert requests[..i] == requests;
    ReadBack(requests);
    received, end := pipe.ReadFrames();
  }
}
