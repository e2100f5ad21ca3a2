/** The framed transport between the worker and the computer-use process. */
module Framing {
  import opened Common

  newtype Byte = x: int | 0 <= x < 256

  const PROTOCOL_VERSION: nat := 1
  const MAX_HEADER_BYTES: nat := 16 * 1024 * 1024
  const MAX_PAYLOAD_BYTES: nat := 16 * 1024 * 1024

  /** The canonical text of a JSON value. */
  type Json = string

  datatype Outcome = Success(data: Json) | Failure(error: Json)

  datatype Message =
    | Request(requestId: nat, operation: Json)
    | Response(requestId: nat, result: Outcome)
    | Event(sequence: nat, sessionId: Option<string>, event: Json)
    | Cancel(requestId: nat)
    | HostCall(evaluationRequestId: nat, callId: nat, action: Json)
    | HostResult(evaluationRequestId: nat, callId: nat, result: Outcome)

  datatype Header = Header(version: nat, message: Message)

  datatype Frame = Frame(header: Header, payload: seq<Byte>)

  datatype Problem = InvalidData | UnexpectedEof | Transport

  function PrimaryId(m: Message): nat {
    match m
    case Request(id, _) => id
    case Response(id, _) => id
    case Cancel(id) => id
    case Event(sequence, _, _) => sequence
    case HostCall(id, _, _) => id
    case HostResult(id, _, _) => id
  }

  predicate ValidHeader(h: Header, payload: nat) {
    && h.version == PROTOCOL_VERSION
    && InSequence(PrimaryId(h.message))
    && (h.message.HostCall? || h.message.HostResult? ==> InSequence(h.message.callId))
    && payload <= MAX_PAYLOAD_BYTES
    && (payload != 0 ==> h.message.Response? && h.message.result.Success?)
  }

  /** The JSON serialisation of headers. */
  datatype Codec = Codec(encode: Header -> seq<Byte>, decode: seq<Byte> -> Option<Header>)

  /** What the program relies on: valid headers survive, and their text is never empty. */
  ghost predicate Lawful(c: Codec) {
    forall h :: ValidHeader(h, 0) ==> c.encode(h) != [] && c.decode(c.encode(h)) == Some(h)
  }

  // ---- Lengths ----

  /** Most significant byte first. */
  function Encode32(n: nat): (bytes: seq<Byte>)
    requires n < 0x1_0000_0000
    ensures |bytes| == 4
  {
    [(n / 0x100_0000) as Byte, (n / 0x1_0000 % 0x100) as Byte, (n / 0x100 % 0x100) as Byte, (n % 0x100) as Byte]
  }

  function Decode32(bytes: seq<Byte>): (n: nat)
    requires |bytes| == 4
    ensures n == bytes[0] as nat * 0x100_0000 + bytes[1] as nat * 0x1_0000 + bytes[2] as nat * 0x100 + bytes[3] as nat
  {
    ((bytes[0] as nat * 0x100 + bytes[1] as nat) * 0x100 + bytes[2] as nat) * 0x100 + bytes[3] as nat
  }

  lemma LengthRoundTrip(n: nat)
    requires n < 0x1_0000_0000
    ensures Decode32(Encode32(n)) == n
  {
    assert n / 0x100 / 0x100 == n / 0x1_0000 && n / 0x1_0000 / 0x100 == n / 0x100_0000;
  }

  // ---- Writing ----

  /** The bytes of one frame; `None` when the frame or its header is refused and nothing is written. */
  function Written(c: Codec, f: Frame): Option<seq<Byte>> {
    var header := c.encode(f.header);
    if !ValidHeader(f.header, |f.payload|) || |header| > MAX_HEADER_BYTES then None
    else Some(Encode32(|header|) + Encode32(|f.payload|) + header + f.payload)
  }

  /** A frame is written exactly when its version is known, its identifiers are in range, only a successful
      response carries a payload, and both lengths are within their limits; then come the two lengths, the
      header and the payload. */
  lemma WrittenMeans(c: Codec, f: Frame)
    ensures var h, m := c.encode(f.header), f.header.message;
            && (Written(c, f).Some? <==>
                  && f.header.version == 1 && |h| <= 16777216 && |f.payload| <= 16777216
                  && 1 <= PrimaryId(m) <= MAX_SAFE_INTEGER
                  && (m.HostCall? || m.HostResult? ==> 1 <= m.callId <= MAX_SAFE_INTEGER)
                  && (f.payload == [] || (m.Response? && m.result.Success?)))
            && (Written(c, f).Some? ==>
                  var w := Written(c, f).value;
                  && |w| == 8 + |h| + |f.payload| && Decode32(w[..4]) == |h| && Decode32(w[4..8]) == |f.payload|
                  && w[8..8 + |h|] == h && w[8 + |h|..] == f.payload)
  {
    hide Encode32, Decode32;
    if Written(c, f).Some? {
      var h, w := c.encode(f.header), Written(c, f).value;
      LengthRoundTrip(|h|);
      LengthRoundTrip(|f.payload|);
      assert w[..4] == Encode32(|h|) && w[4..8] == Encode32(|f.payload|);
      assert w[8..8 + |h|] == h && w[8 + |h|..] == f.payload;
    }
  }

  function Concat(parts: seq<seq<Byte>>): seq<Byte> {
    if parts == [] then [] else parts[0] + Concat(parts[1..])
  }

  /** Collects the header as the serialiser emits it, refusing a piece that would pass the limit. */
  class HeaderBuffer {
    var bytes: seq<Byte>

    constructor ()
      ensures bytes == []
    {
      bytes := [];
    }

    method Put(piece: seq<Byte>) returns (ok: bool)
      requires |bytes| <= MAX_HEADER_BYTES
      modifies this
      ensures ok <==> |old(bytes)| + |piece| <= MAX_HEADER_BYTES
      ensures bytes == (if ok then old(bytes) + piece else old(bytes)) && |bytes| <= MAX_HEADER_BYTES
    {
      if |piece| > MAX_HEADER_BYTES - |bytes| {
        return false;
      }
      bytes := bytes + piece;
      return true;
    }
  }

  lemma {:induction false} ConcatLonger(parts: seq<seq<Byte>>, n: nat)
    requires n <= |parts|
    ensures |Concat(parts[..n])| <= |Concat(parts)|
  {
    if n > 0 {
      assert parts[..n][1..] == parts[1..][..n - 1];
      ConcatLonger(parts[1..], n - 1);
    }
  }

  lemma {:induction false} ConcatAppend(parts: seq<seq<Byte>>, last: seq<Byte>)
    ensures Concat(parts + [last]) == Concat(parts) + last
  {
    if parts == [] {
      assert Concat([last]) == last + Concat([]);
    } else {
      assert (parts + [last])[1..] == parts[1..] + [last];
      ConcatAppend(parts[1..], last);
    }
  }

  /** Collects the header, however the serialiser splits it. */
  method CollectHeader(c: Codec, h: Header, pieces: seq<seq<Byte>>) returns (header: Option<seq<Byte>>)
    requires Concat(pieces) == c.encode(h)
    ensures header == if |c.encode(h)| <= MAX_HEADER_BYTES then Some(c.encode(h)) else None
  {
    var buffer := new HeaderBuffer();
    for i := 0 to |pieces|
      invariant buffer.bytes == Concat(pieces[..i]) && |buffer.bytes| <= MAX_HEADER_BYTES
    {
      assert pieces[..i + 1] == pieces[..i] + [pieces[i]];
      ConcatAppend(pieces[..i], pieces[i]);
      ConcatLonger(pieces, i + 1);
      var ok := buffer.Put(pieces[i]);
      if !ok {
        return None;
      }
    }
    assert pieces[..|pieces|] == pieces;
    return Some(buffer.bytes);
  }

  /** One answer of a stream: so many bytes, an interruption, or a failure. */
  datatype Turn = Deliver(most: nat) | Interrupt | Fail

  predicate SuffixOf(a: seq<Turn>, b: seq<Turn>) {
    |a| <= |b| && a == b[|b| - |a|..]
  }

  datatype WriteResult = Wrote(count: nat) | WriteInterrupted | WriteFailed

  /** The writing end of a pipe that may take a write in parts, be interrupted, or fail. */
  class Pipe {
    var sent: seq<Byte>
    /** How the pipe will answer; afterwards it takes all it is given. */
    var script: seq<Turn>

    constructor (turns: seq<Turn>)
      ensures sent == [] && script == turns
    {
      sent, script := [], turns;
    }

    method Write(bytes: seq<Byte>) returns (r: WriteResult)
      modifies this
      ensures r.Wrote? ==> r.count <= |bytes| && sent == old(sent) + bytes[..r.count]
      ensures !r.Wrote? ==> sent == old(sent) && |script| < |old(script)|
      ensures |script| <= |old(script)|
    {
      var n := |bytes|;
      if script != [] {
        var turn := script[0];
        script := script[1..];
        match turn {
          case Interrupt => return WriteInterrupted;
          case Fail => return WriteFailed;
          case Deliver(most) => n := if most < |bytes| then most else |bytes|;
        }
      }
      sent := sent + bytes[..n];
      return Wrote(n);
    }

    /** Writes everything, or stops with the first part sent and at least one byte unsent. */
    method WriteAll(bytes: seq<Byte>) returns (ok: bool, ghost m: nat)
      modifies this
      ensures m <= |bytes| && sent == old(sent) + bytes[..m] && (ok <==> m == |bytes|)
    {
      var done := 0;
      while done < |bytes|
        invariant 0 <= done <= |bytes| && sent == old(sent) + bytes[..done]
        decreases |bytes| - done, |script|
      {
        var r := Write(bytes[done..]);
        match r {
          case WriteInterrupted =>
          case WriteFailed => return false, done;
          case Wrote(n) =>
            if n == 0 {
              return false, done;
            }
            assert bytes[..done] + bytes[done..][..n] == bytes[..done + n];
            done := done + n;
        }
      }
      return true, done;
    }

    /** Writes one frame: nothing of a refused frame, all of an accepted one, or, if the pipe fails, a strict
        prefix of it. */
    method WriteFrame(c: Codec, f: Frame, pieces: seq<seq<Byte>>) returns (ok: bool, ghost m: nat)
      requires Concat(pieces) == c.encode(f.header)
      modifies this
      ensures Written(c, f).None? ==> !ok && m == 0 && sent == old(sent)
      ensures Written(c, f).Some? ==>
                var frame := Written(c, f).value;
                m <= |frame| && sent == old(sent) + frame[..m] && (ok <==> m == |frame|)
    {
      hide Encode32, ValidHeader;
      ok, m := false, 0;
      if !ValidHeader(f.header, |f.payload|) {
        return;
      }
      var header := CollectHeader(c, f.header, pieces);
      if header.None? {
        return;
      }
      PayloadFits(f);
      ok, m := WriteParts(Encode32(|header.value|), Encode32(|f.payload|), header.value, f.payload);
    }

    /** The four parts of a frame, one after another. */
    method WriteParts(a: seq<Byte>, b: seq<Byte>, h: seq<Byte>, p: seq<Byte>) returns (ok: bool, ghost m: nat)
      modifies this
      ensures var frame := a + b + h + p;
              m <= |frame| && sent == old(sent) + frame[..m] && (ok <==> m == |frame|)
    {
      ghost var before, n := sent, 0;
      ok, m := WriteAll(a);
      PartSent(before, [], a, b + h + p, m);
      assert [] + a + (b + h + p) == a + b + h + p;
      if !ok {
        return;
      }
      assert sent == before + a;
      ok, n := WriteAll(b);
      m := |a| + n;
      PartSent(before, a, b, h + p, n);
      assert a + b + (h + p) == a + b + h + p;
      if !ok {
        return;
      }
      assert sent == before + (a + b);
      ok, n := WriteAll(h);
      m := |a + b| + n;
      PartSent(before, a + b, h, p, n);
      if !ok {
        return;
      }
      assert sent == before + (a + b + h);
      ok, n := WriteAll(p);
      m := |a + b + h| + n;
      PartSent(before, a + b + h, p, [], n);
      assert a + b + h + p + [] == a + b + h + p;
    }
  }

  lemma PartSent(before: seq<Byte>, done: seq<Byte>, part: seq<Byte>, rest: seq<Byte>, n: nat)
    requires n <= |part|
    ensures before + done + part[..n] == before + (done + part + rest)[..|done| + n]
  {
    assert done + part[..n] == (done + part + rest)[..|done| + n];
  }

  lemma PayloadFits(f: Frame)
    requires ValidHeader(f.header, |f.payload|)
    ensures |f.payload| <= MAX_PAYLOAD_BYTES
  {
  }

  // ---- Reading ----

  /** What the front of a byte stream holds, and how many bytes reading it uses up. */
  datatype Parsed = Got(frame: Frame, used: nat) | End | Bad(problem: Problem, used: nat)

  function Parse(c: Codec, bytes: seq<Byte>): (p: Parsed)
    ensures !p.End? ==> p.used <= |bytes|
    ensures p.Got? ==> p.used > 8
  {
    if bytes == [] then End
    else if |bytes| < 8 then Bad(UnexpectedEof, |bytes|)
    else
      var header, payload := Decode32(bytes[..4]), Decode32(bytes[4..8]);
      if header == 0 || header > MAX_HEADER_BYTES || payload > MAX_PAYLOAD_BYTES then Bad(InvalidData, 8)
      else if |bytes| < 8 + header then Bad(UnexpectedEof, |bytes|)
      else
        var h := c.decode(bytes[8..8 + header]);
        if h.None? || !ValidHeader(h.value, payload) then Bad(InvalidData, 8 + header)
        else if |bytes| < 8 + header + payload then Bad(UnexpectedEof, |bytes|)
        else Got(Frame(h.value, bytes[8 + header..8 + header + payload]), 8 + header + payload)
  }

  /** What a reader reports. */
  datatype Arrival = Whole(frame: Frame) | Ended | Broken(problem: Problem)

  function Reported(p: Parsed): Arrival {
    match p
    case Got(f, _) => Whole(f)
    case End => Ended
    case Bad(problem, _) => Broken(problem)
  }

  /** The bytes left after reading. */
  function Left(c: Codec, bytes: seq<Byte>): seq<Byte> {
    var p := Parse(c, bytes);
    if p.End? then bytes else bytes[p.used..]
  }

  /** A written frame is read back, whatever follows it. */
  lemma ParseWritten(c: Codec, f: Frame, tail: seq<Byte>)
    requires Lawful(c) && Written(c, f).Some?
    ensures Parse(c, Written(c, f).value + tail) == Got(f, |Written(c, f).value|)
  {
    hide Lawful, Encode32, Decode32, ValidHeader;
    var header := c.encode(f.header);
    var bytes := Written(c, f).value + tail;
    Survives(c, f);
    LengthRoundTrip(|header|);
    LengthRoundTrip(|f.payload|);
    assert bytes[..4] == Encode32(|header|) && bytes[4..8] == Encode32(|f.payload|);
    assert bytes[8..8 + |header|] == header;
    assert bytes[8 + |header|..8 + |header| + |f.payload|] == f.payload;
  }

  lemma Survives(c: Codec, f: Frame)
    requires Lawful(c) && ValidHeader(f.header, |f.payload|)
    ensures c.encode(f.header) != [] && c.decode(c.encode(f.header)) == Some(f.header)
    ensures |f.payload| <= MAX_PAYLOAD_BYTES
  {
    assert ValidHeader(f.header, 0);
  }

  /** The front of the stream is a whole valid frame: two lengths within their limits, a header that decodes to
      one valid for that payload, and all of the payload. */
  ghost predicate Fronts(c: Codec, bytes: seq<Byte>, f: Frame) {
    |bytes| >= 8 &&
    var n, m := Decode32(bytes[..4]), Decode32(bytes[4..8]);
    && 0 < n <= MAX_HEADER_BYTES && m <= MAX_PAYLOAD_BYTES && |bytes| >= 8 + n + m
    && c.decode(bytes[8..8 + n]) == Some(f.header) && ValidHeader(f.header, m) && f.payload == bytes[8 + n..8 + n + m]
  }

  /** What is read is always a valid frame whose parts stand in the stream, and every such frame is read. */
  lemma ParsedIsValid(c: Codec, bytes: seq<Byte>, f: Frame)
    ensures Parse(c, bytes).Got? && Parse(c, bytes).frame == f <==> Fronts(c, bytes, f)
    ensures Parse(c, bytes).End? <==> bytes == []
  {
    hide ValidHeader, Decode32;
  }

  /** The whole stream: its frames, and whether it ended cleanly. */
  function ParseAll(c: Codec, bytes: seq<Byte>): (seq<Frame>, bool)
    decreases |bytes|
  {
    match Parse(c, bytes)
    case End => ([], true)
    case Bad(_, _) => ([], false)
    case Got(f, used) =>
      var rest := ParseAll(c, bytes[used..]);
      ([f] + rest.0, rest.1)
  }

  function WriteAll(c: Codec, fs: seq<Frame>): seq<Byte>
    requires forall i :: 0 <= i < |fs| ==> Written(c, fs[i]).Some?
  {
    if fs == [] then [] else Written(c, fs[0]).value + WriteAll(c, fs[1..])
  }

  /** Frames written one after another are read back, followed by a clean end. */
  lemma {:induction false} StreamRoundTrip(c: Codec, fs: seq<Frame>)
    requires Lawful(c) && forall i :: 0 <= i < |fs| ==> Written(c, fs[i]).Some?
    ensures ParseAll(c, WriteAll(c, fs)) == (fs, true)
  {
    hide Lawful, Written, Parse;
    if fs == [] {
      NothingIsTheEnd(c);
    } else {
      var bytes, rest := Written(c, fs[0]).value, WriteAll(c, fs[1..]);
      ParseWritten(c, fs[0], rest);
      assert (bytes + rest)[|bytes|..] == rest;
      StreamRoundTrip(c, fs[1..]);
      assert fs == [fs[0]] + fs[1..];
    }
  }

  lemma NothingIsTheEnd(c: Codec)
    ensures Parse(c, []) == End
  {
  }

  /** Frames followed by a broken one are read back, and the end is reported as an error. */
  lemma {:induction false} BrokenStream(c: Codec, fs: seq<Frame>, last: Frame, k: nat)
    requires Lawful(c) && forall i :: 0 <= i < |fs| ==> Written(c, fs[i]).Some?
    requires Written(c, last).Some? && 0 < k < |Written(c, last).value|
    ensures ParseAll(c, WriteAll(c, fs) + Written(c, last).value[..k]) == (fs, false)
  {
    hide Lawful, Written, Parse;
    var broken := Written(c, last).value[..k];
    if fs == [] {
      assert WriteAll(c, fs) + broken == broken;
      BrokenFrameFails(c, last, k);
    } else {
      var bytes, rest := Written(c, fs[0]).value, WriteAll(c, fs[1..]) + broken;
      ParseWritten(c, fs[0], rest);
      assert WriteAll(c, fs) + broken == bytes + rest;
      assert (bytes + rest)[|bytes|..] == rest;
      BrokenStream(c, fs[1..], last, k);
      assert fs == [fs[0]] + fs[1..];
    }
  }

  // ---- Parsing, one part at a time ----

  function HeaderLength(prefix: seq<Byte>): nat
    requires |prefix| == 8
  {
    Decode32(prefix[..4])
  }

  function PayloadLength(prefix: seq<Byte>): nat
    requires |prefix| == 8
  {
    Decode32(prefix[4..])
  }

  predicate BadLengths(prefix: seq<Byte>)
    requires |prefix| == 8
  {
    HeaderLength(prefix) == 0 || HeaderLength(prefix) > MAX_HEADER_BYTES || PayloadLength(prefix) > MAX_PAYLOAD_BYTES
  }

  lemma ParsePrefix(c: Codec, prefix: seq<Byte>, tail: seq<Byte>)
    requires |prefix| == 8
    ensures var p := Parse(c, prefix + tail);
            && (BadLengths(prefix) ==> p == Bad(InvalidData, 8))
            && (!BadLengths(prefix) && |tail| < HeaderLength(prefix) ==> p == Bad(UnexpectedEof, 8 + |tail|))
  {
    var bytes := prefix + tail;
    assert bytes[..4] == prefix[..4] && bytes[4..8] == prefix[4..];
  }

  lemma ParseBody(c: Codec, prefix: seq<Byte>, text: seq<Byte>, tail: seq<Byte>)
    requires |prefix| == 8 && !BadLengths(prefix) && |text| == HeaderLength(prefix)
    ensures var p, payload, h := Parse(c, prefix + text + tail), PayloadLength(prefix), c.decode(text);
            && (h.None? || !ValidHeader(h.value, payload) ==> p == Bad(InvalidData, 8 + |text|))
            && (h.Some? && ValidHeader(h.value, payload) ==>
                  p == if |tail| < payload then Bad(UnexpectedEof, 8 + |text| + |tail|)
                       else Got(Frame(h.value, tail[..payload]), 8 + |text| + payload))
  {
    hide ValidHeader, Decode32;
    var bytes := prefix + text + tail;
    assert bytes[..4] == prefix[..4] && bytes[4..8] == prefix[4..];
    assert bytes[8..8 + |text|] == text;
    if |tail| >= PayloadLength(prefix) {
      assert bytes[8 + |text|..8 + |text| + PayloadLength(prefix)] == tail[..PayloadLength(prefix)];
    }
  }

  lemma ParseShort(c: Codec, bytes: seq<Byte>)
    requires |bytes| < 8
    ensures Parse(c, bytes) == if bytes == [] then End else Bad(UnexpectedEof, |bytes|)
  {
  }

  /** A frame that breaks off is an error, never a different frame and never a clean end. */
  lemma BrokenFrameFails(c: Codec, f: Frame, k: nat)
    requires Lawful(c) && Written(c, f).Some? && 0 < k < |Written(c, f).value|
    ensures Parse(c, Written(c, f).value[..k]) == Bad(UnexpectedEof, k)
  {
    hide Lawful, Encode32, Decode32, ValidHeader, Parse;
    var header := c.encode(f.header);
    var bytes := Written(c, f).value[..k];
    Survives(c, f);
    if k < 8 {
      ParseShort(c, bytes);
    } else {
      var prefix := Encode32(|header|) + Encode32(|f.payload|);
      LengthRoundTrip(|header|);
      LengthRoundTrip(|f.payload|);
      assert prefix[..4] == Encode32(|header|) && prefix[4..] == Encode32(|f.payload|);
      var tail := (header + f.payload)[..k - 8];
      assert Written(c, f).value == prefix + (header + f.payload);
      assert bytes == prefix + tail;
      ParsePrefix(c, prefix, tail);
      if |header| <= |tail| {
        assert tail == header + f.payload[..k - 8 - |header|];
        assert bytes == prefix + header + f.payload[..k - 8 - |header|];
        ParseBody(c, prefix, header, f.payload[..k - 8 - |header|]);
      }
    }
  }

  /** Reading the first frame, then the rest, is reading the whole. */
  lemma ParseAllStep(c: Codec, bytes: seq<Byte>)
    ensures var p, all := Parse(c, bytes), ParseAll(c, bytes);
            && (p.End? ==> all == ([], true)) && (p.Bad? ==> all == ([], false))
            && (p.Got? ==> |Left(c, bytes)| < |bytes| && all.0 == [p.frame] + ParseAll(c, Left(c, bytes)).0
                           && all.1 == ParseAll(c, Left(c, bytes)).1)
  {
    hide Parse;
  }

  // ---- The reader over a fragmenting stream ----

  datatype ReadResult = Bytes(bytes: seq<Byte>) | Interrupted | Failed

  predicate Steady(script: seq<Turn>) {
    forall i :: 0 <= i < |script| ==> !script[i].Fail?
  }

  class Stream {
    var rest: seq<Byte>
    /** How the stream will answer, giving at most `most + 1` bytes at a time; afterwards it delivers all it is asked for. */
    var script: seq<Turn>

    constructor (bytes: seq<Byte>, turns: seq<Turn>)
      ensures rest == bytes && script == turns
    {
      rest, script := bytes, turns;
    }

    method Read(room: nat) returns (r: ReadResult)
      requires room > 0
      modifies this
      ensures r.Bytes? ==> |r.bytes| <= room && old(rest) == r.bytes + rest && (r.bytes == [] ==> old(rest) == [])
      ensures !r.Bytes? ==> rest == old(rest) && |script| < |old(script)|
      ensures r.Failed? ==> !Steady(old(script))
      ensures SuffixOf(script, old(script))
    {
      var most := room;
      if script != [] {
        var turn := script[0];
        script := script[1..];
        match turn {
          case Interrupt => return Interrupted;
          case Fail => return Failed;
          case Deliver(n) => most := if n + 1 < room then n + 1 else room;
        }
      }
      var n := if most < |rest| then most else |rest|;
      r := Bytes(rest[..n]);
      rest := rest[n..];
    }

    /** Fills a buffer of `n` bytes over as many reads as it takes. */
    method ReadExact(n: nat) returns (problem: Option<Problem>, bytes: seq<Byte>)
      modifies this
      ensures problem.None? ==> |bytes| == n && old(rest) == bytes + rest
      ensures problem.Some? ==>
                || (problem.value == UnexpectedEof && |old(rest)| < n && rest == [])
                || (problem.value == Transport && !Steady(old(script)))
      ensures SuffixOf(script, old(script)) && |rest| <= |old(rest)|
    {
      bytes := [];
      while |bytes| < n
        invariant |bytes| <= n && old(rest) == bytes + rest && SuffixOf(script, old(script))
        decreases n - |bytes|, |script|
      {
        var r := Read(n - |bytes|);
        match r {
          case Interrupted =>
          case Failed => return Some(Transport), bytes;
          case Bytes(piece) =>
            if piece == [] {
              return Some(UnexpectedEof), bytes;
            }
            bytes := bytes + piece;
        }
      }
      return None, bytes;
    }

    /** Reads one frame. Over a steady stream the outcome depends on the bytes alone; a failing stream can
        only add a transport error. */
    method ReadFrame(c: Codec) returns (r: Arrival)
      modifies this
      ensures r != Broken(Transport) ==> r == Reported(Parse(c, old(rest))) && rest == Left(c, old(rest))
      ensures r == Broken(Transport) ==> !Steady(old(script))
      ensures SuffixOf(script, old(script))
    {
      hide Parse, ValidHeader, Decode32;
      ghost var stream := rest;
      var first: seq<Byte> := [];
      while first == []
        invariant |first| <= 1 && stream == first + rest && SuffixOf(script, old(script))
        decreases 1 - |first|, |script|
      {
        var got := Read(1);
        match got {
          case Interrupted =>
          case Failed => return Broken(Transport);
          case Bytes(piece) =>
            if piece == [] {
              ParseShort(c, stream);
              return Ended;
            }
            first := piece;
        }
      }
      var problem, more := ReadExact(7);
      if problem.Some? {
        if problem.value == UnexpectedEof {
          ParseShort(c, stream);
        }
        return Broken(problem.value);
      }
      assert stream == (first + more) + rest;
      r := ReadBody(c, first + more, stream);
    }

    /** Reads what the length prefix announces. The header is judged before any payload byte is taken. */
    method ReadBody(c: Codec, prefix: seq<Byte>, ghost stream: seq<Byte>) returns (r: Arrival)
      requires |prefix| == 8 && stream == prefix + rest
      modifies this
      ensures r != Broken(Transport) ==> r == Reported(Parse(c, stream)) && rest == Left(c, stream)
      ensures r == Broken(Transport) ==> !Steady(old(script))
      ensures SuffixOf(script, old(script))
    {
      hide Parse, ValidHeader, Decode32;
      ghost var tail := rest;
      ParsePrefix(c, prefix, tail);
      var header, payload := Decode32(prefix[..4]), Decode32(prefix[4..]);
      if header == 0 || header > MAX_HEADER_BYTES || payload > MAX_PAYLOAD_BYTES {
        return Broken(InvalidData);
      }
      var problem, text := ReadExact(header);
      if problem.Some? {
        return Broken(problem.value);
      }
      tail := rest;
      assert stream == prefix + text + tail;
      ParseBody(c, prefix, text, tail);
      var h := c.decode(text);
      if h.None? || !ValidHeader(h.value, payload) {
        return Broken(InvalidData);
      }
      var image;
      problem, image := ReadExact(payload);
      if problem.Some? {
        return Broken(problem.value);
      }
      assert tail[..payload] == image;
      return Whole(Frame(h.value, image));
    }

    /** Reads frames until the stream ends or breaks. */
    method ReadAll(c: Codec) returns (fs: seq<Frame>, clean: bool)
      requires Steady(script)
      modifies this
      ensures fs == ParseAll(c, old(rest)).0 && clean == ParseAll(c, old(rest)).1
    {
      hide Parse, ParseAll, Left;
      fs := [];
      ghost var all := ParseAll(c, rest);
      while true
        invariant Steady(script)
        invariant all.0 == fs + ParseAll(c, rest).0 && all.1 == ParseAll(c, rest).1
        decreases |rest|
      {
        ParseAllStep(c, rest);
        var r := ReadFrame(c);
        match r {
          case Ended => return fs, true;
          case Broken(_) => return fs, false;
          case Whole(f) => fs := fs + [f];
        }
      }
    }
  }

  /** Whatever the fragmentation and interruptions, a reader gets exactly the frames written and then a
      clean end; if the last frame breaks off, it gets the others and then an error. */
  method Carry(c: Codec, fs: seq<Frame>, broken: seq<Byte>, turns: seq<Turn>) returns (back: seq<Frame>, clean: bool)
    requires Lawful(c) && Steady(turns) && forall i :: 0 <= i < |fs| ==> Written(c, fs[i]).Some?
    requires broken == [] || exists last, k :: BreaksOff(c, last, k, broken)
    ensures back == fs && clean == (broken == [])
  {
    hide Written, Lawful, ParseAll, WriteAll;
    var stream := new Stream(WriteAll(c, fs) + broken, turns);
    if broken == [] {
      StreamRoundTrip(c, fs);
      assert WriteAll(c, fs) + broken == WriteAll(c, fs);
    } else {
      ghost var last, k :| BreaksOff(c, last, k, broken);
      BrokenStream(c, fs, last, k);
    }
    back, clean := stream.ReadAll(c);
  }

  /** `broken` is a strict, non-empty prefix of a written frame. */
  ghost predicate BreaksOff(c: Codec, last: Frame, k: nat, broken: seq<Byte>) {
    Written(c, last).Some? && 0 < k < |Written(c, last).value| && broken == Written(c, last).value[..k]
  }
}
