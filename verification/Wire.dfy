/** Framing on a byte stream: a four-byte big-endian length and that many bytes, read in
    whatever pieces the stream delivers and written in whatever pieces it takes. */
module Wire {
  import opened Basics

  const LENGTH_PREFIX_BYTES: nat := 4
  const U32_MAX: nat := 0xFFFF_FFFF

  type Byte = b: nat | b < 256

  datatype FrameError =
    | EmptyFrame
    | FrameTooLarge(length: nat, maximum: nat)
    | TruncatedPrefix(received: nat)
    | TruncatedBody(expected: nat, received: nat)
    | Io

  datatype Result<T> = Ok(value: T) | Err(error: FrameError)

  // ------------------------------------------------------------------- the format

  function BigEndian(n: nat): (p: seq<Byte>)
    requires n <= U32_MAX
    ensures |p| == LENGTH_PREFIX_BYTES
  {
    [n / 256 / 256 / 256, n / 256 / 256 % 256, n / 256 % 256, n % 256]
  }

  function FromBigEndian(p: seq<Byte>): (n: nat)
    requires |p| == LENGTH_PREFIX_BYTES
    ensures n <= U32_MAX
  {
    var p0: nat, p1: nat, p2: nat, p3: nat := p[0], p[1], p[2], p[3];
    ((p0 * 256 + p1) * 256 + p2) * 256 + p3
  }

  lemma BigEndianReadsBack(n: nat)
    requires n <= U32_MAX
    ensures FromBigEndian(BigEndian(n)) == n
  {
    var n1 := n / 256;
    var n2 := n1 / 256;
    var p0: nat, p1: nat, p2: nat := BigEndian(n)[0], BigEndian(n)[1], BigEndian(n)[2];
    assert p0 * 256 + p1 == n2;
    assert n2 * 256 + p2 == n1;
  }

  lemma BigEndianNamesOne(p: seq<Byte>)
    requires |p| == LENGTH_PREFIX_BYTES
    ensures BigEndian(FromBigEndian(p)) == p
  {
    var p0: nat, p1: nat, p2: nat, p3: nat := p[0], p[1], p[2], p[3];
    var n2 := p0 * 256 + p1;
    var n1 := n2 * 256 + p2;
    var n := n1 * 256 + p3;
    LastDigit(n1, p3);
    LastDigit(n2, p2);
    LastDigit(p0, p1);
    assert n == FromBigEndian(p);
  }

  /** The bytes come most significant first: prefixes sort as the lengths they stand for. */
  lemma BigEndianOrders(m: nat, n: nat)
    requires m < n <= U32_MAX
    ensures exists i | 0 <= i < LENGTH_PREFIX_BYTES ::
              BigEndian(m)[..i] == BigEndian(n)[..i] && BigEndian(m)[i] < BigEndian(n)[i]
  {
    var p, q := BigEndian(m), BigEndian(n);
    BigEndianReadsBack(m);
    BigEndianReadsBack(n);
    if p[0] != q[0] {
      assert p[..0] == q[..0];
      assert p[0] < q[0];
    } else if p[1] != q[1] {
      assert p[..1] == q[..1];
      assert p[1] < q[1];
    } else if p[2] != q[2] {
      assert p[..2] == q[..2];
      assert p[2] < q[2];
    } else {
      assert p[..3] == q[..3];
      assert p[3] < q[3];
    }
  }

  lemma LastDigit(high: nat, low: nat)
    requires low < 256
    ensures (high * 256 + low) / 256 == high && (high * 256 + low) % 256 == low
  {
  }

  predicate Sendable(body: seq<Byte>, maximum: nat) { 0 < |body| <= maximum && |body| <= U32_MAX }

  /** The length, cast to 32 bits: a longer one would lose its high bits. */
  function Prefix(body: seq<Byte>): (p: seq<Byte>)
    ensures |p| == LENGTH_PREFIX_BYTES
  {
    BigEndian(|body| % (U32_MAX + 1))
  }

  function Frame(body: seq<Byte>): seq<Byte> { Prefix(body) + body }

  lemma PrefixReadsBack(body: seq<Byte>)
    requires |body| <= U32_MAX
    ensures FromBigEndian(Prefix(body)) == |body|
  {
    hide BigEndian, FromBigEndian;
    BigEndianReadsBack(|body|);
  }

  /** What the bytes up to the end of the stream begin with: nothing, a length, or an
      error. */
  function ParseLength(stream: seq<Byte>, maximum: nat): (r: Result<Option<nat>>)
    ensures r.Ok? && r.value.Some? ==> |stream| >= LENGTH_PREFIX_BYTES && 0 < r.value.value <= maximum
  {
    if stream == [] then Ok(None)
    else if |stream| < LENGTH_PREFIX_BYTES then Err(TruncatedPrefix(|stream|))
    else
      var length := FromBigEndian(stream[..LENGTH_PREFIX_BYTES]);
      if length == 0 then Err(EmptyFrame)
      else if length > maximum then Err(FrameTooLarge(length, maximum))
      else Ok(Some(length))
  }

  function ParseBody(stream: seq<Byte>, length: nat): Result<seq<Byte>> {
    if |stream| < length then Err(TruncatedBody(length, |stream|)) else Ok(stream[..length])
  }

  function Parse(stream: seq<Byte>, maximum: nat): (r: Result<Option<seq<Byte>>>)
    ensures r.Ok? && r.value.Some? ==> LENGTH_PREFIX_BYTES + |r.value.value| <= |stream|
  {
    match ParseLength(stream, maximum)
    case Err(e) => Err(e)
    case Ok(None) => Ok(None)
    case Ok(Some(length)) =>
      match ParseBody(stream[LENGTH_PREFIX_BYTES..], length)
      case Err(e) => Err(e)
      case Ok(body) => Ok(Some(body))
  }

  // -------------------------------------------------------------------- the stream

  datatype Transfer = Done(count: nat) | Failed

  /** A byte stream being read. A read fills some of the buffer, as much as it likes; it
      fills none only at the end. One that is not reliable may also fail. */
  class Reader {
    var pending: seq<Byte>
    const reliable: bool

    constructor (pending: seq<Byte>, reliable: bool)
      ensures this.pending == pending && this.reliable == reliable
    {
      this.pending, this.reliable := pending, reliable;
    }

    method Read(buffer: array<Byte>, from: nat) returns (r: Transfer)
      requires from < buffer.Length
      modifies this`pending, buffer
      ensures r.Failed? ==> !reliable && pending == old(pending) && buffer[..] == old(buffer[..])
      ensures r.Done? ==> from + r.count <= buffer.Length && r.count <= |old(pending)| &&
                          (r.count == 0 <==> old(pending) == []) && pending == old(pending)[r.count..] &&
                          buffer[..from + r.count] == old(buffer[..from]) + old(pending)[..r.count]
    {
      if !reliable {
        if * { return Failed; }
      }
      var count := if pending == [] then 0 else 1;
      while count < |pending| && from + count < buffer.Length
        invariant count <= |pending| && from + count <= buffer.Length && (count == 0 <==> pending == [])
      {
        if * { break; }
        count := count + 1;
      }
      forall i | from <= i < from + count {
        buffer[i] := pending[i - from];
      }
      pending := pending[count..];
      r := Done(count);
    }
  }

  lemma Sliced(s: seq<Byte>, from: nat, count: nat)
    requires from + count <= |s|
    ensures s[..from] + s[from..][..count] == s[..from + count] && s[from..][count..] == s[from + count..]
  {
  }

  method ReadFrameLength(reader: Reader, maximum: nat) returns (r: Result<Option<nat>>)
    modifies reader`pending
    ensures r == ParseLength(old(reader.pending), maximum) || (r == Err(Io) && !reader.reliable)
    ensures r.Ok? && r.value.Some? ==> reader.pending == old(reader.pending)[LENGTH_PREFIX_BYTES..]
    ensures r.Ok? && r.value.None? ==> reader.pending == []
  {
    ghost var stream := reader.pending;
    var prefix := new Byte[LENGTH_PREFIX_BYTES](_ => 0);
    var received := 0;
    while received < prefix.Length
      invariant received <= prefix.Length && received <= |stream|
      invariant prefix[..received] == stream[..received] && reader.pending == stream[received..]
    {
      var transfer := reader.Read(prefix, received);
      if transfer.Failed? { return Err(Io); }
      if transfer.count == 0 {
        return if received == 0 then Ok(None) else Err(TruncatedPrefix(received));
      }
      Sliced(stream, received, transfer.count);
      received := received + transfer.count;
    }
    var length := FromBigEndian(prefix[..]);
    if length == 0 { return Err(EmptyFrame); }
    if length > maximum { return Err(FrameTooLarge(length, maximum)); }
    r := Ok(Some(length));
  }

  method ReadFrameBody(reader: Reader, length: nat) returns (r: Result<seq<Byte>>)
    modifies reader`pending
    ensures r == ParseBody(old(reader.pending), length) || (r == Err(Io) && !reader.reliable)
    ensures r.Ok? ==> reader.pending == old(reader.pending)[length..]
  {
    ghost var stream := reader.pending;
    var body := new Byte[length](_ => 0);
    var received := 0;
    while received < body.Length
      invariant received <= body.Length && received <= |stream|
      invariant body[..received] == stream[..received] && reader.pending == stream[received..]
    {
      var transfer := reader.Read(body, received);
      if transfer.Failed? { return Err(Io); }
      if transfer.count == 0 { return Err(TruncatedBody(length, received)); }
      Sliced(stream, received, transfer.count);
      received := received + transfer.count;
    }
    assert body[..] == body[..received];
    r := Ok(body[..]);
  }

  /** One frame. However the bytes arrive, the answer is the one their concatenation
      parses to, and what is left in the stream is what follows the frame. */
  method ReadFrame(reader: Reader, maximum: nat) returns (r: Result<Option<seq<Byte>>>)
    modifies reader`pending
    ensures r == Parse(old(reader.pending), maximum) || (r == Err(Io) && !reader.reliable)
    ensures r.Ok? && r.value.Some? ==>
              reader.pending == old(reader.pending)[LENGTH_PREFIX_BYTES + |r.value.value|..]
  {
    var length := ReadFrameLength(reader, maximum);
    match length {
      case Err(e) => r := Err(e);
      case Ok(None) => r := Ok(None);
      case Ok(Some(n)) =>
        var body := ReadFrameBody(reader, n);
        match body {
          case Err(e) => r := Err(e);
          case Ok(bytes) => r := Ok(Some(bytes));
        }
    }
  }

  /** A byte stream being written. A write takes some first part of what it is offered,
      perhaps none; a reliable one always takes something. */
  class Writer {
    var sent: seq<Byte>
    const reliable: bool

    constructor (reliable: bool)
      ensures sent == [] && this.reliable == reliable
    {
      sent, this.reliable := [], reliable;
    }

    method WriteVectored(first: seq<Byte>, second: seq<Byte>) returns (r: Transfer)
      requires |first| + |second| > 0
      modifies this`sent
      ensures r.Failed? ==> !reliable && sent == old(sent)
      ensures r.Done? ==> r.count <= |first| + |second| && (reliable ==> r.count > 0) &&
                          sent == old(sent) + (first + second)[..r.count]
    {
      if !reliable {
        if * { return Failed; }
      }
      var count := if reliable then 1 else 0;
      while count < |first| + |second|
        invariant count <= |first| + |second| && (reliable ==> count > 0)
      {
        if * { break; }
        count := count + 1;
      }
      sent := sent + (first + second)[..count];
      r := Done(count);
    }
  }

  /** Writing a frame. It is refused, with nothing sent, exactly when it is empty or too
      long; otherwise the whole frame goes out, or the stream failed part of the way. */
  method WriteFrameBytes(writer: Writer, body: seq<Byte>, maximum: nat) returns (r: Result<()>)
    modifies writer`sent
    ensures body == [] ==> r == Err(EmptyFrame)
    ensures body != [] && !Sendable(body, maximum) ==> r == Err(FrameTooLarge(|body|, Min(maximum, U32_MAX)))
    ensures !Sendable(body, maximum) ==> writer.sent == old(writer.sent)
    ensures Sendable(body, maximum) ==> r == Ok(()) || (r == Err(Io) && !writer.reliable)
    ensures r.Ok? ==> writer.sent == old(writer.sent) + Frame(body)
    ensures r == Err(Io) ==> exists k | 0 <= k < |Frame(body)| :: writer.sent == old(writer.sent) + Frame(body)[..k]
  {
    if body == [] { return Err(EmptyFrame); }
    if |body| > maximum || |body| > U32_MAX { return Err(FrameTooLarge(|body|, Min(maximum, U32_MAX))); }
    hide Prefix;
    ghost var before := writer.sent;
    var prefix := Prefix(body);
    var prefixOffset: nat, bodyOffset: nat := 0, 0;
    while prefixOffset < |prefix| || bodyOffset < |body|
      invariant prefixOffset <= |prefix| && bodyOffset <= |body| && (prefixOffset < |prefix| ==> bodyOffset == 0)
      invariant writer.sent == before + Frame(body)[..prefixOffset + bodyOffset]
      decreases |prefix| + |body| - prefixOffset - bodyOffset
    {
      var transfer: Transfer;
      if prefixOffset < |prefix| {
        transfer := writer.WriteVectored(prefix[prefixOffset..], body[bodyOffset..]);
      } else {
        transfer := writer.WriteVectored([], body[bodyOffset..]);
      }
      if transfer.Failed? || transfer.count == 0 { return Err(Io); }
      Resumed(body, prefixOffset, bodyOffset, transfer.count);
      var prefixWritten := Min(transfer.count, |prefix| - prefixOffset);
      prefixOffset := prefixOffset + prefixWritten;
      bodyOffset := bodyOffset + transfer.count - prefixWritten;
    }
    assert Frame(body)[..prefixOffset + bodyOffset] == Frame(body);
    r := Ok(());
  }

  /** What is offered next continues what has been sent. */
  lemma Resumed(body: seq<Byte>, prefixOffset: nat, bodyOffset: nat, count: nat)
    requires prefixOffset <= LENGTH_PREFIX_BYTES && bodyOffset <= |body|
    requires prefixOffset < LENGTH_PREFIX_BYTES ==> bodyOffset == 0
    requires prefixOffset + bodyOffset + count <= |Frame(body)|
    ensures var done := prefixOffset + bodyOffset;
            Frame(body)[..done] + (Prefix(body)[prefixOffset..] + body[bodyOffset..])[..count] == Frame(body)[..done + count]
  {
    hide Prefix;
    var done := prefixOffset + bodyOffset;
    assert Prefix(body)[prefixOffset..] + body[bodyOffset..] == Frame(body)[done..];
  }

  // --------------------------------------------------------------------- round trip

  /** A frame reads back as its body, and the next read starts after it. */
  lemma FrameReadsBack(body: seq<Byte>, rest: seq<Byte>, maximum: nat)
    requires Sendable(body, maximum)
    ensures Parse(Frame(body) + rest, maximum) == Ok(Some(body))
    ensures (Frame(body) + rest)[LENGTH_PREFIX_BYTES + |body|..] == rest
  {
    hide Prefix, FromBigEndian;
    var stream := Frame(body) + rest;
    assert stream[..LENGTH_PREFIX_BYTES] == Prefix(body);
    assert stream[LENGTH_PREFIX_BYTES..] == body + rest;
    PrefixReadsBack(body);
  }

  function Stream(bodies: seq<seq<Byte>>): seq<Byte> {
    if bodies == [] then [] else Frame(bodies[0]) + Stream(bodies[1..])
  }

  datatype Ending = Clean | Broken(error: FrameError)

  /** Reading frame after frame until the stream ends or breaks. */
  function Drain(stream: seq<Byte>, maximum: nat): (seq<seq<Byte>>, Ending)
    decreases |stream|
  {
    match Parse(stream, maximum)
    case Err(e) => ([], Broken(e))
    case Ok(None) => ([], Clean)
    case Ok(Some(body)) =>
      var (bodies, ending) := Drain(stream[LENGTH_PREFIX_BYTES + |body|..], maximum);
      ([body] + bodies, ending)
  }

  /** What is left of a frame cut after `left` bytes. */
  function CutShort(body: seq<Byte>, left: nat): Ending {
    if left == 0 then Clean
    else if left < LENGTH_PREFIX_BYTES then Broken(TruncatedPrefix(left))
    else Broken(TruncatedBody(|body|, left - LENGTH_PREFIX_BYTES))
  }

  lemma CutFrame(body: seq<Byte>, left: nat, maximum: nat)
    requires Sendable(body, maximum) && left < |Frame(body)|
    ensures Drain(Frame(body)[..left], maximum) == ([], CutShort(body, left))
  {
    hide Prefix, FromBigEndian;
    var stream := Frame(body)[..left];
    if left >= LENGTH_PREFIX_BYTES {
      assert stream[..LENGTH_PREFIX_BYTES] == Prefix(body);
      PrefixReadsBack(body);
    }
  }

  /** Any list of frames, cut off anywhere: the reader gets the frames that are whole, in
      order, and then a clean end if the cut fell between frames or an error that says how
      much of the next one arrived. It never gets a wrong body. */
  lemma {:induction false} CutStream(bodies: seq<seq<Byte>>, cut: nat, maximum: nat) returns (whole: nat)
    requires (forall b | b in bodies :: Sendable(b, maximum)) && cut <= |Stream(bodies)|
    ensures whole <= |bodies| && |Stream(bodies[..whole])| <= cut
    ensures var left := cut - |Stream(bodies[..whole])|;
            && (if whole == |bodies| then left == 0 else left < |Frame(bodies[whole])|)
            && Drain(Stream(bodies)[..cut], maximum) ==
               (bodies[..whole], if whole == |bodies| then Clean else CutShort(bodies[whole], left))
  {
    hide Frame, Parse;
    if bodies == [] {
      EmptyStream(maximum);
      return 0;
    }
    var first := Frame(bodies[0]);
    if cut < |first| {
      assert Stream(bodies)[..cut] == first[..cut];
      CutFrame(bodies[0], cut, maximum);
      return 0;
    }
    var rest := Stream(bodies[1..])[..cut - |first|];
    assert Stream(bodies)[..cut] == first + rest;
    FrameReadsBack(bodies[0], rest, maximum);
    var more := CutStream(bodies[1..], cut - |first|, maximum);
    whole := more + 1;
    assert bodies[..whole][1..] == bodies[1..][..more] && bodies[..whole] == [bodies[0]] + bodies[1..][..more];
  }

  lemma EmptyStream(maximum: nat)
    ensures Drain([], maximum) == ([], Clean)
  {
  }

  /** Framing round trip: frames written one after another read back one after another, and
      then the stream ends cleanly. */
  lemma StreamReadsBack(bodies: seq<seq<Byte>>, maximum: nat)
    requires forall b | b in bodies :: Sendable(b, maximum)
    ensures Drain(Stream(bodies), maximum) == (bodies, Clean)
  {
    hide Drain, CutShort, Frame;
    var whole := CutStream(bodies, |Stream(bodies)|, maximum);
    assert Stream(bodies)[..|Stream(bodies)|] == Stream(bodies);
    if whole < |bodies| { StreamSplits(bodies, whole); }
    assert bodies[..whole] == bodies;
  }

  lemma {:induction false} StreamSplits(bodies: seq<seq<Byte>>, n: nat)
    requires n < |bodies|
    ensures |Stream(bodies)| >= |Stream(bodies[..n])| + |Frame(bodies[n])|
  {
    hide Frame;
    if n > 0 {
      StreamSplits(bodies[1..], n - 1);
      assert bodies[..n][1..] == bodies[1..][..n - 1];
    }
  }

  // --------------------------------------------------------------------- both ends

  lemma {:induction false} StreamOn(bodies: seq<seq<Byte>>, body: seq<Byte>)
    ensures Stream(bodies + [body]) == Stream(bodies) + Frame(body)
  {
    hide Frame;
    if bodies == [] {
      assert [body][1..] == [];
    } else {
      StreamOn(bodies[1..], body);
      assert (bodies + [body])[1..] == bodies[1..] + [body];
    }
  }

  /** Write frames one after another until one does not go out. */
  method SendAll(writer: Writer, bodies: seq<seq<Byte>>, maximum: nat) returns (r: Result<()>)
    modifies writer`sent
    ensures r.Ok? ==> writer.sent == old(writer.sent) + Stream(bodies)
    ensures writer.reliable && (forall b | b in bodies :: Sendable(b, maximum)) ==> r.Ok?
  {
    hide Frame, Stream;
    var i := 0;
    NothingSent(bodies);
    while i < |bodies|
      invariant 0 <= i <= |bodies| && writer.sent == old(writer.sent) + Stream(bodies[..i])
    {
      r := WriteFrameBytes(writer, bodies[i], maximum);
      if r.Err? { return; }
      StreamOn(bodies[..i], bodies[i]);
      assert bodies[..i] + [bodies[i]] == bodies[..i + 1];
      i := i + 1;
    }
    assert bodies[..i] == bodies;
    r := Ok(());
  }

  lemma NothingSent(bodies: seq<seq<Byte>>)
    ensures Stream(bodies[..0]) == []
  {
  }

  /** Read frames one after another until the stream ends or breaks. */
  method ReadAll(reader: Reader, maximum: nat) returns (bodies: seq<seq<Byte>>, ending: Ending)
    modifies reader`pending
    ensures reader.reliable ==> (bodies, ending) == Drain(old(reader.pending), maximum)
    ensures bodies <= Drain(old(reader.pending), maximum).0
  {
    hide Parse;
    ghost var stream := reader.pending;
    bodies := [];
    while true
      invariant Drain(stream, maximum).0 == bodies + Drain(reader.pending, maximum).0
      invariant Drain(stream, maximum).1 == Drain(reader.pending, maximum).1
      decreases |reader.pending|
    {
      ghost var left := Drain(reader.pending, maximum).0;
      assert bodies + [] == bodies;
      var frame := ReadFrame(reader, maximum);
      match frame {
        case Err(e) => return bodies, Broken(e);
        case Ok(None) => return bodies, Clean;
        case Ok(Some(body)) =>
          assert left == [body] + Drain(reader.pending, maximum).0;
          assert bodies + left == bodies + [body] + Drain(reader.pending, maximum).0;
          bodies := bodies + [body];
      }
    }
  }

  /** What one end writes the other reads, however the bytes are cut up on the way. */
  method Converse(bodies: seq<seq<Byte>>, maximum: nat) returns (read: seq<seq<Byte>>, ending: Ending)
    requires forall b | b in bodies :: Sendable(b, maximum)
    ensures read == bodies && ending == Clean
  {
    hide Drain, Stream;
    var writer := new Writer(true);
    var sent := SendAll(writer, bodies, maximum);
    assert [] + Stream(bodies) == Stream(bodies);
    StreamReadsBack(bodies, maximum);
    var reader := new Reader(writer.sent, true);
    read, ending := ReadAll(reader, maximum);
  }

  // ---------------------------------------------------------------------- the limits

  /** An announced length is taken from one byte up to the limit, and judged before a byte of
      the body is read. */
  lemma LengthJudgedExactly(n: nat, rest: seq<Byte>, maximum: nat)
    requires n <= U32_MAX
    ensures ParseLength(BigEndian(n) + rest, maximum) ==
            if n == 0 then Err(EmptyFrame)
            else if n > maximum then Err(FrameTooLarge(n, maximum))
            else Ok(Some(n))
  {
    BigEndianReadsBack(n);
    assert (BigEndian(n) + rest)[..LENGTH_PREFIX_BYTES] == BigEndian(n);
  }

  /** What one end may send is exactly what the other takes. */
  lemma SendableIsReadable(body: seq<Byte>, maximum: nat)
    requires |body| <= U32_MAX
    ensures Sendable(body, maximum) <==> Parse(Frame(body), maximum) == Ok(Some(body))
  {
    hide BigEndian, ParseLength;
    LengthJudgedExactly(|body|, body, maximum);
    assert Frame(body) == BigEndian(|body|) + body;
    assert Frame(body)[LENGTH_PREFIX_BYTES..] == body && body[..|body|] == body;
  }
}
