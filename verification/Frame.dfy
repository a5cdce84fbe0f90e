/** The length-prefixed frames of `src/gossip/protocol.rs`.  The encoding of a message into
    its payload is a parameter. */
module Frame {
  import opened Wrappers

  type byte = n: nat | n < 256

  const U32: nat := 0x1_0000_0000

  const MAX_MESSAGE_BYTES: nat := 16 * 1024 * 1024

  datatype ReadError =
    | UnexpectedEof
    | TooLarge(len: nat)
    | Undecodable

  datatype Result<+T> = Ok(value: T) | Err(error: ReadError)

  // --- The format as functions ----------------------------------------------------------

  function BigEndian(n: nat): (b: seq<byte>)
    requires n < U32
    ensures |b| == 4
  {
    [n / 0x100_0000, n / 0x1_0000 % 0x100, n / 0x100 % 0x100, n % 0x100]
  }

  function FromBigEndian(b: seq<byte>): (n: nat)
    requires |b| == 4
    ensures n < U32
  {
    b[0] as nat * 0x100_0000 + b[1] as nat * 0x1_0000 + b[2] as nat * 0x100 + b[3] as nat
  }

  /** What is written for a payload; the length is cut to 32 bits. */
  function FrameOf(payload: seq<byte>): seq<byte>
  {
    BigEndian(|payload| % U32) + payload
  }

  /** The outcome of reading one frame, and the bytes left unread after it. */
  function ParseFrame(input: seq<byte>): (Result<seq<byte>>, seq<byte>)
  {
    if |input| < 4 then (Err(UnexpectedEof), [])
    else
      var len, rest := FromBigEndian(input[..4]), input[4..];
      if len > MAX_MESSAGE_BYTES then (Err(TooLarge(len)), rest)
      else if |rest| < len then (Err(UnexpectedEof), [])
      else (Ok(rest[..len]), rest[len..])
  }

  lemma BigEndianDecodes(n: nat)
    requires n < U32
    ensures FromBigEndian(BigEndian(n)) == n
  {
    var hi, mid, lo := n / 0x100_0000, n / 0x1_0000, n / 0x100;
    assert n == lo * 0x100 + n % 0x100;
    assert lo == mid * 0x100 + lo % 0x100 && mid == lo / 0x100;
    assert mid == hi * 0x100 + mid % 0x100 && hi == mid / 0x100;
  }

  lemma BigEndianDigits(b0: byte, b1: byte, b2: byte, b3: byte)
    ensures BigEndian(FromBigEndian([b0, b1, b2, b3])) == [b0, b1, b2, b3]
  {
    var hi: nat := b0;
    var mid: nat := hi * 0x100 + b1;
    var lo: nat := mid * 0x100 + b2;
    var n: nat := lo * 0x100 + b3;
    assert n == FromBigEndian([b0, b1, b2, b3]);
    assert n / 0x100 == lo && n % 0x100 == b3;
    assert lo / 0x100 == mid && lo % 0x100 == b2;
    assert mid / 0x100 == hi && mid % 0x100 == b1;
    assert n / 0x1_0000 == mid && n / 0x100_0000 == hi;
  }

  lemma BigEndianRoundTrip(n: nat, b: seq<byte>)
    requires n < U32 && |b| == 4
    ensures FromBigEndian(BigEndian(n)) == n
    ensures BigEndian(FromBigEndian(b)) == b
  {
    BigEndianDecodes(n);
    BigEndianDigits(b[0], b[1], b[2], b[3]);
    assert b == [b[0], b[1], b[2], b[3]];
  }

  lemma ParseAfterPrefix(n: nat, tail: seq<byte>)
    requires n < U32
    ensures ParseFrame(BigEndian(n) + tail) ==
            if n > MAX_MESSAGE_BYTES then (Err(TooLarge(n)), tail)
            else if |tail| < n then (Err(UnexpectedEof), [])
            else (Ok(tail[..n]), tail[n..])
  {
    var input := BigEndian(n) + tail;
    assert input[..4] == BigEndian(n) && input[4..] == tail;
    BigEndianRoundTrip(n, BigEndian(n));
  }

  // --- Round trips ------------------------------------------------------------------------

  /** What a frame is on the wire: four bytes of length, the high one first, and the payload. */
  lemma FrameLayout(payload: seq<byte>)
    requires |payload| < 0x1_0000_0000
    ensures |FrameOf(payload)| == 4 + |payload| && FrameOf(payload)[4..] == payload
    ensures var b := FrameOf(payload);
            |payload| == b[0] as nat * 0x100_0000 + b[1] as nat * 0x1_0000 + b[2] as nat * 0x100 + b[3] as nat
  {
    BigEndianDecodes(|payload|);
    assert FrameOf(payload)[..4] == BigEndian(|payload|);
  }

  /** A written payload is read back, leaving exactly what followed it, if and only if it is
      within the bound of 16 MiB.  Payloads of 2^32 bytes and more, whose length wraps, are never read
      back whole. */
  lemma FrameRoundTripIff(payload: seq<byte>, tail: seq<byte>)
    ensures ParseFrame(FrameOf(payload) + tail) == (Ok(payload), tail) <==> |payload| <= 0x100_0000
  {
    var n := |payload| % U32;
    assert FrameOf(payload) + tail == BigEndian(n) + (payload + tail);
    ParseAfterPrefix(n, payload + tail);
    if |payload| <= MAX_MESSAGE_BYTES {
      assert n == |payload|;
      assert (payload + tail)[..n] == payload && (payload + tail)[n..] == tail;
    }
  }

  /** A payload above the bound but below 2^32 bytes is rejected from its prefix alone. */
  lemma OversizedRejectedFromPrefix(payload: seq<byte>, tail: seq<byte>)
    requires 0x100_0000 < |payload| < 0x1_0000_0000
    ensures FrameOf(payload)[..4] == BigEndian(|payload|)
    ensures ParseFrame(FrameOf(payload)[..4] + tail) == (Err(TooLarge(|payload|)), tail)
  {
    assert |payload| % U32 == |payload|;
    ParseAfterPrefix(|payload|, tail);
  }

  /** Whatever is read as a payload was framed as that payload. */
  lemma ParsedWasFramed(input: seq<byte>)
    requires ParseFrame(input).0.Ok?
    ensures |ParseFrame(input).0.value| <= 0x100_0000
    ensures input == FrameOf(ParseFrame(input).0.value) + ParseFrame(input).1
  {
    var len := FromBigEndian(input[..4]);
    var payload, rest := input[4..][..len], input[4..][len..];
    BigEndianRoundTrip(len, input[..4]);
    assert |payload| % U32 == len;
    assert input == input[..4] + (payload + rest);
    assert FrameOf(payload) + rest == input[..4] + (payload + rest);
  }

  /** A connection cut inside a frame is noticed: no proper prefix of a frame reads as one. */
  lemma TruncationDetected(payload: seq<byte>, k: nat)
    requires |payload| <= MAX_MESSAGE_BYTES && k < |FrameOf(payload)|
    ensures ParseFrame(FrameOf(payload)[..k]) == (Err(UnexpectedEof), [])
  {
    assert |payload| % U32 == |payload|;
    if k >= 4 {
      assert FrameOf(payload)[..k] == BigEndian(|payload|) + payload[..k - 4];
      ParseAfterPrefix(|payload|, payload[..k - 4]);
    }
  }

  function FrameAll(payloads: seq<seq<byte>>): seq<byte>
  {
    if |payloads| == 0 then [] else FrameOf(payloads[0]) + FrameAll(payloads[1..])
  }

  /** Read frames until the input ends or a read fails. */
  function ParseAll(input: seq<byte>): (seq<seq<byte>>, Option<ReadError>)
    decreases |input|
  {
    if |input| == 0 then ([], None)
    else
      var (first, rest) := ParseFrame(input);
      match first
      case Err(e) => ([], Some(e))
      case Ok(p) =>
        if |rest| < |input| then
          var (more, end) := ParseAll(rest);
          ([p] + more, end)
        else ([p], None)
  }

  lemma ParseAllStep(payload: seq<byte>, tail: seq<byte>)
    requires |payload| <= MAX_MESSAGE_BYTES
    ensures ParseAll(FrameOf(payload) + tail) == ([payload] + ParseAll(tail).0, ParseAll(tail).1)
  {
    FrameRoundTripIff(payload, tail);
  }

  lemma OversizedStops(big: seq<byte>, tail: seq<byte>)
    requires MAX_MESSAGE_BYTES < |big| < U32
    ensures ParseAll(FrameOf(big) + tail) == ([], Some(TooLarge(|big|)))
  {
    OversizedRejectedFromPrefix(big, big + tail);
    assert FrameOf(big) + tail == FrameOf(big)[..4] + (big + tail);
  }

  /** Frames written one after another are read back as the same payloads, to the last. */
  lemma {:induction false} StreamRoundTrip(payloads: seq<seq<byte>>)
    requires forall i :: 0 <= i < |payloads| ==> |payloads[i]| <= MAX_MESSAGE_BYTES
    ensures ParseAll(FrameAll(payloads)) == (payloads, None)
  {
    if |payloads| > 0 {
      StreamRoundTrip(payloads[1..]);
      ParseAllStep(payloads[0], FrameAll(payloads[1..]));
      assert payloads == [payloads[0]] + payloads[1..];
    }
  }

  /** One oversized message ends the stream there: what was framed before it is read, what
      comes after it is not. */
  lemma {:induction false} OversizedEndsStream(payloads: seq<seq<byte>>, big: seq<byte>, tail: seq<byte>)
    requires forall i :: 0 <= i < |payloads| ==> |payloads[i]| <= MAX_MESSAGE_BYTES
    requires MAX_MESSAGE_BYTES < |big| < U32
    ensures ParseAll(FrameAll(payloads) + (FrameOf(big) + tail)) == (payloads, Some(TooLarge(|big|)))
  {
    var stop := FrameOf(big) + tail;
    if |payloads| == 0 {
      assert FrameAll(payloads) + stop == stop;
      OversizedStops(big, tail);
    } else {
      var next := FrameAll(payloads[1..]) + stop;
      OversizedEndsStream(payloads[1..], big, tail);
      ParseAllStep(payloads[0], next);
      assert FrameAll(payloads) + stop == FrameOf(payloads[0]) + next;
      assert payloads == [payloads[0]] + payloads[1..];
    }
  }

  // --- Readers and writers ------------------------------------------------------------------

  /** The byte stream a writer appends to. */
  class ByteSink {
    var written: seq<byte>

    constructor ()
      ensures written == []
    {
      written := [];
    }

    method WriteAll(bytes: seq<byte>)
      modifies this
      ensures written == old(written) + bytes
    {
      written := written + bytes;
    }
  }

  /** The byte stream a reader consumes; it ends after `unread`. */
  class ByteSource {
    var unread: seq<byte>

    constructor (bytes: seq<byte>)
      ensures unread == bytes
    {
      unread := bytes;
    }

    /** Fill the buffer, or consume everything and fail when the stream ends first. */
    method ReadExact(buf: array<byte>) returns (ok: bool)
      modifies this, buf
      ensures ok <==> buf.Length <= |old(unread)|
      ensures ok ==> buf[..] == old(unread)[..buf.Length] && unread == old(unread)[buf.Length..]
      ensures !ok ==> unread == []
    {
      var i := 0;
      while i < buf.Length && |unread| > 0
        invariant 0 <= i <= buf.Length && i <= |old(unread)|
        invariant unread == old(unread)[i..]
        invariant buf[..i] == old(unread)[..i]
      {
        buf[i] := unread[0];
        unread := unread[1..];
        i := i + 1;
      }
      ok := i == buf.Length;
    }
  }

  /** Encode, then write the length, then the payload.  Nothing is written when the encoder
      fails. */
  method WriteMessage<T>(writer: ByteSink, encode: T -> Option<seq<byte>>, msg: T) returns (ok: bool)
    modifies writer
    ensures ok <==> encode(msg).Some?
    ensures writer.written == old(writer.written) + if ok then FrameOf(encode(msg).value) else []
    ensures ok && |encode(msg).value| < 0x1_0000_0000 ==>
              var payload, frame := encode(msg).value, writer.written[|old(writer.written)|..];
              && |frame| == 4 + |payload| && frame[4..] == payload
              && |payload| ==
                 frame[0] as nat * 0x100_0000 + frame[1] as nat * 0x1_0000 + frame[2] as nat * 0x100 + frame[3] as nat
  {
    var encoded := encode(msg);
    if encoded.None? {
      return false;
    }
    var payload := encoded.value;
    writer.WriteAll(BigEndian(|payload| % U32));
    writer.WriteAll(payload);
    ok := true;
    assert writer.written[|old(writer.written)|..] == FrameOf(payload);
    if |payload| < U32 {
      FrameLayout(payload);
    }
  }

  function Decoded<T>(decode: seq<byte> -> Option<T>, r: Result<seq<byte>>): Result<T>
  {
    match r
    case Err(e) => Err(e)
    case Ok(p) =>
      match decode(p)
      case None => Err(Undecodable)
      case Some(msg) => Ok(msg)
  }

  /** Read the length into its buffer, refuse it or read the payload into one of that size,
      then decode. */
  method ReadMessage<T>(reader: ByteSource, decode: seq<byte> -> Option<T>) returns (r: Result<T>)
    modifies reader
    ensures r == Decoded(decode, ParseFrame(old(reader.unread)).0)
    ensures reader.unread == ParseFrame(old(reader.unread)).1
    ensures |old(reader.unread)| < 4 ==> r == Err(UnexpectedEof) && reader.unread == []
    ensures |old(reader.unread)| >= 4 ==>
              var b, rest := old(reader.unread)[..4], old(reader.unread)[4..];
              var len := b[0] as nat * 0x100_0000 + b[1] as nat * 0x1_0000 + b[2] as nat * 0x100 + b[3] as nat;
              if len > 0x100_0000 then r == Err(TooLarge(len)) && reader.unread == rest
              else if |rest| < len then r == Err(UnexpectedEof) && reader.unread == []
              else reader.unread == rest[len..] &&
                   r == match decode(rest[..len]) case None => Err(Undecodable) case Some(msg) => Ok(msg)
  {
    var lenBuf := new byte[4];
    var ok := reader.ReadExact(lenBuf);
    if !ok {
      return Err(UnexpectedEof);
    }
    var len := FromBigEndian(lenBuf[..]);
    if len > MAX_MESSAGE_BYTES {
      return Err(TooLarge(len));
    }
    var payload := new byte[len];
    ok := reader.ReadExact(payload);
    if !ok {
      return Err(UnexpectedEof);
    }
    var decoded := decode(payload[..]);
    if decoded.None? {
      return Err(Undecodable);
    }
    r := Ok(decoded.value);
  }

  /** For any codec whose decoder inverts its encoder: a written message within the bound is
      read back, leaving exactly what followed it, and a larger one of less than 2^32 bytes
      is refused with its size. */
  lemma MessageRoundTrip<T(!new)>(encode: T -> Option<seq<byte>>, decode: seq<byte> -> Option<T>, msg: T,
                                  tail: seq<byte>)
    requires forall m :: encode(m).Some? ==> decode(encode(m).value) == Some(m)
    requires encode(msg).Some? && |encode(msg).value| < U32
    ensures var payload := encode(msg).value;
            var (r, rest) := ParseFrame(FrameOf(payload) + tail);
            if |payload| <= MAX_MESSAGE_BYTES then Decoded(decode, r) == Ok(msg) && rest == tail
            else Decoded(decode, r) == Err(TooLarge(|payload|))
  {
    var payload := encode(msg).value;
    FrameRoundTripIff(payload, tail);
    if |payload| > MAX_MESSAGE_BYTES {
      OversizedRejectedFromPrefix(payload, payload + tail);
      assert FrameOf(payload) + tail == FrameOf(payload)[..4] + (payload + tail);
    }
  }

  /** A codec of self-delimiting messages, as a field-by-field one is: the decoder inverts the
      encoder and refuses what is cut short. */
  ghost predicate SelfDelimiting<T(!new)>(encode: T -> Option<seq<byte>>, decode: seq<byte> -> Option<T>)
  {
    && (forall m :: encode(m).Some? ==> decode(encode(m).value) == Some(m))
    && (forall m, k: nat :: encode(m).Some? && k < |encode(m).value| ==> decode(encode(m).value[..k]) == None)
  }

  /** For such a codec a written message is read, as anything at all, if and only if its payload
      is within the bound; this holds of all sizes, also those whose length wraps. */
  lemma MessageReadIff<T(!new)>(encode: T -> Option<seq<byte>>, decode: seq<byte> -> Option<T>, msg: T,
                                tail: seq<byte>)
    requires SelfDelimiting(encode, decode) && encode(msg).Some?
    ensures var payload := encode(msg).value;
            var r := Decoded(decode, ParseFrame(FrameOf(payload) + tail).0);
            && (r.Ok? <==> |payload| <= 0x100_0000)
            && (r.Ok? ==> r.value == msg)
  {
    var payload := encode(msg).value;
    var n := |payload| % U32;
    assert FrameOf(payload) + tail == BigEndian(n) + (payload + tail);
    ParseAfterPrefix(n, payload + tail);
    if |payload| <= MAX_MESSAGE_BYTES {
      FrameRoundTripIff(payload, tail);
    } else if n <= MAX_MESSAGE_BYTES {
      assert n < |payload|;
      assert (payload + tail)[..n] == payload[..n];
    }
  }
}
