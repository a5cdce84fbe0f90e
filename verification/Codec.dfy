/** The bytes of the two messages of `src/gossip/protocol.rs`: numbers in eight bytes, the low one
    first; strings as UTF-8 and lists item by item, each after its length; the fields of a
    struct one after another.  This is the default layout of the codec the program uses. */
module Codec {
  import opened Wrappers
  import opened Crdt
  import opened StoreSpec
  import opened Protocol
  import opened Frame

  type Bytes = seq<byte>

  /** A value, and the bytes after it. */
  type Parsed<T> = Option<(T, Bytes)>

  lemma Associates(a: Bytes, b: Bytes, c: Bytes)
    ensures (a + b) + c == a + (b + c)
  {
  }

  // --- Numbers ----------------------------------------------------------------------------

  function Pow256(k: nat): nat
  {
    if k == 0 then 1 else 256 * Pow256(k - 1)
  }

  function LittleEndian(n: nat, k: nat): (b: Bytes)
    ensures |b| == k
  {
    if k == 0 then [] else [n % 256] + LittleEndian(n / 256, k - 1)
  }

  function FromLittleEndian(b: Bytes): nat
  {
    if |b| == 0 then 0 else b[0] + 256 * FromLittleEndian(b[1..])
  }

  lemma {:induction false} LittleEndianRoundTrip(n: nat, k: nat)
    requires n < Pow256(k)
    ensures FromLittleEndian(LittleEndian(n, k)) == n
  {
    if k > 0 {
      LittleEndianRoundTrip(n / 256, k - 1);
    }
  }

  lemma LowAndHigh(low: nat, high: nat)
    requires low < 256
    ensures (low + 256 * high) % 256 == low && (low + 256 * high) / 256 == high
  {
  }

  lemma {:induction false} FromLittleEndianIsBelow(b: Bytes)
    ensures FromLittleEndian(b) < Pow256(|b|)
  {
    if |b| > 0 {
      FromLittleEndianIsBelow(b[1..]);
    }
  }

  lemma {:induction false} FromLittleEndianRoundTrip(b: Bytes)
    ensures LittleEndian(FromLittleEndian(b), |b|) == b
  {
    if |b| > 0 {
      var high := FromLittleEndian(b[1..]);
      FromLittleEndianRoundTrip(b[1..]);
      LowAndHigh(b[0], high);
      assert LittleEndian(b[0] + 256 * high, |b|) == [b[0]] + LittleEndian(high, |b| - 1);
      assert b == [b[0]] + b[1..];
    }
  }

  lemma EightBytes()
    ensures Pow256(8) == U64
  {
    assert Pow256(2) == 0x1_0000;
    assert Pow256(4) == 256 * (256 * Pow256(2)) == 0x1_0000_0000;
    assert Pow256(6) == 256 * (256 * Pow256(4)) == 0x1_0000_0000_0000;
    assert Pow256(8) == 256 * (256 * Pow256(6));
  }

  function EncodeNumber(n: nat): Bytes
  {
    LittleEndian(n, 8)
  }

  function ParseNumber(b: Bytes): Parsed<nat>
  {
    if |b| < 8 then None else Some((FromLittleEndian(b[..8]), b[8..]))
  }

  lemma NumberRoundTrip(n: nat, tail: Bytes)
    requires n < U64
    ensures ParseNumber(EncodeNumber(n) + tail) == Some((n, tail))
  {
    EightBytes();
    LittleEndianRoundTrip(n, 8);
    assert (EncodeNumber(n) + tail)[..8] == EncodeNumber(n);
    assert (EncodeNumber(n) + tail)[8..] == tail;
  }

  lemma NumberExtends(b: Bytes, more: Bytes)
    ensures ParseNumber(b).Some? ==>
              ParseNumber(b + more) == Some((ParseNumber(b).value.0, ParseNumber(b).value.1 + more))
  {
    if |b| >= 8 {
      assert (b + more)[..8] == b[..8] && (b + more)[8..] == b[8..] + more;
    }
  }

  /** The bytes of a number, the low one first. */
  lemma NumberLayout(n: nat)
    ensures EncodeNumber(n) ==
            [n % 256, n / 256 % 256, n / 0x1_0000 % 256, n / 0x100_0000 % 256, n / 0x1_0000_0000 % 256,
             n / 0x100_0000_0000 % 256, n / 0x1_0000_0000_0000 % 256, n / 0x100_0000_0000_0000 % 256]
  {
    var n1, n2, n3, n4 := n / 256, n / 0x1_0000, n / 0x100_0000, n / 0x1_0000_0000;
    var n5, n6, n7 := n / 0x100_0000_0000, n / 0x1_0000_0000_0000, n / 0x100_0000_0000_0000;
    assert n2 == n1 / 256 && n3 == n2 / 256 && n4 == n3 / 256;
    assert n5 == n4 / 256 && n6 == n5 / 256 && n7 == n6 / 256;
    assert LittleEndian(n6, 2) == [n6 % 256, n7 % 256];
    assert LittleEndian(n4, 4) == [n4 % 256] + ([n5 % 256] + LittleEndian(n6, 2));
    assert LittleEndian(n2, 6) == [n2 % 256] + ([n3 % 256] + LittleEndian(n4, 4));
    assert LittleEndian(n, 8) == [n % 256] + ([n1 % 256] + LittleEndian(n2, 6));
  }

  /** Whatever is read as a number was written as that number. */
  lemma NumberWasEncoded(b: Bytes)
    requires ParseNumber(b).Some?
    ensures var (n, rest) := ParseNumber(b).value;
            n < U64 && b == EncodeNumber(n) + rest
  {
    EightBytes();
    FromLittleEndianIsBelow(b[..8]);
    FromLittleEndianRoundTrip(b[..8]);
    assert b == b[..8] + b[8..];
  }

  // --- Strings ----------------------------------------------------------------------------

  /** UTF-8 of one character. */
  function CharBytes(c: char): (b: Bytes)
    ensures 1 <= |b| <= 4
  {
    var n := c as nat;
    if n < 0x80 then [n]
    else if n < 0x800 then [0xC0 + n / 0x40, 0x80 + n % 0x40]
    else if n < 0x1_0000 then [0xE0 + n / 0x1000, 0x80 + n / 0x40 % 0x40, 0x80 + n % 0x40]
    else [0xF0 + n / 0x4_0000, 0x80 + n / 0x1000 % 0x40, 0x80 + n / 0x40 % 0x40, 0x80 + n % 0x40]
  }

  function Utf8(s: string): Bytes
  {
    if |s| == 0 then [] else CharBytes(s[0]) + Utf8(s[1..])
  }

  predicate IsContinuation(b: byte)
  {
    0x80 <= b < 0xC0
  }

  /** A scalar value, unless it is a surrogate or out of range, or was written in too many bytes. */
  function Scalar(n: nat, least: nat): Option<char>
  {
    if least <= n && (n < 0xD800 || 0xE000 <= n < 0x11_0000) then Some(n as char) else None
  }

  /** The six bits that a continuation byte carries. */
  function Bits(b: byte): nat
    requires IsContinuation(b)
  {
    b as nat - 0x80
  }

  predicate AreContinuations(b: Bytes, count: nat)
  {
    |b| > count && forall i :: 1 <= i <= count ==> IsContinuation(b[i])
  }

  function WithLength(c: Option<char>, length: nat): Option<(char, nat)>
  {
    match c
    case None => None
    case Some(c) => Some((c, length))
  }

  /** The first character and the number of bytes it takes. */
  function ParseChar(b: Bytes): Option<(char, nat)>
    requires |b| > 0
    ensures ParseChar(b).Some? ==> 1 <= ParseChar(b).value.1 <= |b|
  {
    var first := b[0] as nat;
    if first < 0x80 then
      Some((first as char, 1))
    else if 0xC0 <= first < 0xE0 && AreContinuations(b, 1) then
      WithLength(Scalar((first - 0xC0) * 0x40 + Bits(b[1]), 0x80), 2)
    else if 0xE0 <= first < 0xF0 && AreContinuations(b, 2) then
      WithLength(Scalar(((first - 0xE0) * 0x40 + Bits(b[1])) * 0x40 + Bits(b[2]), 0x800), 3)
    else if 0xF0 <= first < 0xF8 && AreContinuations(b, 3) then
      WithLength(Scalar((((first - 0xF0) * 0x40 + Bits(b[1])) * 0x40 + Bits(b[2])) * 0x40 + Bits(b[3]), 0x1_0000), 4)
    else
      None
  }

  function FromUtf8(b: Bytes): Option<string>
    decreases |b|
  {
    if |b| == 0 then Some("")
    else
      match ParseChar(b)
      case None => None
      case Some((c, k)) =>
        match FromUtf8(b[k..])
        case None => None
        case Some(s) => Some([c] + s)
  }

  /** Six bits at a time. */
  lemma Sextets(n: nat)
    ensures n == n / 0x40 * 0x40 + n % 0x40
    ensures n / 0x1000 == n / 0x40 / 0x40 && n / 0x4_0000 == n / 0x1000 / 0x40
  {
  }

  lemma TwoBytes(a: nat, b: nat, tail: Bytes)
    requires a < 0x20 && b < 0x40
    ensures ParseChar([0xC0 + a, 0x80 + b] + tail) == WithLength(Scalar(a * 0x40 + b, 0x80), 2)
  {
  }

  lemma ThreeBytes(a: nat, b: nat, c: nat, tail: Bytes)
    requires a < 0x10 && b < 0x40 && c < 0x40
    ensures ParseChar([0xE0 + a, 0x80 + b, 0x80 + c] + tail) == WithLength(Scalar((a * 0x40 + b) * 0x40 + c, 0x800), 3)
  {
  }

  lemma FourBytes(a: nat, b: nat, c: nat, d: nat, tail: Bytes)
    requires a < 8 && b < 0x40 && c < 0x40 && d < 0x40
    ensures ParseChar([0xF0 + a, 0x80 + b, 0x80 + c, 0x80 + d] + tail) ==
            WithLength(Scalar(((a * 0x40 + b) * 0x40 + c) * 0x40 + d, 0x1_0000), 4)
  {
  }

  lemma TwoByteRoundTrip(c: char, tail: Bytes)
    requires 0x80 <= c as nat < 0x800
    ensures ParseChar(CharBytes(c) + tail) == Some((c, 2))
  {
    var n := c as nat;
    Sextets(n);
    TwoBytes(n / 0x40, n % 0x40, tail);
  }

  lemma ThreeByteRoundTrip(c: char, tail: Bytes)
    requires 0x800 <= c as nat < 0x1_0000
    ensures ParseChar(CharBytes(c) + tail) == Some((c, 3))
  {
    var n := c as nat;
    Sextets(n);
    Sextets(n / 0x40);
    ThreeBytes(n / 0x1000, n / 0x40 % 0x40, n % 0x40, tail);
  }

  lemma FourByteRoundTrip(c: char, tail: Bytes)
    requires 0x1_0000 <= c as nat
    ensures ParseChar(CharBytes(c) + tail) == Some((c, 4))
  {
    var n := c as nat;
    Sextets(n);
    Sextets(n / 0x40);
    Sextets(n / 0x1000);
    FourBytes(n / 0x4_0000, n / 0x1000 % 0x40, n / 0x40 % 0x40, n % 0x40, tail);
  }

  lemma CharRoundTrip(c: char, tail: Bytes)
    ensures ParseChar(CharBytes(c) + tail) == Some((c, |CharBytes(c)|))
  {
    if c as nat >= 0x1_0000 {
      FourByteRoundTrip(c, tail);
    } else if c as nat >= 0x800 {
      ThreeByteRoundTrip(c, tail);
    } else if c as nat >= 0x80 {
      TwoByteRoundTrip(c, tail);
    }
  }

  lemma {:induction false} Utf8RoundTrip(s: string)
    ensures FromUtf8(Utf8(s)) == Some(s)
  {
    if |s| > 0 {
      var first, rest := CharBytes(s[0]), Utf8(s[1..]);
      CharRoundTrip(s[0], rest);
      assert (first + rest)[|first|..] == rest;
      Utf8RoundTrip(s[1..]);
      assert s == [s[0]] + s[1..];
    }
  }

  lemma TwoBytesBack(b: Bytes)
    requires |b| >= 2 && 0xC0 <= b[0] < 0xE0 && IsContinuation(b[1])
    ensures ParseChar(b).Some? ==> ParseChar(b).value.1 == 2 && CharBytes(ParseChar(b).value.0) == b[..2]
  {
    var first, second := b[0] as nat - 0xC0, Bits(b[1]);
    var n := first * 0x40 + second;
    assert n / 0x40 == first && n % 0x40 == second;
    assert AreContinuations(b, 1) && b[..2] == [b[0], b[1]];
  }

  lemma ThreeBytesBack(b: Bytes)
    requires |b| >= 3 && 0xE0 <= b[0] < 0xF0 && IsContinuation(b[1]) && IsContinuation(b[2])
    ensures ParseChar(b).Some? ==> ParseChar(b).value.1 == 3 && CharBytes(ParseChar(b).value.0) == b[..3]
  {
    var first, second, third := b[0] as nat - 0xE0, Bits(b[1]), Bits(b[2]);
    var n := (first * 0x40 + second) * 0x40 + third;
    Sextets(n);
    assert n / 0x40 == first * 0x40 + second && n % 0x40 == third;
    assert n / 0x1000 == first && n / 0x40 % 0x40 == second;
    assert AreContinuations(b, 2) && b[..3] == [b[0], b[1], b[2]];
  }

  lemma FourBytesBack(b: Bytes)
    requires |b| >= 4 && 0xF0 <= b[0] < 0xF8
    requires IsContinuation(b[1]) && IsContinuation(b[2]) && IsContinuation(b[3])
    ensures ParseChar(b).Some? ==> ParseChar(b).value.1 == 4 && CharBytes(ParseChar(b).value.0) == b[..4]
  {
    var first, second, third, fourth := b[0] as nat - 0xF0, Bits(b[1]), Bits(b[2]), Bits(b[3]);
    var n := ((first * 0x40 + second) * 0x40 + third) * 0x40 + fourth;
    Sextets(n);
    Sextets(n / 0x40);
    assert n / 0x40 == (first * 0x40 + second) * 0x40 + third && n % 0x40 == fourth;
    assert n / 0x1000 == first * 0x40 + second && n / 0x40 % 0x40 == third;
    assert n / 0x4_0000 == first && n / 0x1000 % 0x40 == second;
    assert AreContinuations(b, 3) && b[..4] == [b[0], b[1], b[2], b[3]];
  }

  /** Whatever is read as a character was written as that character: no other bytes are taken for
      it, overlong ones least of all. */
  lemma CharWasEncoded(b: Bytes)
    requires |b| > 0 && ParseChar(b).Some?
    ensures CharBytes(ParseChar(b).value.0) == b[..ParseChar(b).value.1]
  {
    if b[0] < 0x80 {
      assert b[..1] == [b[0]];
    } else if b[0] < 0xE0 {
      TwoBytesBack(b);
    } else if b[0] < 0xF0 {
      ThreeBytesBack(b);
    } else {
      FourBytesBack(b);
    }
  }

  lemma Utf8Cons(c: char, s: string)
    ensures Utf8([c] + s) == CharBytes(c) + Utf8(s)
  {
    assert ([c] + s)[1..] == s;
  }

  lemma SplitsAt(b: Bytes, k: nat)
    requires k <= |b|
    ensures b == b[..k] + b[k..]
  {
  }

  lemma FirstCharRead(b: Bytes)
    requires |b| > 0 && FromUtf8(b).Some?
    ensures ParseChar(b).Some? && FromUtf8(b[ParseChar(b).value.1..]).Some?
    ensures FromUtf8(b).value == [ParseChar(b).value.0] + FromUtf8(b[ParseChar(b).value.1..]).value
  {
  }

  lemma {:induction false} Utf8WasEncoded(b: Bytes)
    requires FromUtf8(b).Some?
    ensures Utf8(FromUtf8(b).value) == b
    decreases |b|
  {
    if |b| > 0 {
      FirstCharRead(b);
      var k := ParseChar(b).value.1;
      CharWasEncoded(b);
      Utf8WasEncoded(b[k..]);
      Utf8Cons(ParseChar(b).value.0, FromUtf8(b[k..]).value);
      SplitsAt(b, k);
    }
  }

  function StringSize(s: string): nat
  {
    8 + |Utf8(s)|
  }

  function EncodeString(s: string): (b: Bytes)
    ensures |b| == StringSize(s)
  {
    EncodeNumber(|Utf8(s)|) + Utf8(s)
  }

  function ParseString(b: Bytes): Parsed<string>
  {
    match ParseNumber(b)
    case None => None
    case Some((n, rest)) =>
      if |rest| < n then None
      else
        match FromUtf8(rest[..n])
        case None => None
        case Some(s) => Some((s, rest[n..]))
  }

  lemma StringRoundTrip(s: string, tail: Bytes)
    requires |Utf8(s)| < U64
    ensures ParseString(EncodeString(s) + tail) == Some((s, tail))
  {
    var b := Utf8(s);
    Associates(EncodeNumber(|b|), b, tail);
    NumberRoundTrip(|b|, b + tail);
    assert (b + tail)[..|b|] == b && (b + tail)[|b|..] == tail;
    Utf8RoundTrip(s);
  }

  lemma StringWasEncoded(b: Bytes)
    requires ParseString(b).Some?
    ensures var (s, rest) := ParseString(b).value;
            |Utf8(s)| < U64 && b == EncodeString(s) + rest
  {
    var (n, bytes) := ParseNumber(b).value;
    NumberWasEncoded(b);
    Utf8WasEncoded(bytes[..n]);
    Associates(EncodeNumber(n), bytes[..n], bytes[n..]);
    assert bytes == bytes[..n] + bytes[n..];
  }

  /** More bytes after a string change nothing about it; and so for all that follows. */
  lemma StringExtends(b: Bytes, more: Bytes)
    ensures ParseString(b).Some? ==>
              ParseString(b + more) == Some((ParseString(b).value.0, ParseString(b).value.1 + more))
  {
    if ParseString(b).Some? {
      NumberExtends(b, more);
      var (n, rest) := ParseNumber(b).value;
      assert (rest + more)[..n] == rest[..n] && (rest + more)[n..] == rest[n..] + more;
    }
  }

  // --- Entries ----------------------------------------------------------------------------

  function EntrySize(e: Entry): nat
  {
    StringSize(e.key) + StringSize(e.value.value) + 8 + StringSize(e.value.nodeId)
  }

  function EncodeEntry(e: Entry): (b: Bytes)
    ensures |b| == EntrySize(e)
  {
    EncodeString(e.key) +
    (EncodeString(e.value.value) + (EncodeNumber(e.value.timestamp) + EncodeString(e.value.nodeId)))
  }

  function ParseEntry(b: Bytes): Parsed<Entry>
  {
    match ParseString(b)
    case None => None
    case Some((key, b1)) =>
      match ParseString(b1)
      case None => None
      case Some((value, b2)) =>
        match ParseNumber(b2)
        case None => None
        case Some((timestamp, b3)) =>
          match ParseString(b3)
          case None => None
          case Some((nodeId, b4)) => Some((Entry(key, LwwValue(value, timestamp, nodeId)), b4))
  }

  /** All numbers and lengths are within 64 bits, as they are in the program. */
  predicate EntryInRange(e: Entry)
  {
    && |Utf8(e.key)| < U64 && |Utf8(e.value.value)| < U64
    && e.value.timestamp < U64 && |Utf8(e.value.nodeId)| < U64
  }

  lemma EntryRoundTrip(e: Entry, tail: Bytes)
    requires EntryInRange(e)
    ensures ParseEntry(EncodeEntry(e) + tail) == Some((e, tail))
  {
    var b4 := tail;
    var b3 := EncodeString(e.value.nodeId) + b4;
    var b2 := EncodeNumber(e.value.timestamp) + b3;
    var b1 := EncodeString(e.value.value) + b2;
    var nodeId, timestamp, value := EncodeString(e.value.nodeId), EncodeNumber(e.value.timestamp),
                                    EncodeString(e.value.value);
    Associates(EncodeString(e.key), value + (timestamp + nodeId), tail);
    Associates(value, timestamp + nodeId, tail);
    Associates(timestamp, nodeId, tail);
    StringRoundTrip(e.key, b1);
    StringRoundTrip(e.value.value, b2);
    NumberRoundTrip(e.value.timestamp, b3);
    StringRoundTrip(e.value.nodeId, b4);
  }

  lemma EntryWasEncoded(b: Bytes)
    requires ParseEntry(b).Some?
    ensures var (e, rest) := ParseEntry(b).value;
            EntryInRange(e) && b == EncodeEntry(e) + rest
  {
    var (key, b1) := ParseString(b).value;
    var (value, b2) := ParseString(b1).value;
    var (timestamp, b3) := ParseNumber(b2).value;
    var (nodeId, b4) := ParseString(b3).value;
    StringWasEncoded(b);
    StringWasEncoded(b1);
    NumberWasEncoded(b2);
    StringWasEncoded(b3);
    var v, t, i := EncodeString(value), EncodeNumber(timestamp), EncodeString(nodeId);
    Associates(EncodeString(key), v + (t + i), b4);
    Associates(v, t + i, b4);
    Associates(t, i, b4);
  }

  lemma EntryExtends(b: Bytes, more: Bytes)
    ensures ParseEntry(b).Some? ==>
              ParseEntry(b + more) == Some((ParseEntry(b).value.0, ParseEntry(b).value.1 + more))
  {
    if ParseEntry(b).Some? {
      StringExtends(b, more);
      var b1 := ParseString(b).value.1;
      StringExtends(b1, more);
      var b2 := ParseString(b1).value.1;
      NumberExtends(b2, more);
      StringExtends(ParseNumber(b2).value.1, more);
    }
  }

  function EntriesSize(d: StateDelta): nat
  {
    if |d| == 0 then 0 else EntrySize(d[0]) + EntriesSize(d[1..])
  }

  function EncodeMany<T>(encode: T -> Bytes, xs: seq<T>): Bytes
  {
    if |xs| == 0 then [] else encode(xs[0]) + EncodeMany(encode, xs[1..])
  }

  function EncodeEntries(d: StateDelta): Bytes
  {
    EncodeMany(EncodeEntry, d)
  }

  lemma {:induction false} EncodedEntriesSize(d: StateDelta)
    ensures |EncodeEntries(d)| == EntriesSize(d)
  {
    if |d| > 0 {
      EncodedEntriesSize(d[1..]);
    }
  }

  function Prepend<T>(x: T, p: Parsed<seq<T>>): Parsed<seq<T>>
  {
    match p
    case None => None
    case Some((xs, end)) => Some(([x] + xs, end))
  }

  function ParseMany<T>(parse: Bytes -> Parsed<T>, count: nat, b: Bytes): Parsed<seq<T>>
    decreases count
  {
    if count == 0 then Some(([], b))
    else
      match parse(b)
      case None => None
      case Some((x, rest)) => Prepend(x, ParseMany(parse, count - 1, rest))
  }

  function ParseEntries(count: nat, b: Bytes): Parsed<StateDelta>
  {
    ParseMany(ParseEntry, count, b)
  }

  lemma {:induction false} ManyRoundTrip<T(!new)>(encode: T -> Bytes, parse: Bytes -> Parsed<T>, xs: seq<T>,
                                                  tail: Bytes)
    requires forall x, b :: x in xs ==> parse(encode(x) + b) == Some((x, b))
    ensures ParseMany(parse, |xs|, EncodeMany(encode, xs) + tail) == Some((xs, tail))
  {
    if |xs| == 0 {
      assert EncodeMany(encode, xs) + tail == tail;
    } else {
      var rest := EncodeMany(encode, xs[1..]) + tail;
      Associates(encode(xs[0]), EncodeMany(encode, xs[1..]), tail);
      assert parse(encode(xs[0]) + rest) == Some((xs[0], rest));
      ManyRoundTrip(encode, parse, xs[1..], tail);
      assert xs == [xs[0]] + xs[1..];
    }
  }

  lemma EntriesRoundTrip(d: StateDelta, tail: Bytes)
    requires forall e :: e in d ==> EntryInRange(e)
    ensures ParseEntries(|d|, EncodeEntries(d) + tail) == Some((d, tail))
  {
    forall e, b | e in d
      ensures ParseEntry(EncodeEntry(e) + b) == Some((e, b))
    {
      EntryRoundTrip(e, b);
    }
    ManyRoundTrip(EncodeEntry, ParseEntry, d, tail);
  }

  lemma {:induction false} ManyWereEncoded<T(!new)>(encode: T -> Bytes, parse: Bytes -> Parsed<T>, ok: T -> bool,
                                                    count: nat, b: Bytes)
    requires forall b1 :: parse(b1).Some? ==>
               ok(parse(b1).value.0) && b1 == encode(parse(b1).value.0) + parse(b1).value.1
    requires ParseMany(parse, count, b).Some?
    ensures var (xs, rest) := ParseMany(parse, count, b).value;
            && |xs| == count && (forall x :: x in xs ==> ok(x))
            && b == EncodeMany(encode, xs) + rest
    decreases count
  {
    if count == 0 {
      assert EncodeMany(encode, []) + b == b;
    } else {
      var (x, b1) := parse(b).value;
      var (xs, rest) := ParseMany(parse, count - 1, b1).value;
      ManyWereEncoded(encode, parse, ok, count - 1, b1);
      assert ([x] + xs)[1..] == xs;
      Associates(encode(x), EncodeMany(encode, xs), rest);
    }
  }

  lemma EntriesWereEncoded(count: nat, b: Bytes)
    requires ParseEntries(count, b).Some?
    ensures var (d, rest) := ParseEntries(count, b).value;
            && |d| == count && (forall e :: e in d ==> EntryInRange(e))
            && b == EncodeEntries(d) + rest
  {
    forall b1 | ParseEntry(b1).Some?
      ensures EntryInRange(ParseEntry(b1).value.0) && b1 == EncodeEntry(ParseEntry(b1).value.0) + ParseEntry(b1).value.1
    {
      EntryWasEncoded(b1);
    }
    ManyWereEncoded(EncodeEntry, ParseEntry, EntryInRange, count, b);
  }

  /** The parse with `more` after it. */
  function Extended<T>(p: Parsed<T>, more: Bytes): Parsed<T>
  {
    match p
    case None => None
    case Some((x, rest)) => Some((x, rest + more))
  }

  lemma {:induction false} ManyExtend<T>(parse: Bytes -> Parsed<T>, count: nat, b: Bytes, more: Bytes)
    requires forall b1, b2 :: parse(b1).Some? ==> parse(b1 + b2) == Extended(parse(b1), b2)
    requires ParseMany(parse, count, b).Some?
    ensures ParseMany(parse, count, b + more) == Extended(ParseMany(parse, count, b), more)
    decreases count
  {
    if count > 0 {
      var rest := parse(b).value.1;
      assert parse(b + more) == Extended(parse(b), more);
      ManyExtend(parse, count - 1, rest, more);
    }
  }

  lemma EntriesExtend(count: nat, b: Bytes, more: Bytes)
    requires ParseEntries(count, b).Some?
    ensures ParseEntries(count, b + more) ==
            Some((ParseEntries(count, b).value.0, ParseEntries(count, b).value.1 + more))
  {
    forall b1, b2 | ParseEntry(b1).Some?
      ensures ParseEntry(b1 + b2) == Extended(ParseEntry(b1), b2)
    {
      EntryExtends(b1, b2);
    }
    ManyExtend(ParseEntry, count, b, more);
  }

  // --- Messages ---------------------------------------------------------------------------

  function EncodeGossip(msg: GossipMessage): Bytes
  {
    EncodeString(msg.fromNodeId) + (EncodeString(msg.fromGossipAddr) +
      (EncodeNumber(|msg.deltas|) + (EncodeEntries(msg.deltas) + EncodeNumber(msg.generation))))
  }

  function ParseGossip(b: Bytes): Parsed<GossipMessage>
  {
    match ParseString(b)
    case None => None
    case Some((id, b1)) =>
      match ParseString(b1)
      case None => None
      case Some((addr, b2)) =>
        match ParseNumber(b2)
        case None => None
        case Some((count, b3)) =>
          match ParseEntries(count, b3)
          case None => None
          case Some((d, b4)) =>
            match ParseNumber(b4)
            case None => None
            case Some((generation, b5)) => Some((GossipMessage(id, addr, d, generation), b5))
  }

  predicate GossipInRange(msg: GossipMessage)
  {
    && |Utf8(msg.fromNodeId)| < U64 && |Utf8(msg.fromGossipAddr)| < U64
    && |msg.deltas| < U64 && (forall e :: e in msg.deltas ==> EntryInRange(e)) && msg.generation < U64
  }

  lemma GossipRoundTrip(msg: GossipMessage, tail: Bytes)
    requires GossipInRange(msg)
    ensures ParseGossip(EncodeGossip(msg) + tail) == Some((msg, tail))
  {
    var b4 := EncodeNumber(msg.generation) + tail;
    var b3 := EncodeEntries(msg.deltas) + b4;
    var b2 := EncodeNumber(|msg.deltas|) + b3;
    var b1 := EncodeString(msg.fromGossipAddr) + b2;
    var addr, count := EncodeString(msg.fromGossipAddr), EncodeNumber(|msg.deltas|);
    var deltas, generation := EncodeEntries(msg.deltas), EncodeNumber(msg.generation);
    Associates(EncodeString(msg.fromNodeId), addr + (count + (deltas + generation)), tail);
    Associates(addr, count + (deltas + generation), tail);
    Associates(count, deltas + generation, tail);
    Associates(deltas, generation, tail);
    StringRoundTrip(msg.fromNodeId, b1);
    StringRoundTrip(msg.fromGossipAddr, b2);
    NumberRoundTrip(|msg.deltas|, b3);
    EntriesRoundTrip(msg.deltas, b4);
    NumberRoundTrip(msg.generation, tail);
  }

  /** Whatever is read as a gossip message was written as that message. */
  lemma GossipWasEncoded(b: Bytes)
    requires ParseGossip(b).Some?
    ensures var (msg, rest) := ParseGossip(b).value;
            GossipInRange(msg) && b == EncodeGossip(msg) + rest
  {
    var (id, b1) := ParseString(b).value;
    var (addr, b2) := ParseString(b1).value;
    var (count, b3) := ParseNumber(b2).value;
    var (d, b4) := ParseEntries(count, b3).value;
    var (generation, b5) := ParseNumber(b4).value;
    StringWasEncoded(b);
    StringWasEncoded(b1);
    NumberWasEncoded(b2);
    EntriesWereEncoded(count, b3);
    NumberWasEncoded(b4);
    var a, n, es, g := EncodeString(addr), EncodeNumber(count), EncodeEntries(d), EncodeNumber(generation);
    Associates(EncodeString(id), a + (n + (es + g)), b5);
    Associates(a, n + (es + g), b5);
    Associates(n, es + g, b5);
    Associates(es, g, b5);
  }

  lemma GossipExtends(b: Bytes, more: Bytes)
    ensures ParseGossip(b).Some? ==>
              ParseGossip(b + more) == Some((ParseGossip(b).value.0, ParseGossip(b).value.1 + more))
  {
    if ParseGossip(b).Some? {
      StringExtends(b, more);
      var b1 := ParseString(b).value.1;
      StringExtends(b1, more);
      var b2 := ParseString(b1).value.1;
      NumberExtends(b2, more);
      var (count, b3) := ParseNumber(b2).value;
      EntriesExtend(count, b3, more);
      NumberExtends(ParseEntries(count, b3).value.1, more);
    }
  }

  function EncodeAck(ack: GossipAck): Bytes
  {
    EncodeString(ack.fromNodeId) + EncodeNumber(ack.mergedCount)
  }

  function ParseAck(b: Bytes): Parsed<GossipAck>
  {
    match ParseString(b)
    case None => None
    case Some((id, b1)) =>
      match ParseNumber(b1)
      case None => None
      case Some((count, b2)) => Some((GossipAck(id, count), b2))
  }

  predicate AckInRange(ack: GossipAck)
  {
    |Utf8(ack.fromNodeId)| < U64 && ack.mergedCount < U64
  }

  lemma AckRoundTrip(ack: GossipAck, tail: Bytes)
    requires AckInRange(ack)
    ensures ParseAck(EncodeAck(ack) + tail) == Some((ack, tail))
  {
    Associates(EncodeString(ack.fromNodeId), EncodeNumber(ack.mergedCount), tail);
    StringRoundTrip(ack.fromNodeId, EncodeNumber(ack.mergedCount) + tail);
    NumberRoundTrip(ack.mergedCount, tail);
  }

  lemma AckWasEncoded(b: Bytes)
    requires ParseAck(b).Some?
    ensures var (ack, rest) := ParseAck(b).value;
            AckInRange(ack) && b == EncodeAck(ack) + rest
  {
    var (id, b1) := ParseString(b).value;
    var (count, b2) := ParseNumber(b1).value;
    StringWasEncoded(b);
    NumberWasEncoded(b1);
    Associates(EncodeString(id), EncodeNumber(count), b2);
  }

  lemma AckExtends(b: Bytes, more: Bytes)
    ensures ParseAck(b).Some? ==> ParseAck(b + more) == Some((ParseAck(b).value.0, ParseAck(b).value.1 + more))
  {
    if ParseAck(b).Some? {
      StringExtends(b, more);
      NumberExtends(ParseString(b).value.1, more);
    }
  }

  // --- The codecs -------------------------------------------------------------------------

  function GossipBytes(msg: GossipMessage): Option<Bytes>
  {
    if GossipInRange(msg) then Some(EncodeGossip(msg)) else None
  }

  /** Bytes after the message are ignored. */
  function GossipFrom(b: Bytes): Option<GossipMessage>
  {
    match ParseGossip(b)
    case None => None
    case Some((msg, _)) => Some(msg)
  }

  function AckBytes(ack: GossipAck): Option<Bytes>
  {
    if AckInRange(ack) then Some(EncodeAck(ack)) else None
  }

  function AckFrom(b: Bytes): Option<GossipAck>
  {
    match ParseAck(b)
    case None => None
    case Some((ack, _)) => Some(ack)
  }

  lemma GossipWhole(msg: GossipMessage)
    requires GossipInRange(msg)
    ensures ParseGossip(EncodeGossip(msg)) == Some((msg, []))
  {
    GossipRoundTrip(msg, []);
    assert EncodeGossip(msg) + [] == EncodeGossip(msg);
  }

  /** A parser that takes the whole of some bytes, and does not care what follows what it takes,
      takes no proper prefix of them. */
  lemma CutIsRefused<T>(parse: Bytes -> Parsed<T>, b: Bytes, k: nat)
    requires k < |b| && parse(b).Some? && parse(b).value.1 == []
    requires parse(b[..k]).Some? ==> parse(b[..k] + b[k..]) == Extended(parse(b[..k]), b[k..])
    ensures parse(b[..k]) == None
  {
    assert b[..k] + b[k..] == b;
  }

  lemma GossipCut(msg: GossipMessage, k: nat)
    requires GossipInRange(msg) && k < |EncodeGossip(msg)|
    ensures ParseGossip(EncodeGossip(msg)[..k]) == None
  {
    var b := EncodeGossip(msg);
    GossipWhole(msg);
    GossipExtends(b[..k], b[k..]);
    CutIsRefused(ParseGossip, b, k);
  }

  /** A message is read back, and nothing is read from a message that is cut short. */
  lemma GossipIsSelfDelimiting()
    ensures SelfDelimiting(GossipBytes, GossipFrom)
  {
    forall msg | GossipBytes(msg).Some?
      ensures GossipFrom(GossipBytes(msg).value) == Some(msg)
    {
      GossipWhole(msg);
    }
    forall msg, k: nat | GossipBytes(msg).Some? && k < |GossipBytes(msg).value|
      ensures GossipFrom(GossipBytes(msg).value[..k]) == None
    {
      GossipCut(msg, k);
    }
  }

  lemma AckCut(ack: GossipAck, k: nat)
    requires AckInRange(ack) && k < |EncodeAck(ack)|
    ensures ParseAck(EncodeAck(ack)) == Some((ack, [])) && ParseAck(EncodeAck(ack)[..k]) == None
  {
    var b := EncodeAck(ack);
    AckRoundTrip(ack, []);
    assert b + [] == b;
    AckExtends(b[..k], b[k..]);
    CutIsRefused(ParseAck, b, k);
  }

  lemma AckIsSelfDelimiting()
    ensures SelfDelimiting(AckBytes, AckFrom)
  {
    forall ack | AckBytes(ack).Some?
      ensures AckFrom(AckBytes(ack).value) == Some(ack)
    {
      AckCut(ack, 0);
    }
    forall ack, k: nat | AckBytes(ack).Some? && k < |AckBytes(ack).value|
      ensures AckFrom(AckBytes(ack).value[..k]) == None
    {
      AckCut(ack, k);
    }
  }

  // --- Sizes ------------------------------------------------------------------------------

  lemma GossipSize(msg: GossipMessage)
    ensures |EncodeGossip(msg)| ==
            StringSize(msg.fromNodeId) + StringSize(msg.fromGossipAddr) + EntriesSize(msg.deltas) + 16
  {
    EncodedEntriesSize(msg.deltas);
  }

  ghost function TotalSize(es: set<Entry>): nat
  {
    if es == {} then 0
    else
      var e :| e in es;
      EntrySize(e) + TotalSize(es - {e})
  }

  lemma {:induction false} TotalSizeWithout(es: set<Entry>, e: Entry)
    requires e in es
    ensures TotalSize(es) == EntrySize(e) + TotalSize(es - {e})
    decreases |es|
  {
    var first :| first in es && TotalSize(es) == EntrySize(first) + TotalSize(es - {first});
    if first != e {
      TotalSizeWithout(es - {first}, e);
      TotalSizeWithout(es - {e}, first);
      assert es - {first} - {e} == es - {e} - {first};
    }
  }

  lemma {:induction false} TotalSizeMonotone(es: set<Entry>, es': set<Entry>)
    requires es <= es'
    ensures TotalSize(es) <= TotalSize(es')
    decreases |es'|
  {
    if es' != es {
      var e :| e in es' && e !in es;
      TotalSizeWithout(es', e);
      TotalSizeMonotone(es, es' - {e});
    }
  }

  /** The size of the message from the node `id` at `addr` with this delta. */
  ghost function MessageSize(id: NodeId, addr: Addr, d: Entries): nat
  {
    StringSize(id) + StringSize(addr) + TotalSize(ItemsOf(d)) + 16
  }

  lemma ItemsWithout(m: Entries, k: Key)
    requires k in m
    ensures ItemsOf(Without(m, k)) == ItemsOf(m) - {Entry(k, m[k])}
  {
  }

  lemma {:induction false} ListedSize(d: StateDelta, dm: Entries)
    requires Enumerates(d, dm)
    ensures EntriesSize(d) == TotalSize(ItemsOf(dm))
    decreases |d|
  {
    if |d| == 0 {
      assert ItemsOf(dm) == {};
    } else {
      var rest := Without(dm, d[0].key);
      TailEnumerates(d, dm);
      ListedSize(d[1..], rest);
      ItemsWithout(dm, d[0].key);
      TotalSizeWithout(ItemsOf(dm), d[0]);
    }
  }

  lemma TailEnumerates(d: StateDelta, dm: Entries)
    requires Enumerates(d, dm) && |d| > 0
    ensures Enumerates(d[1..], Without(dm, d[0].key))
  {
    var tail := d[1..];
    forall i | 0 <= i < |tail|
      ensures tail[i].key in Without(dm, d[0].key) && dm[tail[i].key] == tail[i].value
    {
      assert tail[i] == d[i + 1] && d[0].key != d[i + 1].key;
    }
    forall k | k in Without(dm, d[0].key)
      ensures Entry(k, dm[k]) in tail
    {
      assert Entry(k, dm[k]) in d && d == [d[0]] + tail;
    }
  }

  /** In whatever order the delta is listed, the receiver reads the message if and only if its
      size is within the bound. */
  lemma GossipReadIff(msg: GossipMessage, d: Entries, tail: Bytes)
    requires GossipInRange(msg) && Enumerates(msg.deltas, d)
    ensures var r := Decoded(GossipFrom, ParseFrame(FrameOf(EncodeGossip(msg)) + tail).0);
            && (r.Ok? <==> MessageSize(msg.fromNodeId, msg.fromGossipAddr, d) <= 0x100_0000)
            && (r.Ok? ==> r.value == msg)
  {
    GossipIsSelfDelimiting();
    assert GossipBytes(msg) == Some(EncodeGossip(msg));
    MessageReadIff(GossipBytes, GossipFrom, msg, tail);
    GossipSize(msg);
    ListedSize(msg.deltas, d);
  }

  /** Every acknowledgement of a node whose id is not itself about 16 MiB long is read. */
  lemma AckReadIff(ack: GossipAck, tail: Bytes)
    requires AckInRange(ack)
    ensures var r := Decoded(AckFrom, ParseFrame(FrameOf(EncodeAck(ack)) + tail).0);
            && (r.Ok? <==> StringSize(ack.fromNodeId) + 8 <= 0x100_0000)
            && (r.Ok? ==> r.value == ack)
  {
    AckIsSelfDelimiting();
    assert AckBytes(ack) == Some(EncodeAck(ack));
    MessageReadIff(AckBytes, AckFrom, ack, tail);
  }

  // --- One message on the wire --------------------------------------------------------------

  lemma OneCharString(c: char)
    requires c as nat < 0x80
    ensures EncodeString([c]) == [1, 0, 0, 0, 0, 0, 0, 0, c as nat]
  {
    Utf8Cons(c, "");
    assert [c] + "" == [c] && Utf8([c]) == [c as nat];
    SmallNumber(1);
  }

  lemma SmallNumber(n: nat)
    requires n < 256
    ensures EncodeNumber(n) == [n, 0, 0, 0, 0, 0, 0, 0]
  {
    NumberLayout(n);
  }

  /** Which field is where: sender, address, number of entries; for the entry key, value, timestamp
      and node id; and the generation. */
  lemma GossipOnTheWire()
    ensures EncodeGossip(GossipMessage("n", "a", [Entry("k", LwwValue("v", 5, "m"))], 7)) ==
            [1, 0, 0, 0, 0, 0, 0, 0, 110] + ([1, 0, 0, 0, 0, 0, 0, 0, 97] + ([1, 0, 0, 0, 0, 0, 0, 0] +
            (([1, 0, 0, 0, 0, 0, 0, 0, 107] + ([1, 0, 0, 0, 0, 0, 0, 0, 118] + ([5, 0, 0, 0, 0, 0, 0, 0] +
              [1, 0, 0, 0, 0, 0, 0, 0, 109]))) + [7, 0, 0, 0, 0, 0, 0, 0])))
  {
    var e := Entry("k", LwwValue("v", 5, "m"));
    OneCharString('n');
    OneCharString('a');
    OneCharString('k');
    OneCharString('v');
    OneCharString('m');
    SmallNumber(1);
    SmallNumber(5);
    SmallNumber(7);
    assert EncodeMany(EncodeEntry, [e]) == EncodeEntry(e) + EncodeMany(EncodeEntry, [e][1..]) == EncodeEntry(e);
  }

  lemma AckOnTheWire()
    ensures EncodeAck(GossipAck("n", 2)) == [1, 0, 0, 0, 0, 0, 0, 0, 110] + [2, 0, 0, 0, 0, 0, 0, 0]
  {
    OneCharString('n');
    SmallNumber(2);
  }
}
