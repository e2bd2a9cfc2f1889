/**
 * Identifier encoding, endpoints and span annotations (the `Utils` class of
 * the client).
 */
module Util {
  import opened Wrappers
  import opened Bytes
  import opened Text

  /** A 64-bit trace, span or parent id: an 8-byte big-endian buffer. */
  type Id = b: seq<Byte> | |b| == 8 witness [0, 0, 0, 0, 0, 0, 0, 0]

  const TWO_TO_64: int := 0x1_0000_0000_0000_0000

  lemma TwoToSixtyFour()
    ensures Pow256(8) == TWO_TO_64
  {
    assert Pow256(1) == 0x100;
    assert Pow256(2) == 0x1_0000;
    assert Pow256(3) == 0x100_0000;
    assert Pow256(4) == 0x1_0000_0000;
    assert Pow256(5) == 0x100_0000_0000;
    assert Pow256(6) == 0x1_0000_0000_0000;
    assert Pow256(7) == 0x100_0000_0000_0000;
  }

  const ALL_ONES: Id := [0xFF, 0xFF, 0xFF, 0xFF, 0xFF, 0xFF, 0xFF, 0xFF]

  /** `text.indexOf(prefix) === 0`: holds exactly when `prefix` begins `text`. */
  function StartsWith(text: string, prefix: string): (r: bool)
    ensures r <==> prefix <= text
  {
    var i := IndexOf(text, prefix, 0);
    assert prefix <= text ==> OccursAt(text, prefix, 0);
    i == 0
  }

  /** What `encodeInt64` is handed: a JavaScript number or a string. */
  datatype IntValue = NumberValue(n: int) | StringValue(s: string)

  /**
   * `encodeInt64`: the 8-byte big-endian buffer of a value. A number is
   * written in two's complement; node-int64 refuses magnitudes above 2^64. A
   * string is read as hexadecimal; only text of 1 to 16 hex digits is
   * modelled, and `None` stands for any other text. The string `"-1"` takes
   * its own branch and yields all ones, the encoding of the number -1.
   */
  function EncodeInt64(v: IntValue): (r: Option<Id>)
    ensures v == StringValue("-1") ==> r == Some(ALL_ONES)
    ensures v.NumberValue? ==>
              (r.Some? <==> -TWO_TO_64 <= v.n <= TWO_TO_64)
    ensures v.NumberValue? && r.Some? ==> BytesValue(r.value) == v.n % TWO_TO_64
    ensures v.StringValue? && v.s != "-1" ==>
              (r.Some? <==> 1 <= |v.s| <= 16 && AllDigits(v.s, 16))
    ensures v.StringValue? && v.s != "-1" && r.Some? ==>
              AllDigits(v.s, 16) && BytesValue(r.value) == DigitsValue(v.s, 16)
  {
    match v
    case StringValue(s) =>
      if s == "-1" then Some(ALL_ONES)
      else if 1 <= |s| <= 16 && AllDigits(s, 16) then Some(EncodeHexText(s))
      else None
    case NumberValue(n) =>
      if -TWO_TO_64 <= n <= TWO_TO_64 then Some(EncodeNumber(n)) else None
  }

  /** The buffer of a hexadecimal text of at most 16 digits. */
  function EncodeHexText(s: string): (id: Id)
    requires 1 <= |s| <= 16 && AllDigits(s, 16)
    ensures BytesValue(id) == DigitsValue(s, 16)
  {
    var d := DigitsValue(s, 16);
    HexBelow(s);
    BigEndianValue(d, 8);
    ModOfDecomposition(d, Pow256(8), 0, d);
    BigEndian(d, 8)
  }

  /** The two's-complement buffer of a number. */
  function EncodeNumber(n: int): (id: Id)
    ensures BytesValue(id) == n % TWO_TO_64
  {
    BigEndianValue(n, 8);
    TwoToSixtyFour();
    BigEndian(n, 8)
  }

  /** At most 16 hex digits hold less than 2^64. */
  lemma {:induction false} HexBelow(s: string)
    requires |s| <= 16 && AllDigits(s, 16)
    ensures DigitsValue(s, 16) < Pow256(8)
  {
    HexBelowPower(s);
    PowerOfSixteenGrows(|s|, 16);
    SixteenDigitsEightBytes(8);
  }

  function Pow16(n: nat): nat {
    if n == 0 then 1 else 16 * Pow16(n - 1)
  }

  lemma {:induction false} HexBelowPower(s: string)
    requires AllDigits(s, 16)
    ensures DigitsValue(s, 16) < Pow16(|s|)
  {
    if s != [] {
      HexBelowPower(s[..|s| - 1]);
    }
  }

  lemma {:induction false} SixteenDigitsEightBytes(n: nat)
    ensures Pow16(2 * n) == Pow256(n)
  {
    if n > 0 {
      SixteenDigitsEightBytes(n - 1);
      assert Pow16(2 * n) == 16 * 16 * Pow16(2 * (n - 1));
    }
  }

  lemma {:induction false} PowerOfSixteenGrows(n: nat, m: nat)
    requires n <= m
    ensures Pow16(n) <= Pow16(m)
    decreases m - n
  {
    if n < m {
      PowerOfSixteenGrows(n + 1, m);
    }
  }

  /** The text `"-1"` encodes exactly as the number -1 does. */
  lemma MinusOneText()
    ensures EncodeInt64(StringValue("-1")) == EncodeInt64(NumberValue(-1))
  {
    var b := BigEndian(-1, 8);
    assert b == ALL_ONES;
  }

  function Pow2(n: nat): nat {
    if n == 0 then 1 else 2 * Pow2(n - 1)
  }

  /** `x << count`: the operand is wrapped to signed 32 bits and the count taken modulo 32. */
  function ShiftLeft(x: int, count: nat): (r: int)
    ensures -0x8000_0000 <= r < 0x8000_0000
    ensures count % 32 == 0 && -0x8000_0000 <= x < 0x8000_0000 ==> r == x
  {
    var r := ToInt32(ToInt32(x) * Pow2(count % 32));
    assert count % 32 == 0 && -0x8000_0000 <= x < 0x8000_0000 ==> r == x by {
      if count % 32 == 0 && -0x8000_0000 <= x < 0x8000_0000 {
        Int32Unchanged(x);
      }
    }
    r
  }

  /**
   * `buffer.writeUInt32LE(value, offset)` without `noAssert`: Node's Buffer
   * rejects a value outside 0 .. 2^32 - 1 (`None` stands for the error it
   * throws); otherwise the four bytes at `offset` take the value, least
   * significant byte first, and the others keep theirs.
   */
  function WriteUInt32LE(buffer: seq<Byte>, value: int, offset: nat): (r: Option<seq<Byte>>)
    requires offset + 4 <= |buffer|
    ensures r.Some? <==> 0 <= value < 0x1_0000_0000
    ensures r.Some? ==> |r.value| == |buffer|
    ensures r.Some? ==> forall i :: 0 <= i < |buffer| && !(offset <= i < offset + 4) ==> r.value[i] == buffer[i]
    ensures r.Some? ==>
              value == r.value[offset] as int + 0x100 * r.value[offset + 1] as int
                       + 0x1_0000 * r.value[offset + 2] as int + 0x100_0000 * r.value[offset + 3] as int
  {
    if 0 <= value < 0x1_0000_0000 then
      var b0, q1 := value % 0x100, value / 0x100;
      var b1, q2 := q1 % 0x100, q1 / 0x100;
      var b2, b3 := q2 % 0x100, q2 / 0x100;
      assert q2 == b2 + 0x100 * b3;
      assert value == b0 + 0x100 * q1 && q1 == b1 + 0x100 * q2;
      Some(buffer[..offset] + [b0, b1, b2, b3] + buffer[offset + 4..])
    else None
  }

  /**
   * The `"-1"` branch as written: `-1 << 32` is -1, since shift counts are
   * taken modulo 32, and writing -1 with `writeUInt32LE` fails its range
   * check, so the branch throws whatever the fresh `new Buffer(8)` held.
   */
  function EncodeMinusOneAsWritten(memory: Id): (r: Option<seq<Byte>>)
    ensures r.None?
  {
    WriteUInt32LE(memory, ShiftLeft(-1, 32), 0)
  }

  /**
   * As written, `encodeInt64("-1")` never yields a buffer, while the
   * corrected branch yields all ones, the encoding of the number -1.
   */
  lemma MinusOneAsWrittenIsNotMinusOne(memory: Id)
    ensures ShiftLeft(-1, 32) == -1
    ensures EncodeMinusOneAsWritten(memory) == None
    ensures EncodeInt64(StringValue("-1")) == Some(ALL_ONES) == EncodeInt64(NumberValue(-1))
  {
    MinusOneText();
  }

  /** A JavaScript number that is an integer, or `NaN`. */
  datatype Num = Finite(n: int) | NaN

  /** `parseInt(part, 10)`. */
  function ParseDecimal(part: string): Num {
    match ParseInt(part, 10)
    case Some(v) => Finite(v)
    case None => NaN
  }

  /** `ipl <<= 8`: `NaN` is taken as 0, and both the operand and the result are wrapped to signed 32 bits. */
  function ShiftLeft8(ipl: Num): int {
    ToInt32(ToInt32(if ipl.Finite? then ipl.n else 0) * 0x100)
  }

  /** `ShiftLeft8` is `ShiftLeft` by 8 of the value, with `NaN` read as 0. */
  lemma ShiftLeft8IsShift(ipl: Num)
    ensures ShiftLeft8(ipl) == ShiftLeft(if ipl.Finite? then ipl.n else 0, 8)
  {
    assert Pow2(8) == 256;
  }

  /** One iteration of `ipToInt`: shift, then add the parsed part. */
  function IpStep(ipl: Num, part: string): Num {
    var shifted := ShiftLeft8(ipl);
    match ParseDecimal(part)
    case Finite(v) => Finite(shifted + v)
    case NaN => NaN
  }

  /** The value `ipToInt` reaches after folding in `parts`. */
  function IpFold(parts: seq<string>): Num {
    if parts == [] then Finite(0)
    else IpStep(IpFold(parts[..|parts| - 1]), parts[|parts| - 1])
  }

  /**
   * `NaN` does not propagate: the next `ipl <<= 8` turns it into 0, so
   * `ipToInt` is `NaN` exactly when its last part does not parse.
   */
  lemma IpFoldNaN(parts: seq<string>)
    ensures IpFold(parts) == NaN <==> parts != [] && ParseDecimal(parts[|parts| - 1]) == NaN
    ensures forall part :: IpStep(NaN, part) == IpStep(Finite(0), part)
  {
  }

  /** `ipToInt`: packs the dot-separated parts of `ip` into one integer. */
  method IpToInt(ip: string) returns (ipl: Num)
    ensures ipl == IpFold(Split(ip, '.'))
  {
    ipl := Finite(0);
    var parts := Split(ip, '.');
    for i := 0 to |parts|
      invariant ipl == IpFold(parts[..i])
    {
      ipl := ShiftLeft8Num(ipl);
      ipl := AddPart(ipl, parts[i]);
      assert parts[..i + 1][..i] == parts[..i];
    }
    assert parts[..|parts|] == parts;
  }

  method ShiftLeft8Num(ipl: Num) returns (r: Num)
    ensures r == Finite(ShiftLeft8(ipl))
  {
    r := Finite(ShiftLeft8(ipl));
  }

  method AddPart(ipl: Num, part: string) returns (r: Num)
    requires ipl.Finite?
    ensures r == (match ParseDecimal(part) case Finite(v) => Finite(ipl.n + v) case NaN => NaN)
  {
    var v := ParseDecimal(part);
    r := if v.NaN? then NaN else Finite(ipl.n + v.n);
  }

  /** A decimal octet: 1 or more decimal digits denoting at most 255. */
  predicate IsOctet(part: string) {
    part != [] && AllDigits(part, 10) && DigitsValue(part, 10) < 256
  }

  /**
   * Four decimal octets pack big-endian into one 32-bit word, read as a
   * signed 32-bit integer.
   */
  lemma DottedQuad(parts: seq<string>)
    requires |parts| == 4
    requires IsOctet(parts[0]) && IsOctet(parts[1]) && IsOctet(parts[2]) && IsOctet(parts[3])
    ensures IpFold(parts) == Finite(ToInt32(
              DigitsValue(parts[0], 10) * 0x100_0000 + DigitsValue(parts[1], 10) * 0x1_0000
              + DigitsValue(parts[2], 10) * 0x100 + DigitsValue(parts[3], 10)))
  {
    var a, b, c, d := DigitsValue(parts[0], 10), DigitsValue(parts[1], 10),
                      DigitsValue(parts[2], 10), DigitsValue(parts[3], 10);
    FirstThreeOctets(parts);
    LastOctet(parts, a * 0x1_0000 + b * 0x100 + c);
  }

  lemma LastOctet(parts: seq<string>, x3: int)
    requires |parts| == 4 && IsOctet(parts[3])
    requires 0 <= x3 < 0x100_0000 && IpFold(parts[..3]) == Finite(x3)
    ensures IpFold(parts) == Finite(ToInt32(x3 * 0x100 + DigitsValue(parts[3], 10)))
  {
    var high, d := x3 * 0x100, DigitsValue(parts[3], 10);
    assert IpFold(parts) == Finite(ToInt32(high) + d) by {
      FoldPrefix(parts, 3);
      assert parts[..4] == parts;
      OctetParses(parts[3]);
      Int32Unchanged(x3);
    }
    LowByteAdd(high, d);
  }

  lemma FirstThreeOctets(parts: seq<string>)
    requires |parts| == 4
    requires IsOctet(parts[0]) && IsOctet(parts[1]) && IsOctet(parts[2])
    ensures IpFold(parts[..3]) == Finite(DigitsValue(parts[0], 10) * 0x1_0000
              + DigitsValue(parts[1], 10) * 0x100 + DigitsValue(parts[2], 10))
  {
    var a, b := DigitsValue(parts[0], 10), DigitsValue(parts[1], 10);
    assert IpFold(parts[..1]) == Finite(a) by {
      FoldPrefix(parts, 0);
      OctetStep(0, parts[0]);
    }
    assert IpFold(parts[..2]) == Finite(a * 0x100 + b) by {
      FoldPrefix(parts, 1);
      OctetStep(a, parts[1]);
    }
    FoldPrefix(parts, 2);
    OctetStep(a * 0x100 + b, parts[2]);
  }

  lemma OctetParses(part: string)
    requires IsOctet(part)
    ensures ParseDecimal(part) == Finite(DigitsValue(part, 10))
  {
  }

  lemma FoldPrefix(parts: seq<string>, k: nat)
    requires k < |parts|
    ensures IpFold(parts[..k + 1]) == IpStep(IpFold(parts[..k]), parts[k])
  {
    assert parts[..k + 1][..k] == parts[..k];
  }

  /** While the running value stays below 2^23, a step is an exact shift and add. */
  lemma OctetStep(acc: int, part: string)
    requires 0 <= acc < 0x80_0000 && IsOctet(part)
    ensures IpStep(Finite(acc), part) == Finite(acc * 0x100 + DigitsValue(part, 10))
  {
    OctetParses(part);
    Int32Unchanged(acc);
    Int32Unchanged(acc * 0x100);
  }

  lemma Int32Unchanged(x: int)
    requires -0x8000_0000 <= x < 0x8000_0000
    ensures ToInt32(x) == x
  {
    ModOfDecomposition(x + 0x8000_0000, 0x1_0000_0000, 0, x + 0x8000_0000);
  }

  /** Adding a byte to a multiple of 256 commutes with wrapping to 32 bits. */
  lemma LowByteAdd(high: int, d: int)
    requires high % 256 == 0 && 0 <= d < 256
    ensures ToInt32(high) + d == ToInt32(high + d)
  {
    var m := (high + 0x8000_0000) % 0x1_0000_0000;
    var k := (high + 0x8000_0000) / 0x1_0000_0000;
    assert high + 0x8000_0000 == 0x1_0000_0000 * k + m;
    assert m % 256 == 0;
    assert m <= 0x1_0000_0000 - 256;
    ModOfDecomposition(high + d + 0x8000_0000, 0x1_0000_0000, k, m + d);
  }

  /** A host and port as Zipkin records them. */
  datatype Endpoint = Endpoint(ipv4: Num, port: int, serviceName: string)

  /**
   * `createEndpoint`: `'localhost'` stands for 127.0.0.1, a missing or zero
   * port becomes 0, and the service name is kept.
   */
  method CreateEndpoint(serviceName: string, ipv4: string, port: Option<int>) returns (e: Endpoint)
    ensures e.ipv4 == IpFold(Split(if ipv4 == "localhost" then "127.0.0.1" else ipv4, '.'))
    ensures ipv4 == "localhost" ==> e.ipv4 == Finite(0x7F00_0001)
    ensures e.port == (if port.Some? then port.value else 0)
    ensures e.serviceName == serviceName
  {
    var address := ipv4;
    if address == "localhost" {
      address := "127.0.0.1";
      Loopback();
    }
    var packed := IpToInt(address);
    e := Endpoint(packed, if port.Some? then port.value else 0, serviceName);
  }

  /** "127.0.0.1" packs to 0x7F000001. */
  lemma Loopback()
    ensures IpFold(Split("127.0.0.1", '.')) == Finite(0x7F00_0001)
  {
    var parts := ["127", "0", "0", "1"];
    LoopbackParts();
    LoopbackOctets(parts);
    DottedQuad(parts);
    Int32Unchanged(0x7F00_0001);
  }

  lemma LoopbackParts()
    ensures Split("127.0.0.1", '.') == ["127", "0", "0", "1"]
  {
    var parts := ["127", "0", "0", "1"];
    assert Join(parts[3..], '.') == "1";
    assert Join(parts[2..], '.') == "0.1";
    assert Join(parts[1..], '.') == "0.0.1";
    assert Join(parts, '.') == "127.0.0.1";
    SplitJoin(parts, '.');
  }

  lemma LoopbackOctets(parts: seq<string>)
    requires parts == ["127", "0", "0", "1"]
    ensures IsOctet(parts[0]) && IsOctet(parts[1]) && IsOctet(parts[2]) && IsOctet(parts[3])
    ensures DigitsValue(parts[0], 10) == 127 && DigitsValue(parts[1], 10) == 0
    ensures DigitsValue(parts[2], 10) == 0 && DigitsValue(parts[3], 10) == 1
  {
    assert "127"[..2] == "12" && "12"[..1] == "1" && "1"[..0] == "" && "0"[..0] == "";
  }

  /** The Zipkin binary-annotation types used here (opaque thrift enum values). */
  datatype AnnotationType = BOOL | I16 | I32 | I64 | STRING

  /** What the buffer of a binary annotation holds. */
  datatype TagValue =
    | Latin1(text: string)         // `new Buffer(text, 'binary')`: one byte per character
    | Encoded(bytes: seq<Byte>)    // an integer written into a buffer
    | Allocation(size: nat)        // `new Buffer(n, 'binary')` for a number `n` before Node 6: max(n, 0) fresh bytes

  datatype BinaryAnnotation =
    BinaryAnnotation(key: string, value: TagValue, annotationType: AnnotationType, host: Option<Endpoint>)

  /** Integral JavaScript numbers that are exact (magnitude below 2^53). */
  type SafeInteger = n: int | -0x1F_FFFF_FFFF_FFFF <= n <= 0x1F_FFFF_FFFF_FFFF

  const MAX_16 := 0x7FFF
  const MIN_16 := -0x7FFF - 1
  const MAX_32 := 0x7FFF_FFFF
  const MIN_32 := -0x7FFF_FFFF - 1

  /** The narrowest of I16, I32 and I64 whose signed range holds `value`. */
  function IntegerTagType(value: int): (t: AnnotationType)
    ensures t == I16 <==> -0x8000 <= value < 0x8000
    ensures t == I32 <==> (-0x8000_0000 <= value < 0x8000_0000 && !(-0x8000 <= value < 0x8000))
    ensures t == I64 <==> !(-0x8000_0000 <= value < 0x8000_0000)
  {
    if value < MIN_32 || value > MAX_32 then I64
    else if value < MIN_16 || value > MAX_16 then I32
    else I16
  }

  function Width(t: AnnotationType): nat {
    match t
    case I16 => 2
    case I32 => 4
    case _ => 8
  }

  /** A big-endian buffer read as a two's-complement signed integer. */
  function SignedValue(b: seq<Byte>): int {
    var u := BytesValue(b);
    if 2 * u >= Pow256(|b|) then u - Pow256(|b|) else u
  }

  /** Writing a value that fits the signed range of `width` bytes and reading it back signed gives it back. */
  lemma SignedRoundTrip(value: int, width: nat)
    requires -(Pow256(width) as int) <= 2 * value < Pow256(width)
    ensures SignedValue(BigEndian(value, width)) == value
  {
    BigEndianValue(value, width);
    var p := Pow256(width);
    if value >= 0 {
      ModOfDecomposition(value, p, 0, value);
    } else {
      ModOfDecomposition(value, p, -1, value + p);
    }
  }

  /**
   * `createIntegerTag` with the buffer it computes: the value written big-endian
   * in two's complement at the width of its type (`writeInt16BE`,
   * `writeInt32BE` or `encodeInt64`).
   */
  function CreateIntegerTag(key: string, value: SafeInteger): (tag: BinaryAnnotation)
    ensures tag.key == key && tag.host.None?
    ensures tag.annotationType == IntegerTagType(value)
    ensures tag.value.Encoded? && |tag.value.bytes| == Width(tag.annotationType)
    ensures SignedValue(tag.value.bytes) == value
  {
    var t := IntegerTagType(value);
    var buf := if t == I64 then EncodeInt64(NumberValue(value)).value else BigEndian(value, Width(t));
    assert Pow256(2) == 0x1_0000 && Pow256(4) == 0x1_0000_0000;
    TwoToSixtyFour();
    SignedRoundTrip(value, Width(t));
    BinaryAnnotation(key, Encoded(buf), t, None)
  }

  /**
   * `createIntegerTag` as written: it computes the buffer and then hands the
   * number itself to `createBinaryAnnotation`. There `new Buffer(value, 'binary')`
   * throws on Node 6 and later (a number with an encoding is refused), and
   * before Node 6 (`legacyBuffer`) allocates max(value, 0) fresh bytes.
   */
  function CreateIntegerTagAsWritten(key: string, value: SafeInteger, legacyBuffer: bool): (r: Option<BinaryAnnotation>)
    ensures r.Some? <==> legacyBuffer
    ensures r.Some? ==> r.value.key == key && r.value.annotationType == IntegerTagType(value) && r.value.host.None?
    ensures r.Some? ==> r.value.value == Allocation(if value < 0 then 0 else value)
  {
    if legacyBuffer then
      Some(BinaryAnnotation(key, Allocation(if value < 0 then 0 else value), IntegerTagType(value), None))
    else
      None
  }

  /**
   * As written, no integer tag carries its value's bytes on any Node version:
   * it throws, or 5 becomes a 5-byte allocation rather than 00 05.
   */
  lemma IntegerTagAsWrittenLosesValue(key: string, value: SafeInteger, legacyBuffer: bool)
    ensures CreateIntegerTagAsWritten(key, value, false) == None
    ensures CreateIntegerTagAsWritten(key, value, legacyBuffer).Some? ==>
              CreateIntegerTagAsWritten(key, value, legacyBuffer).value.value != CreateIntegerTag(key, value).value
    ensures CreateIntegerTag(key, 5).value == Encoded([0, 5])
  {
    assert BigEndian(5, 2) == [0, 5];
  }

  /** `createBooleanTag`: the text `'0x01'` for true and `'0x0'` for false, of type BOOL. */
  function CreateBooleanTag(key: string, value: bool): (tag: BinaryAnnotation)
    ensures tag.key == key && tag.annotationType == BOOL && tag.host.None?
    ensures tag.value == Latin1("0x01") <==> value
    ensures tag.value == Latin1("0x0") <==> !value
  {
    BinaryAnnotation(key, Latin1(if value then "0x01" else "0x0"), BOOL, None)
  }

  /** `createStringTag`: the text itself, of type STRING. */
  function CreateStringTag(key: string, value: string): (tag: BinaryAnnotation)
    ensures tag.key == key && tag.annotationType == STRING && tag.host.None?
    ensures tag.value == Latin1(value)
  {
    BinaryAnnotation(key, Latin1(value), STRING, None)
  }

  /** Zipkin's core annotation names (opaque thrift constants) and other event names. */
  datatype EventName = ClientSend | ClientRecv | ServerSend | ServerRecv | Named(name: string)

  /** What a log annotation records: its event, or its payload serialised as JSON. */
  datatype LogValue = Event(event: EventName) | Payload(json: string)

  /** `createAnnotation` and `createLogData` build this record. */
  datatype Annotation = Annotation(timestamp: int, value: LogValue, host: Option<Endpoint>)
}
