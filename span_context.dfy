/**
 * `SpanContext`: the identity of a span (trace id, span id, parent id and a
 * flags bit-field), its baggage, and the colon-separated wire form
 * `traceHex:spanHex:parentHex:flagsHex` it is written to and read from.
 */
module SpanContexts {
  import opened Wrappers
  import opened Bytes
  import opened Text
  import opened Dict
  import opened Util

  const SAMPLED_MASK: nat := 1
  /** The number of keys after which the normalisation cache takes no more. */
  const CACHE_CAPACITY: nat := 100
  const ZERO_ID: Id := [0, 0, 0, 0, 0, 0, 0, 0]

  // ---------------------------------------------------------------------------
  // Baggage key normalisation

  /** `toLowerCase` on one character (ASCII letters only). */
  function LowerChar(c: char): char {
    if 'A' <= c <= 'Z' then (c as int + 32) as char else c
  }

  function ToLowerCase(s: string): string {
    seq(|s|, i requires 0 <= i < |s| => LowerChar(s[i]))
  }

  /** What normalisation does to one character of a key. */
  function NormalChar(c: char): char {
    if c == '_' then '-' else LowerChar(c)
  }

  /** `key.toLowerCase().split('_').join('-')`: lower-cased, every `_` now `-`. */
  function Normalize(key: string): (r: string)
    ensures |r| == |key|
    ensures forall i :: 0 <= i < |key| ==> r[i] == NormalChar(key[i])
  {
    var lower := ToLowerCase(key);
    JoinSplit(lower, '_', '-');
    Join(Split(lower, '_'), '-')
  }

  /** A normalised key is its own normal form. */
  lemma NormalizeIdempotent(key: string)
    ensures Normalize(Normalize(key)) == Normalize(key)
  {
    var n := Normalize(key);
    assert forall i :: 0 <= i < |n| ==> NormalChar(n[i]) == n[i];
  }

  lemma NormalizeExample()
    ensures Normalize("SOME_KEY") == "some-key"
  {
    var key, expected := "SOME_KEY", "some-key";
    assert key[0] == 'S' && key[1] == 'O' && key[2] == 'M' && key[3] == 'E';
    assert key[4] == '_' && key[5] == 'K' && key[6] == 'E' && key[7] == 'Y';
    assert expected[0] == 's' && expected[1] == 'o' && expected[2] == 'm' && expected[3] == 'e';
    assert expected[4] == '-' && expected[5] == 'k' && expected[6] == 'e' && expected[7] == 'y';
    NormalizeIs(key, expected);
  }

  lemma NormalizeCamelCase()
    ensures Normalize("keyOne") == "keyone"
  {
    var key, expected := "keyOne", "keyone";
    assert key[0] == 'k' && key[1] == 'e' && key[2] == 'y' && key[3] == 'O' && key[4] == 'n' && key[5] == 'e';
    assert expected[0] == 'k' && expected[1] == 'e' && expected[2] == 'y' && expected[3] == 'o';
    assert expected[4] == 'n' && expected[5] == 'e';
    NormalizeIs(key, expected);
  }

  lemma NormalizeIs(key: string, expected: string)
    requires |key| == |expected|
    requires forall i :: 0 <= i < |key| ==> NormalChar(key[i]) == expected[i]
    ensures Normalize(key) == expected
  {
  }

  /** Every cached key maps to its normal form, and there are at most 100 of them. */
  ghost predicate CacheSound(cache: map<string, string>) {
    |cache| <= CACHE_CAPACITY && forall k :: k in cache ==> cache[k] == Normalize(k)
  }

  /**
   * The cache after `key` has been normalised: a key already cached changes
   * nothing, a new one is added only while fewer than 100 are held, and no
   * entry is ever evicted or altered.
   */
  function Memoize(cache: map<string, string>, key: string): (r: map<string, string>)
    ensures forall k :: k in cache ==> k in r && r[k] == cache[k]
    ensures forall k :: k in r ==> k in cache || k == key
    ensures key in r <==> key in cache || |cache| < CACHE_CAPACITY
    ensures CacheSound(cache) ==> CacheSound(r)
  {
    if key in cache || |cache| >= CACHE_CAPACITY then cache
    else cache[key := Normalize(key)]
  }

  /** Baggage as the context keeps it: distinct keys, each one already normalised. */
  ghost predicate BaggageNormalized(baggage: Entries<string>) {
    DistinctKeys(baggage) && forall k :: Get(baggage, k).Some? ==> Normalize(k) == k
  }

  /**
   * Reading `k2` after writing `v` under `k1` sees `v` exactly when the two
   * keys share a normal form; other items are untouched.
   */
  lemma SetThenGet(baggage: Entries<string>, k1: string, k2: string, v: string)
    ensures Get(Put(baggage, Normalize(k1), v), Normalize(k2)) ==
            if Normalize(k1) == Normalize(k2) then Some(v) else Get(baggage, Normalize(k2))
  {
  }

  /** Assigning under a normalised key keeps the baggage normalised. */
  lemma PutNormalized(baggage: Entries<string>, key: string, v: string)
    requires BaggageNormalized(baggage)
    ensures BaggageNormalized(Put(baggage, Normalize(key), v))
  {
    PutKeepsDistinct(baggage, Normalize(key), v);
    NormalizeIdempotent(key);
  }

  // ---------------------------------------------------------------------------
  // The sampled flag

  /** `a & b` on non-negative integers. */
  function BitAnd(a: nat, b: nat): nat
    decreases a
  {
    if a == 0 || b == 0 then 0
    else 2 * BitAnd(a / 2, b / 2) + (if a % 2 == 1 && b % 2 == 1 then 1 else 0)
  }

  /**
   * `!!(flags & SAMPLED_MASK)`. JavaScript's `&` first wraps its operands to
   * 32 bits, which keeps the low bit the mask selects.
   */
  predicate IsSampledFlags(flags: nat) {
    BitAnd(flags, SAMPLED_MASK) != 0
  }

  /** The sampled flag is the lowest bit of the flags. */
  lemma SampledBit(flags: nat)
    ensures IsSampledFlags(flags) <==> flags % 2 == 1
  {
    assert BitAnd(flags / 2, 0) == 0;
  }

  // ---------------------------------------------------------------------------
  // The wire form

  /** The immutable part of a context. */
  datatype Identity = Identity(traceId: Id, spanId: Id, parentId: Option<Id>, flags: nat)

  /** The four fields `toString` joins: ids in hex, `'0'` for no parent, flags in hex. */
  function WireFields(c: Identity): (fields: seq<string>)
    ensures |fields| == 4
    ensures |fields[0]| == 16 && AllDigits(fields[0], 16) && DigitsValue(fields[0], 16) == BytesValue(c.traceId)
    ensures |fields[1]| == 16 && AllDigits(fields[1], 16) && DigitsValue(fields[1], 16) == BytesValue(c.spanId)
    ensures c.parentId.None? ==> fields[2] == "0"
    ensures c.parentId.Some? ==>
              |fields[2]| == 16 && AllDigits(fields[2], 16) && DigitsValue(fields[2], 16) == BytesValue(c.parentId.value)
    ensures AllDigits(fields[3], 16) && DigitsValue(fields[3], 16) == c.flags
  {
    [ BytesToHex(c.traceId),
      BytesToHex(c.spanId),
      if c.parentId.Some? then BytesToHex(c.parentId.value) else "0",
      ToHex(c.flags) ]
  }

  /** `toString`: the four fields joined with `:`. */
  function WireString(c: Identity): (s: string)
    ensures Split(s, ':') == WireFields(c)
  {
    var fields := WireFields(c);
    forall i | 0 <= i < 4 ensures ':' !in fields[i] {
      if i != 2 || c.parentId.Some? {
        NoSeparatorInDigits(fields[i]);
      }
    }
    SplitJoin(fields, ':');
    Join(fields, ':')
  }

  lemma NoSeparatorInDigits(s: string)
    requires AllDigits(s, 16)
    ensures ':' !in s
  {
    forall i | 0 <= i < |s| ensures s[i] != ':' {
      assert IsDigit(s[i], 16);
    }
  }

  /** Why a wire string does not give a context. */
  datatype ParseOutcome =
    | Parsed(identity: Identity)
    | NotFourFields        // `fromString` returns null
    | UnreadableField      // an id or the flags that the conversions cannot read

  /**
   * `fromString`: four `:`-separated fields, or null. A parent field of `'0'`
   * or sixteen zeros means no parent; the flags are read with `parseInt(_, 16)`.
   */
  function ParseContext(s: string): (r: ParseOutcome)
    ensures r == NotFourFields <==> |Split(s, ':')| != 4
    ensures r.Parsed? ==>
              var parent := Split(s, ':')[2];
              (r.identity.parentId.None? <==> parent == "0" || parent == "0000000000000000")
    ensures r.Parsed? ==> Some(r.identity.flags) == ParseInt(Split(s, ':')[3], 16)
    ensures r.Parsed? ==>
              Some(r.identity.traceId) == EncodeInt64(StringValue(Split(s, ':')[0])) &&
              Some(r.identity.spanId) == EncodeInt64(StringValue(Split(s, ':')[1]))
    ensures r.Parsed? && Split(s, ':')[2] != "0" && Split(s, ':')[2] != "0000000000000000" ==>
              r.identity.parentId == EncodeInt64(StringValue(Split(s, ':')[2]))
    ensures r == UnreadableField <==>
              var fields := Split(s, ':');
              |fields| == 4 &&
              (EncodeInt64(StringValue(fields[0])).None? || EncodeInt64(StringValue(fields[1])).None? ||
               (fields[2] != "0" && fields[2] != "0000000000000000" && EncodeInt64(StringValue(fields[2])).None?) ||
               ParseInt(fields[3], 16).None?)
  {
    var headers := Split(s, ':');
    if |headers| != 4 then NotFourFields
    else
      var traceId := EncodeInt64(StringValue(headers[0]));
      var spanId := EncodeInt64(StringValue(headers[1]));
      var parentId := ParseParent(headers[2]);
      var flags := ParseInt(headers[3], 16);
      if traceId.None? || spanId.None? || parentId.None? || flags.None? then UnreadableField
      else Parsed(Identity(traceId.value, spanId.value, parentId.value, flags.value))
  }

  /** The parent field: none for `'0'` or sixteen zeros, else an id; `None` when unreadable. */
  function ParseParent(text: string): Option<Option<Id>> {
    if text == "0" || text == "0000000000000000" then Some(None)
    else match EncodeInt64(StringValue(text))
         case Some(p) => Some(Some(p))
         case None => None
  }

  /** The identity `fromString(toString())` gives back: an all-zero parent reads as none. */
  function WithoutZeroParent(c: Identity): Identity {
    if c.parentId == Some(ZERO_ID) then c.(parentId := None) else c
  }

  /** Reading back the text of an id gives the id. */
  lemma HexIdRoundTrip(id: Id)
    ensures EncodeInt64(StringValue(BytesToHex(id))) == Some(id)
  {
    var hex := BytesToHex(id);
    assert hex != "-1" by { assert |hex| == 16; }
    ValueBigEndian(id);
  }

  lemma ZeroIdHex()
    ensures BytesToHex(ZERO_ID) == "0000000000000000"
  {
    ZeroesHex(8);
    assert seq(8, i => 0) == ZERO_ID;
  }

  lemma {:induction false} ZeroesHex(n: nat)
    ensures BytesToHex(seq(n, i => 0)) == seq(2 * n, i => '0')
  {
    if n > 0 {
      ZeroesHex(n - 1);
      assert seq(n, i => 0)[..n - 1] == seq(n - 1, i => 0);
      assert seq(2 * (n - 1), i => '0') + ['0', '0'] == seq(2 * n, i => '0');
    }
  }

  /** Only the all-zero id is written as sixteen zeros. */
  lemma ZeroHexIsZeroId(p: Id)
    requires BytesToHex(p) == "0000000000000000"
    ensures p == ZERO_ID
  {
    ZeroIdHex();
    ValueBigEndian(p);
    ValueBigEndian(ZERO_ID);
  }

  /**
   * `fromString(toString(c))` gives back the trace id, the span id and the
   * flags, and the parent unless it is absent or all zeros, which both read
   * back as no parent.
   */
  lemma {:induction false} WireRoundTrip(c: Identity)
    ensures ParseContext(WireString(c)) == Parsed(WithoutZeroParent(c))
  {
    var fields := WireFields(c);
    assert Split(WireString(c), ':') == fields;
    HexIdRoundTrip(c.traceId);
    HexIdRoundTrip(c.spanId);
    ParentRoundTrip(c);
    assert ParseInt(fields[3], 16) == Some(c.flags);
  }

  /** The parent field reads back as the parent, with an all-zero id read as none. */
  lemma ParentRoundTrip(c: Identity)
    ensures ParseParent(WireFields(c)[2]) == Some(WithoutZeroParent(c).parentId)
  {
    match c.parentId
    case None =>
    case Some(p) =>
      var text := BytesToHex(p);
      assert WireFields(c)[2] == text;
      HexIdRoundTrip(p);
      if p == ZERO_ID {
        ZeroIdHex();
      } else {
        if text == "0000000000000000" {
          ZeroHexIsZeroId(p);
        }
        assert text != "0" by { assert |text| == 16; }
      }
  }

  /**
   * A root context: its trace id and span id are the same fresh id, it has
   * no parent, and it is sampled exactly when the sampler said so.
   */
  function RootIdentity(randomId: Id, sampled: bool): (c: Identity)
    ensures c.traceId == randomId && c.spanId == randomId && c.parentId.None?
    ensures IsSampledFlags(c.flags) <==> sampled
    ensures c.flags == 0 || c.flags == SAMPLED_MASK
  {
    Identity(randomId, randomId, None, if sampled then SAMPLED_MASK else 0)
  }

  /**
   * A child context: the parent's trace and flags, the parent's span id as
   * its parent, and the fresh id as its own span id.
   */
  function ChildIdentity(parent: Identity, randomId: Id): (c: Identity)
    ensures c.traceId == parent.traceId && c.spanId == randomId
    ensures c.parentId == Some(parent.spanId)
    ensures c.flags == parent.flags
  {
    Identity(parent.traceId, randomId, Some(parent.spanId), parent.flags)
  }

  // ---------------------------------------------------------------------------
  // The context object

  class SpanContext {
    const traceId: Id
    const spanId: Id
    const parentId: Option<Id>
    const flags: nat
    /** `_baggage`: normalised key to value, in insertion order. */
    var baggage: Entries<string>
    /** `_baggageHeaderCache`: raw key to normalised key. */
    var baggageHeaderCache: map<string, string>

    ghost predicate Valid()
      reads this
    {
      CacheSound(baggageHeaderCache) && BaggageNormalized(baggage)
    }

    function Ident(): Identity {
      Identity(traceId, spanId, parentId, flags)
    }

    constructor(traceId: Id, spanId: Id, parentId: Option<Id>, flags: nat)
      ensures Ident() == Identity(traceId, spanId, parentId, flags)
      ensures baggage == [] && baggageHeaderCache == map[]
      ensures Valid()
    {
      this.traceId := traceId;
      this.spanId := spanId;
      this.parentId := parentId;
      this.flags := flags;
      baggage := [];
      baggageHeaderCache := map[];
    }

    /** `_normalizeBaggageKey`: the cached normal form, or a fresh one that is cached while there is room. */
    method NormalizeBaggageKey(key: string) returns (normalized: string)
      requires Valid()
      modifies this`baggageHeaderCache
      ensures Valid()
      ensures normalized == Normalize(key)
      ensures baggageHeaderCache == Memoize(old(baggageHeaderCache), key)
    {
      if key in baggageHeaderCache {
        return baggageHeaderCache[key];
      }
      normalized := Join(Split(ToLowerCase(key), '_'), '-');
      if |baggageHeaderCache| < CACHE_CAPACITY {
        baggageHeaderCache := baggageHeaderCache[key := normalized];
      }
    }

    /** `setBaggageItem`: the value is stored under the normalised key. */
    method SetBaggageItem(key: string, value: string)
      requires Valid()
      modifies this
      ensures Valid()
      ensures baggage == Put(old(baggage), Normalize(key), value)
      ensures baggageHeaderCache == Memoize(old(baggageHeaderCache), key)
    {
      var normalizedKey := NormalizeBaggageKey(key);
      PutNormalized(baggage, key, value);
      baggage := Put(baggage, normalizedKey, value);
    }

    /** `getBaggageItem`: the value under the normalised key, `None` for `undefined`. */
    method GetBaggageItem(key: string) returns (value: Option<string>)
      requires Valid()
      modifies this`baggageHeaderCache
      ensures Valid()
      ensures value == Get(baggage, Normalize(key))
      ensures baggageHeaderCache == Memoize(old(baggageHeaderCache), key)
    {
      var normalizedKey := NormalizeBaggageKey(key);
      value := Get(baggage, normalizedKey);
    }

    /** `IsSampled`: the low bit of the flags. */
    function IsSampled(): (sampled: bool)
      ensures sampled <==> flags % 2 == 1
    {
      SampledBit(flags);
      IsSampledFlags(flags)
    }

    /** `toString`: the wire form, which `fromString` reads back to this identity. */
    function ToString(): (s: string)
      ensures Split(s, ':') == WireFields(Ident())
      ensures ParseContext(s) == Parsed(WithoutZeroParent(Ident()))
    {
      WireRoundTrip(Ident());
      WireString(Ident())
    }
  }

  /** What `fromString` returns: a new context, null, or a field it cannot read. */
  datatype Decoded = Context(ctx: SpanContext) | NullContext | Unreadable

  /** `SpanContext.fromString`: a new context with no baggage, as `ParseContext` reads the text. */
  method FromString(serialized: string) returns (r: Decoded)
    ensures r.NullContext? <==> ParseContext(serialized) == NotFourFields
    ensures r.Unreadable? <==> ParseContext(serialized) == UnreadableField
    ensures r.Context? ==>
              fresh(r.ctx) && ParseContext(serialized) == Parsed(r.ctx.Ident()) &&
              r.ctx.baggage == [] && r.ctx.baggageHeaderCache == map[] && r.ctx.Valid()
  {
    match ParseContext(serialized)
    case NotFourFields =>
      r := NullContext;
    case UnreadableField =>
      r := Unreadable;
    case Parsed(c) =>
      var ctx := new SpanContext(c.traceId, c.spanId, c.parentId, c.flags);
      r := Context(ctx);
  }
}
