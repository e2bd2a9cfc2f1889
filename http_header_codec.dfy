/**
 * `HttpHeaderCodec`: writes a span context into a carrier of HTTP headers and
 * reads one back. The state travels URI-encoded under one header; each
 * baggage item travels under the baggage prefix followed by its key.
 */
module HttpHeaderCodecs {
  import opened Wrappers
  import opened Text
  import opened Dict
  import opened Util
  import opened SpanContexts
  import opened Samplers

  // ---------------------------------------------------------------------------
  // URI component encoding

  predicate IsAscii(s: string) {
    forall i :: 0 <= i < |s| ==> s[i] as int < 0x80
  }

  /** The characters `encodeURIComponent` leaves as they are. */
  predicate Unreserved(c: char) {
    'A' <= c <= 'Z' || 'a' <= c <= 'z' || '0' <= c <= '9' || c in "-_.!~*'()"
  }

  function UpperHexDigit(d: int): (c: char)
    requires 0 <= d < 16
    ensures IsDigit(c, 16) && DigitValue(c) == Some(d)
    ensures c as int < 0x80
  {
    if d < 10 then ('0' as int + d) as char else ('A' as int + d - 10) as char
  }

  /** One character as `encodeURIComponent` writes it: itself, or `%` and two uppercase hex digits. */
  function EncodeChar(c: char): (r: string)
    requires c as int < 0x80
    ensures IsAscii(r)
  {
    if Unreserved(c) then [c]
    else ['%', UpperHexDigit(c as int / 16), UpperHexDigit(c as int % 16)]
  }

  /** `encodeURIComponent` on ASCII text. */
  function EncodeURIComponent(s: string): (r: string)
    requires IsAscii(s)
    ensures IsAscii(r)
    ensures |r| >= |s|
  {
    if s == [] then [] else EncodeChar(s[0]) + EncodeURIComponent(s[1..])
  }

  /**
   * `decodeURIComponent` for escapes of ASCII characters; `None` stands for
   * the `URIError` it throws on a malformed escape.
   */
  function DecodeURIComponent(s: string): Option<string>
    decreases |s|
  {
    if s == [] then Some([])
    else if s[0] != '%' then
      match DecodeURIComponent(s[1..])
      case None => None
      case Some(t) => Some([s[0]] + t)
    else if |s| < 3 || !IsDigit(s[1], 16) || !IsDigit(s[2], 16) then None
    else
      var code := DigitValue(s[1]).value * 16 + DigitValue(s[2]).value;
      if code >= 0x80 then None
      else
        match DecodeURIComponent(s[3..])
        case None => None
        case Some(t) => Some([code as char] + t)
  }

  /** Decoding undoes encoding. */
  lemma {:induction false} DecodeEncode(s: string)
    requires IsAscii(s)
    ensures DecodeURIComponent(EncodeURIComponent(s)) == Some(s)
  {
    if s != [] {
      DecodeEncode(s[1..]);
      DecodeEncodedChar(s[0], EncodeURIComponent(s[1..]));
      assert [s[0]] + s[1..] == s;
    }
  }

  /** Decoding reads one encoded character back and goes on with the rest. */
  lemma DecodeEncodedChar(c: char, rest: string)
    requires c as int < 0x80
    ensures DecodeURIComponent(EncodeChar(c) + rest) ==
            match DecodeURIComponent(rest)
            case None => None
            case Some(t) => Some([c] + t)
  {
    var x := EncodeChar(c) + rest;
    if Unreserved(c) {
      assert x[0] == c && x[1..] == rest;
    } else {
      assert x[0] == '%' && x[3..] == rest;
      assert DigitValue(x[1]).value * 16 + DigitValue(x[2]).value == c as int;
    }
  }

  /** The wire form of a context is ASCII. */
  lemma WireAscii(c: Identity)
    ensures IsAscii(WireString(c))
  {
    var fields := WireFields(c);
    forall i | 0 <= i < 4 ensures IsAscii(fields[i]) {
      if i != 2 || c.parentId.Some? {
        DigitsAscii(fields[i]);
      }
    }
    JoinAscii(fields, ':');
  }

  lemma DigitsAscii(s: string)
    requires AllDigits(s, 16)
    ensures IsAscii(s)
  {
    forall i | 0 <= i < |s| ensures s[i] as int < 0x80 {
      assert IsDigit(s[i], 16);
    }
  }

  lemma {:induction false} JoinAscii(parts: seq<string>, sep: char)
    requires |parts| >= 1 && sep as int < 0x80
    requires forall i :: 0 <= i < |parts| ==> IsAscii(parts[i])
    ensures IsAscii(Join(parts, sep))
  {
    if |parts| > 1 {
      JoinAscii(parts[1..], sep);
    }
  }

  // ---------------------------------------------------------------------------
  // Carriers

  /** A carrier: a plain object of header names to values, in insertion order. */
  class Carrier {
    var entries: Entries<string>

    constructor(entries: Entries<string>)
      ensures this.entries == entries
    {
      this.entries := entries;
    }
  }

  /**
   * The baggage items a carrier holds: every key that starts with the prefix,
   * without it, with its value, in the order `for ... in` visits them.
   */
  function BaggageItems(entries: Entries<string>, prefix: string): (items: Entries<string>)
    ensures |items| <= |entries|
  {
    if entries == [] then []
    else
      var init := BaggageItems(entries[..|entries| - 1], prefix);
      var (key, value) := entries[|entries| - 1];
      if StartsWith(key, prefix) then init + [(key[|prefix|..], value)] else init
  }

  /** The baggage after `setBaggageItem` of every item in order. */
  function SetAll(baggage: Entries<string>, items: Entries<string>): Entries<string> {
    if items == [] then baggage
    else
      var last := items[|items| - 1];
      Put(SetAll(baggage, items[..|items| - 1]), Normalize(last.0), last.1)
  }

  /** The normalisation cache after every key of `items` has been normalised in order. */
  function MemoizeAll(cache: map<string, string>, items: Entries<string>): map<string, string> {
    if items == [] then cache
    else Memoize(MemoizeAll(cache, items[..|items| - 1]), items[|items| - 1].0)
  }

  /** Each baggage entry under the prefix followed by its key. */
  function Prefixed(prefix: string, baggage: Entries<string>): (r: Entries<string>)
    ensures |r| == |baggage|
    ensures forall i :: 0 <= i < |r| ==> r[i] == (prefix + baggage[i].0, baggage[i].1)
  {
    seq(|baggage|, i requires 0 <= i < |baggage| => (prefix + baggage[i].0, baggage[i].1))
  }

  /** How the state header reads. */
  datatype TraceState =
    | FreshRoot                      // no header, or an empty one
    | FromHeader(outcome: ParseOutcome)
    | MalformedHeader                // `decodeURIComponent` throws

  function ReadTraceState(entries: Entries<string>, headerName: string): TraceState {
    match Get(entries, headerName)
    case None => FreshRoot
    case Some(header) =>
      if header == "" then FreshRoot
      else
        match DecodeURIComponent(header)
        case None => MalformedHeader
        case Some(text) => FromHeader(ParseContext(text))
  }

  /** What `extract` gives: a context, null, or a failure in place of an exception. */
  datatype Extraction =
    | Extracted(ctx: SpanContext)
    | NullExtracted
    | Failed(failure: ExtractFailure)

  datatype ExtractFailure =
    | MalformedEscape       // `decodeURIComponent` throws
    | UnreadableHeader      // an id or the flags of the header cannot be read
    | BaggageOnNull         // a baggage key is set on the null context

  /** One more carrier entry adds at most one baggage item, and setting it is one more step. */
  lemma SweepStep(entries: Entries<string>, i: nat, prefix: string)
    requires i < |entries|
    ensures var items := BaggageItems(entries[..i], prefix);
            var key := entries[i].0;
            if StartsWith(key, prefix) then
              var item := (key[|prefix|..], entries[i].1);
              BaggageItems(entries[..i + 1], prefix) == items + [item] &&
              SetAll([], items + [item]) == Put(SetAll([], items), Normalize(item.0), item.1) &&
              MemoizeAll(map[], items + [item]) == Memoize(MemoizeAll(map[], items), item.0)
            else
              BaggageItems(entries[..i + 1], prefix) == items
  {
    assert entries[..i + 1][..i] == entries[..i];
    var items := BaggageItems(entries[..i], prefix);
    var key := entries[i].0;
    if StartsWith(key, prefix) {
      var item := (key[|prefix|..], entries[i].1);
      assert (items + [item])[..|items|] == items;
    }
  }

  /** The first step of `extract`: a context without baggage, the null context, or a failure. */
  datatype Start = Began(ctx: SpanContext) | NullStart | StartFailed(failure: ExtractFailure)

  /** The baggage items of the first `n` entries begin the carrier's baggage items. */
  lemma {:induction false} BaggageItemsMonotone(entries: Entries<string>, prefix: string, n: nat)
    requires n <= |entries|
    ensures BaggageItems(entries[..n], prefix) <= BaggageItems(entries, prefix)
  {
    if n < |entries| {
      var init := entries[..|entries| - 1];
      BaggageItemsMonotone(init, prefix, n);
      assert init[..n] == entries[..n];
    } else {
      assert entries[..n] == entries;
    }
  }

  /** The carrier after `inject`: the encoded state under the header, then each baggage item. */
  function InjectedEntries(entries: Entries<string>, c: Identity, baggage: Entries<string>,
                           headerName: string, prefix: string): Entries<string>
  {
    WireAscii(c);
    PutAll(Put(entries, headerName, EncodeURIComponent(WireString(c))), Prefixed(prefix, baggage))
  }

  /**
   * `inject` as written: it reads `spanContext.baggage`, which `SpanContext`
   * does not define, so its loop sees no keys and only the state header is written.
   */
  function InjectedEntriesAsWritten(entries: Entries<string>, c: Identity, headerName: string): Entries<string>
  {
    WireAscii(c);
    Put(entries, headerName, EncodeURIComponent(WireString(c)))
  }

  class HttpHeaderCodec {
    const sampler: Sampler
    /** The name of the state header. */
    const headerName: string
    /** The prefix of baggage headers. */
    const baggagePrefix: string

    constructor(sampler: Sampler, headerName: string, baggagePrefix: string)
      requires headerName != [] && baggagePrefix != []
      ensures this.sampler == sampler && this.headerName == headerName && this.baggagePrefix == baggagePrefix
    {
      this.sampler := sampler;
      this.headerName := headerName;
      this.baggagePrefix := baggagePrefix;
    }

    /**
     * `extract`: the context the state header describes, or a fresh root
     * built from the sampler's decision when the header is missing or empty;
     * then every prefixed key becomes a baggage item. `randomId` is the id
     * `getRandom64` would draw.
     */
    method Extract(carrier: Carrier, randomId: Id) returns (r: Extraction)
      modifies sampler`queries
      ensures sampler.queries == old(sampler.queries) + if ReadTraceState(carrier.entries, headerName) == FreshRoot then 1 else 0
      ensures ReadTraceState(carrier.entries, headerName) == FreshRoot ==>
                r.Extracted? && r.ctx.Ident() == RootIdentity(randomId, sampler.decision)
      ensures ReadTraceState(carrier.entries, headerName) == MalformedHeader ==> r == Failed(MalformedEscape)
      ensures ReadTraceState(carrier.entries, headerName) == FromHeader(UnreadableField) ==>
                r == Failed(UnreadableHeader)
      ensures ReadTraceState(carrier.entries, headerName) == FromHeader(NotFourFields) ==>
                r == if BaggageItems(carrier.entries, baggagePrefix) == [] then NullExtracted else Failed(BaggageOnNull)
      ensures ReadTraceState(carrier.entries, headerName).FromHeader? &&
              ReadTraceState(carrier.entries, headerName).outcome.Parsed? ==>
                r.Extracted? && r.ctx.Ident() == ReadTraceState(carrier.entries, headerName).outcome.identity
      ensures r.Extracted? ==>
                fresh(r.ctx) && r.ctx.Valid() &&
                r.ctx.baggage == SetAll([], BaggageItems(carrier.entries, baggagePrefix)) &&
                r.ctx.baggageHeaderCache == MemoizeAll(map[], BaggageItems(carrier.entries, baggagePrefix))
    {
      var start := StartContext(carrier.entries, randomId);
      match start
      case StartFailed(failure) =>
        r := Failed(failure);
      case NullStart =>
        var found := HasBaggage(carrier.entries);
        r := if found then Failed(BaggageOnNull) else NullExtracted;
      case Began(ctx) =>
        SweepBaggage(ctx, carrier.entries);
        r := Extracted(ctx);
    }

    /** The first half of `extract`: the context the state header gives, before any baggage. */
    method StartContext(entries: Entries<string>, randomId: Id) returns (start: Start)
      modifies sampler`queries
      ensures sampler.queries == old(sampler.queries) + if ReadTraceState(entries, headerName) == FreshRoot then 1 else 0
      ensures match ReadTraceState(entries, headerName)
              case FreshRoot =>
                start.Began? && start.ctx.Ident() == RootIdentity(randomId, sampler.decision)
              case MalformedHeader => start == StartFailed(MalformedEscape)
              case FromHeader(outcome) =>
                match outcome
                case UnreadableField => start == StartFailed(UnreadableHeader)
                case NotFourFields => start == NullStart
                case Parsed(c) => start.Began? && start.ctx.Ident() == c
      ensures start.Began? ==>
                fresh(start.ctx) && start.ctx.Valid() && start.ctx.baggage == [] && start.ctx.baggageHeaderCache == map[]
    {
      var header := Get(entries, headerName);
      if header.None? || header.value == "" {
        var flags := 0;
        var sampled := sampler.IsSampled();
        if sampled {
          flags := SAMPLED_MASK;
        }
        var ctx := new SpanContext(randomId, randomId, None, flags);
        return Began(ctx);
      }
      var text := DecodeURIComponent(header.value);
      if text.None? {
        return StartFailed(MalformedEscape);
      }
      var decoded := FromString(text.value);
      match decoded
      case Unreadable =>
        start := StartFailed(UnreadableHeader);
      case NullContext =>
        start := NullStart;
      case Context(ctx) =>
        start := Began(ctx);
    }

    /** The baggage loop of `extract` on a context: every prefixed key is set, in carrier order. */
    method SweepBaggage(spanContext: SpanContext, entries: Entries<string>)
      requires spanContext.Valid() && spanContext.baggage == [] && spanContext.baggageHeaderCache == map[]
      modifies spanContext
      ensures spanContext.Valid()
      ensures spanContext.baggage == SetAll([], BaggageItems(entries, baggagePrefix))
      ensures spanContext.baggageHeaderCache == MemoizeAll(map[], BaggageItems(entries, baggagePrefix))
    {
      var i := 0;
      while i < |entries|
        invariant 0 <= i <= |entries|
        invariant spanContext.Valid()
        invariant spanContext.baggage == SetAll([], BaggageItems(entries[..i], baggagePrefix))
        invariant spanContext.baggageHeaderCache == MemoizeAll(map[], BaggageItems(entries[..i], baggagePrefix))
      {
        var (key, value) := entries[i];
        SweepStep(entries, i, baggagePrefix);
        if StartsWith(key, baggagePrefix) {
          spanContext.SetBaggageItem(key[|baggagePrefix|..], value);
        }
        i := i + 1;
      }
      assert entries[..i] == entries;
    }

    /** The baggage loop of `extract` on the null context: it fails at the first prefixed key. */
    method HasBaggage(entries: Entries<string>) returns (found: bool)
      ensures found <==> BaggageItems(entries, baggagePrefix) != []
    {
      var i := 0;
      while i < |entries|
        invariant 0 <= i <= |entries|
        invariant BaggageItems(entries[..i], baggagePrefix) == []
      {
        assert entries[..i + 1][..i] == entries[..i];
        if StartsWith(entries[i].0, baggagePrefix) {
          BaggageItemsMonotone(entries, baggagePrefix, i + 1);
          return true;
        }
        i := i + 1;
      }
      assert entries[..i] == entries;
      return false;
    }

    /**
     * `inject`: the URI-encoded wire form under the state header, then each
     * baggage item, as `getBaggageItem` returns it, under the prefix and its
     * key. The context keeps its identity and its baggage.
     */
    method Inject(spanContext: SpanContext, carrier: Carrier)
      requires spanContext.Valid()
      modifies carrier, spanContext`baggageHeaderCache
      ensures carrier.entries ==
                InjectedEntries(old(carrier.entries), spanContext.Ident(), spanContext.baggage, headerName, baggagePrefix)
      ensures spanContext.Valid() && spanContext.baggage == old(spanContext.baggage)
      ensures spanContext.baggageHeaderCache == MemoizeAll(old(spanContext.baggageHeaderCache), spanContext.baggage)
    {
      var stringSpanContext := spanContext.ToString();
      WireAscii(spanContext.Ident());
      carrier.entries := Put(carrier.entries, headerName, EncodeURIComponent(stringSpanContext));
      WriteBaggage(spanContext, carrier);
    }

    /** The baggage loop of `inject`: each item, read back with `getBaggageItem`, under the prefix and its key. */
    method WriteBaggage(spanContext: SpanContext, carrier: Carrier)
      requires spanContext.Valid()
      modifies carrier, spanContext`baggageHeaderCache
      ensures carrier.entries == PutAll(old(carrier.entries), Prefixed(baggagePrefix, spanContext.baggage))
      ensures spanContext.Valid() && spanContext.baggage == old(spanContext.baggage)
      ensures spanContext.baggageHeaderCache == MemoizeAll(old(spanContext.baggageHeaderCache), spanContext.baggage)
    {
      var baggage := spanContext.baggage;
      var i := 0;
      while i < |baggage|
        invariant 0 <= i <= |baggage|
        invariant spanContext.Valid() && spanContext.baggage == baggage
        invariant carrier.entries == PutAll(old(carrier.entries), Prefixed(baggagePrefix, baggage[..i]))
        invariant spanContext.baggageHeaderCache == MemoizeAll(old(spanContext.baggageHeaderCache), baggage[..i])
      {
        var key := baggage[i].0;
        var value := spanContext.GetBaggageItem(key);
        StoredValue(baggage, i);
        PrefixedStep(baggagePrefix, baggage, i);
        carrier.entries := Put(carrier.entries, baggagePrefix + key, value.value);
        i := i + 1;
      }
      assert baggage[..i] == baggage;
    }
  }

  /** In normalised baggage, `getBaggageItem` of an item's key gives that item's value. */
  lemma StoredValue(baggage: Entries<string>, i: nat)
    requires BaggageNormalized(baggage) && i < |baggage|
    ensures Get(baggage, Normalize(baggage[i].0)) == Some(baggage[i].1)
  {
    GetAt(baggage, i);
  }

  lemma PrefixedStep(prefix: string, baggage: Entries<string>, i: nat)
    requires i < |baggage|
    ensures baggage[..i + 1][..i] == baggage[..i]
    ensures Prefixed(prefix, baggage[..i + 1]) ==
            Prefixed(prefix, baggage[..i]) + [(prefix + baggage[i].0, baggage[i].1)]
  {
  }

  // ---------------------------------------------------------------------------
  // Properties of inject and extract

  /**
   * What `inject` writes into an empty carrier, `extract` reads back: the
   * identity (an all-zero parent reading as none) and the baggage, provided
   * the state header's name does not itself start with the baggage prefix.
   */
  lemma InjectExtractRoundTrip(c: Identity, baggage: Entries<string>, headerName: string, prefix: string)
    requires BaggageNormalized(baggage)
    requires !StartsWith(headerName, prefix)
    ensures ReadTraceState(InjectedEntries([], c, baggage, headerName, prefix), headerName) ==
            FromHeader(Parsed(WithoutZeroParent(c)))
    ensures SetAll([], BaggageItems(InjectedEntries([], c, baggage, headerName, prefix), prefix)) == baggage
  {
    WireAscii(c);
    var wire := WireString(c);
    var header := EncodeURIComponent(wire);
    var prefixed := Prefixed(prefix, baggage);
    PrefixedFresh(prefix, baggage, headerName);
    PutAllFresh([(headerName, header)], prefixed);
    var entries := [(headerName, header)] + prefixed;
    assert InjectedEntries([], c, baggage, headerName, prefix) == entries;
    assert Get(entries, headerName) == Some(header);
    assert wire != [] by {
      assert |Split(wire, ':')| == 4;
    }
    DecodeEncode(wire);
    WireRoundTrip(c);
    StripPrefix(prefix, baggage, (headerName, header));
    NormalizedSetAll(baggage);
  }

  /** Prefixed keys are distinct and differ from a name that does not start with the prefix. */
  lemma PrefixedFresh(prefix: string, baggage: Entries<string>, headerName: string)
    requires DistinctKeys(baggage)
    requires !StartsWith(headerName, prefix)
    ensures DistinctKeys(Prefixed(prefix, baggage))
    ensures forall j :: 0 <= j < |baggage| ==> Prefixed(prefix, baggage)[j].0 != headerName
  {
    var p := Prefixed(prefix, baggage);
    forall i, j | 0 <= i < j < |p| ensures p[i].0 != p[j].0 {
      assert p[i].0[|prefix|..] == baggage[i].0;
      assert p[j].0[|prefix|..] == baggage[j].0;
    }
    forall j | 0 <= j < |p| ensures p[j].0 != headerName {
      assert prefix <= p[j].0;
    }
  }

  /** The baggage items of a carrier that `inject` filled are the baggage it wrote. */
  lemma {:induction false} StripPrefix(prefix: string, baggage: Entries<string>, first: (string, string))
    requires !StartsWith(first.0, prefix)
    ensures BaggageItems([first] + Prefixed(prefix, baggage), prefix) == baggage
  {
    var e := [first] + Prefixed(prefix, baggage);
    if baggage == [] {
      assert BaggageItems(e[..0], prefix) == [];
    } else {
      var n := |baggage|;
      StripPrefix(prefix, baggage[..n - 1], first);
      assert e[..|e| - 1] == [first] + Prefixed(prefix, baggage[..n - 1]);
      var key := prefix + baggage[n - 1].0;
      assert e[|e| - 1] == (key, baggage[n - 1].1);
      assert StartsWith(key, prefix);
      assert key[|prefix|..] == baggage[n - 1].0;
      assert baggage[..n - 1] + [baggage[n - 1]] == baggage;
    }
  }

  /** Setting items whose keys are already normalised rebuilds them as they are. */
  lemma NormalizedSetAll(baggage: Entries<string>)
    requires BaggageNormalized(baggage)
    ensures SetAll([], baggage) == baggage
  {
    forall i | 0 <= i < |baggage| ensures Normalize(baggage[i].0) == baggage[i].0 {
      GetAt(baggage, i);
    }
    SetAllIsPutAll([], baggage);
    PutAllFresh([], baggage);
    assert [] + baggage == baggage;
  }

  lemma {:induction false} SetAllIsPutAll(d: Entries<string>, items: Entries<string>)
    requires forall i :: 0 <= i < |items| ==> Normalize(items[i].0) == items[i].0
    ensures SetAll(d, items) == PutAll(d, items)
  {
    if items != [] {
      SetAllIsPutAll(d, items[..|items| - 1]);
    }
  }

  /**
   * `inject` writes nothing under any key other than the state header and
   * the prefixed baggage keys.
   */
  lemma InjectKeepsOtherKeys(entries: Entries<string>, c: Identity, baggage: Entries<string>,
                             headerName: string, prefix: string, k: string)
    requires k != headerName
    requires forall i :: 0 <= i < |baggage| ==> k != prefix + baggage[i].0
    ensures Get(InjectedEntries(entries, c, baggage, headerName, prefix), k) == Get(entries, k)
  {
    WireAscii(c);
    PutAllOther(Put(entries, headerName, EncodeURIComponent(WireString(c))), Prefixed(prefix, baggage), k);
  }

  /**
   * As written, `inject` drops the baggage: a carrier it filled holds no
   * baggage items, so `extract` gets none back however much was sent.
   */
  lemma InjectAsWrittenLosesBaggage(c: Identity, baggage: Entries<string>, headerName: string, prefix: string)
    requires baggage != []
    requires !StartsWith(headerName, prefix)
    ensures BaggageItems(InjectedEntriesAsWritten([], c, headerName), prefix) == []
    ensures SetAll([], BaggageItems(InjectedEntriesAsWritten([], c, headerName), prefix)) != baggage
  {
    WireAscii(c);
    var entries := InjectedEntriesAsWritten([], c, headerName);
    assert entries == [(headerName, EncodeURIComponent(WireString(c)))];
    assert entries[..0] == [];
  }
}
