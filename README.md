# jaeger-client-node core, modelled in Dafny

This project models the core of the Node.js client of the Jaeger tracing
system:

- **Span contexts.** A context holds the identity of a span: trace id, span id, optional parent id and a flags bit-field whose low bit means "sampled". It also holds baggage: key/value items whose keys are normalised to lower case with `-` for `_`, through a cache of at most 100 keys.
  - The context is written as the text `trace:span:parent:flags` in hexadecimal and read back from it.
- **The HTTP header codec.** `inject` writes a context into a carrier of headers: the URI-encoded state under one header, and each baggage item under a prefixed key. `extract` reads a context back, or starts a fresh root context, asking the sampler, when no state header is present.
- **Utilities.** These turn ids into 8-byte big-endian buffers (`encodeInt64`), pack dotted IPv4 text into a signed 32-bit integer, build endpoints, and build the binary annotations (tags) that a span carries for integers, booleans and strings.
- **Reporters.** There are three:
  - the Noop reporter drops spans;
  - the TChannel collector reporter buffers spans and submits them to a proxy in batches of `flushLength`;
  - the rate-limiting reporter forwards a span only while its limiter grants credit.
- **Spans and the tracer.** A span records logs (annotations) and tags only while its context is sampled. It can be finished once, and on finishing it is handed, with the tracer's tags added, to the tracer's reporter. The tracer starts root spans and child spans.

The modules follow the source files:

| file | module |
|---|---|
| `util.dfy` | `Util`: `src/util.js` |
| `span_context.dfy` | `SpanContexts`: `src/span_context.js` |
| `http_header_codec.dfy` | `HttpHeaderCodecs`: `src/propagators/http_header_codec.js` |
| `reporter.dfy` | `Reporters`: `src/reporters/reporter.js` |
| `tracing.dfy` | `Tracing`: `src/span.js` and `src/tracer.js`, which refer to each other |
| `samplers.dfy` | the sampler, as the tracer and codec see it |
| `text.dfy`, `bytes.dfy`, `dict.dfy` | the JavaScript primitives these rely on |

The primitives are:

- `parseInt`;
- `Number#toString(16)` and `Buffer#toString('hex')`;
- `split`, `join` and `indexOf`;
- ToInt32 wrap-around;
- big-endian buffers;
- plain objects, as insertion-ordered entry lists.

Objects the source updates in place are classes whose methods are proved against specification functions:

- `SpanContext` (baggage and cache);
- `Carrier`;
- `Span`, `Tracer`;
- the reporters, the sampler and the credit limiter.

Loops in the source are loops here, each with its invariant:

- `ipToInt`;
- the baggage loops of `extract` and `inject`;
- `addTags`.

## Model

| member | source | states |
|---|---|---|
| `Dict.Get` | src/span_context.js:87-90 | reading a key of a plain object yields a value exactly when some entry has that key (`undefined` otherwise) |
| `Dict.Put` | src/span_context.js:82-85 | assigning a property makes it read back as the new value and leaves every other key as it was; a new key is appended at the end, an existing one keeps its place |
| `Dict.PutKeepsDistinct` | src/span_context.js:84 | assigning a property keeps the keys of an object distinct |
| `Dict.PutAllFresh` | src/propagators/http_header_codec.js:70-75 | assigning properties whose keys are distinct and absent from the object appends them in order |
| `Dict.GetAt` | src/propagators/http_header_codec.js:72 | in an object with distinct keys, looking up the key at any position gives that position's value |
| `Dict.PutAllOther` | src/propagators/http_header_codec.js:73 | assigning a list of properties leaves every key outside that list as it was |
| `Bytes.BigEndianValue` | src/util.js:52 | the 8-byte (any width) big-endian buffer of `n` holds `n` modulo 256^width, so negative numbers come out in two's complement |
| `Bytes.ValueBigEndian` | src/util.js:52 | a buffer is the big-endian encoding of the number it holds at its own width, so a buffer read as a number and written back is unchanged |
| `Bytes.ToInt32` | src/util.js:59 | the ToInt32 conversion that `<<=` applies gives a signed 32-bit integer congruent to its argument modulo 2^32 |
| `Text.ParseInt` | src/span_context.js:122 | `parseInt` is NaN exactly when the text does not begin with a digit of the radix; text made only of digits yields the number those digits denote |
| `Text.DigitRun` | src/util.js:60 | `parseInt` reads the longest prefix of digits: everything before the cut is a digit and the character at the cut is not |
| `Text.ToHex` | src/span_context.js:104 | `toString(16)` yields non-empty lowercase hexadecimal text whose value is the number |
| `Text.BytesToHex` | src/span_context.js:98-102 | `toString('hex')` yields two hex digits per byte, and the text's value is the buffer's value |
| `Text.Split` | src/span_context.js:111 | `split` yields one more part than there are separators, no part contains the separator, and joining the parts with the separator gives the text back |
| `Text.SplitJoin` | src/span_context.js:100-111 | splitting the join of parts that do not contain the separator gives those parts back |
| `Text.JoinSplit` | src/span_context.js:70 | `split(sep).join(sub)` replaces every occurrence of `sep` with `sub` and changes nothing else |
| `Text.IndexOf` | src/util.js:29 | `indexOf` gives -1 or a position at or after the start where the pattern occurs, and the pattern occurs nowhere between the start and that position (nowhere at all when it gives -1) |
| `Util.StartsWith` | src/util.js:28-30 | `indexOf(prefix) === 0` holds exactly when the text begins with the prefix |
| `Util.EncodeInt64` | src/util.js:41-53 | `"-1"` gives all ones. A number gives a buffer exactly when its magnitude is at most 2^64, and that buffer holds the number modulo 2^64. Other text gives a buffer exactly when it is 1 to 16 hex digits, and that buffer holds the digits' value |
| `Util.EncodeHexText` | src/util.js:52 | 1 to 16 hex digits fit the 8-byte buffer, whose value is the digits' value |
| `Util.EncodeNumber` | src/util.js:52 | a number's 8-byte buffer holds the number modulo 2^64 |
| `Util.HexBelow` | src/util.js:52 | at most 16 hex digits denote less than 2^64 |
| `Util.MinusOneText` | src/util.js:42-50 | with its special branch corrected, the text `"-1"` encodes exactly as the number -1 does |
| `Util.ShiftLeft` | src/util.js:48 | `x << count` lies in the signed 32-bit range, and a count that is a multiple of 32 leaves a 32-bit value unchanged (so `-1 << 32` is -1) |
| `Util.WriteUInt32LE` | src/util.js:48 | the range-checked write succeeds exactly for values in 0 .. 2^32 - 1; it then changes only the four bytes at the offset, which hold the value least significant first |
| `Util.EncodeMinusOneAsWritten` | src/util.js:47-49 | as written, the branch writes `-1 << 32` = -1 with the range-checked `writeUInt32LE`, which rejects it, so the branch throws, whatever the fresh buffer held |
| `Util.MinusOneAsWrittenIsNotMinusOne` | src/util.js:42-50 | as written, `"-1"` never yields a buffer for any initial memory, while the corrected branch yields all ones, the encoding of the number -1 |
| `Util.IpToInt` | src/util.js:55-65 | the loop shifts left by 8 with 32-bit wrap-around (a NaN value shifts to 0) and adds `parseInt` of each dot-separated part; the result is the fold `IpFold` of the parts |
| `Util.ShiftLeft8IsShift` | src/util.js:59 | `ipl <<= 8` is the 32-bit shift by 8 of the value, with NaN read as 0 |
| `Util.IpFoldNaN` | src/util.js:58-61 | NaN does not propagate: the next shift turns it into 0, so `ipToInt` is NaN exactly when its last part does not parse |
| `Util.DottedQuad` | src/util.js:55-65 | four decimal octets pack big-endian into one 32-bit word, which is read as a signed integer |
| `Util.OctetStep` | src/util.js:59-60 | while the running value is below 2^23, a shift-and-add step is exact |
| `Util.LowByteAdd` | src/util.js:59-60 | adding a byte to a multiple of 256 commutes with wrapping to signed 32 bits |
| `Util.Int32Unchanged` | src/util.js:59 | ToInt32 leaves values in the signed 32-bit range unchanged |
| `Util.Loopback` | src/util.js:69-74 | `"127.0.0.1"` packs to 0x7F000001 |
| `Util.CreateEndpoint` | src/util.js:68-78 | `'localhost'` stands for 127.0.0.1 (giving 0x7F000001); the address is packed by `ipToInt`; a missing port becomes 0; the service name is kept |
| `Util.IntegerTagType` | src/util.js:94-113 | a value gets I16 exactly when it is in the signed 16-bit range, I32 exactly when it is in the signed 32-bit range but not the 16-bit one, and I64 otherwise |
| `Util.SignedRoundTrip` | src/util.js:104-112 | writing a value that fits a width's signed range and reading it back as two's complement gives the value |
| `Util.CreateIntegerTag` | src/util.js:94-116 | the corrected tag holds a buffer as wide as its type (2, 4 or 8 bytes) that reads back as the value; it keeps the key and has no host |
| `Util.CreateIntegerTagAsWritten` | src/util.js:80-116 | as written, the computed buffer is discarded and the number goes to `new Buffer(value, 'binary')`: on Node 6 and later that throws, so no tag is made; before Node 6 the tag keeps the key and type and holds max(value, 0) freshly allocated bytes |
| `Util.IntegerTagAsWrittenLosesValue` | src/util.js:94-116 | as written, on Node 6 and later no tag is made, and on earlier Node no integer tag carries its value's bytes; the corrected tag for 5 is the buffer 00 05 |
| `Util.CreateBooleanTag` | src/util.js:131-138 | the text is `'0x01'` exactly when the value is true and `'0x0'` exactly when it is false; the type is BOOL |
| `Util.CreateStringTag` | src/util.js:140-142 | the text itself, with type STRING |
| `SpanContexts.Normalize` | src/span_context.js:70 | the normalised key is as long as the key, and each of its characters is that character of the key lower-cased, with `_` turned into `-` |
| `SpanContexts.NormalizeIdempotent` | src/span_context.js:70 | normalising a normalised key changes nothing |
| `SpanContexts.NormalizeExample` | test/span_context.js:92-97 | `'SOME_KEY'` normalises to `'some-key'` |
| `SpanContexts.NormalizeCamelCase` | test/http_header_codec.js:40-48 | `'keyOne'` normalises to `'keyone'` |
| `SpanContexts.Memoize` | src/span_context.js:64-76 | the cache is never evicted or altered. A key is added only when absent and fewer than 100 keys are held, and only that key is added. Every cached value stays the normal form of its key |
| `SpanContexts.SetThenGet` | src/span_context.js:82-90 | after setting `k1`, getting `k2` sees the new value exactly when the two keys share a normal form; otherwise it sees what was there before |
| `SpanContexts.PutNormalized` | src/span_context.js:82-85 | setting an item keeps the baggage's keys distinct and normalised |
| `SpanContexts.SampledBit` | src/span_context.js:92-94 | `!!(flags & SAMPLED_MASK)` holds exactly when the low bit of the flags is set |
| `SpanContexts.WireFields` | src/span_context.js:96-106 | the four fields are: the trace id and span id as 16 hex digits each, the parent as 16 hex digits or `'0'` when absent, and the flags in hex, each field with the value it encodes |
| `SpanContexts.WireString` | src/span_context.js:96-106 | splitting the wire text at `:` gives exactly the four fields |
| `SpanContexts.ParseContext` | src/span_context.js:108-135 | Null exactly when the text does not split into four fields. Unreadable exactly when there are four fields and `encodeInt64` fails on the trace id, the span id or a non-zero parent, or `parseInt(flags, 16)` is NaN. When it parses: the trace and span ids are `encodeInt64` of their fields, the parent is absent exactly when its field is `'0'` or sixteen zeros and is otherwise `encodeInt64` of its field, and the flags are `parseInt(field, 16)` |
| `SpanContexts.HexIdRoundTrip` | src/span_context.js:101-119 | `encodeInt64` of an id's hex text gives the id back |
| `SpanContexts.WireRoundTrip` | src/span_context.js:96-135 | `fromString(toString(c))` gives back the trace id, span id and flags, and the parent unless it is absent or all zeros (both read back as no parent) |
| `SpanContexts.ParentRoundTrip` | src/span_context.js:98-127 | the parent field reads back as the parent, with an all-zero id read as no parent |
| `SpanContexts.ZeroHexIsZeroId` | src/span_context.js:125 | only the all-zero id is written as sixteen zeros |
| `SpanContexts.RootIdentity` | src/tracer.js:101-108 | a root context has the same fresh id as trace and span id, no parent, and flags 0 or 1, sampled exactly when the sampler said so |
| `SpanContexts.ChildIdentity` | src/tracer.js:94-100 | a child keeps its parent's trace id and exactly its flags, takes the parent's span id as its parent id, and takes the fresh id as its span id |
| `SpanContexts.SpanContext.constructor` | src/span_context.js:35-45 | the given identity, with empty baggage and an empty cache |
| `SpanContexts.SpanContext.NormalizeBaggageKey` | src/span_context.js:63-80 | returns the normal form of the key, whether or not it was cached, and updates the cache as `Memoize` says |
| `SpanContexts.SpanContext.SetBaggageItem` | src/span_context.js:82-85 | stores the value under the normalised key and keeps the baggage normalised |
| `SpanContexts.SpanContext.GetBaggageItem` | src/span_context.js:87-90 | returns the value under the normalised key, or nothing for `undefined` |
| `SpanContexts.SpanContext.IsSampled` | src/span_context.js:92-94 | true exactly when the flags are odd |
| `SpanContexts.SpanContext.ToString` | src/span_context.js:96-106 | the four wire fields, which `fromString` reads back to this context's identity (an all-zero parent reads as none) |
| `SpanContexts.FromString` | src/span_context.js:108-135 | null exactly when there are not four fields; a failure exactly when a field is unreadable; otherwise a fresh context with the parsed identity and no baggage |
| `HttpHeaderCodecs.UpperHexDigit` | src/propagators/http_header_codec.js:67 | a percent-escape digit is an uppercase hex digit with the given value |
| `HttpHeaderCodecs.EncodeURIComponent` | src/propagators/http_header_codec.js:67 | encoding ASCII text gives ASCII text at least as long |
| `HttpHeaderCodecs.DecodeEncode` | src/propagators/http_header_codec.js:51-67 | `decodeURIComponent(encodeURIComponent(s))` gives `s` back for ASCII text |
| `HttpHeaderCodecs.WireAscii` | src/span_context.js:96-106 | the wire form of a context is ASCII, so `encodeURIComponent` does not throw on it |
| `HttpHeaderCodecs.Prefixed` | src/propagators/http_header_codec.js:73 | each baggage item, in order, under the prefix followed by its key |
| `HttpHeaderCodecs.HttpHeaderCodec.constructor` | src/propagators/http_header_codec.js:29-31 | the codec keeps its sampler, header name and prefix |
| `HttpHeaderCodecs.HttpHeaderCodec.Extract` | src/propagators/http_header_codec.js:33-63 | With no state header or an empty one: a fresh root from the sampler's decision, and the sampler is asked exactly then. A malformed escape or an unreadable field is a failure. A header that does not split into four fields gives null, or a failure if any baggage key is present. Otherwise: the parsed identity, and its baggage is every prefixed key, prefix stripped, set in carrier order |
| `HttpHeaderCodecs.HttpHeaderCodec.StartContext` | src/propagators/http_header_codec.js:34-52 | the context the state header gives, by case of the header, before any baggage |
| `HttpHeaderCodecs.HttpHeaderCodec.SweepBaggage` | src/propagators/http_header_codec.js:54-60 | the loop sets every prefixed key, prefix stripped, in carrier order; the baggage and the cache end as if each item had been set in turn |
| `HttpHeaderCodecs.HttpHeaderCodec.HasBaggage` | src/propagators/http_header_codec.js:54-58 | on the null context, the loop fails exactly when the carrier holds at least one prefixed key |
| `HttpHeaderCodecs.BaggageItemsMonotone` | src/propagators/http_header_codec.js:54-58 | the baggage items of a prefix of the carrier begin the carrier's baggage items |
| `HttpHeaderCodecs.HttpHeaderCodec.Inject` | src/propagators/http_header_codec.js:65-76 | the carrier gets the URI-encoded wire form under the state header, then each baggage item under the prefix and its key; the context's identity and baggage are unchanged |
| `HttpHeaderCodecs.HttpHeaderCodec.WriteBaggage` | src/propagators/http_header_codec.js:69-75 | the loop writes each item, as `getBaggageItem` returns it, under the prefix and its key, in order |
| `HttpHeaderCodecs.StoredValue` | src/propagators/http_header_codec.js:72 | in normalised baggage, `getBaggageItem` of an item's key gives that item's value |
| `HttpHeaderCodecs.InjectExtractRoundTrip` | src/propagators/http_header_codec.js:33-76 | `extract` of what `inject` wrote into an empty carrier gives back the identity (an all-zero parent reads as none) and exactly the baggage, provided the header name does not start with the prefix |
| `HttpHeaderCodecs.PrefixedFresh` | src/propagators/http_header_codec.js:73 | prefixed baggage keys are distinct and differ from a header name that does not start with the prefix |
| `HttpHeaderCodecs.StripPrefix` | src/propagators/http_header_codec.js:55-56 | stripping the prefix from the keys `inject` wrote gives back the baggage |
| `HttpHeaderCodecs.NormalizedSetAll` | src/propagators/http_header_codec.js:58 | setting items whose keys are already normalised rebuilds them as they are |
| `HttpHeaderCodecs.InjectKeepsOtherKeys` | src/propagators/http_header_codec.js:65-76 | `inject` changes no carrier key other than the state header and the prefixed baggage keys |
| `HttpHeaderCodecs.InjectAsWrittenLosesBaggage` | src/propagators/http_header_codec.js:69-75 | as written, a carrier that `inject` filled holds no baggage item, so non-empty baggage does not survive `extract` |
| `Samplers.Sampler.constructor` | test/http_header_codec.js:34 | a sampler with a fixed decision that has not yet been asked, standing for `new ConstSampler(true)` and the other samplers listed under "Left out" |
| `Samplers.Sampler.Noop` | src/tracer.js:52 | the sampler substituted for a missing one never samples |
| `Samplers.Sampler.IsSampled` | src/tracer.js:89 | answers its decision and records that it was asked |
| `Reporters.NoopReporter.constructor` | src/reporters/reporter.js:11-15 | a reporter that has been offered nothing |
| `Reporters.NoopReporter.Report` | src/reporters/reporter.js:17-19 | the span is accepted and nothing else happens |
| `Reporters.NoopReporter.Close` | src/reporters/reporter.js:21-26 | the callback is called exactly when one is given |
| `Reporters.FlushLengthOf` | src/reporters/reporter.js:84 | a given non-zero flush length is kept; a missing or zero one becomes 10 |
| `Reporters.ReportStep` | src/reporters/reporter.js:96-103 | reporting keeps the threshold. The submitted batches followed by the buffer gain exactly the new span at the end. Afterwards the buffer is empty or shorter than the threshold |
| `Reporters.CloseStep` | src/reporters/reporter.js:123-132 | closing drops the threshold to 0 and submits the whole buffer, even an empty one, with the callback |
| `Reporters.BatchesAppend` | src/reporters/reporter.js:115 | submitting a batch appends its spans to everything submitted |
| `Reporters.Conservation` | src/reporters/reporter.js:96-132 | for any sequence of `report` and `close` calls, the submitted batches followed by the buffer are exactly the reported spans, in order, none lost or repeated |
| `Reporters.FillBelowThreshold` | src/reporters/reporter.js:96-103 | fewer than `flushLength` reports into an empty buffer submit nothing and only fill the buffer |
| `Reporters.FlushAtThreshold` | src/reporters/reporter.js:96-103 | exactly `flushLength` reports into an empty buffer submit them as one batch, in order, and empty the buffer |
| `Reporters.Reports` | src/reporters/reporter.js:96-97 | one `report` call per span, in order, without callbacks |
| `Reporters.Singletons` | src/reporters/reporter.js:110-116 | one single-span batch per span, in order |
| `Reporters.ReportsAfterClose` | src/reporters/reporter.js:96-132 | after `close`, every report submits a batch holding just that span |
| `Reporters.TCollectorTraceReporter.constructor` | src/reporters/reporter.js:76-89 | an empty buffer, the flush length `FlushLengthOf` gives, and nothing submitted |
| `Reporters.TCollectorTraceReporter.Report` | src/reporters/reporter.js:96-103 | the reporter steps as `ReportStep` says, keeping conservation and the below-threshold invariant |
| `Reporters.TCollectorTraceReporter.Flush` | src/reporters/reporter.js:110-116 | the whole buffer goes to the proxy as one batch and the buffer is emptied |
| `Reporters.TCollectorTraceReporter.Close` | src/reporters/reporter.js:123-132 | the reporter steps as `CloseStep` says, and the invariant is kept |
| `Reporters.CreditLimiter.CheckCredit` | src/reporters/reporter.js:54 | the limiter's answer, with the cost recorded |
| `Reporters.RateLimitingReporter.constructor` | src/reporters/reporter.js:34-45 | keeps the delegate and the limiter; the cost is 1 |
| `Reporters.RateLimitingReporter.Report` | src/reporters/reporter.js:52-61 | one credit of cost 1 is checked. With credit, the delegate reports the span and the callback goes with it. Without credit, the delegate is untouched and the callback is called exactly when one is given |
| `Reporters.RateLimitingReporter.Close` | src/reporters/reporter.js:67-70 | the delegate closes, with the callback |
| `Tracing.TagFor` | src/span.js:98-106 | An integral number gets the narrowest of I16/I32/I64 that holds it and a buffer of that width that reads back as the number; this is the corrected integer tag (see Findings). A boolean gets the BOOL tag, `'0x01'` exactly when true. Anything else gets the string tag of its text |
| `Tracing.TagsFor` | src/span.js:94-111 | one tag per own key, in key order (integers with the corrected tag) |
| `Tracing.LogAnnotation` | src/span.js:113-128 | the given timestamp, or the clock's when it is missing or 0; the event, or else the serialised payload; the tracer's host |
| `Tracing.Span.constructor` | src/span.js:40-64 | the given tracer, name, context, start time, role and peer; zero duration; not ended; no logs or tags |
| `Tracing.Span.SetOperationName` | src/span.js:74-76 | the name changes and nothing else does |
| `Tracing.Span.AddTags` | src/span.js:94-111 | a sampled span gains one tag per pair, in order (integers with the corrected tag); an unsampled span is unchanged |
| `Tracing.Span.Log` | src/span.js:113-129 | A sampled span gains exactly the annotation `LogAnnotation` describes, or throws when it has neither an event nor a payload. An unsampled span is unchanged and never throws |
| `Tracing.Span.Finish` | src/span.js:78-92 | A second call fails and changes nothing. A call that does not report (a second call, an unsampled span, or a span with no start time) leaves the span's duration, logs and tags and all of the reporter's state unchanged. The first call marks the span ended. If the span is also sampled and has a start time, the first call sets the duration to end minus start, logs `CLIENT_RECV` or `SERVER_SEND` at the end time, adds the tracer tags, and hands the span to the reporter exactly once |
| `Tracing.Tracer.constructor` | src/tracer.js:41-55 | a missing reporter becomes a Noop one and a missing sampler a Noop one; the tracer tags gain `jaegerClient` = `Node-<version>`; the host is the endpoint of the local address and port |
| `Tracing.Tracer.Report` | src/tracer.js:79-82 | the tracer tags go onto the span, then the span goes to the reporter exactly once |
| `Tracing.Tracer.HandOver` | src/tracer.js:81 | whichever reporter the tracer holds, it is offered the span once and its invariant is kept |
| `Tracing.Tracer.CreateSpan` | src/tracer.js:57-77 | a fresh span holding the given context, started now, that logs `CLIENT_SEND` or `SERVER_RECV` at its start time when sampled |
| `Tracing.Tracer.StartSpan` | src/tracer.js:84-114 | The sampler is always asked. A child of `childOf` gets `ChildIdentity` and is a client span. Otherwise the span gets `RootIdentity` from the sampler's decision. No baggage is carried over |

## Left out

- Randomness (`getRandom64`, xorshift) and the clock (`getTimestamp`) are not modelled: each is a parameter (`randomId`, `now`) of the operations that use it.
- The local address (`my-local-ip`) and the package version (`package.json`) are constructor parameters of the tracer.
- The tracer's `logger` is not modelled, because the core never uses it.
- The tracer's `inject`, `extract`, `close` and `flush` have empty bodies and are not modelled.
- Which sampler is used, and how it decides, is not modelled. A sampler is an object whose `isSampled()` returns a stored decision and counts how often it was asked.
- The leaky-bucket `RateLimiter` is likewise an object that returns a stored answer to `checkCredit`. Its timing and `maxSpansPerSecond` are not modelled.
- The collector proxy is modelled by the ghost sequence of the batches it is handed. The proxy itself (TChannel, thrift conversion) is not part of this model, nor is whether it later calls a callback.
- `NoopReporter` and `NoopSampler` in `src/reporters/noop_reporter.js` and `src/samplers/noop_sampler.js` are not part of this model. The Noop reporter of `src/reporters/reporter.js` stands in for the former, and a sampler that never samples stands in for the latter.
- The rate-limiting reporter's delegate is modelled as a TCollector reporter only, rather than any reporter.
- The names of the state header and of the baggage prefix (`TRACER_STATE_HEADER_NAME`, `TRACER_BAGGAGE_HEADER_PREFIX`) are codec parameters. `src/constants.js` does not define them.
- Text.ParseInt: signs, leading blanks and the `0x` prefix that JavaScript's `parseInt` accepts are not modelled. Only text starting with digits of the radix, or not, is.
- Util.EncodeInt64: node-int64's reading of text is modelled only for 1 to 16 hexadecimal digits (and `"-1"`); any other text gives no buffer here. node-int64 never throws on text: non-hex text parses to NaN and gives zero bytes, and text longer than 16 digits keeps a parsed high part. So for such an id `fromString` and `extract` build a context in the source, where `SpanContexts.ParseContext` gives `UnreadableField` and `HttpHeaderCodecs.HttpHeaderCodec.Extract` gives `Failed(UnreadableHeader)`.
- SpanContexts.ParseContext: a flags field `parseInt` cannot read (NaN), or an id field node-int64 reads without throwing but the model does not (see Util.EncodeInt64), gives `UnreadableField`, and `HttpHeaderCodecs.HttpHeaderCodec.Extract` then gives `Failed(UnreadableHeader)`. The source builds a context instead, with NaN flags or with the ids node-int64 computes.
- HttpHeaderCodecs.DecodeURIComponent: only escapes of ASCII characters are modelled. An escape of a byte at or above 0x80 is treated as malformed, and UTF-8 sequences are not decoded. Likewise `encodeURIComponent` and `toLowerCase` are modelled on ASCII only.
- Plain objects are modelled as insertion-ordered lists. JavaScript lists integer-like keys first in `for ... in` order, and that ordering is not modelled.
- Util.CreateIntegerTagAsWritten: `new Buffer(number, 'binary')` is modelled for two runtimes, chosen by `legacyBuffer`: Node 6 and later, where it throws, and earlier Node, where it allocates max(n, 0) bytes of unspecified content. The content of that allocation is not modelled.
- Tracing.TagFor: only integers within ±(2^53 - 1), booleans and strings are modelled as tag values. Non-integral numbers and objects are not: `createStringTag` hands them to `new Buffer(value, 'binary')`, which allocates a buffer or throws for a number, and copies or throws for an object.
- Tracing.Span.Log: the in-place write of the default timestamp into the caller's `fields` object is not modelled. The payload is given as its `JSON.stringify` text.
- Tracing.Tracer.constructor: the tracer tags are copied with `jaegerClient` added, so the write into the caller's `tracerTags` object is not modelled.
- SpanContexts.SpanContext.constructor: the flags are a constant of the context. Assigning `_flags` afterwards is not modelled.
- Tracing.Span.Finish: the assertion failure of a second `finish` is modelled as the result `false` with no change.
- Tracing.Tracer.HandOver: `_report` passes no callback, so the reporter's callback results are ignored.
- Reporters.TCollectorTraceReporter.Report: a callback given to a `report` that does not flush is dropped. The model records this as written.
- Span fields `_port` and `_setPeer` carry no behaviour and are not modelled.
- SpanContexts.SetThenGet: keys inherited from `Object.prototype` are not modelled. `key in this._baggageHeaderCache` also holds for `constructor`, `toString` and the like, so the source normalises such a key to the inherited function's text and does not find the stored value. The model treats them as ordinary keys.
- SpanContexts.SpanContext.GetBaggageItem: for the same reason, it may differ from the source for a key named like an `Object.prototype` property. Assigning `__proto__`, which the source ignores, is also not modelled.
- SpanContexts.Memoize: a key named like an inherited property is treated by the model as absent from the cache; the source treats it as already cached.
- SpanContexts.ParseContext: `parseInt` returns a double, so a flags field above 2^53 loses precision in the source before `&` or `toString(16)`. The model computes it exactly.
- Util.IpToInt: an address part above 2^53 is likewise rounded by `parseInt` in the source, and the model computes it exactly.
- Util.WriteUInt32LE: its range check is that of Node's Buffer without `noAssert`, which is not part of this model.

## Findings

| source | as written | input that shows it | evidently intended | confidence | as-written member | corrected member |
|---|---|---|---|---|---|---|
| src/util.js:42-50 | `"-1"` is encoded by `writeUInt32LE(-1 << 32, 0)` into a fresh `new Buffer(8)`. In JavaScript `-1 << 32` is -1, since shift counts are taken modulo 32, and the range-checked `writeUInt32LE` rejects -1 | `encodeInt64("-1")` throws, assuming Node's range check, and in no case yields all ones | the 8-byte encoding of -1 (all ones), which the comment states as the purpose of the branch | not executed | `Util.EncodeMinusOneAsWritten` (`Util.MinusOneAsWrittenIsNotMinusOne`) | `Util.EncodeInt64` (`Util.MinusOneText`) |
| src/util.js:94-116 | `createIntegerTag` computes `buf` and then passes `value` to `createBinaryAnnotation`, whose `new Buffer(value, 'binary')` refuses a number with an encoding on Node 6 and later, and allocates max(value, 0) bytes before | `createIntegerTag("k", 5)` throws on Node 6 and later, and gives an uninitialised 5-byte buffer before, never 00 05 | the tag holds `buf`, the value in two's complement at the type's width | not executed | `Util.CreateIntegerTagAsWritten` (`Util.IntegerTagAsWrittenLosesValue`) | `Util.CreateIntegerTag` (used by `Tracing.TagFor`, `Tracing.TagsFor`, `Tracing.Span.AddTags`) |
| src/propagators/http_header_codec.js:69 | `inject` iterates `spanContext.baggage`, but `SpanContext` (src/span_context.js:47-61) defines no `baggage` getter, so the loop sees no keys | a context with baggage item `keyone` = `leela` is injected with only the state header; `extract` then yields no baggage | every baggage item is written under the prefix and its key, so that `extract` reads it back | not executed | `HttpHeaderCodecs.InjectedEntriesAsWritten` (`HttpHeaderCodecs.InjectAsWrittenLosesBaggage`) | `HttpHeaderCodecs.HttpHeaderCodec.Inject` (`HttpHeaderCodecs.InjectExtractRoundTrip`) |
