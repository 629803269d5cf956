# B3 trace-context propagation, modelled in Dafny

This project models the B3 propagation codec of the Jaeger Ruby client. B3 is
Zipkin's "multiple headers" encoding: a trace context travels as separate
TraceId, SpanId, ParentSpanId, Sampled and debug-Flags headers. The client
carries 64-bit IDs only. Two variants exist side by side, and both are modelled
as written:

- `B3Codec` (`b3_codec.dfy`). Injection writes the three IDs as lowercase hex
  left-padded with '0' to 16 characters. It then writes either `x-b3-flags = "1"`
  for a DEBUG context or the unpadded hex of the flags in `x-b3-sampled`, never
  both. Extraction reads the text-map names (`x-b3-*`) or the Rack names
  (`HTTP_X_B3_*`). A debug header of exactly "1" means DEBUG.
- `TracerB3` (`tracer_b3.dfy`). It picks the key names from the carrier format
  (text map or Rack). It writes unpadded hex and always puts the flags in the
  sampled header. It never reads the debug header.

Files:

- `wrappers.dfy`: the `Option` type. It stands for Ruby's `nil`.
- `hex_id.dfy`: `Integer#to_s(16)` (`ToHex`) and `rjust(16, '0')` (`PadLeft`,
  `PaddedHex`). It also holds the contract assumed of the ID decoder.
- `propagation.dfy`: what both variants share.
  - The span context, with an optional parent ID and optional flags.
  - The carrier: a class whose `entries` map injection updates in place.
  - The two key conventions. Rack keys are CGI meta-variable names, as in
    section 4.1.18 of RFC 3875.
- `b3_codec.dfy`, `tracer_b3.dfy`: the two variants.
- `variants.dfy`: how the two variants read each other's carriers.

The ID decoder `TraceId.base16_hex_id_to_uint64` is not part of this model.
Every extraction function therefore takes it as a parameter,
`decode: Option<string> -> Option<nat>`. Its argument is the carrier lookup, so
a missing header arrives as `None`. The round-trip lemmas assume
`HexId.DecoderContract` of it, and nothing more:

- a missing header decodes to `None`;
- every lowercase hex string of 1 to 16 digits, padded or not, decodes to the
  number it denotes.

`HexId.DecoderContractSatisfiable` shows that this contract can be met.

Injection is a method on the carrier object. Each injection method is proved
equal to a specification function of the old entries (`InjectedEntries`), and
the properties are proved about that function. Extraction only reads the
carrier, so it is a function of the entries map.

The code passes an undecodable or missing parent ID and flags through as `nil`.
It does not default them to 0, and neither does the model: both context fields
are `Option<nat>`. Only a missing, undecodable or zero trace ID or span ID makes
extraction return nothing.

`B3Codec` keeps the debug header and the sampled header exclusive within one
injection only. It never removes a header, so a debug header left by an earlier
injection survives a later non-DEBUG one (`B3Codec.StaleDebugHeaderWins`), and
a sampled header left by an earlier injection survives a later DEBUG one
(`B3Codec.StaleSampledHeaderKept`). Either way the carrier then holds both
headers, and `B3Codec` extraction reports DEBUG. This only matters for a
carrier reused across injections.

## Model

| member | source | states |
|---|---|---|
| `HexId.ToHex` | lib/jaeger/client/tracer_b3.rb:14-17 | `to_s(16)` gives at least one lowercase hex digit, with no leading zero unless the whole string is "0", and the string denotes exactly the input |
| `HexId.ToHexOfCanonical` | lib/jaeger/client/tracer_b3.rb:14-17 | partner of `ToHex`: every canonical lowercase hex string is what `ToHex` gives for the value it denotes |
| `HexId.ToHexFits64` | lib/jaeger/client/propagation_codec/b3_codec.rb:15-17 | a value below 2^64 has at most 16 hex digits |
| `HexId.PadLeft` | lib/jaeger/client/propagation_codec/b3_codec.rb:15-17 | `rjust(width, '0')`: the result ends with the input, everything before it is '0', and its length is the larger of `width` and the input length |
| `HexId.PaddedHex` | lib/jaeger/client/propagation_codec/b3_codec.rb:15-17 | the padded ID is lowercase hex denoting the ID, at least 16 characters long and exactly 16 below 2^64 |
| `HexId.PaddedZero` | lib/jaeger/client/propagation_codec/b3_codec.rb:15-17 | the ID 0 is written as "0000000000000000" |
| `HexId.DecodesRenderings` | lib/jaeger/client/propagation_codec/b3_codec.rb:32-34 | under the decoder contract, both the padded and the unpadded hex of any value below 2^64 decode back to that value |
| `HexId.DecoderContract` | lib/jaeger/client/propagation_codec/b3_codec.rb:32-35 | the behaviour assumed of `TraceId.base16_hex_id_to_uint64`, also called at b3_codec.rb:53-56 and 76 and tracer_b3.rb:41-44 and 58-61: a missing header decodes to nothing, and a lowercase hex string of 1 to 16 digits decodes to the number it denotes |
| `HexId.DecoderContractSatisfiable` | lib/jaeger/client/propagation_codec/b3_codec.rb:32-34 | some decoder meets the assumed contract, so the lemmas that assume it are not vacuous |
| `Propagation.Lookup` | lib/jaeger/client/propagation_codec/b3_codec.rb:32 | `carrier[key]` is present exactly when the key is in the carrier, and is then its value |
| `Propagation.Carrier.Put` | lib/jaeger/client/propagation_codec/b3_codec.rb:15-23 | `carrier[key] = value`, as also at tracer_b3.rb:14-22: the key now maps to the value and every other entry is unchanged |
| `Propagation.KeysetsDistinct` | lib/jaeger/client/tracer_b3.rb:14-22 | the five keys of each convention are pairwise different, and `HTTP_X_B3_TRACEID` is not a text-map key |
| `Propagation.RackAsTextMap` | lib/jaeger/client/propagation_codec/b3_codec.rb:53-56 | renaming each `HTTP_X_B3_*` entry to its `x-b3-*` counterpart keeps all five header values and adds no other key |
| `B3Codec.WrittenKeys` | lib/jaeger/client/propagation_codec/b3_codec.rb:15-24 | injection assigns exactly four keys; the debug header is among them exactly for a DEBUG context and the sampled header exactly otherwise |
| `B3Codec.InjectedEntries` | lib/jaeger/client/propagation_codec/b3_codec.rb:12-25 | the three IDs become 16-digit padded hex; a DEBUG context gets debug header "1", any other the unpadded hex of its flags in the sampled header; every other entry keeps its value and none is removed |
| `B3Codec.Inject` | lib/jaeger/client/propagation_codec/b3_codec.rb:12-25 | the carrier's new entries are `InjectedEntries` of its old entries, under the text-map names whatever the carrier |
| `B3Codec.ParseFlags` | lib/jaeger/client/propagation_codec/b3_codec.rb:72-77 | a debug header of exactly "1" yields DEBUG whatever the sampled header holds; otherwise the decoded sampled header, possibly absent |
| `B3Codec.Extract` | lib/jaeger/client/propagation_codec/b3_codec.rb:31-67 | a context exactly when both trace and span IDs decode to nonzero values; it then holds those IDs, the parent ID as decoded (absent or zero included) and the flags from `ParseFlags` |
| `B3Codec.ExtractTextMap` | lib/jaeger/client/propagation_codec/b3_codec.rb:31-46 | the same statement over the `x-b3-*` keys |
| `B3Codec.ExtractRack` | lib/jaeger/client/propagation_codec/b3_codec.rb:52-67 | equals `ExtractTextMap` of the carrier with the `HTTP_X_B3_*` keys renamed |
| `B3Codec.ExtractSameHeaders` | lib/jaeger/client/propagation_codec/b3_codec.rb:31-67 | extraction depends only on the five header values, not on the key names that hold them |
| `B3Codec.ExtractInvertsInjected` | lib/jaeger/client/propagation_codec/b3_codec.rb:15-45 | under any distinct keyset, extraction after injection returns the context, DEBUG included, for nonzero 64-bit IDs and a carrier without a prior debug header "1" |
| `B3Codec.ExtractTextMapInvertsInject` | lib/jaeger/client/propagation_codec/b3_codec.rb:12-46 | `extract_text_map(inject(ctx))` returns the context, under the same conditions |
| `B3Codec.StaleDebugHeaderWins` | lib/jaeger/client/propagation_codec/b3_codec.rb:19-24 | the exclusion holds per call only: a debug header "1" left from an earlier injection survives a non-DEBUG injection, both headers are then present, and extraction reports DEBUG |
| `B3Codec.StaleSampledHeaderKept` | lib/jaeger/client/propagation_codec/b3_codec.rb:19-24 | a sampled header left from an earlier injection survives a DEBUG injection, so both headers are present; extraction still returns the DEBUG context |
| `B3Codec.ExtractMissesOtherKeyset` | lib/jaeger/client/propagation_codec/b3_codec.rb:15-17 | injection does not create another keyset's trace-ID key, so extraction under that keyset finds nothing |
| `B3Codec.ExtractRackMissesInjected` | lib/jaeger/client/propagation_codec/b3_codec.rb:11-25 | `extract_rack` does not read back what `inject` wrote into a carrier that had no `HTTP_X_B3_TRACEID` |
| `B3Codec.ZeroTraceIdExample` | lib/jaeger/client/propagation_codec/b3_codec.rb:37-38 | a carrier with trace ID "0" and span ID "5" yields no context |
| `TracerB3.FormatKeys` | lib/jaeger/client/tracer_b3.rb:12-25 | only the text-map and Rack formats select key names, and those are distinct |
| `TracerB3.WrittenKeys` | lib/jaeger/client/tracer_b3.rb:14-22 | injection assigns exactly four keys: the sampled header is one, the debug header never |
| `TracerB3.InjectedUnder` | lib/jaeger/client/tracer_b3.rb:13-22 | the IDs and the flags become unpadded lowercase hex under the format's keys, the flags in the sampled header even for DEBUG; every other entry keeps its value and none is removed |
| `TracerB3.InjectedEntries` | lib/jaeger/client/tracer_b3.rb:11-26 | an unsupported format leaves the entries unchanged, for any context; a supported one applies `InjectedUnder` with its keys |
| `TracerB3.Inject` | lib/jaeger/client/tracer_b3.rb:11-26 | the carrier's new entries are `InjectedEntries` of its old entries for the given format; an unsupported format accepts any context |
| `TracerB3.UnsupportedFormatIgnoresContext` | lib/jaeger/client/tracer_b3.rb:23-24 | an unsupported format leaves the carrier unchanged even for a context with no parent ID and no flags |
| `TracerB3.ParseContext` | lib/jaeger/client/tracer_b3.rb:40-72 | a context exactly when both trace and span IDs decode to nonzero values; the parent ID and the flags are the raw decode results, possibly absent, and the flags come from the sampled header |
| `TracerB3.ParseContextTextMap` | lib/jaeger/client/tracer_b3.rb:40-55 | the same statement over the `x-b3-*` keys |
| `TracerB3.ParseContextRack` | lib/jaeger/client/tracer_b3.rb:57-72 | equals `ParseContextTextMap` of the carrier with the `HTTP_X_B3_*` keys renamed |
| `TracerB3.Extract` | lib/jaeger/client/tracer_b3.rb:28-38 | text map and Rack go to their parsers; any other format yields no context |
| `TracerB3.DebugHeaderIgnored` | lib/jaeger/client/tracer_b3.rb:41-44 | setting or removing the debug header never changes the parsed context |
| `TracerB3.ParseContextInvertsInjected` | lib/jaeger/client/tracer_b3.rb:13-54 | under any distinct keyset, parsing after injection returns the context, DEBUG included, whatever the carrier held before |
| `TracerB3.ExtractInvertsInject` | lib/jaeger/client/tracer_b3.rb:11-72 | for the text-map and Rack formats, `extract(F, inject(ctx, F, c))` returns the context for nonzero 64-bit IDs and any carrier `c` |
| `TracerB3.TextMapExample` | lib/jaeger/client/tracer_b3.rb:13-17 | trace 255, span 16, parent 0, flags 1 inject as "ff", "10", "0", "1" |
| `Variants.ExtractionsAgreeBesideDebugHeader` | lib/jaeger/client/propagation_codec/b3_codec.rb:72-77 | the two variants extract the same context unless the debug header is "1", where `B3Codec` reports DEBUG instead of the sampled value |
| `Variants.B3CodecReadsTracerB3` | lib/jaeger/client/propagation_codec/b3_codec.rb:31-46 | `B3Codec` extraction returns the context from a carrier `TracerB3` wrote, provided the carrier did not already hold a debug header of "1" |
| `Variants.TracerB3DropsB3CodecDebug` | lib/jaeger/client/tracer_b3.rb:40-55 | `TracerB3` reads a DEBUG context written by `B3Codec` into a carrier without a sampled header as having no flags |

## Left out

- The `warn` calls for an unsupported format (lib/jaeger/client/tracer_b3.rb:24 and 35) are standard-error logging. Injection then leaves the carrier unchanged, and extraction returns `None`.
- The `Jaeger::Client::Tracer` superclass and the span and tracer lifecycle are not part of this model.
- The body of `TraceId.base16_hex_id_to_uint64` is not part of this model. It is a parameter, and the model assumes only `HexId.DecoderContract`. Nothing is claimed about malformed input or inputs longer than 16 digits.
- `SpanContext::Flags::DEBUG` is not part of this model. It is the named constant `Propagation.DEBUG` (2, the Jaeger client's value), and no proof depends on its value.
- The OpenTracing format constants and `FORMAT_B3 = 83` are identifiers only. They are the enum `TracerB3.Format`.
- `B3Codec.InjectedEntries`, `B3Codec.Inject`, `TracerB3.InjectedEntries`, `TracerB3.Inject`: a context whose parent ID or flags is `nil` makes Ruby raise inside `to_s(16)`, part-way through the assignments, in `B3Codec#inject` and in the text-map and Rack branches of `TracerB3#inject`. For those, the model requires both to be present (`SpanContext.Injectable`) and does not model the exception or the partial writes. An unsupported `TracerB3` format reads no field and accepts any context.
- IDs are non-negative integers (`nat`). Ruby's `to_s(16)` of a negative Integer ("-ff") is not modelled.
- IDs of 2^64 or more are rendered like any other integer, and are then longer than 16 characters. The round trips are stated for 64-bit values only, and 128-bit trace IDs are not handled by this code.
- A carrier is a map from strings to strings. Ruby hashes holding `nil` values or non-string keys are not modelled.
- There is no switch between the two variants, because the code has none. Both are modelled as written.
