/** `Jaeger::Client::TracerB3`: the older B3 variant, built into a tracer.
    It picks the key names from the OpenTracing format, writes unpadded hex,
    always puts the flags in the sampled header and never reads or writes
    the debug header. */
module TracerB3 {
  import opened Wrappers
  import opened HexId
  import opened Propagation

  /** The OpenTracing carrier formats a tracer can be asked for, and the
      client's own `FORMAT_B3`; only the text-map and Rack formats are
      supported by this tracer. */
  datatype Format = Binary | TextMap | Rack | ZipkinB3

  /** The key names a format selects, or `None` for an unsupported format. */
  function FormatKeys(format: Format): (keys: Option<Keyset>)
    ensures keys.Some? <==> format == TextMap || format == Rack
    ensures keys.Some? ==> keys.value.Distinct()
  {
    KeysetsDistinct();
    match format
    case TextMap => Some(TextMapKeys)
    case Rack => Some(RackKeys)
    case _ => None
  }

  /** The four keys injection assigns; the debug header is never one. */
  function WrittenKeys(keys: Keyset): (written: set<string>)
    requires keys.Distinct()
    ensures |written| == 4
    ensures keys.flags !in written && keys.sampled in written
    ensures written <= keys.Names()
  {
    {keys.traceId, keys.spanId, keys.parentSpanId, keys.sampled}
  }

  /** The carrier's entries after injecting under `keys`: each ID and the
      flags as unpadded lowercase hex (a DEBUG context included), every
      other entry unchanged and nothing removed. */
  function InjectedUnder(keys: Keyset, ctx: SpanContext, m: map<string, string>): (r: map<string, string>)
    requires keys.Distinct() && ctx.Injectable()
    ensures forall k :: k !in WrittenKeys(keys) ==> Lookup(r, k) == Lookup(m, k)
    ensures Lookup(r, keys.traceId) == Some(ToHex(ctx.traceId))
    ensures Lookup(r, keys.spanId) == Some(ToHex(ctx.spanId))
    ensures Lookup(r, keys.parentSpanId) == Some(ToHex(ctx.parentId.value))
    ensures Lookup(r, keys.sampled) == Some(ToHex(ctx.flags.value))
  {
    m[keys.traceId := ToHex(ctx.traceId)]
     [keys.spanId := ToHex(ctx.spanId)]
     [keys.parentSpanId := ToHex(ctx.parentId.value)]
     [keys.sampled := ToHex(ctx.flags.value)]
  }

  /** The carrier's entries after `Inject(ctx, format, carrier)`, given its
      entries before: an unsupported format changes nothing and never looks
      at the context, so any context may be given with it. */
  function InjectedEntries(ctx: SpanContext, format: Format, m: map<string, string>): (r: map<string, string>)
    requires FormatKeys(format).Some? ==> ctx.Injectable()
    ensures FormatKeys(format).None? ==> r == m
    ensures FormatKeys(format).Some? ==> r == InjectedUnder(FormatKeys(format).value, ctx, m)
  {
    match FormatKeys(format)
    case None => m
    case Some(keys) => InjectedUnder(keys, ctx, m)
  }

  /** `TracerB3#inject`: dispatches on the format and assigns the four
      entries into the carrier; for any other format it only warns. */
  method Inject(ctx: SpanContext, format: Format, carrier: Carrier)
    requires FormatKeys(format).Some? ==> ctx.Injectable()
    modifies carrier
    ensures carrier.entries == InjectedEntries(ctx, format, old(carrier.entries))
  {
    match format
    case TextMap =>
      carrier.Put("x-b3-traceid", ToHex(ctx.traceId));
      carrier.Put("x-b3-spanid", ToHex(ctx.spanId));
      carrier.Put("x-b3-parentspanid", ToHex(ctx.parentId.value));
      carrier.Put("x-b3-sampled", ToHex(ctx.flags.value));
    case Rack =>
      carrier.Put("HTTP_X_B3_TRACEID", ToHex(ctx.traceId));
      carrier.Put("HTTP_X_B3_SPANID", ToHex(ctx.spanId));
      carrier.Put("HTTP_X_B3_PARENTSPANID", ToHex(ctx.parentId.value));
      carrier.Put("HTTP_X_B3_SAMPLED", ToHex(ctx.flags.value));
    case _ =>
  }

  /** The parsing both supported formats share: a context exactly when both
      the trace-ID and the span-ID header decode to nonzero IDs, with the
      parent ID and the flags exactly as decoded (either may be absent);
      the flags come from the sampled header alone. */
  function ParseContext(decode: Option<string> -> Option<nat>, keys: Keyset, m: map<string, string>): (r: Option<SpanContext>)
    ensures r.Some? <==> IsValidId(decode(Lookup(m, keys.traceId))) && IsValidId(decode(Lookup(m, keys.spanId)))
    ensures r.Some? ==> r.value == SpanContext(decode(Lookup(m, keys.traceId)).value, decode(Lookup(m, keys.spanId)).value,
                                               decode(Lookup(m, keys.parentSpanId)), decode(Lookup(m, keys.sampled)))
  {
    var traceId := decode(Lookup(m, keys.traceId));
    var spanId := decode(Lookup(m, keys.spanId));
    var parentId := decode(Lookup(m, keys.parentSpanId));
    var flags := decode(Lookup(m, keys.sampled));
    if spanId.None? || traceId.None? then None
    else if spanId.value == 0 || traceId.value == 0 then None
    else Some(SpanContext(traceId.value, spanId.value, parentId, flags))
  }

  /** `TracerB3#parse_context_text_map`: `ParseContext` over the x-b3-* keys. */
  function ParseContextTextMap(decode: Option<string> -> Option<nat>, m: map<string, string>): (r: Option<SpanContext>)
    ensures var k := TextMapKeys;
      r.Some? <==> IsValidId(decode(Lookup(m, k.traceId))) && IsValidId(decode(Lookup(m, k.spanId)))
    ensures var k := TextMapKeys;
      r.Some? ==> r.value == SpanContext(decode(Lookup(m, k.traceId)).value, decode(Lookup(m, k.spanId)).value,
                                          decode(Lookup(m, k.parentSpanId)), decode(Lookup(m, k.sampled)))
  {
    ParseContext(decode, TextMapKeys, m)
  }

  /** `TracerB3#parse_context_rack`: the same parsing over the HTTP_X_B3_*
      keys, that is, `parse_context_text_map` of the carrier with those keys
      renamed to their x-b3-* counterparts. */
  function ParseContextRack(decode: Option<string> -> Option<nat>, m: map<string, string>): (r: Option<SpanContext>)
    ensures r == ParseContextTextMap(decode, RackAsTextMap(m))
  {
    ParseContext(decode, RackKeys, m)
  }

  /** `TracerB3#extract`: dispatches on the format; an unsupported format
      yields no context. */
  function Extract(decode: Option<string> -> Option<nat>, format: Format, m: map<string, string>): (r: Option<SpanContext>)
    ensures format == TextMap ==> r == ParseContextTextMap(decode, m)
    ensures format == Rack ==> r == ParseContextRack(decode, m)
    ensures FormatKeys(format).None? ==> r == None
  {
    match format
    case TextMap => ParseContextTextMap(decode, m)
    case Rack => ParseContextRack(decode, m)
    case _ => None
  }

  /** The flags come from the sampled header only: whatever the debug header
      holds, or whether it is there at all, parsing gives the same result. */
  lemma DebugHeaderIgnored(decode: Option<string> -> Option<nat>, keys: Keyset, m: map<string, string>, value: string)
    requires keys.Distinct()
    ensures ParseContext(decode, keys, m[keys.flags := value]) == ParseContext(decode, keys, m)
    ensures ParseContext(decode, keys, m - {keys.flags}) == ParseContext(decode, keys, m)
  {
    var set1 := m[keys.flags := value];
    var removed := m - {keys.flags};
    assert Lookup(set1, keys.traceId) == Lookup(m, keys.traceId) == Lookup(removed, keys.traceId);
    assert Lookup(set1, keys.spanId) == Lookup(m, keys.spanId) == Lookup(removed, keys.spanId);
    assert Lookup(set1, keys.parentSpanId) == Lookup(m, keys.parentSpanId) == Lookup(removed, keys.parentSpanId);
    assert Lookup(set1, keys.sampled) == Lookup(m, keys.sampled) == Lookup(removed, keys.sampled);
  }

  /** Round trip under any distinct keyset: parsing what was injected gives
      the context back, whatever the carrier held before. */
  lemma {:induction false} ParseContextInvertsInjected(decode: Option<string> -> Option<nat>, keys: Keyset, ctx: SpanContext, m: map<string, string>)
    requires DecoderContract(decode) && keys.Distinct()
    requires ctx.Injectable() && ctx.Fits64() && ctx.traceId != 0 && ctx.spanId != 0
    ensures ParseContext(decode, keys, InjectedUnder(keys, ctx, m)) == Some(ctx)
  {
    DecodesRenderings(decode, ctx.traceId);
    DecodesRenderings(decode, ctx.spanId);
    DecodesRenderings(decode, ctx.parentId.value);
    DecodesRenderings(decode, ctx.flags.value);
  }

  /** The round trip for `TracerB3` as written: for the text-map and Rack
      formats, `extract` after `inject` gives the context back, DEBUG
      included, into an empty carrier or any other. */
  lemma ExtractInvertsInject(decode: Option<string> -> Option<nat>, format: Format, ctx: SpanContext, m: map<string, string>)
    requires DecoderContract(decode)
    requires format == TextMap || format == Rack
    requires ctx.Injectable() && ctx.Fits64() && ctx.traceId != 0 && ctx.spanId != 0
    ensures Extract(decode, format, InjectedEntries(ctx, format, m)) == Some(ctx)
  {
    var keys := FormatKeys(format).value;
    ParseContextInvertsInjected(decode, keys, ctx, m);
    var r := InjectedEntries(ctx, format, m);
    if format == Rack {
      assert Extract(decode, format, r) == ParseContext(decode, RackKeys, r);
    }
  }

  /** An unsupported format only warns: the carrier keeps its entries even
      for a context without a parent ID or flags, on which a supported
      format would raise. */
  lemma UnsupportedFormatIgnoresContext(format: Format, m: map<string, string>)
    requires FormatKeys(format).None?
    ensures InjectedEntries(SpanContext(1, 1, None, None), format, m) == m
  {
  }

  /** A worked text-map injection: trace 255, span 16, parent 0, flags 1. */
  lemma TextMapExample()
    ensures var r := InjectedEntries(SpanContext(255, 16, Some(0), Some(1)), TextMap, map[]);
      && Lookup(r, "x-b3-traceid") == Some("ff") && Lookup(r, "x-b3-spanid") == Some("10")
      && Lookup(r, "x-b3-parentspanid") == Some("0") && Lookup(r, "x-b3-sampled") == Some("1")
  {
    assert ToHex(255) == "ff" && ToHex(16) == "10";
  }
}
