/** `Jaeger::Client::PropagationCodec::B3Codec`: B3 "multiple headers"
    propagation with 16-digit zero-padded IDs, where the debug header and
    the sampled header exclude each other.

    Injection always writes the text-map key names; extraction reads either
    the text-map names or the Rack names. The ID decoder is the parameter
    `decode` (see `HexId.DecoderContract`). */
module B3Codec {
  import opened Wrappers
  import opened HexId
  import opened Propagation

  /** The four keys `Inject` assigns: the three IDs, and the debug header
      for a DEBUG context or the sampled header otherwise, never both. */
  function WrittenKeys(keys: Keyset, ctx: SpanContext): (written: set<string>)
    requires keys.Distinct()
    ensures |written| == 4
    ensures keys.flags in written <==> ctx.IsDebug()
    ensures keys.sampled in written <==> !ctx.IsDebug()
    ensures written <= keys.Names()
  {
    {keys.traceId, keys.spanId, keys.parentSpanId} + if ctx.IsDebug() then {keys.flags} else {keys.sampled}
  }

  /** The carrier's entries after the context is injected under `keys`,
      given its entries before: the three IDs as 16-digit lowercase hex, then
      "1" in the debug header for a DEBUG context and the unpadded hex of the
      flags in the sampled header otherwise. Every other entry keeps its
      value, and nothing is removed. */
  function InjectedEntries(keys: Keyset, ctx: SpanContext, m: map<string, string>): (r: map<string, string>)
    requires keys.Distinct() && ctx.Injectable()
    ensures forall k :: k !in WrittenKeys(keys, ctx) ==> Lookup(r, k) == Lookup(m, k)
    ensures Lookup(r, keys.traceId) == Some(PaddedHex(ctx.traceId))
    ensures Lookup(r, keys.spanId) == Some(PaddedHex(ctx.spanId))
    ensures Lookup(r, keys.parentSpanId) == Some(PaddedHex(ctx.parentId.value))
    ensures ctx.IsDebug() ==> Lookup(r, keys.flags) == Some("1")
    ensures !ctx.IsDebug() ==> Lookup(r, keys.sampled) == Some(ToHex(ctx.flags.value))
  {
    var ids := m[keys.traceId := PaddedHex(ctx.traceId)]
                [keys.spanId := PaddedHex(ctx.spanId)]
                [keys.parentSpanId := PaddedHex(ctx.parentId.value)];
    if ctx.IsDebug() then ids[keys.flags := "1"] else ids[keys.sampled := ToHex(ctx.flags.value)]
  }

  /** `B3Codec#inject`: writes the context into the carrier, key by key.
      It always uses the text-map key names, whatever kind of carrier it is
      given. */
  method Inject(ctx: SpanContext, carrier: Carrier)
    requires ctx.Injectable()
    modifies carrier
    ensures TextMapKeys.Distinct()
    ensures carrier.entries == InjectedEntries(TextMapKeys, ctx, old(carrier.entries))
  {
    KeysetsDistinct();
    var k := TextMapKeys;
    carrier.Put(k.traceId, PaddedHex(ctx.traceId));
    carrier.Put(k.spanId, PaddedHex(ctx.spanId));
    carrier.Put(k.parentSpanId, PaddedHex(ctx.parentId.value));
    if ctx.flags == Some(DEBUG) {
      carrier.Put(k.flags, "1");
    } else {
      carrier.Put(k.sampled, ToHex(ctx.flags.value));
    }
  }

  /** The private `parse_flags`: a debug header of exactly "1" means DEBUG,
      whatever the sampled header holds; otherwise the flags are the decoded
      sampled header, which may be absent. */
  function ParseFlags(decode: Option<string> -> Option<nat>, flagsHeader: Option<string>, sampledHeader: Option<string>): (flags: Option<nat>)
    ensures flagsHeader == Some("1") ==> flags == Some(DEBUG)
    ensures flagsHeader != Some("1") ==> flags == decode(sampledHeader)
  {
    if flagsHeader == Some("1") then Some(DEBUG) else decode(sampledHeader)
  }

  /** The extraction shared by both key conventions: a context exactly when
      both the trace-ID and the span-ID header decode to nonzero IDs; the
      parent ID is passed through as decoded (absent or zero included) and
      the flags come from `ParseFlags`. */
  function Extract(decode: Option<string> -> Option<nat>, keys: Keyset, m: map<string, string>): (r: Option<SpanContext>)
    ensures r.Some? <==> IsValidId(decode(Lookup(m, keys.traceId))) && IsValidId(decode(Lookup(m, keys.spanId)))
    ensures r.Some? ==> r.value == SpanContext(decode(Lookup(m, keys.traceId)).value, decode(Lookup(m, keys.spanId)).value,
                                               decode(Lookup(m, keys.parentSpanId)),
                                               ParseFlags(decode, Lookup(m, keys.flags), Lookup(m, keys.sampled)))
  {
    var traceId := decode(Lookup(m, keys.traceId));
    var spanId := decode(Lookup(m, keys.spanId));
    var parentId := decode(Lookup(m, keys.parentSpanId));
    var flags := ParseFlags(decode, Lookup(m, keys.flags), Lookup(m, keys.sampled));
    if spanId.None? || traceId.None? then None
    else if spanId.value == 0 || traceId.value == 0 then None
    else Some(SpanContext(traceId.value, spanId.value, parentId, flags))
  }

  /** `B3Codec#extract_text_map`: `Extract` over the x-b3-* keys. */
  function ExtractTextMap(decode: Option<string> -> Option<nat>, m: map<string, string>): (r: Option<SpanContext>)
    ensures var k := TextMapKeys;
      r.Some? <==> IsValidId(decode(Lookup(m, k.traceId))) && IsValidId(decode(Lookup(m, k.spanId)))
    ensures var k := TextMapKeys;
      r.Some? ==> r.value == SpanContext(decode(Lookup(m, k.traceId)).value, decode(Lookup(m, k.spanId)).value,
                                          decode(Lookup(m, k.parentSpanId)),
                                          ParseFlags(decode, Lookup(m, k.flags), Lookup(m, k.sampled)))
  {
    Extract(decode, TextMapKeys, m)
  }

  /** `B3Codec#extract_rack`: the same validation and flag logic over the
      HTTP_X_B3_* keys, that is, `extract_text_map` of the carrier with
      those keys renamed to their x-b3-* counterparts. */
  function ExtractRack(decode: Option<string> -> Option<nat>, m: map<string, string>): (r: Option<SpanContext>)
    ensures r == ExtractTextMap(decode, RackAsTextMap(m))
  {
    ExtractSameHeaders(decode, RackKeys, m, TextMapKeys, RackAsTextMap(m));
    Extract(decode, RackKeys, m)
  }

  /** Extraction depends on the five header values only, not on where in
      the carrier they are kept. */
  lemma ExtractSameHeaders(decode: Option<string> -> Option<nat>, keys: Keyset, m: map<string, string>,
                           keys': Keyset, m': map<string, string>)
    requires Lookup(m, keys.traceId) == Lookup(m', keys'.traceId)
    requires Lookup(m, keys.spanId) == Lookup(m', keys'.spanId)
    requires Lookup(m, keys.parentSpanId) == Lookup(m', keys'.parentSpanId)
    requires Lookup(m, keys.flags) == Lookup(m', keys'.flags)
    requires Lookup(m, keys.sampled) == Lookup(m', keys'.sampled)
    ensures Extract(decode, keys, m) == Extract(decode, keys', m')
  {
  }

  /** Round trip under any distinct keyset: extracting what was injected
      gives the context back, DEBUG included, provided the IDs are valid
      64-bit values, the decoder meets its contract, and the carrier did not
      already hold a debug header of "1". */
  lemma {:induction false} ExtractInvertsInjected(decode: Option<string> -> Option<nat>, keys: Keyset, ctx: SpanContext, m: map<string, string>)
    requires DecoderContract(decode) && keys.Distinct()
    requires ctx.Injectable() && ctx.Fits64() && ctx.traceId != 0 && ctx.spanId != 0
    requires Lookup(m, keys.flags) != Some("1")
    ensures Extract(decode, keys, InjectedEntries(keys, ctx, m)) == Some(ctx)
  {
    var r := InjectedEntries(keys, ctx, m);
    DecodesRenderings(decode, ctx.traceId);
    DecodesRenderings(decode, ctx.spanId);
    DecodesRenderings(decode, ctx.parentId.value);
    if !ctx.IsDebug() {
      DecodesRenderings(decode, ctx.flags.value);
      assert Lookup(r, keys.flags) == Lookup(m, keys.flags);
    }
  }

  /** The round trip for `B3Codec` as written: `extract_text_map` after
      `inject`. A carrier without any x-b3-* key qualifies. */
  lemma ExtractTextMapInvertsInject(decode: Option<string> -> Option<nat>, ctx: SpanContext, m: map<string, string>)
    requires DecoderContract(decode)
    requires ctx.Injectable() && ctx.Fits64() && ctx.traceId != 0 && ctx.spanId != 0
    requires Lookup(m, TextMapKeys.flags) != Some("1")
    ensures TextMapKeys.Distinct()
    ensures ExtractTextMap(decode, InjectedEntries(TextMapKeys, ctx, m)) == Some(ctx)
  {
    KeysetsDistinct();
    ExtractInvertsInjected(decode, TextMapKeys, ctx, m);
  }

  /** The exclusion holds per call only: injection never removes a header.
      A debug header of "1" left in the carrier by an earlier injection
      survives a non-DEBUG injection, the carrier then holds both headers,
      and extraction reports DEBUG. */
  lemma {:induction false} StaleDebugHeaderWins(decode: Option<string> -> Option<nat>, keys: Keyset, ctx: SpanContext, m: map<string, string>)
    requires DecoderContract(decode) && keys.Distinct()
    requires ctx.Injectable() && ctx.Fits64() && ctx.traceId != 0 && ctx.spanId != 0
    requires !ctx.IsDebug() && Lookup(m, keys.flags) == Some("1")
    ensures var r := InjectedEntries(keys, ctx, m);
      && Lookup(r, keys.flags) == Some("1") && Lookup(r, keys.sampled).Some?
      && Extract(decode, keys, r) == Some(ctx.(flags := Some(DEBUG)))
  {
    var r := InjectedEntries(keys, ctx, m);
    DecodesRenderings(decode, ctx.traceId);
    DecodesRenderings(decode, ctx.spanId);
    DecodesRenderings(decode, ctx.parentId.value);
    assert Lookup(r, keys.flags) == Lookup(m, keys.flags);
  }

  /** The other way round: a DEBUG injection leaves a sampled header from
      an earlier injection in place, so the carrier again holds both
      headers. Extraction is unaffected, since the debug header wins. */
  lemma {:induction false} StaleSampledHeaderKept(decode: Option<string> -> Option<nat>, keys: Keyset, ctx: SpanContext, m: map<string, string>)
    requires DecoderContract(decode) && keys.Distinct()
    requires ctx.Injectable() && ctx.Fits64() && ctx.traceId != 0 && ctx.spanId != 0
    requires ctx.IsDebug() && Lookup(m, keys.sampled).Some?
    ensures var r := InjectedEntries(keys, ctx, m);
      && Lookup(r, keys.flags) == Some("1") && Lookup(r, keys.sampled) == Lookup(m, keys.sampled)
      && Extract(decode, keys, r) == Some(ctx)
  {
    var r := InjectedEntries(keys, ctx, m);
    DecodesRenderings(decode, ctx.traceId);
    DecodesRenderings(decode, ctx.spanId);
    DecodesRenderings(decode, ctx.parentId.value);
    assert Lookup(r, keys.sampled) == Lookup(m, keys.sampled);
  }

  /** Injection under one keyset does not create the trace-ID key of
      another, so extraction under the other keyset finds nothing. */
  lemma ExtractMissesOtherKeyset(decode: Option<string> -> Option<nat>, keys: Keyset, other: Keyset, ctx: SpanContext, m: map<string, string>)
    requires DecoderContract(decode) && keys.Distinct() && ctx.Injectable()
    requires other.traceId !in m && other.traceId !in keys.Names()
    ensures Extract(decode, other, InjectedEntries(keys, ctx, m)) == None
  {
    assert Lookup(InjectedEntries(keys, ctx, m), other.traceId) == None;
  }

  /** `Inject` writes text-map names even into a Rack carrier, so
      `ExtractRack` does not read back what it wrote: with no
      HTTP_X_B3_TRACEID entry beforehand there is still none afterwards. */
  lemma ExtractRackMissesInjected(decode: Option<string> -> Option<nat>, ctx: SpanContext, m: map<string, string>)
    requires DecoderContract(decode)
    requires ctx.Injectable() && RackKeys.traceId !in m
    ensures TextMapKeys.Distinct()
    ensures ExtractRack(decode, InjectedEntries(TextMapKeys, ctx, m)) == None
  {
    KeysetsDistinct();
    ExtractMissesOtherKeyset(decode, TextMapKeys, RackKeys, ctx, m);
  }

  /** A zero trace ID is rejected even when the span ID is well formed. */
  lemma ZeroTraceIdExample(decode: Option<string> -> Option<nat>)
    requires DecoderContract(decode)
    ensures ExtractTextMap(decode, map["x-b3-traceid" := "0", "x-b3-spanid" := "5"]) == None
  {
    assert HexValue("0") == 0;
  }
}
