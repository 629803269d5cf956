/** How the two B3 variants relate: they share the validation of the trace
    and span IDs and differ only in the flags and in the ID padding. */
module Variants {
  import opened Wrappers
  import opened HexId
  import opened Propagation
  import B3Codec
  import TracerB3

  /** Both variants extract the same context from any carrier whose debug
      header is not "1"; when it is "1", `B3Codec` reports DEBUG where
      `TracerB3` reports the decoded sampled header. */
  lemma ExtractionsAgreeBesideDebugHeader(decode: Option<string> -> Option<nat>, keys: Keyset, m: map<string, string>)
    ensures Lookup(m, keys.flags) != Some("1") ==>
      B3Codec.Extract(decode, keys, m) == TracerB3.ParseContext(decode, keys, m)
    ensures Lookup(m, keys.flags) == Some("1") && TracerB3.ParseContext(decode, keys, m).Some? ==>
      B3Codec.Extract(decode, keys, m) == Some(TracerB3.ParseContext(decode, keys, m).value.(flags := Some(DEBUG)))
  {
  }

  /** `B3Codec` reads what `TracerB3` writes: the unpadded IDs decode just
      as the padded ones do, and the flags arrive through the sampled
      header. */
  lemma {:induction false} B3CodecReadsTracerB3(decode: Option<string> -> Option<nat>, keys: Keyset, ctx: SpanContext, m: map<string, string>)
    requires DecoderContract(decode) && keys.Distinct()
    requires ctx.Injectable() && ctx.Fits64() && ctx.traceId != 0 && ctx.spanId != 0
    requires Lookup(m, keys.flags) != Some("1")
    ensures B3Codec.Extract(decode, keys, TracerB3.InjectedUnder(keys, ctx, m)) == Some(ctx)
  {
    var r := TracerB3.InjectedUnder(keys, ctx, m);
    TracerB3.ParseContextInvertsInjected(decode, keys, ctx, m);
    assert Lookup(r, keys.flags) == Lookup(m, keys.flags);
    ExtractionsAgreeBesideDebugHeader(decode, keys, r);
  }

  /** `TracerB3` loses DEBUG from what `B3Codec` writes: the debug header
      is ignored and no sampled header is written, so a DEBUG context read
      from a carrier without a sampled header comes back without flags. */
  lemma {:induction false} TracerB3DropsB3CodecDebug(decode: Option<string> -> Option<nat>, keys: Keyset, ctx: SpanContext, m: map<string, string>)
    requires DecoderContract(decode) && keys.Distinct()
    requires ctx.Injectable() && ctx.Fits64() && ctx.traceId != 0 && ctx.spanId != 0
    requires ctx.IsDebug() && keys.sampled !in m
    ensures TracerB3.ParseContext(decode, keys, B3Codec.InjectedEntries(keys, ctx, m)) == Some(ctx.(flags := None))
  {
    var r := B3Codec.InjectedEntries(keys, ctx, m);
    DecodesRenderings(decode, ctx.traceId);
    DecodesRenderings(decode, ctx.spanId);
    DecodesRenderings(decode, ctx.parentId.value);
    assert Lookup(r, keys.sampled) == None;
  }
}
