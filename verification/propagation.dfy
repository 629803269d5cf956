/** What both B3 codecs share: the span context they read and write, the
    carrier they write into, and the two conventions for naming its keys. */
module Propagation {
  import opened Wrappers

  /** `SpanContext::Flags::DEBUG` of the Jaeger client, whose definition is
      not part of this model; no proof depends on its value. */
  const DEBUG: nat := 2

  /** The span context the codecs consume and produce. Extraction passes the
      decoded parent ID and flags through unchecked, so both may be absent
      (Ruby `nil`). */
  datatype SpanContext = SpanContext(traceId: nat, spanId: nat, parentId: Option<nat>, flags: Option<nat>)
  {
    /** Injection calls `to_s(16)` on the parent ID and on the flags; on
        `nil` that raises, so only contexts with both present can be
        injected. */
    predicate Injectable() {
      parentId.Some? && flags.Some?
    }

    predicate IsDebug() {
      flags == Some(DEBUG)
    }

    /** Every field is a 64-bit unsigned value. */
    predicate Fits64() {
      && traceId < 0x1_0000_0000_0000_0000
      && spanId < 0x1_0000_0000_0000_0000
      && (parentId.Some? ==> parentId.value < 0x1_0000_0000_0000_0000)
      && (flags.Some? ==> flags.value < 0x1_0000_0000_0000_0000)
    }
  }

  /** The carrier's key for each of the five B3 headers. */
  datatype Keyset = Keyset(traceId: string, spanId: string, parentSpanId: string, flags: string, sampled: string)
  {
    function Names(): set<string> {
      {traceId, spanId, parentSpanId, flags, sampled}
    }

    /** No two of the five headers share a key. */
    predicate Distinct() {
      && traceId != spanId && traceId != parentSpanId && traceId != flags && traceId != sampled
      && spanId != parentSpanId && spanId != flags && spanId != sampled
      && parentSpanId != flags && parentSpanId != sampled
      && flags != sampled
    }
  }

  /** Text-map carriers use the B3 header names as they are. */
  const TextMapKeys := Keyset("x-b3-traceid", "x-b3-spanid", "x-b3-parentspanid", "x-b3-flags", "x-b3-sampled")

  /** Rack carriers hold the request environment, whose header keys are CGI
      meta-variable names (section 4.1.18 of RFC 3875): "HTTP_" followed by
      the header name upper-cased, with '-' replaced by '_'. */
  const RackKeys := Keyset("HTTP_X_B3_TRACEID", "HTTP_X_B3_SPANID", "HTTP_X_B3_PARENTSPANID", "HTTP_X_B3_FLAGS", "HTTP_X_B3_SAMPLED")

  /** A decoded trace or span ID the codecs accept: present and nonzero. */
  predicate IsValidId(id: Option<nat>) {
    id.Some? && id.value != 0
  }

  /** Ruby's `carrier[key]`: the value, or `nil` for a missing key. */
  function Lookup(m: map<string, string>, key: string): (v: Option<string>)
    ensures v.Some? <==> key in m
    ensures v.Some? ==> v.value == m[key]
  {
    if key in m then Some(m[key]) else None
  }

  /** Within each convention the five keys are pairwise different, and the
      Rack trace-ID key is none of the text-map keys. */
  lemma KeysetsDistinct()
    ensures TextMapKeys.Distinct() && RackKeys.Distinct()
    ensures RackKeys.traceId !in TextMapKeys.Names()
  {
    var k := TextMapKeys;
    assert k.traceId[5] == 't' && k.spanId[5] == 's' && k.parentSpanId[5] == 'p';
    assert k.flags[5] == 'f' && k.sampled[5] == 's' && k.sampled[6] == 'a' && k.spanId[6] == 'p';
    var h := RackKeys;
    assert h.traceId[10] == 'T' && h.spanId[10] == 'S' && h.parentSpanId[10] == 'P';
    assert h.flags[10] == 'F' && h.sampled[10] == 'S' && h.sampled[11] == 'A' && h.spanId[11] == 'P';
    assert RackKeys.traceId[0] == 'H';
  }

  /** A Rack carrier seen as a text map: each HTTP_X_B3_* entry renamed to
      its x-b3-* counterpart, and nothing else. */
  function RackAsTextMap(m: map<string, string>): (t: map<string, string>)
    ensures Lookup(t, TextMapKeys.traceId) == Lookup(m, RackKeys.traceId)
    ensures Lookup(t, TextMapKeys.spanId) == Lookup(m, RackKeys.spanId)
    ensures Lookup(t, TextMapKeys.parentSpanId) == Lookup(m, RackKeys.parentSpanId)
    ensures Lookup(t, TextMapKeys.flags) == Lookup(m, RackKeys.flags)
    ensures Lookup(t, TextMapKeys.sampled) == Lookup(m, RackKeys.sampled)
    ensures t.Keys <= TextMapKeys.Names()
  {
    map k | k in TextMapKeys.Names() && RackCounterpart(k) in m :: m[RackCounterpart(k)]
  }

  /** The Rack key that stands for a text-map key. */
  function RackCounterpart(k: string): string {
    if k == TextMapKeys.traceId then RackKeys.traceId
    else if k == TextMapKeys.spanId then RackKeys.spanId
    else if k == TextMapKeys.parentSpanId then RackKeys.parentSpanId
    else if k == TextMapKeys.flags then RackKeys.flags
    else if k == TextMapKeys.sampled then RackKeys.sampled
    else k
  }

  /** A carrier: the caller's mutable string-keyed hash, which injection
      updates in place. */
  class Carrier {
    var entries: map<string, string>

    constructor (initial: map<string, string>)
      ensures entries == initial
    {
      entries := initial;
    }

    /** Ruby's `carrier[key] = value`. */
    method Put(key: string, value: string)
      modifies this
      ensures entries == old(entries)[key := value]
    {
      entries := entries[key := value];
    }
  }
}
