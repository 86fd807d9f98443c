/**
 Frame and connection metadata (core/metadata/metadata.go), the merge made for every frame
 (core/context.go) and what a frame carries after the zipper has routed it (core/server.go).
 */
module Metadata {
  import opened Common

  type M = map<string, string>

  const TRACE_ID_KEY := "yomo-trace-id"
  const SPAN_ID_KEY := "yomo-span-id"
  const TARGET_KEY := "yomo-target"
  const WANTED_TARGET_KEY := "yomo-wanted-target"
  const FUNCTION_DEFINITION_KEY := "function-definition"

  function Get(m: M, k: string): (v: Option<string>) {
    if k in m then Some(m[k]) else None
  }

  /** Setting the empty key does nothing. */
  function Set(m: M, k: string, v: string): (r: M) {
    if |k| == 0 then m else m[k := v]
  }

  /** `base` with every pair of `top` written over it, except a pair under the empty key. */
  function Overlay(base: M, top: M): (r: M) {
    base + (top - {""})
  }

  /** Key by key: the top's value if it has the key and the key is not empty, else the base's. */
  lemma OverlayGets(base: M, top: M, k: string)
    ensures Get(Overlay(base, top), k) == if k in top && k != "" then Some(top[k]) else Get(base, k)
  {
  }

  /** `r` is `fmd` overlaid by the pairs of `md` whose keys are in `done`. */
  ghost predicate PartlyMerged(r: M, fmd: M, md: M, done: set<string>) {
    forall k :: (k in r <==> k in fmd || Taken(md, done, k))
             && (k in r ==> r[k] == if Taken(md, done, k) then md[k] else fmd[k])
  }

  ghost predicate Taken(md: M, done: set<string>, k: string) {
    k in md && k in done && k != ""
  }

  lemma MergeStep(r: M, fmd: M, md: M, done: set<string>, k: string)
    requires PartlyMerged(r, fmd, md, done) && k in md
    ensures PartlyMerged(Set(r, k, md[k]), fmd, md, done + {k})
  {
    var r' := Set(r, k, md[k]);
    forall x
      ensures x in r' <==> x in fmd || Taken(md, done + {k}, x)
      ensures x in r' ==> r'[x] == if Taken(md, done + {k}, x) then md[x] else fmd[x]
    {
      assert Taken(md, done + {k}, x) <==> Taken(md, done, x) || (x == k && k != "");
    }
  }

  lemma MergeDone(r: M, fmd: M, md: M)
    requires PartlyMerged(r, fmd, md, md.Keys)
    ensures r == Overlay(fmd, md)
  {
    var o := Overlay(fmd, md);
    forall k ensures k in r <==> k in o {
      assert Taken(md, md.Keys, k) <==> k in md - {""};
    }
    forall k | k in r ensures r[k] == o[k] {
      assert Taken(md, md.Keys, k) <==> k in md - {""};
    }
  }

  /** The merge loop of newContext: the map is walked in an arbitrary order. */
  method Merge(fmd: M, md: M) returns (r: M)
    ensures r == Overlay(fmd, md)
  {
    r := fmd;
    var todo := md.Keys;
    while todo != {}
      invariant todo <= md.Keys
      invariant PartlyMerged(r, fmd, md, md.Keys - todo)
    {
      var k :| k in todo;
      MergeStep(r, fmd, md, md.Keys - todo, k);
      assert md.Keys - todo + {k} == md.Keys - (todo - {k});
      r := Set(r, k, md[k]);
      todo := todo - {k};
    }
    assert md.Keys - todo == md.Keys;
    MergeDone(r, fmd, md);
  }

  /** Clone copies pair by pair through Set, so an empty key is lost. */
  method Clone(m: M) returns (r: M)
    ensures r == m - {""}
  {
    r := Merge(map[], m);
  }

  /**
   Metadata on the wire. The packer is foreign code: it is taken to be invertible, and some bytes are not its output.
   */
  datatype Wire = Empty | Packed(m: M) | Garbage

  datatype Decoded = Decoded(m: M) | Undecodable

  function Encode(m: M): (w: Wire) {
    if m == map[] then Empty else Packed(m)
  }

  function Decode(w: Wire): (d: Decoded) {
    match w
    case Empty => Decoded(map[])
    case Packed(m) => Decoded(m)
    case Garbage => Undecodable
  }

  /** Metadata survives the wire, where no bytes at all stand for no metadata. */
  lemma DecodeEncodes(m: M)
    ensures Decode(Encode(m)) == Decoded(m)
    ensures Encode(m) == Empty <==> m == map[]
  {
  }

  /** A tracing span: an invalid trace or span ID is not propagated. */
  datatype Span = Span(traceId: Option<string>, spanId: Option<string>)

  function Propagate(m: M, span: Span): (r: M) {
    var m1 := if span.traceId.Some? then Set(m, TRACE_ID_KEY, span.traceId.value) else m;
    if span.spanId.Some? then Set(m1, SPAN_ID_KEY, span.spanId.value) else m1
  }

  /**
   One zipper's treatment of a frame's metadata: decode, merge the connection's metadata, trace, encode.
   The result is what the stream functions and the downstream zippers receive.
   */
  method HandleMetadata(w: Wire, connMd: M, span: Span) returns (out: Option<Wire>)
    ensures out.None? <==> w.Garbage?
    ensures out.Some? ==> Decode(out.value) == Decoded(Propagate(Overlay(Decode(w).m, connMd), span))
  {
    var d := Decode(w);
    if d.Undecodable? {
      return None;
    }
    var fmd := Merge(d.m, connMd);
    fmd := Propagate(fmd, span);
    return Some(Encode(fmd));
  }

  /** The two keys the tracer may write. */
  ghost const TRACE_KEYS: set<string> := {TRACE_ID_KEY, SPAN_ID_KEY}

  /** What a frame's metadata is at the `hops`-th zipper: each zipper overlays its connection and traces. */
  ghost function Along(m: M, hops: seq<(M, Span)>): (r: M)
  {
    if hops == [] then m
    else Propagate(Overlay(Along(m, hops[..|hops| - 1]), hops[|hops| - 1].0), hops[|hops| - 1].1)
  }

  /** The same without tracing. */
  ghost function Overlaid(m: M, mds: seq<M>): (r: M)
  {
    if mds == [] then m else Overlay(Overlaid(m, mds[..|mds| - 1]), mds[|mds| - 1])
  }

  ghost function Mds(hops: seq<(M, Span)>): (mds: seq<M>)
    ensures |mds| == |hops|
  {
    seq(|hops|, i requires 0 <= i < |hops| => hops[i].0)
  }

  /**
   Apart from the trace keys, a frame carries its original metadata overlaid by each connection it came through, in
   order.
   */
  lemma {:induction false} TracingIsTheOnlyAddition(m: M, hops: seq<(M, Span)>)
    ensures Along(m, hops) - TRACE_KEYS == Overlaid(m, Mds(hops)) - TRACE_KEYS
  {
    if hops != [] {
      var rest := hops[..|hops| - 1];
      TracingIsTheOnlyAddition(m, rest);
      assert Mds(rest) == Mds(hops)[..|hops| - 1];
      var last := hops[|hops| - 1];
      OverlayIgnoring(Along(m, rest), Overlaid(m, Mds(rest)), last.0);
      PropagateIgnoring(Overlay(Along(m, rest), last.0), last.1);
    }
  }

  lemma PropagateIgnoring(m: M, span: Span)
    ensures Propagate(m, span) - TRACE_KEYS == m - TRACE_KEYS
  {
    var m1 := if span.traceId.Some? then Set(m, TRACE_ID_KEY, span.traceId.value) else m;
    assert m1 - TRACE_KEYS == m - TRACE_KEYS;
  }

  /**
   A valid trace ID and a valid span ID go under their keys; an invalid one leaves its key alone, as all other keys.
   */
  lemma PropagateSets(m: M, span: Span)
    ensures Get(Propagate(m, span), TRACE_ID_KEY) == if span.traceId.Some? then span.traceId else Get(m, TRACE_ID_KEY)
    ensures Get(Propagate(m, span), SPAN_ID_KEY) == if span.spanId.Some? then span.spanId else Get(m, SPAN_ID_KEY)
    ensures forall k :: k != TRACE_ID_KEY && k != SPAN_ID_KEY ==> Get(Propagate(m, span), k) == Get(m, k)
  {
    assert TRACE_ID_KEY != SPAN_ID_KEY && TRACE_ID_KEY != "" && SPAN_ID_KEY != "";
  }

  lemma KeySurvivesTracing(m: M, span: Span, k: string)
    requires k !in TRACE_KEYS
    ensures Get(Propagate(m, span), k) == Get(m, k)
  {
    PropagateSets(m, span);
  }

  lemma OverlayIgnoring(a: M, b: M, top: M)
    requires a - TRACE_KEYS == b - TRACE_KEYS
    ensures Overlay(a, top) - TRACE_KEYS == Overlay(b, top) - TRACE_KEYS
  {
    var x, y := Overlay(a, top) - TRACE_KEYS, Overlay(b, top) - TRACE_KEYS;
    assert forall k :: k in a && k !in TRACE_KEYS <==> k in a - TRACE_KEYS;
    assert forall k :: k in b && k !in TRACE_KEYS <==> k in b - TRACE_KEYS;
    assert x.Keys == y.Keys;
    forall k | k in x ensures x[k] == y[k] {
      if k !in top || k == "" {
        assert (a - TRACE_KEYS)[k] == a[k];
        assert (b - TRACE_KEYS)[k] == b[k];
      }
    }
  }

  /** The last connection of the path that sets `k`, if any. */
  ghost predicate LastSetter(mds: seq<M>, k: string, i: int) {
    0 <= i < |mds| && k in mds[i] && forall j :: i < j < |mds| ==> k !in mds[j]
  }

  /** What the last hop leaves of a key. */
  lemma HopDecides(m: M, hops: seq<(M, Span)>, k: string)
    requires k != "" && k !in TRACE_KEYS && hops != []
    ensures var n := |hops| - 1;
      Get(Along(m, hops), k) == if k in hops[n].0 then Some(hops[n].0[k]) else Get(Along(m, hops[..n]), k)
  {
  }

  /** A key other than a trace key is decided by the last connection that sets it, else by the source. */
  lemma {:induction false} LastSetterDecides(m: M, hops: seq<(M, Span)>, k: string)
    requires k != "" && k !in TRACE_KEYS
    ensures (forall j :: 0 <= j < |hops| ==> k !in hops[j].0) ==> Get(Along(m, hops), k) == Get(m, k)
    ensures forall i :: LastSetter(Mds(hops), k, i) ==> Get(Along(m, hops), k) == Some(hops[i].0[k])
  {
    if hops != [] {
      var n := |hops| - 1;
      var rest := hops[..n];
      LastSetterDecides(m, rest, k);
      HopDecides(m, hops, k);
      forall i | LastSetter(Mds(hops), k, i)
        ensures Get(Along(m, hops), k) == Some(hops[i].0[k])
      {
        assert hops[n].0 == Mds(hops)[n];
        if i < n {
          assert LastSetter(Mds(rest), k, i) by {
            assert forall j :: 0 <= j < n ==> Mds(rest)[j] == Mds(hops)[j];
          }
        }
      }
    }
  }

  /** A target survives every hop on which no connection sets one. */
  lemma TargetSurvives(m: M, hops: seq<(M, Span)>)
    requires forall j :: 0 <= j < |hops| ==> TARGET_KEY !in hops[j].0
    ensures Get(Along(m, hops), TARGET_KEY) == Get(m, TARGET_KEY)
  {
    LastSetterDecides(m, hops, TARGET_KEY);
  }
}
