/**
 Tool calls in a model's response: assembling the streamed ones from their deltas, and matching calls to the tags
 whose functions they name (pkg/bridge/ai/service.go, ai/openai.go).
 */
module ToolCalls {
  import opened Common
  import opened Router
  import opened Register

  datatype ToolCall = ToolCall(id: string, kind: string, name: string, arguments: string)

  /** A fragment of a streamed call; a missing index is a nil pointer. */
  datatype Delta = Delta(index: Option<int>, id: string, kind: string, name: string, arguments: string)

  /** One message of the stream: the tool-call deltas of its first choice, if it has one. */
  datatype Chunk = NoChoice | Choice(deltas: seq<Delta>)

  function Deltas(chunks: seq<Chunk>): (ds: seq<Delta>) {
    if chunks == [] then []
    else
      var last := chunks[|chunks| - 1];
      Deltas(chunks[..|chunks| - 1]) + (if last.Choice? then last.deltas else [])
  }

  /** The stream's deltas are those of its messages, one message after the other; one without a choice has none. */
  lemma {:induction false} DeltasConcat(a: seq<Chunk>, b: seq<Chunk>)
    ensures Deltas(a + b) == Deltas(a) + Deltas(b)
    decreases |b|
  {
    if b == [] {
      assert a + b == a;
    } else {
      var n, all := |b| - 1, a + b;
      var last := if b[n].Choice? then b[n].deltas else [];
      DeltasConcat(a, b[..n]);
      assert all[..|all| - 1] == a + b[..n] && all[|all| - 1] == b[n];
      assert Deltas(all) == Deltas(a) + Deltas(b[..n]) + last;
      assert Deltas(b) == Deltas(b[..n]) + last;
    }
  }

  lemma DeltasOfOne(ds: seq<Delta>)
    ensures Deltas([Choice(ds)]) == ds && Deltas([NoChoice]) == []
  {
    assert [Choice(ds)][..0] == [] && [NoChoice][..0] == [];
  }

  /** `out` is what stands in `all` at the given places, in order. */
  ghost predicate Selection<T>(out: seq<T>, all: seq<T>, places: set<int>) {
    exists idx: seq<int> :: SelectedAt(out, all, places, idx)
  }

  ghost predicate SelectedAt<T>(out: seq<T>, all: seq<T>, places: set<int>, idx: seq<int>) {
    && |idx| == |out|
    && (forall p, q :: 0 <= p < q < |idx| ==> idx[p] < idx[q])
    && (forall i :: i in idx <==> i in places)
    && (forall p :: 0 <= p < |idx| ==> 0 <= idx[p] < |all| && out[p] == all[idx[p]])
  }

  /** One more element, selected or not. */
  lemma SelectionGrows<T>(out: seq<T>, all: seq<T>, places: set<int>, x: T)
    requires Selection(out, all, places)
    ensures Selection(out, all + [x], places) && Selection(out + [x], all + [x], places + {|all|})
  {
    var idx :| SelectedAt(out, all, places, idx);
    assert SelectedAt(out, all + [x], places, idx);
    var more := idx + [|all|];
    forall i ensures i in more <==> i in places + {|all|} {
      assert i in more <==> i in idx || i == |all|;
    }
    assert SelectedAt(out + [x], all + [x], places + {|all|}, more);
  }

  lemma NothingSelected<T>()
    ensures Selection<T>([], [], {})
  {
    assert SelectedAt<T>([], [], {}, []);
  }

  // ---------------------------------------------------------------- what assembly promises

  /** The fragments of call `k`, in order. */
  function Of(ds: seq<Delta>, k: int): (r: seq<Delta>) {
    if ds == [] then []
    else
      var rest, last := Of(ds[..|ds| - 1], k), ds[|ds| - 1];
      if last.index == Some(k) then rest + [last] else rest
  }

  /** The places of the fragments that carry index `k`. */
  function Carrying(ds: seq<Delta>, k: int): (places: set<int>) {
    set i | 0 <= i < |ds| && ds[i].index == Some(k)
  }

  lemma CarryingGrows(ds: seq<Delta>, x: Delta, k: int)
    ensures x.index == Some(k) ==> Carrying(ds + [x], k) == Carrying(ds, k) + {|ds|}
    ensures x.index != Some(k) ==> Carrying(ds + [x], k) == Carrying(ds, k)
  {
  }

  /** The fragments of call `k` are exactly those that carry the index, in order. */
  lemma {:induction false} OfSelects(ds: seq<Delta>, k: int)
    ensures Selection(Of(ds, k), ds, Carrying(ds, k))
  {
    if ds == [] {
      NothingSelected<Delta>();
      assert Carrying(ds, k) == {};
    } else {
      var n := |ds| - 1;
      var rest := ds[..n];
      OfSelects(rest, k);
      assert ds == rest + [ds[n]];
      CarryingGrows(rest, ds[n], k);
      SelectionGrows(Of(rest, k), rest, Carrying(rest, k), ds[n]);
    }
  }

  function Arguments(ds: seq<Delta>): (r: string) {
    if ds == [] then "" else Arguments(ds[..|ds| - 1]) + ds[|ds| - 1].arguments
  }

  /** The last name that is not empty. */
  function Name(ds: seq<Delta>): (r: string) {
    if ds == [] then ""
    else if ds[|ds| - 1].name != "" then ds[|ds| - 1].name
    else Name(ds[..|ds| - 1])
  }

  /** The call that a sequence of fragments of one index amounts to. */
  function CallOf(ds: seq<Delta>): (c: ToolCall)
    requires ds != []
  {
    ToolCall(ds[0].id, ds[0].kind, Name(ds), Arguments(ds))
  }

  // ---------------------------------------------------------------- the loops

  /** One pass of the loop over deltas. */
  function Absorb(m: map<int, ToolCall>, k: int, t: Delta): (m': map<int, ToolCall>) {
    var item := if k in m then m[k] else ToolCall(t.id, t.kind, "", "");
    var item1 := if t.arguments != "" then item.(arguments := item.arguments + t.arguments) else item;
    m[k := if t.name != "" then item1.(name := t.name) else item1]
  }

  /** The map holds, for each index seen, the call its fragments amount to. */
  ghost predicate Assembled(m: map<int, ToolCall>, ds: seq<Delta>) {
    forall k :: (k in m <==> Of(ds, k) != []) && (k in m ==> m[k] == CallOf(Of(ds, k)))
  }

  lemma AbsorbStep(m: map<int, ToolCall>, ds: seq<Delta>, k: int, t: Delta)
    requires Assembled(m, ds) && t.index == Some(k)
    ensures Assembled(Absorb(m, k, t), ds + [t])
  {
    OfAppends(ds, t, k);
    if k in m {
      CallExtends(Of(ds, k), t);
    } else {
      FirstFragment(t);
    }
    forall x
      ensures x in Absorb(m, k, t) <==> Of(ds + [t], x) != []
      ensures x in Absorb(m, k, t) ==> Absorb(m, k, t)[x] == CallOf(Of(ds + [t], x))
    {
      OfAppends(ds, t, x);
    }
  }

  lemma OfAppends(ds: seq<Delta>, t: Delta, x: int)
    ensures Of(ds + [t], x) == if t.index == Some(x) then Of(ds, x) + [t] else Of(ds, x)
  {
    assert (ds + [t])[..|ds|] == ds;
  }

  /** One more fragment of a call. */
  lemma CallExtends(before: seq<Delta>, t: Delta)
    requires before != []
    ensures var c, after := CallOf(before), before + [t];
      CallOf(after) == c.(arguments := c.arguments + t.arguments, name := if t.name != "" then t.name else c.name)
  {
    var after := before + [t];
    assert after[..|after| - 1] == before && after[|after| - 1] == t && after[0] == before[0];
  }

  /** The first fragment of a call. */
  lemma FirstFragment(t: Delta)
    ensures CallOf([t]) == ToolCall(t.id, t.kind, t.name, t.arguments)
  {
    var none: seq<Delta> := [];
    assert [t][..0] == none;
    assert Arguments(none) == "" && Name(none) == "";
    assert Arguments([t]) == Arguments(none) + t.arguments == t.arguments;
  }

  predicate AllIndexed(ds: seq<Delta>) {
    forall i :: 0 <= i < |ds| ==> ds[i].index.Some?
  }

  /** The loop over deltas as a fold. */
  function Fold(m: map<int, ToolCall>, ds: seq<Delta>): (m': map<int, ToolCall>)
    requires AllIndexed(ds)
  {
    if ds == [] then m else Absorb(Fold(m, ds[..|ds| - 1]), ds[|ds| - 1].index.value, ds[|ds| - 1])
  }

  lemma {:induction false} FoldAssembles(m: map<int, ToolCall>, before: seq<Delta>, ds: seq<Delta>)
    requires Assembled(m, before) && AllIndexed(ds)
    ensures Assembled(Fold(m, ds), before + ds)
  {
    if ds == [] {
      assert before + ds == before;
    } else {
      var rest, last := ds[..|ds| - 1], ds[|ds| - 1];
      FoldAssembles(m, before, rest);
      AbsorbStep(Fold(m, rest), before + rest, last.index.value, last);
      assert before + rest + [last] == before + ds;
    }
  }

  datatype Assembly = Panic | Assembly(calls: map<int, ToolCall>)

  /** The inner loop, over one message's deltas. */
  method AbsorbAll(m: map<int, ToolCall>, ds: seq<Delta>) returns (r: Assembly)
    ensures r.Panic? <==> !AllIndexed(ds)
    ensures r.Assembly? ==> r.calls == Fold(m, ds)
  {
    var m' := m;
    for j := 0 to |ds|
      invariant AllIndexed(ds[..j]) && m' == Fold(m, ds[..j])
    {
      var t := ds[j];
      if t.index.None? {
        return Panic;
      }
      assert ds[..j + 1][..j] == ds[..j];
      m' := Absorb(m', t.index.value, t);
    }
    assert ds[..|ds|] == ds;
    r := Assembly(m');
  }

  /** The loop of GetChatCompletions over the stream. Dereferencing a missing index panics. */
  method Assemble(chunks: seq<Chunk>) returns (r: Assembly)
    ensures r.Panic? <==> !AllIndexed(Deltas(chunks))
    ensures r.Assembly? ==> Assembled(r.calls, Deltas(chunks))
  {
    r := Assembly(map[]);
    for i := 0 to |chunks|
      invariant AllIndexed(Deltas(chunks[..i])) && r.Assembly? && Assembled(r.calls, Deltas(chunks[..i]))
    {
      ghost var before, after := Deltas(chunks[..i]), Deltas(chunks[..i + 1]);
      assert chunks[..i + 1][..i] == chunks[..i];
      if chunks[i].Choice? {
        assert after == before + chunks[i].deltas;
        ghost var calls := r.calls;
        r := AbsorbAll(r.calls, chunks[i].deltas);
        if r.Panic? {
          DeltasPrefix(chunks, i + 1);
          NotAllIndexed(before, chunks[i].deltas, Deltas(chunks));
          return;
        }
        FoldAssembles(calls, before, chunks[i].deltas);
      } else {
        assert before + [] == before;
        assert after == before;
      }
    }
    assert chunks[..|chunks|] == chunks;
  }

  lemma NotAllIndexed(before: seq<Delta>, tc: seq<Delta>, all: seq<Delta>)
    requires before + tc <= all && !AllIndexed(tc)
    ensures !AllIndexed(all)
  {
    var i :| 0 <= i < |tc| && tc[i].index.None?;
    assert all[|before| + i] == (before + tc)[|before| + i] == tc[i];
  }

  lemma {:induction false} DeltasPrefix(chunks: seq<Chunk>, i: nat)
    requires i <= |chunks|
    ensures Deltas(chunks[..i]) <= Deltas(chunks)
    decreases |chunks| - i
  {
    if i == |chunks| {
      assert chunks[..i] == chunks;
    } else {
      DeltasPrefix(chunks, i + 1);
      assert chunks[..i + 1][..i] == chunks[..i];
      assert Deltas(chunks[..i]) <= Deltas(chunks[..i + 1]);
    }
  }

  /** The indexes are exactly 0 to n-1. */
  ghost predicate Contiguous<T>(m: map<int, T>) {
    forall k :: k in m <==> 0 <= k < |m|
  }

  /**
   mapToSliceTools: a slice of the map's size, written at each index in an arbitrary order; a write out of range panics.
   */
  method MapToSlice(m: map<int, ToolCall>) returns (r: Option<seq<ToolCall>>)
    ensures r.Some? <==> Contiguous(m)
    ensures r.Some? ==> |r.value| == |m| && forall k :: 0 <= k < |m| ==> k in m && r.value[k] == m[k]
  {
    var arr := seq(|m|, _ => ToolCall("", "", "", ""));
    var todo: set<int> := m.Keys;
    while todo != {}
      invariant todo <= m.Keys && |arr| == |m|
      invariant forall k :: k in m.Keys - todo ==> 0 <= k < |m| && arr[k] == m[k]
    {
      var k := AnyOf(todo);
      if k < 0 || k >= |arr| {
        return None;
      }
      todo := todo - {k};
      arr := arr[k := m[k]];
    }
    Pigeonhole(m.Keys, |m|);
    r := Some(arr);
  }

  lemma {:induction false} Pigeonhole(s: set<int>, n: nat)
    requires |s| == n && forall k :: k in s ==> 0 <= k < n
    ensures forall k :: 0 <= k < n ==> k in s
  {
    var all := Upto(n);
    assert s <= all;
    assert |all - s| == |all| - |s|;
    assert all - s == {};
    forall k | 0 <= k < n ensures k in s {
      assert k in all && k !in all - s;
    }
  }

  ghost function Upto(n: nat): (s: set<int>)
    ensures |s| == n && forall k :: k in s <==> 0 <= k < n
  {
    if n == 0 then {} else Upto(n - 1) + {n - 1}
  }

  /** The indexes of the stream are exactly 0 to n-1 for some n. */
  ghost predicate IndexesAre(ds: seq<Delta>, n: nat) {
    forall k :: Of(ds, k) != [] <==> 0 <= k < n
  }

  /**
   From stream to list: no panic exactly when every delta has an index and the indexes seen are 0 to n-1; then call
   `k` of the list is what the fragments with index `k` amount to.
   */
  method StreamedCalls(chunks: seq<Chunk>) returns (r: Option<seq<ToolCall>>)
    ensures var ds := Deltas(chunks); r.Some? <==> AllIndexed(ds) && exists n: nat :: IndexesAre(ds, n)
    ensures r.Some? ==>
      var ds := Deltas(chunks);
      IndexesAre(ds, |r.value|) && forall k :: 0 <= k < |r.value| ==> r.value[k] == CallOf(Of(ds, k))
  {
    ghost var ds := Deltas(chunks);
    var a := Assemble(chunks);
    if a.Panic? {
      return None;
    }
    r := MapToSlice(a.calls);
    if r.Some? {
      assert IndexesAre(ds, |r.value|);
    } else {
      forall n: nat | IndexesAre(ds, n) ensures false {
        assert forall k :: k in a.calls.Keys <==> 0 <= k < n;
        assert a.calls.Keys == Upto(n);
        assert Contiguous(a.calls);
      }
    }
  }

  /** Interleaving the calls' fragments differently, each call's own in the same order, gives the same list. */
  lemma InterleavingIsImmaterial(xs: seq<Delta>, ys: seq<Delta>, a: map<int, ToolCall>, b: map<int, ToolCall>)
    requires forall k :: Of(xs, k) == Of(ys, k)
    requires Assembled(a, xs) && Assembled(b, ys)
    ensures a == b
  {
    assert forall k :: k in a <==> k in b;
    assert forall k :: k in a ==> a[k] == b[k];
  }

  /** The same of whole streams: they end in the same list, or both panic. */
  method InterleavedStreamsAgree(xs: seq<Chunk>, ys: seq<Chunk>)
      returns (a: Option<seq<ToolCall>>, b: Option<seq<ToolCall>>)
    requires forall k :: Of(Deltas(xs), k) == Of(Deltas(ys), k)
    requires AllIndexed(Deltas(xs)) <==> AllIndexed(Deltas(ys))
    ensures a == b
  {
    a := StreamedCalls(xs);
    b := StreamedCalls(ys);
    forall n: nat ensures IndexesAre(Deltas(xs), n) <==> IndexesAre(Deltas(ys), n) {
    }
    if a.Some? && b.Some? {
      SameCount(Deltas(ys), |a.value|, |b.value|);
      assert a.value == b.value;
    }
  }

  lemma SameCount(ds: seq<Delta>, m: nat, n: nat)
    requires IndexesAre(ds, m) && IndexesAre(ds, n)
    ensures m == n
  {
    assert Of(ds, m) == [] && Of(ds, n) == [];
  }

  // ---------------------------------------------------------------- matching

  predicate Hits(tool: Tool, call: ToolCall, everything: bool) {
    everything || (tool.name == call.name && tool.kind == call.kind)
  }

  /** The calls that go to a tool, in order. */
  function Hitting(calls: seq<ToolCall>, tool: Tool, everything: bool): (r: seq<ToolCall>) {
    if calls == [] then []
    else
      var rest, last := Hitting(calls[..|calls| - 1], tool, everything), calls[|calls| - 1];
      if Hits(tool, last, everything) then rest + [last] else rest
  }

  /** The places of the calls with a name and a type. */
  function Named(calls: seq<ToolCall>, name: string, kind: string): (places: set<int>) {
    set i | 0 <= i < |calls| && calls[i].name == name && calls[i].kind == kind
  }

  lemma NamedGrows(calls: seq<ToolCall>, x: ToolCall, name: string, kind: string)
    ensures x.name == name && x.kind == kind ==> Named(calls + [x], name, kind) == Named(calls, name, kind) + {|calls|}
    ensures !(x.name == name && x.kind == kind) ==> Named(calls + [x], name, kind) == Named(calls, name, kind)
  {
  }

  /** The calls that go to a tool are, in order, those with its name and type. */
  lemma {:induction false} HittingSelects(calls: seq<ToolCall>, tool: Tool)
    ensures Selection(Hitting(calls, tool, false), calls, Named(calls, tool.name, tool.kind))
  {
    if calls == [] {
      NothingSelected<ToolCall>();
      assert Named(calls, tool.name, tool.kind) == {};
    } else {
      var n := |calls| - 1;
      var rest := calls[..n];
      HittingSelects(rest, tool);
      assert calls == rest + [calls[n]];
      NamedGrows(rest, calls[n], tool.name, tool.kind);
      SelectionGrows(Hitting(rest, tool, false), rest, Named(rest, tool.name, tool.kind), calls[n]);
    }
  }

  lemma SelectionIsEmpty<T>(out: seq<T>, all: seq<T>, places: set<int>)
    requires Selection(out, all, places)
    ensures out == [] <==> places == {}
  {
    var idx :| SelectedAt(out, all, places, idx);
    if out != [] {
      assert idx[0] in idx;
    }
    if out == [] {
      assert idx == [];
      assert forall i :: i !in places;
      assert places == {};
    }
  }

  /** Each tag has exactly the calls that hit its tool, in order; a tag without any is absent. */
  ghost predicate Matched(fns: map<Tag, seq<ToolCall>>, calls: seq<ToolCall>, tools: map<Tag, Tool>, everything: bool) {
    && (forall tag :: tag in fns <==> tag in tools && Hitting(calls, tools[tag], everything) != [])
    && (forall tag :: tag in fns ==> fns[tag] == Hitting(calls, tools[tag], everything))
  }

  /** What a tag has after its share of the calls so far, an absent tag having nothing. */
  function Share(fns: map<Tag, seq<ToolCall>>, tag: Tag): (r: seq<ToolCall>) {
    if tag in fns then fns[tag] else []
  }

  /** What a tag gets of one call, once the tools of `visited` have been. */
  function Given(call: ToolCall, tools: map<Tag, Tool>, visited: set<Tag>, tag: Tag, everything: bool)
    : (r: seq<ToolCall>)
  {
    if tag in tools && tag in visited
       && (everything || (call.name == tools[tag].name && call.kind == tools[tag].kind))
    then [call]
    else []
  }

  /** The tags visited have been given their share of one call, and no other tag anything. */
  ghost predicate Shared(
    fns: map<Tag, seq<ToolCall>>, fns': map<Tag, seq<ToolCall>>,
    call: ToolCall, tools: map<Tag, Tool>, visited: set<Tag>, everything: bool)
  {
    forall tag ::
      && Share(fns', tag) == Share(fns, tag) + Given(call, tools, visited, tag, everything)
      && (tag in fns' <==> tag in fns || Given(call, tools, visited, tag, everything) != [])
  }

  lemma SharedStep(
    fns: map<Tag, seq<ToolCall>>, fns': map<Tag, seq<ToolCall>>,
    call: ToolCall, tools: map<Tag, Tool>, visited: set<Tag>, everything: bool, x: Tag)
    requires Shared(fns, fns', call, tools, visited, everything) && x in tools && x !in visited
    ensures
      var next := if Hits(tools[x], call, everything) then fns'[x := Share(fns', x) + [call]] else fns';
      Shared(fns, next, call, tools, visited + {x}, everything)
  {
    var next := if Hits(tools[x], call, everything) then fns'[x := Share(fns', x) + [call]] else fns';
    forall tag
      ensures Share(next, tag) == Share(fns, tag) + Given(call, tools, visited + {x}, tag, everything)
      ensures tag in next <==> tag in fns || Given(call, tools, visited + {x}, tag, everything) != []
    {
      assert Given(call, tools, visited, x, everything) == [];
      assert Share(fns', tag) == Share(fns, tag) + Given(call, tools, visited, tag, everything);
    }
  }

  /** The inner loop: one call against every tool, in an arbitrary order. */
  method MatchOne(fns: map<Tag, seq<ToolCall>>, call: ToolCall, tools: map<Tag, Tool>, everything: bool)
      returns (fns': map<Tag, seq<ToolCall>>)
    ensures Shared(fns, fns', call, tools, tools.Keys, everything)
  {
    fns' := fns;
    var todo := tools.Keys;
    while todo != {}
      invariant todo <= tools.Keys
      invariant Shared(fns, fns', call, tools, tools.Keys - todo, everything)
    {
      var tag := AnyOf(todo);
      SharedStep(fns, fns', call, tools, tools.Keys - todo, everything, tag);
      assert tools.Keys - todo + {tag} == tools.Keys - (todo - {tag});
      todo := todo - {tag};
      if Hits(tools[tag], call, everything) {
        fns' := fns'[tag := Share(fns', tag) + [call]];
      }
    }
    assert tools.Keys - todo == tools.Keys;
  }

  method MatchAll(calls: seq<ToolCall>, tools: map<Tag, Tool>, everything: bool) returns (fns: map<Tag, seq<ToolCall>>)
    ensures Matched(fns, calls, tools, everything)
  {
    fns := map[];
    for i := 0 to |calls|
      invariant Matched(fns, calls[..i], tools, everything)
    {
      ghost var before := fns;
      fns := MatchOne(fns, calls[i], tools, everything);
      assert calls[..i + 1][..i] == calls[..i];
      forall tag
        ensures tag in fns <==> tag in tools && Hitting(calls[..i + 1], tools[tag], everything) != []
        ensures tag in fns ==> fns[tag] == Hitting(calls[..i + 1], tools[tag], everything)
      {
        if tag in tools {
          assert Share(before, tag) == Hitting(calls[..i], tools[tag], everything);
          assert Share(fns, tag) == Hitting(calls[..i + 1], tools[tag], everything);
        }
      }
    }
    assert calls[..|calls|] == calls;
  }

  /** GetChatCompletions matches by name and type: a tag gets, in order, the calls with its tool's, if there are any. */
  method MatchStreamed(calls: seq<ToolCall>, tools: map<Tag, Tool>) returns (fns: map<Tag, seq<ToolCall>>)
    ensures Matched(fns, calls, tools, false)
    ensures forall tag :: tag in fns ==> tag in tools
    ensures forall tag :: tag in tools ==> (tag in fns <==> Named(calls, tools[tag].name, tools[tag].kind) != {})
    ensures forall tag :: tag in fns ==> Selection(fns[tag], calls, Named(calls, tools[tag].name, tools[tag].kind))
    ensures forall tag, c :: tag in fns && c in fns[tag] ==> c.name == tools[tag].name && c.kind == tools[tag].kind
  {
    fns := MatchAll(calls, tools, false);
    MatchedByName(fns, calls, tools);
  }

  lemma MatchedByName(fns: map<Tag, seq<ToolCall>>, calls: seq<ToolCall>, tools: map<Tag, Tool>)
    requires Matched(fns, calls, tools, false)
    ensures forall tag :: tag in tools ==> (tag in fns <==> Named(calls, tools[tag].name, tools[tag].kind) != {})
    ensures forall tag :: tag in fns ==> Selection(fns[tag], calls, Named(calls, tools[tag].name, tools[tag].kind))
    ensures forall tag, c :: tag in fns && c in fns[tag] ==> c.name == tools[tag].name && c.kind == tools[tag].kind
  {
    forall tag | tag in tools
      ensures tag in fns <==> Named(calls, tools[tag].name, tools[tag].kind) != {}
      ensures tag in fns ==> Selection(fns[tag], calls, Named(calls, tools[tag].name, tools[tag].kind))
    {
      HittingSelects(calls, tools[tag]);
      SelectionIsEmpty(Hitting(calls, tools[tag], false), calls, Named(calls, tools[tag].name, tools[tag].kind));
    }
    forall tag, c | tag in fns && c in fns[tag] ensures c.name == tools[tag].name && c.kind == tools[tag].kind {
      SelectedIsNamed(fns[tag], calls, tools[tag].name, tools[tag].kind, c);
    }
  }

  lemma SelectedIsNamed(out: seq<ToolCall>, calls: seq<ToolCall>, name: string, kind: string, c: ToolCall)
    requires Selection(out, calls, Named(calls, name, kind)) && c in out
    ensures c.name == name && c.kind == kind
  {
    var idx :| SelectedAt(out, calls, Named(calls, name, kind), idx);
    var p :| 0 <= p < |out| && out[p] == c;
    assert idx[p] in Named(calls, name, kind);
  }

  /** "stop" in any mixture of cases. */
  predicate IsStop(reason: string) {
    |reason| == 4 && reason[0] in "sS" && reason[1] in "tT" && reason[2] in "oO" && reason[3] in "pP"
  }

  datatype Invoke = Text | NoToolCalls | Invoke(fns: map<Tag, seq<ToolCall>>)

  const GEMINI_REASON := "gemini_tool_calls"

  /**
   ConvertToInvokeResponse: a stop, in any mixture of cases, yields no calls, and no calls is an error. Otherwise a tag
   gets, in order, the calls with its tool's name and type; with one provider's finish reason, all calls.
   */
  method ConvertToInvokeResponse(reason: string, calls: seq<ToolCall>, tools: map<Tag, Tool>) returns (r: Invoke)
    ensures r.Text? <==> |reason| == 4 && forall i :: 0 <= i < 4 ==> reason[i] == "stop"[i] || reason[i] == "STOP"[i]
    ensures r.NoToolCalls? <==> !r.Text? && calls == []
    ensures r.Invoke? ==> Matched(r.fns, calls, tools, reason == GEMINI_REASON)
    ensures r.Invoke? ==> forall tag :: tag in r.fns ==> tag in tools
    ensures r.Invoke? && reason == "gemini_tool_calls" ==> forall tag :: tag in tools ==>
      tag in r.fns && r.fns[tag] == calls
    ensures r.Invoke? && reason != "gemini_tool_calls" ==> forall tag :: tag in tools ==>
      (tag in r.fns <==> Named(calls, tools[tag].name, tools[tag].kind) != {})
    ensures r.Invoke? && reason != "gemini_tool_calls" ==> forall tag :: tag in r.fns ==>
      Selection(r.fns[tag], calls, Named(calls, tools[tag].name, tools[tag].kind))
    ensures r.Invoke? && reason != "gemini_tool_calls" ==> forall tag, c :: tag in r.fns && c in r.fns[tag] ==>
      c.name == tools[tag].name && c.kind == tools[tag].kind
  {
    if IsStop(reason) {
      return Text;
    }
    if |calls| == 0 {
      return NoToolCalls;
    }
    var fns := MatchAll(calls, tools, reason == GEMINI_REASON);
    if reason == GEMINI_REASON {
      forall tag | tag in tools ensures Hitting(calls, tools[tag], true) == calls {
        AllHit(calls, tools[tag]);
      }
    } else {
      MatchedByName(fns, calls, tools);
    }
    r := Invoke(fns);
  }

  lemma {:induction false} AllHit(calls: seq<ToolCall>, tool: Tool)
    ensures Hitting(calls, tool, true) == calls
  {
    if calls != [] {
      AllHit(calls[..|calls| - 1], tool);
      assert calls == calls[..|calls| - 1] + [calls[|calls| - 1]];
    }
  }

  /**
   Matching has one answer, whatever the order in which the tools are visited: both loops give it for "tool_calls".
   */
  lemma MatchingIsDetermined(
    a: map<Tag, seq<ToolCall>>, b: map<Tag, seq<ToolCall>>,
    calls: seq<ToolCall>, tools: map<Tag, Tool>, everything: bool)
    requires Matched(a, calls, tools, everything) && Matched(b, calls, tools, everything)
    ensures a == b
  {
    assert forall tag :: tag in a <==> tag in b;
    assert forall tag :: tag in a ==> a[tag] == b[tag];
  }

  /** Both loops, visiting the tools in orders of their own. */
  method BothLoopsAgree(calls: seq<ToolCall>, tools: map<Tag, Tool>) returns (fns: map<Tag, seq<ToolCall>>, r: Invoke)
    requires calls != []
    ensures r == Invoke(fns)
  {
    fns := MatchStreamed(calls, tools);
    r := ConvertToInvokeResponse("tool_calls", calls, tools);
    MatchingIsDetermined(fns, r.fns, calls, tools, false);
  }
}
