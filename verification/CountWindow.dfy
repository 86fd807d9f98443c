/**
 The count-based sliding window (rx/stream_operator.go, SlidingWindowWithCount). The window is a Go slice over a
 backing array that later appends may keep writing to; the slices handed to the handler share that array.
 */
module CountWindow {
  import opened Common

  /** An element of the observed stream. */
  datatype Item<T> = Value(v: T) | Error

  /** The items that are not errors, in order. */
  function Values<T>(items: seq<Item<T>>): (vs: seq<T>) {
    if items == [] then []
    else
      var rest := Values(items[..|items| - 1]);
      var last := items[|items| - 1];
      if last.Value? then rest + [last.v] else rest
  }

  /** An item counts exactly if it is a value, wherever it comes; an error changes nothing and ends nothing. */
  lemma {:induction false} ValuesConcat<T>(a: seq<Item<T>>, b: seq<Item<T>>)
    ensures Values(a + b) == Values(a) + Values(b)
    decreases |b|
  {
    if b == [] {
      assert a + b == a;
    } else {
      var n := |b| - 1;
      ValuesConcat(a, b[..n]);
      assert (a + b)[..|a + b| - 1] == a + b[..n];
    }
  }

  lemma ValuesOfOne<T>(v: T)
    ensures Values([Value(v)]) == [v] && Values([Item<T>.Error]) == []
  {
    assert Values([Value(v)][..0]) == [];
    assert Values([Item<T>.Error][..0]) == [];
  }

  /** A slice of length `w` handed to the handler: a view of an array, not a copy. */
  datatype Slice<T> = Slice(arr: array<T>, off: nat)

  /** The slice, of length `w`, now shows `c`. */
  ghost predicate Shows<T>(s: Slice<T>, c: seq<T>, w: nat)
    reads s.arr
  {
    s.off + w <= s.arr.Length && s.arr[s.off..s.off + w] == c
  }

  function Last<T>(s: seq<T>, w: nat): (r: seq<T>)
    requires w <= |s|
  {
    s[|s| - w..]
  }

  // ---------------------------------------------------------------- what the operator promises

  /**
   The number, counted from 1, of the value that causes call `k`: the `slide`-th from value `w` on, then every `slide`.
   */
  function CallAt(k: nat, w: nat, slide: nat): (n: nat)
    requires w > 0
    ensures k > 0 ==> n >= w - 1 + slide
  {
    if k == 0 then w - 1 else CallAt(k - 1, w, slide) + slide
  }

  /** How many calls the first `n` values cause. */
  function Calls(n: nat, w: nat, slide: nat): (c: nat)
    requires w > 0 && slide > 0
  {
    if n < w - 1 + slide then 0 else 1 + Calls(n - slide, w, slide)
  }

  lemma {:induction false} CallAtClosed(k: nat, w: nat, slide: nat)
    requires w > 0
    ensures CallAt(k, w, slide) == w - 1 + k * slide
  {
    if k > 0 {
      CallAtClosed(k - 1, w, slide);
    }
  }

  predicate Multiple(m: nat, slide: nat)
    requires slide > 0
  {
    m == 0 || (m >= slide && Multiple(m - slide, slide))
  }

  lemma {:induction false} MultipleIsMod(m: nat, slide: nat)
    requires slide > 0
    ensures Multiple(m, slide) <==> m % slide == 0
  {
    if m >= slide {
      MultipleIsMod(m - slide, slide);
      var q, r := (m - slide) / slide, (m - slide) % slide;
      assert m - slide == q * slide + r;
      assert m == (q + 1) * slide + r;
      ModUnique(m, q + 1, slide, r);
    } else {
      ModUnique(m, 0, slide, m);
    }
  }

  method IsMultiple(m: nat, slide: nat) returns (b: bool)
    requires slide > 0
    ensures b == Multiple(m, slide)
  {
    b := m % slide == 0;
    MultipleIsMod(m, slide);
  }

  lemma TimesAtLeast(d: int, slide: nat)
    requires slide > 0
    ensures d > 0 ==> d * slide >= slide
    ensures d < 0 ==> d * slide + slide <= 0
  {
    if d > 0 {
      assert d * slide == (d - 1) * slide + slide;
      assert (d - 1) * slide >= 0;
    } else if d < 0 {
      assert d * slide == -((-d - 1) * slide) - slide;
      assert (-d - 1) * slide >= 0;
    }
  }

  lemma ModUnique(m: nat, q: nat, slide: nat, r: nat)
    requires r < slide && m == q * slide + r
    ensures m % slide == r
  {
    var d := m / slide - q;
    assert m == (m / slide) * slide + m % slide;
    assert d * slide == r - m % slide;
    TimesAtLeast(d, slide);
  }

  /** Value `n` causes a call exactly when the slide counter, which is n-w+1, has become a multiple of the slide. */
  lemma {:induction false} CallsStep(n: nat, w: nat, slide: nat)
    requires w > 0 && slide > 0 && n >= w
    ensures Multiple(n - w + 1, slide) ==>
      Calls(n, w, slide) == Calls(n - 1, w, slide) + 1 && CallAt(Calls(n, w, slide), w, slide) == n
    ensures !Multiple(n - w + 1, slide) ==> Calls(n, w, slide) == Calls(n - 1, w, slide)
    ensures Calls(n, w, slide) == 0 <==> n < w + slide - 1
    decreases n
  {
    if n >= w + slide {
      CallsStep(n - slide, w, slide);
    } else if n == w + slide - 1 {
      assert Multiple(0, slide);
    }
  }

  /** The calls are caused exactly by the values number CallAt(1), CallAt(2), ... */
  lemma {:induction false} CallsCountCallAts(n: nat, w: nat, slide: nat)
    requires w > 0 && slide > 0
    ensures forall k: nat :: 0 < k ==> (k <= Calls(n, w, slide) <==> CallAt(k, w, slide) <= n)
    decreases n
  {
    if n < w - 1 + slide {
    } else {
      CallsCountCallAts(n - slide, w, slide);
      forall k: nat | 0 < k ensures k <= Calls(n, w, slide) <==> CallAt(k, w, slide) <= n {
        if k > 1 {
          assert k - 1 <= Calls(n - slide, w, slide) <==> CallAt(k - 1, w, slide) <= n - slide;
        }
      }
    }
  }

  /** What has gone through the buffer by value `n`: the first `w` values, then those from number `w + slide` on. */
  function Kept<T>(vs: seq<T>, w: nat, slide: nat, n: nat): (r: seq<T>)
    requires w > 0 && slide > 0 && w <= n <= |vs|
    ensures |r| >= w
  {
    if n < w + slide - 1 then vs[..w] else vs[..w] + vs[w + slide - 1..n]
  }

  /** The window of call `k`. */
  function WindowOf<T>(vs: seq<T>, w: nat, slide: nat, k: nat): (r: seq<T>)
    requires w > 0 && slide > 0 && k > 0 && CallAt(k, w, slide) <= |vs|
  {
    Last(Kept(vs, w, slide, CallAt(k, w, slide)), w)
  }

  /**
   Value by value: the window of call `k` runs on from place (k-1)*slide, skipping slide-1 values after the first `w`.
   */
  lemma WindowElements<T>(vs: seq<T>, w: nat, slide: nat, k: nat, j: nat)
    requires w > 0 && slide > 0 && k > 0 && CallAt(k, w, slide) <= |vs| && j < w
    ensures
      var place := (k - 1) * slide + j;
      var at := if place < w then place else place + slide - 1;
      0 <= at < |vs| && |WindowOf(vs, w, slide, k)| == w && WindowOf(vs, w, slide, k)[j] == vs[at]
  {
    var n, kept := CallAt(k, w, slide), (k - 1) * slide;
    CallAtClosed(k, w, slide);
    assert k * slide == kept + slide;
    assert n == w - 1 + kept + slide;
    assert kept >= 0;
    KeptElement(vs, w, slide, n, kept + j);
  }

  lemma KeptElement<T>(vs: seq<T>, w: nat, slide: nat, n: nat, place: nat)
    requires w > 0 && slide > 0 && w + slide - 1 <= n <= |vs| && place < n - slide + 1
    ensures |Kept(vs, w, slide, n)| == n - slide + 1
    ensures Kept(vs, w, slide, n)[place] == vs[if place < w then place else place + slide - 1]
  {
  }

  /** With a slide of one, every call gets exactly the last `w` values seen so far. */
  lemma SlideOneIsLastValues<T>(vs: seq<T>, w: nat, k: nat)
    requires w > 0 && k > 0 && CallAt(k, w, 1) <= |vs|
    ensures WindowOf(vs, w, 1, k) == Last(vs[..CallAt(k, w, 1)], w)
  {
    var n := CallAt(k, w, 1);
    assert Kept(vs, w, 1, n) == vs[..n];
  }

  // ---------------------------------------------------------------- the operator

  datatype Outcome = Thrown | Finished | HandlerFailed

  /** Every slice handed out still holds what it was handed out with, and none reaches beyond the current one. */
  ghost predicate Intact<T>(
    slices: seq<Slice<T>>, seen: seq<seq<T>>, w: nat, buf: array<T>, off: nat, arrays: set<array<T>>)
    reads arrays
  {
    && |seen| == |slices|
    && forall k :: 0 <= k < |slices| ==>
         && slices[k].arr in arrays
         && Shows(slices[k], seen[k], w)
         && (slices[k].arr == buf ==> slices[k].off <= off)
  }

  /**
   Go's append of `v` to the slice [off+1, off+w) of `buf`: with spare capacity it writes the array in place, behind
   every slice handed out; without, it copies to a new array of some sufficient capacity.
   */
  method Append<T(0)>(
    buf: array<T>, off: nat, w: nat, v: T,
    ghost slices: seq<Slice<T>>, ghost seen: seq<seq<T>>, ghost arrays: set<array<T>>)
      returns (buf': array<T>, off': nat)
    requires 0 < w && off + w <= buf.Length && Intact(slices, seen, w, buf, off, arrays)
    modifies buf
    ensures off' + w <= buf'.Length
    ensures buf'[off'..off' + w] == old(buf[off..off + w])[1..] + [v]
    ensures buf' == buf || fresh(buf')
    ensures Intact(slices, seen, w, buf', off', arrays)
  {
    if off + w < buf.Length {
      buf[off + w] := v;
      buf', off' := buf, off + 1;
    } else {
      var capacity: nat :| capacity >= w;
      buf', off' := new T[capacity], 0;
      for j := 0 to w - 1
        invariant fresh(buf')
        invariant forall i :: 0 <= i < j ==> buf'[i] == buf[off + 1 + i]
        modifies buf'
      {
        buf'[j] := buf[off + 1 + j];
      }
      buf'[w - 1] := v;
    }
    assert buf'[off'..off' + w] == old(buf[off..off + w])[1..] + [v];
  }

  lemma KeptStays<T>(vs: seq<T>, w: nat, slide: nat, n: nat)
    requires w > 0 && slide > 0 && w < n < w + slide && n <= |vs|
    ensures Kept(vs, w, slide, n) == Kept(vs, w, slide, n - 1)
  {
    if n == w + slide - 1 {
      assert vs[..w] + vs[n..n] == vs[..w];
    }
  }

  lemma KeptGrows<T>(vs: seq<T>, w: nat, slide: nat, n: nat)
    requires w > 0 && slide > 0 && w + slide <= n <= |vs|
    ensures Kept(vs, w, slide, n) == Kept(vs, w, slide, n - 1) + [vs[n - 1]]
  {
    var from := w + slide - 1;
    assert vs[from..n] == vs[from..n - 1] + [vs[n - 1]];
    assert vs[from..from] == [];
  }

  lemma LastSlides<T>(s: seq<T>, x: T, w: nat)
    requires 0 < w <= |s|
    ensures Last(s + [x], w) == Last(s, w)[1..] + [x]
  {
  }

  lemma {:induction false} ValuesPrefix<T>(items: seq<Item<T>>, i: nat)
    requires i <= |items|
    ensures Values(items[..i]) <= Values(items)
    decreases |items| - i
  {
    if i == |items| {
      assert items[..i] == items;
    } else {
      ValuesPrefix(items, i + 1);
      var more := items[..i + 1];
      assert more[..|more| - 1] == items[..i];
      assert Values(items[..i]) <= Values(more);
    }
  }

  // ---------------------------------------------------------------- the loop on values

  /** The loop's variables with the buffer as a value, and the windows the handler has been called with. */
  datatype Loop<T> = Loop(window: seq<T>, currentSlideCount: nat, firstTimeSend: bool, seen: seq<seq<T>>)

  /** A full window slides, unless the handler has not been called yet. */
  function Advanced<T>(l: Loop<T>, v: T): (l': Loop<T>)
    requires |l.window| > 0
  {
    l.(window := if l.firstTimeSend then l.window else l.window[1..] + [v],
       currentSlideCount := l.currentSlideCount + 1)
  }

  function Called<T>(l: Loop<T>): (l': Loop<T>) {
    l.(firstTimeSend := false, seen := l.seen + [l.window])
  }

  /** The window is full: it advances, and the handler is called at each multiple of the slide. */
  function Turn<T>(l: Loop<T>, slide: nat, v: T): (l': Loop<T>)
    requires slide > 0 && |l.window| > 0
  {
    if Multiple(l.currentSlideCount + 1, slide) then Called(Advanced(l, v)) else Advanced(l, v)
  }

  /** One pass of the loop body for a non-error value. */
  function Step<T>(l: Loop<T>, w: nat, slide: nat, v: T): (l': Loop<T>)
    requires w > 0 && slide > 0 && |l.window| <= w
    ensures |l'.window| <= w
  {
    var filled := l.(window := if |l.window| < w then l.window + [v] else l.window);
    if |filled.window| < w then filled else Turn(filled, slide, v)
  }

  /** The loop after the values `vs`, if no handler call fails. */
  function After<T>(vs: seq<T>, w: nat, slide: nat): (l: Loop<T>)
    requires w > 0 && slide > 0
    ensures |l.window| <= w
  {
    if vs == [] then Loop([], 0, true, []) else Step(After(vs[..|vs| - 1], w, slide), w, slide, vs[|vs| - 1])
  }

  /** What the buffer holds after all of `vs`. */
  function Held<T>(vs: seq<T>, w: nat, slide: nat): (r: seq<T>)
    requires w > 0 && slide > 0
  {
    if |vs| < w then vs else Last(Kept(vs, w, slide, |vs|), w)
  }

  /** How the buffer changes with the last of `vs`: it fills, keeps its first window, then slides. */
  lemma HeldStep<T>(vs: seq<T>, w: nat, slide: nat)
    requires w > 0 && slide > 0 && |vs| > 0
    ensures var n, before := |vs|, Held(vs[..|vs| - 1], w, slide);
      Held(vs, w, slide) ==
        if n <= w then before + [vs[n - 1]] else if n < w + slide then before else before[1..] + [vs[n - 1]]
  {
    if |vs| > w {
      HeldBefore(vs, w, slide);
      HeldSlides(vs, Held(vs[..|vs| - 1], w, slide), w, slide);
    } else {
      HeldFills(vs, w, slide);
    }
  }

  lemma HeldFills<T>(vs: seq<T>, w: nat, slide: nat)
    requires w > 0 && slide > 0 && 0 < |vs| <= w
    ensures Held(vs, w, slide) == vs && vs == Held(vs[..|vs| - 1], w, slide) + [vs[|vs| - 1]]
  {
    if |vs| == w {
      assert vs[..w] == vs;
    }
  }

  lemma HeldSlides<T>(vs: seq<T>, before: seq<T>, w: nat, slide: nat)
    requires w > 0 && slide > 0 && w < |vs| && before == Last(Kept(vs, w, slide, |vs| - 1), w)
    ensures Held(vs, w, slide) == if |vs| < w + slide then before else before[1..] + [vs[|vs| - 1]]
  {
    if |vs| < w + slide {
      KeptStays(vs, w, slide, |vs|);
    } else {
      KeptGrows(vs, w, slide, |vs|);
      LastSlides(Kept(vs, w, slide, |vs| - 1), vs[|vs| - 1], w);
    }
  }

  lemma HeldBefore<T>(vs: seq<T>, w: nat, slide: nat)
    requires w > 0 && slide > 0 && w < |vs|
    ensures Held(vs[..|vs| - 1], w, slide) == Last(Kept(vs, w, slide, |vs| - 1), w)
  {
    KeptPrefix(vs[..|vs| - 1], vs, w, slide, |vs| - 1);
  }

  lemma KeptPrefix<T>(vs: seq<T>, more: seq<T>, w: nat, slide: nat, n: nat)
    requires w > 0 && slide > 0 && w <= n <= |vs| && vs <= more
    ensures Kept(vs, w, slide, n) == Kept(more, w, slide, n)
  {
    assert vs[..w] == more[..w];
    if n >= w + slide - 1 {
      assert vs[w + slide - 1..n] == more[w + slide - 1..n];
    }
  }

  /** The loop's counters after `n` values. */
  ghost predicate Counted<T>(l: Loop<T>, n: nat, w: nat, slide: nat)
    requires w > 0 && slide > 0
  {
    && |l.window| == (if n < w then n else w)
    && l.currentSlideCount == (if n < w then 0 else n - w + 1)
    && |l.seen| == Calls(n, w, slide)
    && (l.firstTimeSend <==> |l.seen| == 0)
  }

  lemma StepCounted<T>(l: Loop<T>, n: nat, w: nat, slide: nat, v: T)
    requires w > 0 && slide > 0 && |l.window| <= w && Counted(l, n, w, slide)
    ensures Counted(Step(l, w, slide, v), n + 1, w, slide)
  {
    if n + 1 >= w {
      CallsStep(n + 1, w, slide);
    }
  }

  lemma SeenStep<T>(l: Loop<T>, w: nat, slide: nat, v: T)
    requires w > 0 && slide > 0 && |l.window| <= w
    ensures var l' := Step(l, w, slide, v);
      l'.seen == l.seen || l'.seen == l.seen + [l'.window]
  {
  }

  lemma WindowStep<T>(l: Loop<T>, vs: seq<T>, w: nat, slide: nat)
    requires w > 0 && slide > 0 && |vs| > 0 && |l.window| <= w
    requires Counted(l, |vs| - 1, w, slide) && l.window == Held(vs[..|vs| - 1], w, slide)
    ensures Step(l, w, slide, vs[|vs| - 1]).window == Held(vs, w, slide)
  {
    HeldStep(vs, w, slide);
    FirstCallComes(|vs|, w, slide);
  }

  /** No call has happened before value `n` exactly when `n` is at most the one causing the first. */
  lemma FirstCallComes(n: nat, w: nat, slide: nat)
    requires w > 0 && slide > 0 && n > 0
    ensures Calls(n - 1, w, slide) == 0 <==> n < w + slide
  {
  }

  lemma {:induction false} LoopCounted<T>(vs: seq<T>, w: nat, slide: nat)
    requires w > 0 && slide > 0
    ensures Counted(After(vs, w, slide), |vs|, w, slide)
  {
    if vs != [] {
      var rest := vs[..|vs| - 1];
      LoopCounted(rest, w, slide);
      StepCounted(After(rest, w, slide), |rest|, w, slide, vs[|vs| - 1]);
    }
  }

  lemma {:induction false} LoopHolds<T>(vs: seq<T>, w: nat, slide: nat)
    requires w > 0 && slide > 0
    ensures After(vs, w, slide).window == Held(vs, w, slide)
  {
    if vs != [] {
      var rest := vs[..|vs| - 1];
      LoopCounted(rest, w, slide);
      LoopHolds(rest, w, slide);
      WindowStep(After(rest, w, slide), vs, w, slide);
    }
  }

  lemma WindowOfPrefix<T>(vs: seq<T>, more: seq<T>, w: nat, slide: nat, k: nat)
    requires w > 0 && slide > 0 && k > 0 && CallAt(k, w, slide) <= |vs| && vs <= more
    ensures WindowOf(vs, w, slide, k) == WindowOf(more, w, slide, k)
  {
    KeptPrefix(vs, more, w, slide, CallAt(k, w, slide));
  }

  /** If the last value caused a call, it is the one at its number, and got what the buffer now holds. */
  lemma NewestCall<T>(vs: seq<T>, w: nat, slide: nat)
    requires w > 0 && slide > 0 && |vs| > 0
    requires |After(vs, w, slide).seen| > |After(vs[..|vs| - 1], w, slide).seen|
    ensures var l, before := After(vs, w, slide), After(vs[..|vs| - 1], w, slide);
      |vs| >= w && CallAt(|l.seen|, w, slide) == |vs| && l.seen == before.seen + [Held(vs, w, slide)]
  {
    var rest := vs[..|vs| - 1];
    LoopCounted(vs, w, slide);
    LoopCounted(rest, w, slide);
    LoopHolds(vs, w, slide);
    SeenStep(After(rest, w, slide), w, slide, vs[|vs| - 1]);
    if |vs| >= w {
      CallsStep(|vs|, w, slide);
    }
  }

  /** An earlier call's window is unaffected by the last of `vs`. */
  lemma OlderStaysPromised<T>(vs: seq<T>, w: nat, slide: nat, k: nat)
    requires w > 0 && slide > 0 && |vs| > 0
    requires var rest := vs[..|vs| - 1];
      0 < k <= |After(rest, w, slide).seen| && CallAt(k, w, slide) <= |rest|
      && After(rest, w, slide).seen[k - 1] == WindowOf(rest, w, slide, k)
    ensures k <= |After(vs, w, slide).seen| && After(vs, w, slide).seen[k - 1] == WindowOf(vs, w, slide, k)
  {
    var rest := vs[..|vs| - 1];
    SeenStep(After(rest, w, slide), w, slide, vs[|vs| - 1]);
    WindowOfPrefix(rest, vs, w, slide, k);
  }

  /** The handler's calls are the promised ones, in order. */
  lemma {:induction false} LoopHandsOutPromised<T>(vs: seq<T>, w: nat, slide: nat, k: nat)
    requires w > 0 && slide > 0 && 0 < k <= |After(vs, w, slide).seen|
    ensures CallAt(k, w, slide) <= |vs| && After(vs, w, slide).seen[k - 1] == WindowOf(vs, w, slide, k)
  {
    var rest := vs[..|vs| - 1];
    if k <= |After(rest, w, slide).seen| {
      LoopHandsOutPromised(rest, w, slide, k);
      OlderStaysPromised(vs, w, slide, k);
    } else {
      NewestCall(vs, w, slide);
    }
  }

  // ---------------------------------------------------------------- the loop on the heap

  /** The variables of the operator's receive loop. */
  class Operator<T(0)> {
    const w: nat
    const slide: nat
    var windowCount: nat
    var currentSlideCount: nat
    var buf: array<T>
    var off: nat
    var firstTimeSend: bool
    var slices: seq<Slice<T>>
    ghost var seen: seq<seq<T>>
    ghost var arrays: set<array<T>>   // those of the slices handed out
    ghost var window: seq<T>          // what the buffer holds

    ghost predicate Valid()
      reads this, buf, arrays
    {
      && 0 < w && 0 < slide && windowCount <= w && off + w <= buf.Length
        && (windowCount < w ==> off == 0 && slices == [])
      && buf[off..off + windowCount] == window
      && Intact(slices, seen, w, buf, off, arrays)
    }

    ghost function Abstract(): (l: Loop<T>)
      reads this
    {
      Loop(window, currentSlideCount, firstTimeSend, seen)
    }

    constructor (windowSize: nat, slideSize: nat)
      requires windowSize > 0 && slideSize > 0
      ensures Valid() && w == windowSize && slide == slideSize && fresh(buf)
      ensures slices == [] && Abstract() == After([], windowSize, slideSize)
    {
      w, slide := windowSize, slideSize;
      windowCount, currentSlideCount, off, firstTimeSend := 0, 0, 0, true;
      buf := new T[windowSize];
      slices, seen, arrays, window := [], [], {}, [];
    }

    /** The value fills the next free place, if there is one. */
    method Fill(v: T)
      requires Valid()
      modifies this`windowCount, this`window, buf
      ensures Valid()
      ensures window == if old(windowCount) < w then old(window) + [v] else old(window)
    {
      if windowCount < w {
        buf[windowCount] := v;
        windowCount := windowCount + 1;
        window := window + [v];
      }
    }

    /** The handler gets the buffer itself. */
    method Hand()
      requires Valid() && windowCount == w
      modifies this`slices, this`seen, this`arrays, this`firstTimeSend
      ensures Valid() && slices == old(slices) + [Slice(buf, off)]
      ensures Abstract() == Called(old(Abstract()))
    {
      slices, seen, arrays := slices + [Slice(buf, off)], seen + [window], arrays + {buf};
      firstTimeSend := false;
    }

    /** The value slides the full window. */
    method Slide(v: T)
      requires Valid() && windowCount == w
      modifies this`buf, this`off, this`window, buf
      ensures Valid() && (buf == old(buf) || fresh(buf))
      ensures window == old(window)[1..] + [v]
    {
      window := window[1..] + [v];
      var buf', off' := Append(buf, off, w, v, slices, seen, arrays);
      assert buf'[off'..off' + w] == window;
      buf, off := buf', off';
    }

    /**
     The window is full: it slides once the handler has been called, and the handler is called at each multiple of the
     slide.
     */
    method TurnOver(v: T, ok: nat -> bool) returns (failed: bool)
      requires Valid() && windowCount == w
      modifies this, buf
      ensures Valid() && (buf == old(buf) || fresh(buf))
      ensures Abstract() == Turn(old(Abstract()), slide, v)
      ensures failed <==> |seen| > |old(seen)| && !ok(|seen|)
    {
      failed := false;
      Advance(v);
      var reached := IsMultiple(currentSlideCount, slide);
      if reached {
        Hand();
        failed := !ok(|slices|);
      }
    }

    /** The counter goes on, and the window slides unless the handler has not been called yet. */
    method Advance(v: T)
      requires Valid() && windowCount == w
      modifies this`buf, this`off, this`window, this`currentSlideCount, buf
      ensures Valid() && (buf == old(buf) || fresh(buf))
      ensures Abstract() == Advanced(old(Abstract()), v)
    {
      currentSlideCount := currentSlideCount + 1;
      if !firstTimeSend {
        Slide(v);
      }
    }

    /** One non-error value. */
    method Receive(v: T, ok: nat -> bool) returns (failed: bool)
      requires Valid()
      modifies this, buf
      ensures Valid() && (buf == old(buf) || fresh(buf))
      ensures Abstract() == Step(old(Abstract()), w, slide, v)
      ensures failed <==> |seen| > |old(seen)| && !ok(|seen|)
    {
      failed := false;
      Fill(v);
      if windowCount == w {
        failed := TurnOver(v, ok);
      }
    }
  }

  /** The windows are the promised ones for the stream `vs`, one call after the other. */
  ghost predicate Promised<T>(seen: seq<seq<T>>, vs: seq<T>, w: nat, slide: nat)
    requires w > 0 && slide > 0
  {
    forall k :: 0 < k <= |seen| ==> CallAt(k, w, slide) <= |vs| && seen[k - 1] == WindowOf(vs, w, slide, k)
  }

  lemma AfterIsPromised<T>(vs: seq<T>, w: nat, slide: nat)
    requires w > 0 && slide > 0
    ensures Promised(After(vs, w, slide).seen, vs, w, slide)
  {
    forall k | 0 < k <= |After(vs, w, slide).seen|
      ensures CallAt(k, w, slide) <= |vs| && After(vs, w, slide).seen[k - 1] == WindowOf(vs, w, slide, k)
    {
      LoopHandsOutPromised(vs, w, slide, k);
    }
  }

  method TakeValue<T(0)>(op: Operator<T>, v: T, ghost got: seq<T>, ok: nat -> bool) returns (failed: bool)
    requires op.Valid() && op.Abstract() == After(got, op.w, op.slide) && AllOk(|op.seen|, ok)
    modifies op, op.buf
    ensures op.Valid() && (op.buf == old(op.buf) || fresh(op.buf))
    ensures op.Abstract() == After(got + [v], op.w, op.slide)
    ensures if failed then LastFailed(got + [v], got, op.w, op.slide, ok) else AllOk(|op.seen|, ok)
  {
    AfterGrows(got, v, op.w, op.slide);
    failed := op.Receive(v, ok);
  }

  /** One pass of the receive loop; an error item changes nothing. */
  method TakeItem<T(0)>(op: Operator<T>, item: Item<T>, ghost got: seq<T>, sent: seq<T>, ok: nat -> bool)
      returns (failed: bool, ghost got': seq<T>, sent': seq<T>)
    requires op.Valid() && op.Abstract() == After(got, op.w, op.slide) && AllOk(|op.seen|, ok) && sent == got
    modifies op, op.buf
    ensures op.Valid() && (op.buf == old(op.buf) || fresh(op.buf))
    ensures got' == (if item.Value? then got + [item.v] else got) && op.Abstract() == After(got', op.w, op.slide)
    ensures if failed then LastFailed(got', sent', op.w, op.slide, ok) else sent' == got' && AllOk(|op.seen|, ok)
  {
    failed, got', sent' := false, got, sent;
    if item.Value? {
      failed := TakeValue(op, item.v, got, ok);
      got' := got + [item.v];
      if !failed {
        sent' := sent + [item.v];
      }
    }
  }

  /** The receive loop: `i` items are taken, all of them unless a handler call fails. */
  method Loops<T(0)>(w: nat, slide: nat, items: seq<Item<T>>, ok: nat -> bool)
      returns (failed: bool, i: nat, slices: seq<Slice<T>>, ghost seen: seq<seq<T>>, sent: seq<T>)
    requires w > 0 && slide > 0
    ensures i <= |items| && (!failed ==> i == |items|)
    ensures seen == After(Values(items[..i]), w, slide).seen
    ensures if failed then LastFailed(Values(items[..i]), sent, w, slide, ok)
      else sent == Values(items[..i]) && AllOk(|seen|, ok)
    ensures |slices| == |seen| && forall k :: 0 <= k < |slices| ==> Shows(slices[k], seen[k], w)
  {
    var op := new Operator<T>(w, slide);
    failed, sent, i := false, [], 0;
    ghost var got: seq<T> := [];   // the values received
    while i < |items| && !failed
      invariant i <= |items| && got == Values(items[..i])
      invariant fresh(op) && fresh(op.buf) && op.Valid() && op.w == w && op.slide == slide
      invariant op.Abstract() == After(got, w, slide)
      invariant if failed then LastFailed(got, sent, w, slide, ok) else sent == got && AllOk(|op.seen|, ok)
    {
      assert items[..i + 1][..i] == items[..i];
      failed, got, sent := TakeItem(op, items[i], got, sent, ok);
      i := i + 1;
    }
    slices, seen := op.slices, op.seen;
  }

  /**
   The operator over the items received before the context ends. `ok(k)` is the handler's verdict on call `k`; the
   handler only reads its slice. `slices` are the slices handed out, in order, `seen` what each held at that moment and
   `sent` the values passed on. At the end of this run, which may be any prefix of a longer one, every slice still
   shows what it showed then.
   */
  method SlidingWindowWithCount<T(0)>(windowSize: int, slideSize: int, items: seq<Item<T>>, ok: nat -> bool)
      returns (outcome: Outcome, slices: seq<Slice<T>>, ghost seen: seq<seq<T>>, sent: seq<T>)
    ensures outcome.Thrown? <==> windowSize <= 0 || slideSize <= 0
    ensures outcome.Thrown? ==> slices == [] && sent == []
    ensures !outcome.Thrown? ==>
      var w, slide, vs := windowSize, slideSize, Values(items);
      && Promised(seen, vs, w, slide)
      && |slices| == |seen| && (forall k :: 0 <= k < |slices| ==> Shows(slices[k], seen[k], w))
      && (forall k :: 0 < k < |slices| ==> ok(k))
      && (outcome.Finished? ==> |slices| == Calls(|vs|, w, slide) && (|slices| > 0 ==> ok(|slices|)) && sent == vs)
      && (outcome.HandlerFailed? ==> |slices| > 0 && !ok(|slices|) && sent == vs[..CallAt(|slices|, w, slide) - 1])
  {
    if windowSize <= 0 || slideSize <= 0 {
      return Thrown, [], [], [];
    }
    var failed, i;
    failed, i, slices, seen, sent := Loops(windowSize, slideSize, items, ok);
    Summarize(items, i, sent, windowSize, slideSize, ok, failed);
    outcome := if failed then HandlerFailed else Finished;
  }

  /** The handler's first `n` calls succeed. */
  ghost predicate AllOk(n: nat, ok: nat -> bool) {
    forall k :: 0 < k <= n ==> ok(k)
  }

  /** The last of the values received caused the only call that failed, and is not passed on. */
  ghost predicate LastFailed<T>(got: seq<T>, sent: seq<T>, w: nat, slide: nat, ok: nat -> bool)
    requires w > 0 && slide > 0
  {
    && |got| > 0 && sent == got[..|got| - 1]
    && |After(got, w, slide).seen| == |After(sent, w, slide).seen| + 1
    && AllOk(|After(sent, w, slide).seen|, ok) && !ok(|After(got, w, slide).seen|)
  }

  lemma AfterGrows<T>(vs: seq<T>, v: T, w: nat, slide: nat)
    requires w > 0 && slide > 0
    ensures After(vs + [v], w, slide) == Step(After(vs, w, slide), w, slide, v)
    ensures |After(vs, w, slide).seen| <= |After(vs + [v], w, slide).seen| <= |After(vs, w, slide).seen| + 1
  {
    assert (vs + [v])[..|vs|] == vs;
    SeenStep(After(vs, w, slide), w, slide, v);
  }

  /** What the first `i` items amount to for the whole stream. */
  lemma Summarize<T>(items: seq<Item<T>>, i: nat, sent: seq<T>, w: nat, slide: nat, ok: nat -> bool, failed: bool)
    requires w > 0 && slide > 0 && i <= |items| && (!failed ==> i == |items|)
    requires var got := Values(items[..i]);
      if failed then LastFailed(got, sent, w, slide, ok) else sent == got && AllOk(|After(got, w, slide).seen|, ok)
    ensures var vs, seen := Values(items), After(Values(items[..i]), w, slide).seen;
      && Promised(seen, vs, w, slide)
      && (!failed ==> |seen| == Calls(|vs|, w, slide) && sent == vs)
      && (failed ==> |seen| > 0 && sent == vs[..CallAt(|seen|, w, slide) - 1])
  {
    var vs, got := Values(items), Values(items[..i]);
    ValuesPrefix(items, i);
    StillPromised(got, vs, w, slide);
    LoopCounted(got, w, slide);
    if failed {
      NewestCall(got, w, slide);
    } else {
      assert items[..i] == items;
    }
  }

  lemma StillPromised<T>(got: seq<T>, vs: seq<T>, w: nat, slide: nat)
    requires w > 0 && slide > 0 && got <= vs
    ensures Promised(After(got, w, slide).seen, vs, w, slide)
  {
    var seen := After(got, w, slide).seen;
    AfterIsPromised(got, w, slide);
    forall k | 0 < k <= |seen| ensures CallAt(k, w, slide) <= |vs| && seen[k - 1] == WindowOf(vs, w, slide, k) {
      WindowOfPrefix(got, vs, w, slide, k);
    }
  }
}
