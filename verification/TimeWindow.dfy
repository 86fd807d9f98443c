/**
 The time-based sliding window (rx/stream_operator.go, SlidingWindowWithTime). Each check throws away what has become
 too old and hands over the rest; it never looks at the whole stream again.
 */
module TimeWindow {
  import opened Common

  datatype Stamped<T> = Stamped(at: int, data: T)

  /** What happens to the operator, in the order in which its mutex is taken: values, errors, and the two timers. */
  datatype Event<T> =
    | Item(at: int, v: T)
    | ErrorItem
    | WindowTimer(at: int)
    | SlideTimer(at: int)
    | Stop(at: int)

  function NotBefore<T>(items: seq<Stamped<T>>, t: int): (r: seq<Stamped<T>>) {
    if items == [] then []
    else
      var rest, last := NotBefore(items[..|items| - 1], t), items[|items| - 1];
      if last.at >= t then rest + [last] else rest
  }

  function Data<T>(items: seq<Stamped<T>>): (r: seq<T>)
    ensures |r| == |items|
  {
    seq(|items|, i requires 0 <= i < |items| => items[i].data)
  }

  /** Every value ever received, with the time it was. */
  function History<T>(events: seq<Event<T>>): (r: seq<Stamped<T>>) {
    if events == [] then []
    else
      var rest, last := History(events[..|events| - 1]), events[|events| - 1];
      if last.Item? then rest + [Stamped(last.at, last.v)] else rest
  }

  predicate IsTimer<T>(e: Event<T>) {
    e.WindowTimer? || e.SlideTimer? || e.Stop?
  }

  /** The last event checks the buffer: the window timer does so only as the first timer of all. */
  predicate Checks<T>(events: seq<Event<T>>)
    requires |events| > 0
  {
    var last := events[|events| - 1];
    last.SlideTimer? || last.Stop? || (last.WindowTimer? && NoTimer(events[..|events| - 1]))
  }

  predicate NoTimer<T>(events: seq<Event<T>>) {
    forall i :: 0 <= i < |events| ==> !IsTimer(events[i])
  }

  /** The reference: each check filters the whole history, and calls the handler unless nothing is left. */
  function NaiveCalls<T>(events: seq<Event<T>>, window: nat): (calls: seq<seq<T>>) {
    if events == [] then []
    else
      var rest, last := events[..|events| - 1], events[|events| - 1];
      var calls := NaiveCalls(rest, window);
      if !Checks(events) then calls
      else
        var live := NotBefore(History(rest), last.at - window);
        if live == [] then calls else calls + [Data(live)]
  }

  function TimeOf<T>(e: Event<T>): (t: Option<int>) {
    if e.ErrorItem? then None else Some(e.at)
  }

  /** The clock never goes back. */
  ghost predicate Monotone<T>(events: seq<Event<T>>) {
    forall i, j :: 0 <= i < j < |events| && TimeOf(events[i]).Some? && TimeOf(events[j]).Some? ==>
      events[i].at <= events[j].at
  }

  // ---------------------------------------------------------------- filtering

  lemma {:induction false} FilterAppends<T>(items: seq<Stamped<T>>, x: Stamped<T>, t: int)
    ensures NotBefore(items + [x], t) == NotBefore(items, t) + (if x.at >= t then [x] else [])
  {
    assert (items + [x])[..|items|] == items;
  }

  /** An item is kept exactly if it is not older than the bound, wherever it stands; order is kept. */
  lemma {:induction false} FilterConcat<T>(a: seq<Stamped<T>>, b: seq<Stamped<T>>, t: int)
    ensures NotBefore(a + b, t) == NotBefore(a, t) + NotBefore(b, t)
    decreases |b|
  {
    if b == [] {
      assert a + b == a;
    } else {
      var n := |b| - 1;
      FilterConcat(a, b[..n], t);
      assert a + b == (a + b[..n]) + [b[n]];
      FilterAppends(a + b[..n], b[n], t);
    }
  }

  lemma FilterOfOne<T>(x: Stamped<T>, t: int)
    ensures NotBefore([x], t) == if x.at >= t then [x] else []
  {
    assert [x][..0] == [];
  }

  /** The history is what has been received, in order, each value with its time; nothing else adds to it. */
  lemma {:induction false} HistoryConcat<T>(a: seq<Event<T>>, b: seq<Event<T>>)
    ensures History(a + b) == History(a) + History(b)
    decreases |b|
  {
    if b == [] {
      assert a + b == a;
    } else {
      var n, all := |b| - 1, a + b;
      HistoryConcat(a, b[..n]);
      assert all[..|all| - 1] == a + b[..n] && all[|all| - 1] == b[n];
    }
  }

  lemma HistoryOfOne<T>(e: Event<T>)
    ensures History([e]) == match e case Item(at, v) => [Stamped(at, v)] case _ => []
  {
    assert [e][..0] == [];
  }

  /**
   The reference, event by event: a slide timer and the stop check the buffer,
     a window timer only if no timer and no stop
   came before it, and an item or an error never; a check calls the handler with the data not older than the window,
     unless
   there is none.
   */
  lemma ReferenceCalls<T>(before: seq<Event<T>>, e: Event<T>, window: nat)
    ensures e.Item? || e.ErrorItem? ==> NaiveCalls(before + [e], window) == NaiveCalls(before, window)
    ensures e.WindowTimer? && !(forall x :: x in before ==> x.Item? || x.ErrorItem?) ==>
      NaiveCalls(before + [e], window) == NaiveCalls(before, window)
    ensures e.SlideTimer? || e.Stop? || (e.WindowTimer? && forall x :: x in before ==> x.Item? || x.ErrorItem?) ==>
      var live := NotBefore(History(before), e.at - window);
      NaiveCalls(before + [e], window) == NaiveCalls(before, window) + if live == [] then [] else [Data(live)]
  {
    NaiveStep(before, e, window);
    if forall x :: x in before ==> x.Item? || x.ErrorItem? {
      forall i | 0 <= i < |before| ensures !IsTimer(before[i]) {
        assert before[i] in before;
      }
      assert NoTimer(before);
    } else {
      var x :| x in before && !(x.Item? || x.ErrorItem?);
      assert IsTimer(x);
    }
  }

  /** Filtering by an earlier bound first changes nothing. */
  lemma {:induction false} FilterTwice<T>(items: seq<Stamped<T>>, early: int, late: int)
    requires early <= late
    ensures NotBefore(NotBefore(items, early), late) == NotBefore(items, late)
  {
    if items != [] {
      var rest, last := items[..|items| - 1], items[|items| - 1];
      FilterTwice(rest, early, late);
      if last.at >= early {
        FilterAppends(NotBefore(rest, early), last, late);
      }
    }
  }

  /** The bound of the latest check. */
  function LastCut<T>(events: seq<Event<T>>, window: nat): (t: Option<int>) {
    if events == [] then None
    else if Checks(events) then Some(events[|events| - 1].at - window)
    else LastCut(events[..|events| - 1], window)
  }

  /** Everything received that the latest check would not throw away. */
  function Live<T>(events: seq<Event<T>>, window: nat): (r: seq<Stamped<T>>) {
    var cut := LastCut(events, window);
    if cut.None? then History(events) else NotBefore(History(events), cut.value)
  }

  // ---------------------------------------------------------------- the operator

  class Operator<T> {
    const window: nat
    var buf: seq<Stamped<T>>
    var firstTimeSend: bool
    var locked: bool                 // the mutex is held for ever

    constructor (windowTime: nat)
      ensures window == windowTime && buf == [] && firstTimeSend && !locked
    {
      window, buf, firstTimeSend, locked := windowTime, [], true, false;
    }

    method Receive(at: int, v: T)
      requires !locked
      modifies this`buf
      ensures buf == old(buf) + [Stamped(at, v)]
    {
      buf := buf + [Stamped(at, v)];
    }

    /**
     checkBuffer: `accepts` is the handler's verdict if it is called; an error returns without releasing the mutex.
     */
    method CheckBuffer(now: int, accepts: bool) returns (handed: Option<seq<T>>)
      requires !locked
      modifies this
      ensures buf == NotBefore(old(buf), now - window)
      ensures handed == if buf == [] then None else Some(Data(buf))
      ensures locked <==> handed.Some? && !accepts
      ensures !locked ==> !firstTimeSend
    {
      var updated: seq<Stamped<T>> := [];
      var available: seq<T> := [];
      var t := now - window;
      for i := 0 to |buf|
        invariant updated == NotBefore(buf[..i], t) && available == Data(updated)
        invariant !locked && buf == old(buf)
      {
        assert buf[..i + 1][..i] == buf[..i];
        if buf[i].at >= t {
          updated := updated + [buf[i]];
          available := available + [buf[i].data];
        }
      }
      assert buf[..|buf|] == buf;
      buf := updated;
      handed := None;
      if |available| != 0 {
        handed := Some(available);
        if !accepts {
          locked := true;
          return;
        }
      }
      firstTimeSend := false;
    }
  }

  lemma Appended<T>(before: seq<Event<T>>, e: Event<T>)
    ensures History(before + [e]) == History(before) + (if e.Item? then [Stamped(e.at, e.v)] else [])
    ensures Checks(before + [e]) <==> IsTimer(e) && (e.WindowTimer? ==> NoTimer(before))
    ensures NoTimer(before + [e]) <==> NoTimer(before) && !IsTimer(e)
  {
    var all := before + [e];
    assert all[..|before|] == before && all[|before|] == e;
    assert forall i :: 0 <= i < |before| ==> all[i] == before[i];
  }

  lemma {:induction false} CutIsEarlier<T>(before: seq<Event<T>>, e: Event<T>, window: nat)
    requires Monotone(before + [e]) && !e.ErrorItem?
    ensures LastCut(before, window).Some? ==> LastCut(before, window).value <= e.at - window
    decreases |before|
  {
    if before != [] {
      var rest, last := before[..|before| - 1], before[|before| - 1];
      var all := before + [e];
      assert all[|before| - 1] == last && all[|before|] == e;
      if Checks(before) {
        assert TimeOf(last).Some? && TimeOf(e).Some?;
      } else {
        forall i, j | 0 <= i < j < |rest + [e]| && TimeOf((rest + [e])[i]).Some? && TimeOf((rest + [e])[j]).Some?
          ensures (rest + [e])[i].at <= (rest + [e])[j].at
        {
          assert (rest + [e])[i] == all[i];
          assert (rest + [e])[j] == all[if j == |rest| then |before| else j];
        }
        CutIsEarlier(rest, e, window);
      }
    }
  }

  /** A value that arrives is live; nothing else changes what is. */
  lemma LiveFeed<T>(before: seq<Event<T>>, e: Event<T>, window: nat)
    requires Monotone(before + [e]) && !IsTimer(e)
    ensures Live(before + [e], window) == Live(before, window) + (if e.Item? then [Stamped(e.at, e.v)] else [])
  {
    Appended(before, e);
    assert (before + [e])[..|before|] == before;
    assert LastCut(before + [e], window) == LastCut(before, window);
    if e.Item? {
      CutIsEarlier(before, e, window);
      if LastCut(before, window).Some? {
        FilterAppends(History(before), Stamped(e.at, e.v), LastCut(before, window).value);
      }
    }
  }

  /** With a clock that never goes back, pruning what is live is filtering the whole history. */
  lemma LiveCheck<T>(before: seq<Event<T>>, e: Event<T>, window: nat)
    requires Monotone(before + [e]) && IsTimer(e)
    ensures Live(before + [e], window) == if Checks(before + [e]) then NotBefore(Live(before, window), e.at - window)
      else Live(before, window)
    ensures NotBefore(Live(before, window), e.at - window) == NotBefore(History(before), e.at - window)
  {
    Appended(before, e);
    assert (before + [e])[..|before|] == before;
    CutIsEarlier(before, e, window);
    var cut := LastCut(before, window);
    if cut.Some? {
      FilterTwice(History(before), cut.value, e.at - window);
    }
  }

  /**
   The handler was called with nonempty windows; it accepted every call but, on failure, the last. Calls count from 1.
   */
  ghost predicate Accepted<T>(calls: seq<seq<T>>, ok: nat -> bool, failed: bool) {
    && (failed ==> |calls| > 0)
    && forall k :: 0 <= k < |calls| ==> calls[k] != [] && (ok(k + 1) <==> !(failed && k == |calls| - 1))
  }

  lemma AcceptedGrows<T>(calls: seq<seq<T>>, ok: nat -> bool, call: seq<T>)
    requires Accepted(calls, ok, false) && call != []
    ensures Accepted(calls + [call], ok, !ok(|calls| + 1))
  {
  }

  lemma NaiveStep<T>(before: seq<Event<T>>, e: Event<T>, window: nat)
    ensures NaiveCalls(before + [e], window) ==
      if !(IsTimer(e) && (e.WindowTimer? ==> NoTimer(before))) then NaiveCalls(before, window)
      else
        var live := NotBefore(History(before), e.at - window);
        NaiveCalls(before, window) + (if live == [] then [] else [Data(live)])
  {
    assert (before + [e])[..|before|] == before;
  }

  /** The operator has seen `before`: it has buffered what is live, and knows whether a timer has fired. */
  ghost predicate Tracks<T>(buf: seq<Stamped<T>>, firstTimeSend: bool, before: seq<Event<T>>, window: nat) {
    buf == Live(before, window) && (firstTimeSend <==> NoTimer(before))
  }

  /** A value or an error item, after the events `before`. */
  method Feed<T>(op: Operator<T>, e: Event<T>, ghost before: seq<Event<T>>) returns (sent: seq<T>)
    requires !op.locked && Tracks(op.buf, op.firstTimeSend, before, op.window)
    requires !IsTimer(e) && Monotone(before + [e])
    modifies op`buf
    ensures Tracks(op.buf, op.firstTimeSend, before + [e], op.window)
    ensures NaiveCalls(before + [e], op.window) == NaiveCalls(before, op.window)
    ensures Data(History(before + [e])) == Data(History(before)) + sent
  {
    LiveFeed(before, e, op.window);
    Appended(before, e);
    NaiveStep(before, e, op.window);
    sent := [];
    if e.Item? {
      op.Receive(e.at, e.v);
      sent := [e.v];
    }
  }

  /** One firing of a timer, or the stop, after the events `before`. */
  method Fire<T>(op: Operator<T>, e: Event<T>, ghost before: seq<Event<T>>, accepts: bool)
      returns (handed: Option<seq<T>>)
    requires !op.locked && Tracks(op.buf, op.firstTimeSend, before, op.window)
    requires IsTimer(e) && Monotone(before + [e])
    modifies op
    ensures !op.locked ==> Tracks(op.buf, op.firstTimeSend, before + [e], op.window)
    ensures NaiveCalls(before + [e], op.window) ==
      NaiveCalls(before, op.window) + (if handed.Some? then [handed.value] else [])
    ensures handed.Some? ==> handed.value != []
    ensures op.locked <==> handed.Some? && !accepts
    ensures History(before + [e]) == History(before)
  {
    Appended(before, e);
    NaiveStep(before, e, op.window);
    LiveCheck(before, e, op.window);
    handed := None;
    if !e.WindowTimer? || op.firstTimeSend {
      handed := op.CheckBuffer(e.at, accepts);
    }
  }

  /** One event, whichever it is: the window handed over, and the value passed on. */
  method TakeEvent<T>(op: Operator<T>, e: Event<T>, ghost before: seq<Event<T>>, accepts: bool)
      returns (handed: Option<seq<T>>, value: seq<T>)
    requires !op.locked && Tracks(op.buf, op.firstTimeSend, before, op.window) && Monotone(before + [e])
    modifies op
    ensures !op.locked ==> Tracks(op.buf, op.firstTimeSend, before + [e], op.window)
    ensures NaiveCalls(before + [e], op.window) ==
      NaiveCalls(before, op.window) + (if handed.Some? then [handed.value] else [])
    ensures Data(History(before + [e])) == Data(History(before)) + value
    ensures handed.Some? ==> handed.value != []
    ensures op.locked <==> handed.Some? && !accepts
  {
    handed, value := None, [];
    if IsTimer(e) {
      handed := Fire(op, e, before, accepts);
    } else {
      value := Feed(op, e, before);
    }
  }

  lemma MonotoneSoFar<T>(events: seq<Event<T>>, n: nat)
    requires Monotone(events) && n < |events|
    ensures Monotone(events[..n] + [events[n]]) && events[..n + 1] == events[..n] + [events[n]]
  {
    assert events[..n + 1] == events[..n] + [events[n]];
  }

  /** The first `n` events are no stops. */
  predicate NoStop<T>(events: seq<Event<T>>, n: nat)
    requires n <= |events|
  {
    forall k :: 0 <= k < n ==> !events[k].Stop?
  }

  /**
   The operator over `events`, up to the stop or the first handler error (`ok(k)` is the handler's verdict on call `k`).
   The handler is called exactly as by the reference that filters the whole history at every check.
   */
  method SlidingWindowWithTime<T>(windowTime: nat, events: seq<Event<T>>, ok: nat -> bool)
      returns (n: nat, calls: seq<seq<T>>, sent: seq<T>, failed: bool)
    requires Monotone(events)
    ensures n <= |events| && calls == NaiveCalls(events[..n], windowTime)
    ensures sent == Data(History(events[..n]))
    ensures Accepted(calls, ok, failed)
    ensures !failed && n < |events| ==> n > 0 && events[n - 1].Stop?
    ensures n > 0 ==> NoStop(events, n - 1)
  {
    var op := new Operator<T>(windowTime);
    n, calls, sent, failed := 0, [], [], false;
    ghost var before: seq<Event<T>> := [];
    var stopped := false;
    while n < |events| && !failed && !stopped
      invariant n <= |events| && fresh(op) && op.window == windowTime && before == events[..n]
      invariant calls == NaiveCalls(before, windowTime) && sent == Data(History(before))
      invariant op.locked == failed && (!failed ==> Tracks(op.buf, op.firstTimeSend, before, windowTime))
      invariant Accepted(calls, ok, failed)
      invariant if stopped || failed then n > 0 && NoStop(events, n - 1) else NoStop(events, n)
      invariant stopped ==> events[n - 1].Stop?
    {
      MonotoneSoFar(events, n);
      var handed, value := TakeEvent(op, events[n], before, ok(|calls| + 1));
      if handed.Some? {
        AcceptedGrows(calls, ok, handed.value);
        calls := calls + [handed.value];
      }
      sent, failed := sent + value, op.locked;
      before := before + [events[n]];
      stopped := events[n].Stop?;
      n := n + 1;
    }
  }
}
