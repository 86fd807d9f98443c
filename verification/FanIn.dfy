/**
 Fanning function calls out to stream functions and collecting their replies (pkg/bridge/ai/service.go,
 runFunctionCalls and the reducer's handler), for any number of requests at once. Every operation on the cache, a
 result map or a wait group is one step; the steps of all requests and of the reducer interleave freely.
 */
module FanIn {
  import opened Common
  import opened FunctionCall

  type ReqId = string
  type ToolId = string

  datatype Phase = Firing | Adding(serial: nat) | Waiting | Done

  /** One request's sfnAsyncCall: wait counter and result map, with the list of the replies put into the map. */
  datatype Req = Req(phase: Phase, wg: int, val: map<ToolId, string>, log: seq<(ToolId, string)>)

  /**
   A call that was written to the zipper. `promised` is the factor added for it, None before wg.Add; `received` counts
   its replies.
   */
  datatype Call = Call(req: ReqId, tool: ToolId, payload: Payload, promised: Option<nat>, received: nat)

  /** A reply on its way to the reducer, from a function that got the call `serial`. */
  datatype ReplyMsg = ReplyMsg(serial: nat, payload: Payload)

  datatype State = State(cache: map<ReqId, Req>, calls: seq<Call>, replies: multiset<ReplyMsg>)

  datatype Step =
    | Begin(r: ReqId)
    | Fire(r: ReqId, transId: string, tool: ToolId, name: string, arguments: string)
    | AddFactor(r: ReqId, factor: nat)
    | StartWait(r: ReqId)
    | Respond(serial: nat, result: string)
    | Reduce(m: ReplyMsg)
    | EndWait(r: ReqId)

  function Promise(c: Call): (n: nat) {
    if c.promised.Some? then c.promised.value else 0
  }

  /** A negative wait counter panics, which ends the process: no step follows. */
  predicate Panicked(s: State) {
    exists r :: r in s.cache && s.cache[r].wg < 0
  }

  predicate InPhase(s: State, r: ReqId, phase: Phase) {
    r in s.cache && s.cache[r].phase == phase
  }

  /**
   Request IDs are random and taken to be new. A call may reach any number of functions, and each may reply any number
   of times; what a function sends is the answer to the call it got.
   */
  predicate Enabled(s: State, step: Step) {
    match step
    case Begin(r) => r !in s.cache
    case Fire(r, _, _, _, _) => InPhase(s, r, Firing)
    case AddFactor(r, _) => r in s.cache && s.cache[r].phase.Adding? && s.cache[r].phase.serial < |s.calls|
    case StartWait(r) => InPhase(s, r, Firing)
    case Respond(serial, result) => serial < |s.calls| && Reply(s.calls[serial].payload, result).Some?
    case Reduce(m) => m in s.replies && m.serial < |s.calls|
    case EndWait(r) => InPhase(s, r, Waiting) && s.cache[r].wg == 0
  }

  function SetReq(s: State, r: ReqId, q: Req): (s': State) {
    s.(cache := s.cache[r := q])
  }

  function Do(s: State, step: Step): (s': State)
    requires Enabled(s, step)
  {
    match step
    case Begin(r) => SetReq(s, r, Req(Firing, 0, map[], []))
    case Fire(r, transId, tool, name, arguments) => DoFire(s, r, Fired(transId, r, tool, name, arguments), tool)
    case AddFactor(r, factor) => DoAdd(s, r, factor)
    case StartWait(r) => SetReq(s, r, s.cache[r].(phase := Waiting))
    case Respond(serial, result) =>
      s.(replies := s.replies + multiset{ReplyMsg(serial, Reply(s.calls[serial].payload, result).value)})
    case Reduce(m) => DoReduce(s, m)
    case EndWait(r) => SetReq(s, r, s.cache[r].(phase := Done))
  }

  /** The write to the zipper comes before the Add. A failed write is skipped and changes nothing. */
  function DoFire(s: State, r: ReqId, payload: Payload, tool: ToolId): (s': State)
    requires r in s.cache
  {
    SetReq(s, r, s.cache[r].(phase := Adding(|s.calls|))).(calls := s.calls + [Call(r, tool, payload, None, 0)])
  }

  function DoAdd(s: State, r: ReqId, factor: nat): (s': State)
    requires r in s.cache && s.cache[r].phase.Adding? && s.cache[r].phase.serial < |s.calls|
  {
    var q := s.cache[r];
    var i := q.phase.serial;
    var s1 := SetReq(s, r, q.(phase := Firing, wg := q.wg + factor));
    s1.(calls := s.calls[i := s.calls[i].(promised := Some(factor))])
  }

  /** The reducer goes by the IDs in the reply. The provenance `m.serial` only feeds the count of replies. */
  function DoReduce(s: State, m: ReplyMsg): (s': State)
    requires m.serial < |s.calls|
  {
    var s1 := s.(replies := s.replies - multiset{m});
    var c := FromBytes(m.payload);
    if c.None? || c.value.reqId !in s.cache then s1
    else
      var r, tool, result := c.value.reqId, c.value.toolCallId, c.value.result;
      var q, call := s.cache[r], s.calls[m.serial];
      var q' := Req(q.phase, q.wg - 1, q.val[tool := result], q.log + [(tool, result)]);
      SetReq(s1, r, q').(calls := s.calls[m.serial := call.(received := call.received + 1)])
  }

  // ---------------------------------------------------------------- bookkeeping

  /** What a request is still owed. */
  ghost function Owed(calls: seq<Call>, r: ReqId): (n: int) {
    if calls == [] then 0
    else
      var c := calls[|calls| - 1];
      Owed(calls[..|calls| - 1], r) + (if c.req == r then Promise(c) - c.received else 0)
  }

  lemma {:induction false} OwedUpdates(calls: seq<Call>, i: nat, c: Call, r: ReqId)
    requires i < |calls| && c.req == calls[i].req
    ensures Owed(calls[i := c], r) == Owed(calls, r) +
      (if c.req == r then Promise(c) - c.received - Promise(calls[i]) + calls[i].received else 0)
  {
    var n := |calls| - 1;
    if i < n {
      OwedUpdates(calls[..n], i, c, r);
      assert calls[i := c][..n] == calls[..n][i := c];
    } else {
      assert calls[i := c][..n] == calls[..n];
    }
  }

  /** Each call of `r` has had no more replies than were added for it: in particular none before its Add. */
  ghost predicate OrderlyFor(calls: seq<Call>, r: ReqId) {
    forall i :: 0 <= i < |calls| && calls[i].req == r ==> calls[i].received <= Promise(calls[i])
  }

  /** Each call of `r` has had exactly as many replies as were added for it. */
  ghost predicate AllArrived(calls: seq<Call>, r: ReqId) {
    forall i :: 0 <= i < |calls| && calls[i].req == r ==> calls[i].received == Promise(calls[i])
  }

  lemma {:induction false} OwedWhenOrderly(calls: seq<Call>, r: ReqId)
    requires OrderlyFor(calls, r)
    ensures Owed(calls, r) >= 0
    ensures Owed(calls, r) == 0 <==> AllArrived(calls, r)
  {
    if calls != [] {
      var n := |calls| - 1;
      var c := calls[n];
      assert forall i :: 0 <= i < n ==> calls[..n][i] == calls[i];
      OwedWhenOrderly(calls[..n], r);
      assert AllArrived(calls, r) <==> AllArrived(calls[..n], r) && (c.req == r ==> c.received == Promise(c));
    }
  }

  /** The latest result for `t` in the list of replies. */
  ghost predicate Latest(log: seq<(ToolId, string)>, t: ToolId, result: string) {
    exists i :: 0 <= i < |log| && log[i] == (t, result) && forall j :: i < j < |log| ==> log[j].0 != t
  }

  ghost predicate Heard(log: seq<(ToolId, string)>, t: ToolId) {
    exists i :: 0 <= i < |log| && log[i].0 == t
  }

  /** The result map holds, for each tool call heard of, its latest result. */
  ghost predicate ValOk(q: Req) {
    && (forall t :: t in q.val <==> Heard(q.log, t))
    && (forall t :: t in q.val ==> Latest(q.log, t, q.val[t]))
  }

  lemma ValOkExtends(q: Req, q': Req, t: ToolId, result: string)
    requires ValOk(q) && q'.val == q.val[t := result] && q'.log == q.log + [(t, result)]
    ensures ValOk(q')
  {
    var n := |q.log|;
    assert q'.log[n] == (t, result);
    forall x ensures x in q'.val <==> Heard(q'.log, x) {
      if Heard(q.log, x) {
        var i :| 0 <= i < n && q.log[i].0 == x;
        assert q'.log[i].0 == x;
      }
      if Heard(q'.log, x) && x != t {
        var i :| 0 <= i < |q'.log| && q'.log[i].0 == x;
        assert q.log[i].0 == x;
      }
    }
    forall x | x in q'.val ensures Latest(q'.log, x, q'.val[x]) {
      if x != t {
        var i :| 0 <= i < n && q.log[i] == (x, q.val[x]) && forall j :: i < j < n ==> q.log[j].0 != x;
        assert q'.log[i] == (x, q'.val[x]);
      }
    }
  }

  /** A call of `r` with tool ID `t` has been answered. */
  ghost predicate Answered(calls: seq<Call>, r: ReqId, t: ToolId) {
    exists i :: 0 <= i < |calls| && calls[i].req == r && calls[i].tool == t && calls[i].received > 0
  }

  // ---------------------------------------------------------------- the invariant

  ghost predicate CallOk(s: State, i: nat)
    requires i < |s.calls|
  {
    var c := s.calls[i];
    && c.req in s.cache
    && c.payload.Json? && c.payload.call.reqId == c.req && c.payload.call.toolCallId == c.tool
    && (c.promised.None? ==> s.cache[c.req].phase == Adding(i))
  }

  /** The reply says which call it answers. */
  ghost predicate ReplyOk(s: State, m: ReplyMsg) {
    && m.serial < |s.calls|
    && m.payload.Json?
    && m.payload.call.reqId == s.calls[m.serial].req
    && m.payload.call.toolCallId == s.calls[m.serial].tool
  }

  /** Call `i` is the latest of request `r`. */
  ghost predicate IsLastCall(calls: seq<Call>, r: ReqId, i: nat) {
    i < |calls| && calls[i].req == r && forall k :: i < k < |calls| ==> calls[k].req != r
  }

  ghost predicate ReqOk(s: State, r: ReqId)
    requires r in s.cache
  {
    var q := s.cache[r];
    && q.wg == Owed(s.calls, r)
    && (q.phase.Done? ==> q.wg <= 0)
    && ValOk(q)
    && (forall t :: t in q.val <==> Answered(s.calls, r, t))
    && (q.phase.Adding? ==> IsLastCall(s.calls, r, q.phase.serial) && s.calls[q.phase.serial].promised.None?)
  }

  ghost predicate Inv(s: State) {
    && (forall i :: 0 <= i < |s.calls| ==> CallOk(s, i))
    && (forall m :: m in s.replies ==> ReplyOk(s, m))
    && (forall r :: r in s.cache ==> ReqOk(s, r))
  }

  lemma {:induction false} NothingOwed(calls: seq<Call>, r: ReqId)
    requires forall i :: 0 <= i < |calls| ==> calls[i].req != r
    ensures Owed(calls, r) == 0
  {
    if calls != [] {
      NothingOwed(calls[..|calls| - 1], r);
    }
  }

  lemma KeepBegin(s: State, r: ReqId)
    requires Inv(s) && r !in s.cache
    ensures Inv(Do(s, Begin(r)))
  {
    var s' := Do(s, Begin(r));
    forall i | 0 <= i < |s.calls| ensures CallOk(s', i) && s.calls[i].req != r { assert CallOk(s, i); }
    NothingOwed(s.calls, r);
    forall m | m in s'.replies ensures ReplyOk(s', m) { assert ReplyOk(s, m); }
    forall q | q in s'.cache ensures ReqOk(s', q) { if q != r { assert ReqOk(s, q); } }
  }

  /** A change of phase alone. */
  lemma KeepPhase(s: State, r: ReqId, phase: Phase)
    requires Inv(s) && r in s.cache && !s.cache[r].phase.Adding? && !phase.Adding?
    requires phase.Done? ==> s.cache[r].wg <= 0
    ensures Inv(SetReq(s, r, s.cache[r].(phase := phase)))
  {
    var s' := SetReq(s, r, s.cache[r].(phase := phase));
    forall i | 0 <= i < |s'.calls| ensures CallOk(s', i) { assert CallOk(s, i); }
    forall m | m in s'.replies ensures ReplyOk(s', m) { assert ReplyOk(s, m); }
    forall q | q in s'.cache ensures ReqOk(s', q) { assert ReqOk(s, q); }
  }

  lemma KeepFire(s: State, r: ReqId, transId: string, tool: ToolId, name: string, arguments: string)
    requires Inv(s) && InPhase(s, r, Firing)
    ensures Inv(DoFire(s, r, Fired(transId, r, tool, name, arguments), tool))
  {
    var s' := DoFire(s, r, Fired(transId, r, tool, name, arguments), tool);
    var n := |s.calls|;
    assert s'.calls[..n] == s.calls;
    forall i | 0 <= i < |s'.calls| ensures CallOk(s', i) {
      if i < n { assert CallOk(s, i); }
    }
    forall m | m in s'.replies ensures ReplyOk(s', m) { assert ReplyOk(s, m); }
    forall q | q in s'.cache ensures ReqOk(s', q) {
      assert ReqOk(s, q);
      assert Owed(s'.calls, q) == Owed(s.calls, q);
      forall t ensures Answered(s'.calls, q, t) <==> Answered(s.calls, q, t) {
        SameAnswers(s.calls, s'.calls, q, t);
      }
    }
  }

  lemma SameAnswers(calls: seq<Call>, more: seq<Call>, r: ReqId, t: ToolId)
    requires |calls| <= |more|
    requires forall i :: 0 <= i < |calls| ==>
      more[i].req == calls[i].req && more[i].tool == calls[i].tool && more[i].received == calls[i].received
    requires forall i :: |calls| <= i < |more| ==> more[i].received == 0
    ensures Answered(more, r, t) <==> Answered(calls, r, t)
  {
    if Answered(calls, r, t) {
      var i :| 0 <= i < |calls| && calls[i].req == r && calls[i].tool == t && calls[i].received > 0;
      assert more[i].received > 0;
    }
  }

  lemma KeepAdd(s: State, r: ReqId, factor: nat)
    requires Inv(s) && Enabled(s, AddFactor(r, factor))
    ensures Inv(DoAdd(s, r, factor))
    ensures DoAdd(s, r, factor).cache[r].wg == s.cache[r].wg + factor
  {
    var s' := DoAdd(s, r, factor);
    var i := s.cache[r].phase.serial;
    assert ReqOk(s, r);
    forall k | 0 <= k < |s'.calls| ensures CallOk(s', k) { assert CallOk(s, k); }
    forall m | m in s'.replies ensures ReplyOk(s', m) { assert ReplyOk(s, m); }
    forall q | q in s'.cache ensures ReqOk(s', q) {
      assert ReqOk(s, q);
      OwedUpdates(s.calls, i, s'.calls[i], q);
      forall t ensures Answered(s'.calls, q, t) <==> Answered(s.calls, q, t) {
        SameAnswers(s.calls, s'.calls, q, t);
      }
      if q != r && s.cache[q].phase.Adding? {
        assert s.calls[s.cache[q].phase.serial].req == q;
      }
    }
  }

  lemma KeepRespond(s: State, serial: nat, result: string)
    requires Inv(s) && Enabled(s, Respond(serial, result))
    ensures Inv(Do(s, Respond(serial, result)))
  {
    var s' := Do(s, Respond(serial, result));
    assert CallOk(s, serial);
    forall k | 0 <= k < |s'.calls| ensures CallOk(s', k) { assert CallOk(s, k); }
    forall m | m in s'.replies ensures ReplyOk(s', m) {
      if m in s.replies { assert ReplyOk(s, m); }
    }
    forall q | q in s'.cache ensures ReqOk(s', q) { assert ReqOk(s, q); }
  }

  /** What one reply does: it is found to answer its own call, and the entry of that call's request alone changes. */
  lemma ReduceMeaning(s: State, m: ReplyMsg)
    requires Inv(s) && m in s.replies
    ensures m.serial < |s.calls| && m.payload.Json?
    ensures var c, s' := s.calls[m.serial], DoReduce(s, m);
      && c.req in s.cache
      && s'.cache == s.cache[c.req := Req(s.cache[c.req].phase, s.cache[c.req].wg - 1,
                                          s.cache[c.req].val[c.tool := m.payload.call.result],
                                          s.cache[c.req].log + [(c.tool, m.payload.call.result)])]
      && s'.calls == s.calls[m.serial := c.(received := c.received + 1)]
  {
    assert ReplyOk(s, m) && CallOk(s, m.serial);
  }

  lemma OneMoreAnswer(calls: seq<Call>, i: nat, r: ReqId, t: ToolId)
    requires i < |calls|
    ensures Answered(calls[i := calls[i].(received := calls[i].received + 1)], r, t)
       <==> Answered(calls, r, t) || (calls[i].req == r && calls[i].tool == t)
  {
    var more := calls[i := calls[i].(received := calls[i].received + 1)];
    assert more[i].received > 0;
    if Answered(calls, r, t) {
      var k :| 0 <= k < |calls| && calls[k].req == r && calls[k].tool == t && calls[k].received > 0;
      assert more[k].received > 0;
    }
  }

  lemma KeepReduce(s: State, m: ReplyMsg)
    requires Inv(s) && m in s.replies
    ensures m.serial < |s.calls| && Inv(DoReduce(s, m))
  {
    ReduceMeaning(s, m);
    var s' := DoReduce(s, m);
    var r, i := s.calls[m.serial].req, m.serial;
    forall k | 0 <= k < |s'.calls| ensures CallOk(s', k) { assert CallOk(s, k); }
    forall x | x in s'.replies ensures ReplyOk(s', x) { assert x in s.replies && ReplyOk(s, x); }
    forall q | q in s'.cache ensures ReqOk(s', q) {
      KeepReduceFor(s, s', i, m.payload.call.result, q);
    }
  }

  lemma KeepReduceFor(s: State, s': State, i: nat, result: string, q: ReqId)
    requires Inv(s) && i < |s.calls| && s.calls[i].req in s.cache && q in s.cache
    requires var c, p := s.calls[i], s.cache[s.calls[i].req];
      && s'.cache == s.cache[c.req := Req(p.phase, p.wg - 1, p.val[c.tool := result], p.log + [(c.tool, result)])]
      && s'.calls == s.calls[i := c.(received := c.received + 1)]
    ensures ReqOk(s', q)
  {
    var c := s.calls[i];
    assert ReqOk(s, q);
    OwedUpdates(s.calls, i, c.(received := c.received + 1), q);
    forall t ensures Answered(s'.calls, q, t) <==> Answered(s.calls, q, t) || (c.req == q && c.tool == t) {
      OneMoreAnswer(s.calls, i, q, t);
    }
    if q == c.req {
      ValOkExtends(s.cache[q], s'.cache[q], c.tool, result);
    }
  }

  lemma StepKeepsInv(s: State, step: Step)
    requires Inv(s) && Enabled(s, step)
    ensures Inv(Do(s, step))
  {
    match step
    case Begin(r) => KeepBegin(s, r);
    case Fire(r, transId, tool, name, arguments) => KeepFire(s, r, transId, tool, name, arguments);
    case AddFactor(r, factor) => KeepAdd(s, r, factor);
    case StartWait(r) => KeepPhase(s, r, Waiting);
    case Respond(serial, result) => KeepRespond(s, serial, result);
    case Reduce(m) => KeepReduce(s, m);
    case EndWait(r) => KeepPhase(s, r, Done);
  }

  // ---------------------------------------------------------------- whole runs

  const START := State(map[], [], multiset{})

  ghost predicate Next(s: State, s': State) {
    !Panicked(s) && exists step :: Enabled(s, step) && s' == Do(s, step)
  }

  ghost predicate StepAt(trace: seq<State>, i: nat)
    requires i + 1 < |trace|
  {
    Next(trace[i], trace[i + 1])
  }

  ghost predicate Run(trace: seq<State>) {
    |trace| > 0 && trace[0] == START && forall i :: 0 <= i < |trace| - 1 ==> StepAt(trace, i)
  }

  lemma {:induction false} RunKeepsInv(trace: seq<State>, i: nat)
    requires Run(trace) && i < |trace|
    ensures Inv(trace[i])
  {
    if i > 0 {
      RunKeepsInv(trace, i - 1);
      assert StepAt(trace, i - 1);
      var step :| Enabled(trace[i - 1], step) && trace[i] == Do(trace[i - 1], step);
      StepKeepsInv(trace[i - 1], step);
    }
  }

  lemma OtherStepsKeepResults(s: State, step: Step, r: ReqId)
    requires Enabled(s, step) && r in s.cache && !step.Reduce?
    ensures r in Do(s, step).cache && Do(s, step).cache[r].val == s.cache[r].val
  {
  }

  /**
   Isolation, with no hypothesis on replies: in any interleaving, a result map changes only when a reply is reduced to
   a call that its own request fired, and then only at that call's tool ID.
   */
  lemma RepliesStayWithTheirRequest(trace: seq<State>, i: nat, step: Step, r: ReqId)
    requires Run(trace) && i < |trace| && Enabled(trace[i], step) && r in trace[i].cache
    ensures r in Do(trace[i], step).cache
    ensures var val, val' := trace[i].cache[r].val, Do(trace[i], step).cache[r].val;
      val' != val ==>
        step.Reduce? && trace[i].calls[step.m.serial].req == r
        && val' == val[trace[i].calls[step.m.serial].tool := step.m.payload.call.result]
  {
    RunKeepsInv(trace, i);
    if step.Reduce? {
      ReduceMeaning(trace[i], step.m);
    } else {
      OtherStepsKeepResults(trace[i], step, r);
    }
  }

  /** A result map holds exactly the tool IDs of its request's answered calls, each with its latest reply. */
  lemma ResultsAreLatestReplies(trace: seq<State>, i: nat, r: ReqId)
    requires Run(trace) && i < |trace| && r in trace[i].cache
    ensures var q := trace[i].cache[r];
      forall t :: (t in q.val <==> Answered(trace[i].calls, r, t)) && (t in q.val ==> Latest(q.log, t, q.val[t]))
  {
    RunKeepsInv(trace, i);
    assert ReqOk(trace[i], r);
  }

  // ---------------------------------------------------------------- counting

  /** The wait counter is always the promised less the received replies. */
  lemma CounterCountsMissingReplies(trace: seq<State>, i: nat, r: ReqId)
    requires Run(trace) && i < |trace| && r in trace[i].cache
    ensures trace[i].cache[r].wg == Owed(trace[i].calls, r)
    ensures OrderlyFor(trace[i].calls, r) ==> trace[i].cache[r].wg >= 0
    ensures OrderlyFor(trace[i].calls, r) ==> (trace[i].cache[r].wg == 0 <==> AllArrived(trace[i].calls, r))
  {
    RunKeepsInv(trace, i);
    assert ReqOk(trace[i], r);
    if OrderlyFor(trace[i].calls, r) {
      OwedWhenOrderly(trace[i].calls, r);
    }
  }

  /**
   A wait that ends has had all replies if and only if no call of the request has had more than were added for it; the
   calls of other requests do not matter.
   */
  lemma WaitEndsWithAllReplies(trace: seq<State>, i: nat, r: ReqId)
    requires Run(trace) && i < |trace| && Enabled(trace[i], EndWait(r))
    ensures AllArrived(trace[i].calls, r) <==> OrderlyFor(trace[i].calls, r)
  {
    CounterCountsMissingReplies(trace, i, r);
  }

  // ---------------------------------------------------------------- what was fired, added and reduced

  /** A run together with its steps. */
  ghost predicate Execution(trace: seq<State>, steps: seq<Step>) {
    && |trace| == |steps| + 1 && trace[0] == START
    && forall i :: 0 <= i < |steps| ==> TookAt(trace, steps, i)
  }

  ghost predicate TookAt(trace: seq<State>, steps: seq<Step>, i: nat)
    requires i < |steps| && |trace| == |steps| + 1
  {
    !Panicked(trace[i]) && Took(trace[i], steps[i], trace[i + 1])
  }

  ghost predicate Took(s: State, step: Step, s': State) {
    Enabled(s, step) && s' == Do(s, step)
  }

  lemma ExecutionIsRun(trace: seq<State>, steps: seq<Step>)
    requires Execution(trace, steps)
    ensures Run(trace)
  {
    forall i | 0 <= i < |trace| - 1 ensures StepAt(trace, i) {
      assert TookAt(trace, steps, i);
    }
  }

  /** The calls fired, in order. */
  function Fires(steps: seq<Step>): (fs: seq<Step>)
    ensures forall f :: f in fs ==> f.Fire?
  {
    if steps == [] then []
    else
      var rest, last := Fires(steps[..|steps| - 1]), steps[|steps| - 1];
      if last.Fire? then rest + [last] else rest
  }

  /** The sum of the factors added for a request. */
  function Added(steps: seq<Step>, r: ReqId): (n: nat) {
    if steps == [] then 0
    else
      var rest, last := Added(steps[..|steps| - 1], r), steps[|steps| - 1];
      if last.AddFactor? && last.r == r then rest + last.factor else rest
  }

  /** The replies reduced that answer calls of a request, in order: the call's tool ID and the result. */
  function Reduced(steps: seq<Step>, fires: seq<Step>, r: ReqId): (log: seq<(ToolId, string)>)
    requires forall f :: f in fires ==> f.Fire?
  {
    if steps == [] then []
    else
      var rest, last := Reduced(steps[..|steps| - 1], fires, r), steps[|steps| - 1];
      if last.Reduce? && last.m.serial < |fires| && fires[last.m.serial].r == r && last.m.payload.Json?
      then rest + [(fires[last.m.serial].tool, last.m.payload.call.result)]
      else rest
  }

  /** The state's calls are the calls fired. */
  ghost predicate CallsAre(calls: seq<Call>, fires: seq<Step>)
    requires forall f :: f in fires ==> f.Fire?
  {
    |calls| == |fires| && forall c :: 0 <= c < |calls| ==> IsCallOf(calls[c], fires[c])
  }

  predicate IsCallOf(c: Call, f: Step)
    requires f.Fire?
  {
    c.req == f.r && c.tool == f.tool && c.payload == Fired(f.transId, f.r, f.tool, f.name, f.arguments)
  }

  lemma StepKeepsCalls(s: State, step: Step)
    requires Enabled(s, step)
    ensures |s.calls| <= |Do(s, step).calls|
    ensures forall c :: 0 <= c < |s.calls| ==>
      var x, y := s.calls[c], Do(s, step).calls[c];
      y.req == x.req && y.tool == x.tool && y.payload == x.payload
    ensures !step.Fire? ==> |Do(s, step).calls| == |s.calls|
  {
  }

  lemma {:induction false} CallsAreFired(trace: seq<State>, steps: seq<Step>, i: nat)
    requires Execution(trace, steps) && i < |trace|
    ensures CallsAre(trace[i].calls, Fires(steps[..i]))
  {
    if i > 0 {
      CallsAreFired(trace, steps, i - 1);
      assert TookAt(trace, steps, i - 1);
      assert steps[..i][..i - 1] == steps[..i - 1];
      StepKeepsCalls(trace[i - 1], steps[i - 1]);
    }
  }

  /** More fires after them do not change which calls the replies answer. */
  lemma {:induction false} ReducedIsSettled(steps: seq<Step>, fires: seq<Step>, f: Step, r: ReqId)
    requires (forall x :: x in fires ==> x.Fire?) && f.Fire?
    requires forall k :: 0 <= k < |steps| && steps[k].Reduce? ==> steps[k].m.serial < |fires|
    ensures Reduced(steps, fires + [f], r) == Reduced(steps, fires, r)
  {
    if steps != [] {
      ReducedIsSettled(steps[..|steps| - 1], fires, f, r);
    }
  }

  /** Replies answer calls fired before. */
  lemma {:induction false} RepliesFollowFires(trace: seq<State>, steps: seq<Step>, i: nat)
    requires Execution(trace, steps) && i < |trace|
    ensures forall k :: 0 <= k < i && steps[k].Reduce? ==> steps[k].m.serial < |trace[i].calls|
  {
    if i > 0 {
      RepliesFollowFires(trace, steps, i - 1);
      assert TookAt(trace, steps, i - 1);
      StepKeepsCalls(trace[i - 1], steps[i - 1]);
    }
  }

  /** What one step does to a request's counter and to the replies it has had. */
  lemma StepCounts(s: State, step: Step, r: ReqId)
    requires Inv(s) && Enabled(s, step) && r in s.cache
    ensures r in Do(s, step).cache
    ensures
      var q, q' := s.cache[r], Do(s, step).cache[r];
      if step.Reduce? && s.calls[step.m.serial].req == r
      then step.m.payload.Json? && q'.wg == q.wg - 1
           && q'.log == q.log + [(s.calls[step.m.serial].tool, step.m.payload.call.result)]
      else q'.log == q.log && q'.wg == q.wg + if step.AddFactor? && step.r == r then step.factor else 0
  {
    if step.Reduce? {
      ReduceMeaning(s, step.m);
    }
  }

  lemma StepBegins(s: State, step: Step, r: ReqId)
    requires Inv(s) && Enabled(s, step) && r !in s.cache && r in Do(s, step).cache
    ensures step == Begin(r) && Do(s, step).cache[r].wg == 0 && Do(s, step).cache[r].log == []
  {
    if step.Reduce? {
      ReduceMeaning(s, step.m);
    }
  }

  /**
   Over whole runs: a request's counter is the sum of the factors added for it less the number of replies reduced to its
   calls, and its list of replies is exactly those.
   */
  lemma {:induction false} CounterIsAddedLessReduced(trace: seq<State>, steps: seq<Step>, i: nat, r: ReqId)
    requires Execution(trace, steps) && i < |trace|
    ensures
      var log := Reduced(steps[..i], Fires(steps[..i]), r);
      if r in trace[i].cache
      then trace[i].cache[r].wg == Added(steps[..i], r) - |log| && trace[i].cache[r].log == log
      else Added(steps[..i], r) == 0 && log == []
  {
    if i > 0 {
      var before, now, step := steps[..i - 1], steps[..i], steps[i - 1];
      CounterIsAddedLessReduced(trace, steps, i - 1, r);
      assert TookAt(trace, steps, i - 1);
      assert now[..i - 1] == before && now[i - 1] == step;
      ExecutionIsRun(trace, steps);
      RunKeepsInv(trace, i - 1);
      CallsAreFired(trace, steps, i - 1);
      ReducedGrows(trace, steps, i, r);
      if r in trace[i - 1].cache {
        StepCounts(trace[i - 1], step, r);
      } else if r in trace[i].cache {
        StepBegins(trace[i - 1], step, r);
      } else {
        NothingForUnknown(trace[i - 1], step, r);
      }
    }
  }

  lemma NothingForUnknown(s: State, step: Step, r: ReqId)
    requires Inv(s) && Enabled(s, step) && r !in s.cache
    ensures !(step.AddFactor? && step.r == r) && !(step.Reduce? && s.calls[step.m.serial].req == r)
  {
    if step.Reduce? {
      ReduceMeaning(s, step.m);
    }
  }

  /** The replies reduced so far, with one more step. */
  lemma ReducedGrows(trace: seq<State>, steps: seq<Step>, i: nat, r: ReqId)
    requires Execution(trace, steps) && 0 < i < |trace| && Run(trace)
    ensures
      var s, step := trace[i - 1], steps[i - 1];
      Reduced(steps[..i], Fires(steps[..i]), r) == Reduced(steps[..i - 1], Fires(steps[..i - 1]), r)
        + if step.Reduce? && step.m.serial < |s.calls| && s.calls[step.m.serial].req == r && step.m.payload.Json?
          then [(s.calls[step.m.serial].tool, step.m.payload.call.result)] else []
  {
    var before, now, step := steps[..i - 1], steps[..i], steps[i - 1];
    assert now[..i - 1] == before && now[i - 1] == step;
    CallsAreFired(trace, steps, i - 1);
    RepliesFollowFires(trace, steps, i - 1);
    if step.Fire? {
      ReducedIsSettled(before, Fires(before), step, r);
    }
  }

  /**
   The Add after a write: the counter rises by exactly the factor, the call just written is promised exactly that many
   replies, and nothing else changes.
   */
  lemma AddPromises(trace: seq<State>, i: nat, r: ReqId, factor: nat)
    requires Run(trace) && i < |trace| && Enabled(trace[i], AddFactor(r, factor))
    ensures
      var s, s', q := trace[i], Do(trace[i], AddFactor(r, factor)), trace[i].cache[r];
      && s'.cache == s.cache[r := q.(phase := Firing, wg := q.wg + factor)] && s'.replies == s.replies
      && |s'.calls| == |s.calls|
      && forall c :: 0 <= c < |s.calls| ==>
           s'.calls[c] == if IsLastCall(s.calls, r, c) then s.calls[c].(promised := Some(factor)) else s.calls[c]
  {
    RunKeepsInv(trace, i);
    assert ReqOk(trace[i], r);
  }

  /**
   No request is stuck: it can fire any call or end its firing, or add the factor of the call it has written; it waits
   exactly as long as it is owed replies.
   */
  lemma RequestProceeds(trace: seq<State>, i: nat, r: ReqId, factor: nat, tool: ToolId, name: string, arguments: string)
    requires Run(trace) && i < |trace| && r in trace[i].cache
    ensures
      var s := trace[i];
      match s.cache[r].phase
      case Firing => Enabled(s, Fire(r, "", tool, name, arguments)) && Enabled(s, StartWait(r))
      case Adding(_) => Enabled(s, AddFactor(r, factor))
      case Waiting => Enabled(s, EndWait(r)) <==> Owed(s.calls, r) == 0
      case Done => true
  {
    RunKeepsInv(trace, i);
    assert ReqOk(trace[i], r);
  }

  /** Any call can be answered, with any result, and any reply be reduced. */
  lemma RepliesProceed(trace: seq<State>, i: nat, serial: nat, result: string, m: ReplyMsg)
    requires Run(trace) && i < |trace|
    ensures serial < |trace[i].calls| ==> Enabled(trace[i], Respond(serial, result))
    ensures m in trace[i].replies ==> Enabled(trace[i], Reduce(m))
  {
    RunKeepsInv(trace, i);
    if serial < |trace[i].calls| {
      assert CallOk(trace[i], serial);
    }
    if m in trace[i].replies {
      assert ReplyOk(trace[i], m);
    }
  }

  /** One request with one call, whose factor is one, waiting. */
  function OneWaiting(r: ReqId, call: Call): (s: State) {
    State(map[r := Req(Waiting, 1, map[], [])], [call.(promised := Some(1))], multiset{})
  }

  lemma OneCallWaits(r: ReqId, transId: string, tool: ToolId, name: string, arguments: string)
      returns (trace: seq<State>, call: Call)
    ensures call == Call(r, tool, Fired(transId, r, tool, name, arguments), None, 0)
    ensures Run(trace) && trace[|trace| - 1] == OneWaiting(r, call)
  {
    call := Call(r, tool, Fired(transId, r, tool, name, arguments), None, 0);
    var s1 := Do(START, Begin(r));
    var s2 := Do(s1, Fire(r, transId, tool, name, arguments));
    assert s2 == State(map[r := Req(Adding(0), 0, map[], [])], [call], multiset{});
    var s3 := Do(s2, AddFactor(r, 1));
    assert s3 == State(map[r := Req(Firing, 1, map[], [])], [call.(promised := Some(1))], multiset{});
    var s4 := Do(s3, StartWait(r));
    assert s4 == OneWaiting(r, call);
    assert Next(START, s1) && Next(s1, s2) && Next(s2, s3) && Next(s3, s4);
    RunExtends([START], s1);
    RunExtends([START] + [s1], s2);
    RunExtends([START] + [s1] + [s2], s3);
    RunExtends([START] + [s1] + [s2] + [s3], s4);
    trace := [START] + [s1] + [s2] + [s3] + [s4];
  }

  lemma OneReplyEndsWait(r: ReqId, call: Call, result: string) returns (s5: State, s6: State, s7: State)
    requires call.req == r && call.received == 0 && call.payload.Json?
    requires call.payload.call.reqId == r && call.payload.call.toolCallId == call.tool
    ensures Next(OneWaiting(r, call), s5) && Next(s5, s6) && Next(s6, s7)
    ensures InPhase(s7, r, Done) && s7.cache[r].val == map[call.tool := result] && s7.cache[r].wg == 0
  {
    var m := ReplyMsg(0, Reply(call.payload, result).value);
    s5 := Do(OneWaiting(r, call), Respond(0, result));
    assert m in s5.replies;
    s6 := Do(s5, Reduce(m));
    assert s6.cache[r].wg == 0 && s6.cache[r].val == map[call.tool := result];
    s7 := Do(s6, EndWait(r));
  }

  /** One call, one function, one reply: the request ends with that reply. */
  lemma OneCallCompletes(r: ReqId, transId: string, tool: ToolId, name: string, arguments: string, result: string)
      returns (trace: seq<State>)
    ensures Run(trace)
    ensures var s := trace[|trace| - 1];
      InPhase(s, r, Done) && s.cache[r].val == map[tool := result] && s.cache[r].wg == 0
  {
    var call;
    trace, call := OneCallWaits(r, transId, tool, name, arguments);
    var s5, s6, s7 := OneReplyEndsWait(r, call, result);
    RunExtends(trace, s5);
    RunExtends(trace + [s5], s6);
    RunExtends(trace + [s5] + [s6], s7);
    trace := trace + [s5] + [s6] + [s7];
  }

  // ---------------------------------------------------------------- panics

  /** The guard of the failing branch: the reply answers a call of a request that is owed nothing. */
  predicate Overdraws(s: State, step: Step) {
    step.Reduce? && step.m.serial < |s.calls|
    && var r := s.calls[step.m.serial].req; r in s.cache && s.cache[r].wg == 0
  }

  /** In every run, a step panics if and only if it reduces a reply to a call of a request that is owed nothing. */
  lemma PanicsExactly(trace: seq<State>, i: nat, step: Step)
    requires Run(trace) && i < |trace| && !Panicked(trace[i]) && Enabled(trace[i], step)
    ensures Panicked(Do(trace[i], step)) <==> Overdraws(trace[i], step)
    ensures Overdraws(trace[i], step) <==> step.Reduce? && Owed(trace[i].calls, trace[i].calls[step.m.serial].req) == 0
  {
    var s := trace[i];
    RunKeepsInv(trace, i);
    if step.Reduce? {
      ReduceMeaning(s, step.m);
      var r := s.calls[step.m.serial].req;
      assert ReqOk(s, r);
      assert Do(s, step).cache[r].wg == s.cache[r].wg - 1;
    } else {
      OtherStepsKeepCounters(s, step);
    }
  }

  lemma OtherStepsKeepCounters(s: State, step: Step)
    requires Enabled(s, step) && !step.Reduce?
    ensures forall r :: r in Do(s, step).cache ==>
      Do(s, step).cache[r].wg >= if r in s.cache then s.cache[r].wg else 0
  {
  }

  /** Between the two states a reply was reduced to a call of a request that was owed nothing. */
  ghost predicate Overdrawn(s: State, s': State) {
    exists step :: Took(s, step, s') && Overdraws(s, step)
  }

  /** A run has panicked if and only if its last step was such a reply. */
  lemma RunPanicsExactly(trace: seq<State>, i: nat)
    requires Run(trace) && i < |trace|
    ensures Panicked(trace[i]) <==> i > 0 && Overdrawn(trace[i - 1], trace[i])
  {
    if i > 0 {
      assert StepAt(trace, i - 1);
      var s, s' := trace[i - 1], trace[i];
      var step :| Enabled(s, step) && s' == Do(s, step);
      assert Took(s, step, s');
      forall other | Took(s, other, s') ensures Panicked(s') <==> Overdraws(s, other) {
        PanicsExactly(trace, i - 1, other);
      }
    }
  }

  /** A reply that overdraws is one more than was added for some call of its request. */
  lemma OverdrawnIsDisorderly(s: State, step: Step)
    requires Inv(s) && Enabled(s, step) && Overdraws(s, step)
    ensures var r := s.calls[step.m.serial].req;
      r in Do(s, step).cache && !OrderlyFor(Do(s, step).calls, r)
  {
    var i := step.m.serial;
    var r := s.calls[i].req;
    ReduceMeaning(s, step.m);
    assert ReqOk(s, r);
    OwedUpdates(s.calls, i, s.calls[i].(received := s.calls[i].received + 1), r);
    if OrderlyFor(Do(s, step).calls, r) {
      OwedWhenOrderly(Do(s, step).calls, r);
    }
  }

  lemma StepAtOverdrawn(trace: seq<State>, i: nat) returns (r: ReqId)
    requires Run(trace) && i + 1 < |trace| && Overdrawn(trace[i], trace[i + 1])
    ensures r in trace[i + 1].cache && !OrderlyFor(trace[i + 1].calls, r)
  {
    RunKeepsInv(trace, i);
    var step :| Took(trace[i], step, trace[i + 1]) && Overdraws(trace[i], step);
    r := trace[i].calls[step.m.serial].req;
    OverdrawnIsDisorderly(trace[i], step);
  }

  /** In a run whose replies come after their Adds and are no more than were added, nothing panics. */
  lemma OrderlyNeverPanics(trace: seq<State>, i: nat)
    requires Run(trace) && i < |trace| && forall r :: r in trace[i].cache ==> OrderlyFor(trace[i].calls, r)
    ensures !Panicked(trace[i])
  {
    RunPanicsExactly(trace, i);
    if i > 0 && Overdrawn(trace[i - 1], trace[i]) {
      var _ := StepAtOverdrawn(trace, i - 1);
    }
  }

  /** Request `r` has written a call and not yet added its factor, and is owed nothing else. */
  predicate Exposed(s: State, r: ReqId, i: nat) {
    !Panicked(s) && InPhase(s, r, Adding(i)) && s.cache[r].wg == 0
  }

  /** From an exposed state a run can go on to a panic: by an early reply to the call just written. */
  lemma EarlyReplyPanics(trace: seq<State>, r: ReqId, i: nat, result: string)
    requires Run(trace)
    requires Exposed(trace[|trace| - 1], r, i)
    ensures exists s1, s2 :: Run(trace + [s1, s2]) && Panicked(s2)
  {
    var s := trace[|trace| - 1];
    RunKeepsInv(trace, |trace| - 1);
    assert ReqOk(s, r) && CallOk(s, i);
    var m := ReplyMsg(i, Reply(s.calls[i].payload, result).value);
    var s1 := Do(s, Respond(i, result));
    assert Next(s, s1);
    RunExtends(trace, s1);
    PanicsExactly(trace + [s1], |trace|, Reduce(m));
    var s2 := Do(s1, Reduce(m));
    assert Next(s1, s2);
    RunExtends(trace + [s1], s2);
    assert trace + [s1, s2] == trace + [s1] + [s2];
  }

  lemma RunExtends(trace: seq<State>, s: State)
    requires Run(trace) && Next(trace[|trace| - 1], s)
    ensures Run(trace + [s])
  {
    var longer := trace + [s];
    forall k | 0 <= k < |longer| - 1 ensures StepAt(longer, k) {
      if k < |trace| - 1 {
        assert StepAt(trace, k);
      }
    }
  }

  /** And such a run exists: any request's first call reaches that point. */
  lemma FirstCallIsExposed(r: ReqId, tool: ToolId) returns (trace: seq<State>)
    ensures Run(trace) && Exposed(trace[|trace| - 1], r, 0)
  {
    var s1 := Do(START, Begin(r));
    var s2 := Do(s1, Fire(r, "", tool, "", ""));
    assert Next(START, s1) && Next(s1, s2);
    trace := [START, s1, s2];
  }

  // ---------------------------------------------------------------- the answer

  datatype ToolMessage = ToolMessage(role: string, content: string, toolCallId: ToolId)

  /** The loop after the wait, over the result map in an arbitrary order: one "tool" message for each entry. */
  method Collect(val: map<ToolId, string>) returns (messages: seq<ToolMessage>)
    ensures |messages| == |val|
    ensures forall t :: t in val ==> ToolMessage("tool", val[t], t) in messages
    ensures forall m :: m in messages ==>
      m.toolCallId in val && m == ToolMessage("tool", val[m.toolCallId], m.toolCallId)
    ensures forall i, j :: 0 <= i < j < |messages| ==> messages[i].toolCallId != messages[j].toolCallId
  {
    messages := [];
    var todo := val.Keys;
    while todo != {}
      invariant todo <= val.Keys && |messages| + |todo| == |val.Keys|
      invariant forall t :: t in val && t !in todo ==> ToolMessage("tool", val[t], t) in messages
      invariant forall m :: m in messages ==>
        m.toolCallId in val.Keys - todo && m == ToolMessage("tool", val[m.toolCallId], m.toolCallId)
      invariant forall i, j :: 0 <= i < j < |messages| ==> messages[i].toolCallId != messages[j].toolCallId
    {
      var t :| t in todo;
      todo := todo - {t};
      messages := messages + [ToolMessage("tool", val[t], t)];
    }
  }
  /** A call of `r` for tool ID `t` was fired with a factor of at least one. */
  ghost predicate Expected(calls: seq<Call>, r: ReqId, t: ToolId) {
    exists k :: 0 <= k < |calls| && calls[k].req == r && calls[k].tool == t && Promise(calls[k]) > 0
  }

  /**
   At and after the end of an orderly wait there is a result for exactly the tool IDs fired with a positive factor.
   */
  lemma WaitEndsComplete(trace: seq<State>, i: nat, r: ReqId)
    requires Run(trace) && i < |trace| && !Panicked(trace[i])
    requires Enabled(trace[i], EndWait(r)) || InPhase(trace[i], r, Done)
    requires OrderlyFor(trace[i].calls, r)
    ensures AllArrived(trace[i].calls, r)
    ensures forall t :: t in trace[i].cache[r].val <==> Expected(trace[i].calls, r, t)
  {
    var s := trace[i];
    RunKeepsInv(trace, i);
    assert ReqOk(s, r);
    CounterCountsMissingReplies(trace, i, r);
    ResultsAreLatestReplies(trace, i, r);
    forall t ensures t in s.cache[r].val <==> Expected(s.calls, r, t) {
      AnsweredIsExpected(s.calls, r, t);
    }
  }

  lemma AnsweredIsExpected(calls: seq<Call>, r: ReqId, t: ToolId)
    requires AllArrived(calls, r)
    ensures Answered(calls, r, t) <==> Expected(calls, r, t)
  {
    if Answered(calls, r, t) {
      var k :| 0 <= k < |calls| && calls[k].req == r && calls[k].tool == t && calls[k].received > 0;
      assert Promise(calls[k]) > 0;
    }
    if Expected(calls, r, t) {
      var k :| 0 <= k < |calls| && calls[k].req == r && calls[k].tool == t && Promise(calls[k]) > 0;
      assert calls[k].received > 0;
    }
  }

  /** What was at the end of the wait stays: while nothing panics, no step changes a finished request. */
  lemma {:induction false} FinishedStays(trace: seq<State>, i: nat, j: nat, r: ReqId)
    requires Run(trace) && i <= j < |trace| && InPhase(trace[i], r, Done) && !Panicked(trace[j])
    ensures r in trace[j].cache && trace[j].cache[r] == trace[i].cache[r]
    decreases j - i
  {
    if i < j {
      assert StepAt(trace, j - 1);
      FinishedStays(trace, i, j - 1, r);
      FinishedNext(trace, j - 1, r);
    }
  }

  lemma FinishedNext(trace: seq<State>, i: nat, r: ReqId)
    requires Run(trace) && i + 1 < |trace| && InPhase(trace[i], r, Done)
    requires !Panicked(trace[i]) && !Panicked(trace[i + 1])
    ensures r in trace[i + 1].cache && trace[i + 1].cache[r] == trace[i].cache[r]
  {
    var s := trace[i];
    assert StepAt(trace, i);
    RunKeepsInv(trace, i);
    assert ReqOk(s, r);
    var step :| Enabled(s, step) && trace[i + 1] == Do(s, step);
    PanicsExactly(trace, i, step);
    FinishedStep(s, step, r);
  }

  lemma FinishedStep(s: State, step: Step, r: ReqId)
    requires Inv(s) && Enabled(s, step) && InPhase(s, r, Done) && s.cache[r].wg == 0 && !Overdraws(s, step)
    ensures r in Do(s, step).cache && Do(s, step).cache[r] == s.cache[r]
  {
    if step.Reduce? {
      ReduceMeaning(s, step.m);
    }
  }

  /**
   runFunctionCalls after its wait, at any later moment of the run: if no call of this request has had more replies than
   were added for it, the messages are one for each tool ID fired with a positive factor, with the latest reply to it.
   */
  method Finish(s: State, r: ReqId, ghost trace: seq<State>, ghost i: nat) returns (messages: seq<ToolMessage>)
    requires Run(trace) && i < |trace| && s == trace[i] && !Panicked(s) && InPhase(s, r, Done) && OrderlyFor(s.calls, r)
    ensures forall j, k :: 0 <= j < k < |messages| ==> messages[j].toolCallId != messages[k].toolCallId
    ensures forall t :: Expected(s.calls, r, t) <==> exists m :: m in messages && m.toolCallId == t
    ensures forall m :: m in messages ==> m.role == "tool" && Latest(s.cache[r].log, m.toolCallId, m.content)
  {
    WaitEndsComplete(trace, i, r);
    ResultsAreLatestReplies(trace, i, r);
    ghost var val := s.cache[r].val;
    messages := Collect(s.cache[r].val);
    forall t ensures t in val <==> exists m :: m in messages && m.toolCallId == t {
      if t in val {
        assert ToolMessage("tool", val[t], t) in messages;
      }
    }
  }
}
