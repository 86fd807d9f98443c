/**
 What becomes of a connection in terms of its handshake, over whole runs of the zipper (core/server.go,
 pkg/bridge/ai/ai.go): which frames it gets, under which tag it is registered, and what a closed connector does to it.
 */
module Lifecycle {
  import opened Common
  import opened Metadata
  import opened Router
  import opened Register
  import opened Zipper

  // ---------------------------------------------------------------- what the handshake says

  /** The target a connection wants: the handshake's, or else what authentication set. */
  function WantedBy(hs: Handshake, authMd: M): (w: Option<string>) {
    if hs.wanted != "" then Some(hs.wanted) else Get(authMd, WANTED_TARGET_KEY)
  }

  /** The function definition a connection comes with: the handshake's, or else what authentication set. */
  function DefinitionOf(hs: Handshake, authMd: M): (d: Option<string>) {
    if hs.definition.Some? then hs.definition else Get(authMd, FUNCTION_DEFINITION_KEY)
  }

  /** What the middleware registers for a connection, if anything. */
  function ToolFor(parse: Parser, hs: Handshake, authMd: M): (t: Option<Tool>) {
    var d := DefinitionOf(hs, authMd);
    if hs.kind == StreamFunction && d.Some? && parse(d.value).Some?
    then Some(Tool("function", parse(d.value).value.0, parse(d.value).value.1))
    else None
  }

  // ---------------------------------------------------------------- a goroutine never forgets its handshake

  /** The middleware's loop is behind it, or it never had one. */
  predicate IsSettled(phase: Phase) {
    phase.Registered? || IsPastBlanking(phase)
  }

  ghost predicate Origin(ai: bool, parse: Parser, t: Thread) {
    var d := DefinitionOf(t.hs, t.authMd);
    && t.conn.kind == t.hs.kind && t.conn.tags == t.hs.tags
    && Get(t.conn.md, WANTED_TARGET_KEY) == WantedBy(t.hs, t.authMd)
    && (IsEarly(t.phase) ==> Get(t.conn.md, FUNCTION_DEFINITION_KEY) == Get(t.authMd, FUNCTION_DEFINITION_KEY))
    && (t.phase.Indexed? || t.phase.Registering? || t.phase.Registered? ==>
      Get(t.conn.md, FUNCTION_DEFINITION_KEY) == d)
    && t.definition == (if ai && (t.phase.Registering? || IsSettled(t.phase)) then d else None)
    && (t.phase.Registering? ==> ai && t.hs.kind == StreamFunction && d.Some? && t.tagsDone <= |t.hs.tags|)
    && (t.tagsDone > 0 ==> ToolFor(parse, t.hs, t.authMd).Some?)
    && (IsSettled(t.phase) ==> t.tagsDone == if ai && ToolFor(parse, t.hs, t.authMd).Some? then |t.hs.tags| else 0)
    && (IsEarly(t.phase) || t.phase.Indexed? ==> t.tagsDone == 0)
  }

  ghost predicate Origins(s: State) {
    forall n :: 0 <= n < |s.threads| ==> Origin(s.ai, s.parse, s.threads[n])
  }

  /** At most goroutine `n` has changed, and no handshake at all. */
  ghost predicate OnlyThread(s: State, s': State, n: nat) {
    && s'.ai == s.ai && s'.parse == s.parse && |s'.threads| == |s.threads|
    && (forall m :: 0 <= m < |s.threads| && m != n ==> s'.threads[m] == s.threads[m])
    && (n < |s.threads| ==> s'.threads[n].hs == s.threads[n].hs && s'.threads[n].authMd == s.threads[n].authMd)
  }

  /** Both phases say the same of the handshake. */
  predicate SameStanding(a: Phase, b: Phase) {
    (IsEarly(a) && IsEarly(b)) || (IsSettled(a) && IsSettled(b) && (b.Registered? ==> a.Registered?))
  }

  /** A goroutine moves on and keeps everything else. */
  ghost predicate Moved(s: State, s': State, n: nat) {
    && OnlyThread(s, s', n)
    && (n < |s.threads| ==>
         s'.threads[n] == s.threads[n].(phase := s'.threads[n].phase)
         && (s'.threads[n].phase == s.threads[n].phase || SameStanding(s.threads[n].phase, s'.threads[n].phase)))
  }

  lemma MovedKeepsOrigins(s: State, s': State, n: nat)
    requires Origins(s) && Moved(s, s', n)
    ensures Origins(s')
  {
  }

  lemma ThreadKeepsOrigins(s: State, s': State, n: nat)
    requires Origins(s) && OnlyThread(s, s', n) && n < |s.threads| && Origin(s.ai, s.parse, s'.threads[n])
    ensures Origins(s')
  {
  }

  predicate IsHandshakeStep(step: Step) {
    step.Accept? || step.Index? || IsMiddlewareStep(step)
  }

  /** Which goroutine a step is one of; a number that no goroutine has for a step of the shutdown. */
  function Actor(s: State, step: Step): (n: nat) {
    if step.Accept? || IsShutdownStep(step) then |s.threads| else step.n
  }

  lemma MoveMoves(s: State, s': State, n: nat, phase: Phase)
    requires n < |s.threads| && SameStanding(s.threads[n].phase, phase)
    requires s'.ai == s.ai && s'.parse == s.parse && s'.threads == Move(s, n, phase).threads
    ensures Moved(s, s', n)
  {
  }

  lemma StaysMoved(s: State, s': State, n: nat)
    requires s'.ai == s.ai && s'.parse == s.parse && s'.threads == s.threads
    ensures Moved(s, s', n)
  {
  }

  lemma EarlyStepMoves(s: State, step: Step)
    requires Enabled(s, step) && (step.MayStore? || step.Store?)
    ensures Moved(s, Do(s, step), step.n)
  {
    if step.MayStore? {
      MoveMoves(s, Do(s, step), step.n, if s.closed then Refused else Storing);
    } else {
      MoveMoves(s, Do(s, step), step.n, Stored);
    }
  }

  lemma PassStepMoves(s: State, step: Step)
    requires Enabled(s, step) && (step.MayLookup? || step.Lookup? || step.Write? || IsShutdownStep(step))
    ensures Moved(s, Do(s, step), Actor(s, step))
  {
    StaysMoved(s, Do(s, step), Actor(s, step));
  }

  lemma ServingStepMoves(s: State, step: Step)
    requires Enabled(s, step) && (step.StartPass? || step.EndPass? || step.StopServing?)
    ensures Moved(s, Do(s, step), step.n)
  {
    MoveMoves(s, Do(s, step), step.n,
              if step.StartPass? then Routing(|s.passes|) else if step.EndPass? then Serving else Served);
  }

  lemma UnregisterMoves(s: State, n: nat)
    requires At(s, n, Served)
    ensures Moved(s, DoUnregister(s, n), n)
  {
    MoveMoves(s, DoUnregister(s, n), n, Unregistered);
  }

  lemma UnindexMoves(s: State, n: nat)
    requires At(s, n, Unregistered)
    ensures Moved(s, DoUnindex(s, n), n)
  {
    MoveMoves(s, DoUnindex(s, n), n, Unindexed);
  }

  lemma DropMoves(s: State, step: Step)
    requires Enabled(s, step) && (step.MayDrop? || step.Drop?)
    ensures Moved(s, Do(s, step), step.n)
  {
    MoveMoves(s, Do(s, step), step.n, if step.MayDrop? && !s.closed then Dropping else Gone);
  }

  lemma StepMoves(s: State, step: Step)
    requires Enabled(s, step) && !IsHandshakeStep(step)
    ensures Moved(s, Do(s, step), Actor(s, step))
  {
    if step.MayStore? || step.Store? {
      EarlyStepMoves(s, step);
    } else if step.MayLookup? || step.Lookup? || step.Write? || IsShutdownStep(step) {
      PassStepMoves(s, step);
    } else if step.StartPass? || step.EndPass? || step.StopServing? {
      ServingStepMoves(s, step);
    } else if step.Unregister? {
      UnregisterMoves(s, step.n);
    } else if step.Unindex? {
      UnindexMoves(s, step.n);
    } else {
      DropMoves(s, step);
    }
  }

  lemma AcceptKeepsOrigins(s: State, hs: Handshake, authMd: M)
    requires Origins(s)
    ensures Origins(DoAccept(s, hs, authMd))
  {
    KeysDiffer();
  }

  lemma KeysDiffer()
    ensures WANTED_TARGET_KEY != FUNCTION_DEFINITION_KEY && WANTED_TARGET_KEY != "" && FUNCTION_DEFINITION_KEY != ""
  {
    assert |WANTED_TARGET_KEY| != |FUNCTION_DEFINITION_KEY|;
  }

  /** The definition in the metadata when the handshake is complete. */
  lemma IndexDefines(s: State, n: nat)
    requires n < |s.threads|
    ensures
      var d, before := s.threads[n].hs.definition, s.threads[n].conn.md;
      Get(DoIndex(s, n).threads[n].conn.md, FUNCTION_DEFINITION_KEY)
        == if d.Some? then d else Get(before, FUNCTION_DEFINITION_KEY)
  {
    KeysDiffer();
  }

  lemma IndexKeepsOrigins(s: State, n: nat)
    requires Origins(s) && At(s, n, Stored)
    ensures OnlyThread(s, DoIndex(s, n), n) && Origins(DoIndex(s, n))
  {
    IndexEndsHandshake(s, n);
    IndexDefines(s, n);
    EndedKeepsOrigins(s, DoIndex(s, n), n);
  }

  lemma EndedKeepsOrigins(s: State, s': State, n: nat)
    requires Origins(s) && At(s, n, Stored) && HandshakeEnds(s, s', n)
    requires
      var d, before := s.threads[n].hs.definition, s.threads[n].conn.md;
      Get(s'.threads[n].conn.md, FUNCTION_DEFINITION_KEY) == if d.Some? then d else Get(before, FUNCTION_DEFINITION_KEY)
    ensures OnlyThread(s, s', n) && Origins(s')
  {
    assert Origin(s.ai, s.parse, s.threads[n]);
    ThreadKeepsOrigins(s, s', n);
  }

  lemma InterceptKeepsOrigins(s: State, n: nat)
    requires Origins(s) && At(s, n, Indexed)
    ensures OnlyThread(s, DoIntercept(s, n), n) && Origins(DoIntercept(s, n))
  {
    assert Origin(s.ai, s.parse, s.threads[n]);
    ThreadKeepsOrigins(s, DoIntercept(s, n), n);
  }

  lemma RegisterTagKeepsOrigins(s: State, n: nat)
    requires Origins(s) && Enabled(s, RegisterTag(n))
    ensures OnlyThread(s, DoRegisterTag(s, n), n) && Origins(DoRegisterTag(s, n))
  {
    assert Origin(s.ai, s.parse, s.threads[n]);
    ThreadKeepsOrigins(s, DoRegisterTag(s, n), n);
  }

  lemma EndRegisterKeepsOrigins(s: State, n: nat)
    requires Origins(s) && Enabled(s, EndRegister(n))
    ensures OnlyThread(s, Move(s, n, Registered), n) && Origins(Move(s, n, Registered))
  {
    assert Origin(s.ai, s.parse, s.threads[n]);
    ThreadKeepsOrigins(s, Move(s, n, Registered), n);
  }

  lemma BlankKeepsOrigins(s: State, n: nat)
    requires Origins(s) && At(s, n, Registered)
    ensures
      var s' := Move(SetMd(s, n, FUNCTION_DEFINITION_KEY, ""), n, Serving);
      OnlyThread(s, s', n) && Origins(s')
  {
    var s' := Move(SetMd(s, n, FUNCTION_DEFINITION_KEY, ""), n, Serving);
    KeysDiffer();
    assert Origin(s.ai, s.parse, s.threads[n]);
    ThreadKeepsOrigins(s, s', n);
  }

  lemma HandshakeStepKeepsOrigins(s: State, step: Step)
    requires Origins(s) && Enabled(s, step) && IsHandshakeStep(step) && !step.Accept?
    ensures Origins(Do(s, step)) && OnlyThread(s, Do(s, step), step.n)
  {
    if step.Index? {
      IndexKeepsOrigins(s, step.n);
    } else if step.Intercept? {
      InterceptKeepsOrigins(s, step.n);
    } else if step.RegisterTag? {
      RegisterTagKeepsOrigins(s, step.n);
    } else if step.EndRegister? {
      EndRegisterKeepsOrigins(s, step.n);
    } else {
      BlankKeepsOrigins(s, step.n);
    }
  }

  lemma StepKeepsOrigins(s: State, step: Step)
    requires Origins(s) && Enabled(s, step)
    ensures Origins(Do(s, step))
    ensures !step.Accept? ==> OnlyThread(s, Do(s, step), Actor(s, step))
  {
    if step.Accept? {
      AcceptKeepsOrigins(s, step.hs, step.authMd);
    } else if IsHandshakeStep(step) {
      HandshakeStepKeepsOrigins(s, step);
    } else {
      StepMoves(s, step);
      MovedKeepsOrigins(s, Do(s, step), Actor(s, step));
    }
  }

  /** What every step keeps of the goroutines: the system's settings, and the handshakes. */
  ghost predicate Remembers(s: State, s': State) {
    && s'.ai == s.ai && s'.parse == s.parse && |s.threads| <= |s'.threads|
    && forall n :: 0 <= n < |s.threads| ==>
         s'.threads[n].hs == s.threads[n].hs && s'.threads[n].authMd == s.threads[n].authMd
  }

  lemma AcceptRemembers(s: State, hs: Handshake, authMd: M)
    ensures Remembers(s, DoAccept(s, hs, authMd))
  {
  }

  lemma NextKeepsOrigins(s: State, s': State)
    requires Origins(s) && Next(s, s')
    ensures Origins(s') && Remembers(s, s')
  {
    var step :| Enabled(s, step) && s' == Do(s, step);
    StepKeepsOrigins(s, step);
    if step.Accept? {
      AcceptRemembers(s, step.hs, step.authMd);
    }
  }

  lemma StepAtKeepsOrigins(trace: seq<State>, i: nat)
    requires Run(trace) && i + 1 < |trace| && Origins(trace[i])
    ensures Origins(trace[i + 1]) && Remembers(trace[i], trace[i + 1])
  {
    assert StepAt(trace, i);
    NextKeepsOrigins(trace[i], trace[i + 1]);
  }

  lemma {:induction false} RunKeepsOrigins(trace: seq<State>, i: nat)
    requires Run(trace) && i < |trace|
    ensures Origins(trace[i])
  {
    if i > 0 {
      RunKeepsOrigins(trace, i - 1);
      StepAtKeepsOrigins(trace, i - 1);
    }
  }

  lemma {:induction false} RunRemembers(trace: seq<State>, i: nat, j: nat)
    requires Run(trace) && i <= j < |trace|
    ensures Remembers(trace[i], trace[j])
    decreases j - i
  {
    if i < j {
      RunRemembers(trace, i, j - 1);
      RunKeepsOrigins(trace, j - 1);
      StepAtKeepsOrigins(trace, j - 1);
    }
  }

  // ---------------------------------------------------------------- routing by handshake

  ghost predicate Took(trace: seq<State>, i: nat, step: Step)
    requires i + 1 < |trace|
  {
    Enabled(trace[i], step) && trace[i + 1] == Do(trace[i], step)
  }

  /** The connection accepted in step `i` of a run. */
  lemma AcceptedKeepsHandshake(trace: seq<State>, i: nat, j: nat, hs: Handshake, authMd: M)
    requires Run(trace) && i < j < |trace| && Took(trace, i, Accept(hs, authMd))
    ensures
      var n := |trace[i].threads|;
      n < |trace[j].threads| && trace[j].threads[n].hs == hs && trace[j].threads[n].authMd == authMd
  {
    RunRemembers(trace, i + 1, j);
  }

  /** A frame with this tag and target is meant for a connection that made this handshake. */
  predicate MeantBy(hs: Handshake, authMd: M, tag: Tag, target: Option<string>) {
    hs.kind == StreamFunction && tag in hs.tags && (target.Some? ==> WantedBy(hs, authMd) == target)
  }

  lemma MeantIsMeantBy(trace: seq<State>, i: nat, n: nat, tag: Tag, target: Option<string>)
    requires Run(trace) && i < |trace| && n < |trace[i].threads|
    ensures
      var t := trace[i].threads[n];
      Meant(t.conn, tag, target) <==> MeantBy(t.hs, t.authMd, tag, target)
  {
    RunKeepsOrigins(trace, i);
    assert Origin(trace[i].ai, trace[i].parse, trace[i].threads[n]);
  }

  /**
   While the connector is open, the router names a connection accepted earlier exactly from the end of its handshake to
   its teardown, for a frame with a tag that its handshake lists, and with no target or the one that its handshake, or
   else its authentication, gave.
   */
  lemma AcceptedIsRouted(trace: seq<State>, i: nat, j: nat, hs: Handshake, authMd: M, tag: Tag, target: Option<string>)
    requires Run(trace) && i < j < |trace| && Took(trace, i, Accept(hs, authMd)) && !trace[j].closed
    ensures
      var n := |trace[i].threads|;
      n < |trace[j].threads| &&
      (Id(n) in Routed(trace[j].rules, tag, target) <==>
        && IsIndexed(trace[j].threads[n].phase)
        && hs.kind == StreamFunction && tag in hs.tags
        && (target.Some? ==> target == if hs.wanted != "" then Some(hs.wanted) else Get(authMd, WANTED_TARGET_KEY)))
  {
    AcceptedKeepsHandshake(trace, i, j, hs, authMd);
    var n := |trace[i].threads|;
    RoutedIsMeant(trace, j, tag, target);
    MeantIsMeantBy(trace, j, n, tag, target);
  }

  // ---------------------------------------------------------------- passes by frame

  predicate PassKept(p: Pass, p': Pass) {
    p'.tag == p.tag && p'.md == p.md && p'.ids == p.ids
  }

  /** No pass is lost, nor what it is about. */
  ghost predicate PassesKept(s: State, s': State) {
    |s.passes| <= |s'.passes| && forall p :: 0 <= p < |s.passes| ==> PassKept(s.passes[p], s'.passes[p])
  }

  lemma UpdateKeepsPasses(s: State, n: nat, p: Pass)
    requires InPass(s, n) && PassKept(PassOf(s, n), p)
    ensures PassesKept(s, UpdatePass(s, n, p))
  {
  }

  lemma PassStepKeepsPasses(s: State, step: Step)
    requires Enabled(s, step) && (step.MayLookup? || step.Lookup? || step.Write?)
    ensures PassesKept(s, Do(s, step))
  {
    UpdateKeepsPasses(s, step.n, PassOf(Do(s, step), step.n));
  }

  lemma StepKeepsPasses(s: State, step: Step)
    requires Enabled(s, step)
    ensures PassesKept(s, Do(s, step))
  {
    if step.MayLookup? || step.Lookup? || step.Write? {
      PassStepKeepsPasses(s, step);
    } else if !step.StartPass? {
      StepForward(s, step);
    }
  }

  lemma NextKeepsPasses(s: State, s': State)
    requires Next(s, s')
    ensures PassesKept(s, s')
  {
    var step :| Enabled(s, step) && s' == Do(s, step);
    StepKeepsPasses(s, step);
  }

  lemma {:induction false} RunKeepsPasses(trace: seq<State>, i: nat, j: nat)
    requires Run(trace) && i <= j < |trace|
    ensures PassesKept(trace[i], trace[j])
    decreases j - i
  {
    if i < j {
      RunKeepsPasses(trace, i, j - 1);
      assert StepAt(trace, j - 1);
      NextKeepsPasses(trace[j - 1], trace[j]);
    }
  }

  /** The pass that step `i` of a run starts, seen later. */
  lemma PassIsOfFrame(trace: seq<State>, i: nat, j: nat, n: nat, tag: Tag, frameMd: M, span: Span, ids: seq<ConnId>)
    requires Run(trace) && i < j < |trace| && Took(trace, i, StartPass(n, tag, frameMd, span, ids))
    ensures
      var p := |trace[i].passes|;
      && p < |trace[j].passes|
      && trace[j].passes[p].tag == tag && trace[j].passes[p].ids == ids
      && trace[j].passes[p].md == Propagate(Overlay(frameMd, trace[i].threads[n].conn.md), span)
  {
    RunKeepsPasses(trace, i + 1, j);
    var p := |trace[i].passes|;
    assert trace[i + 1].passes[p] == Pass(tag, FrameMd(trace[i], n, frameMd, span), ids, 0, false, None, []);
    assert PassKept(trace[i + 1].passes[p], trace[j].passes[p]);
  }

  /**
   Where a frame goes. When the routing of a frame starts in step `i`, the connections it is due to are those that have
   completed their handshake, observe its tag and want its target, in terms of their handshakes. At any later moment
   the pass has written to no connection twice and to no other than these; and once it is over, the connector being
   open, to each of them that is not gone.
   */
  lemma FrameGoesWhereMeant(
    trace: seq<State>, i: nat, j: nat, n: nat, tag: Tag, frameMd: M, span: Span, ids: seq<ConnId>, m: nat)
    requires Run(trace) && i < j < |trace| && Took(trace, i, StartPass(n, tag, frameMd, span, ids))
    requires m < |trace[i].threads| && !trace[i].closed
    ensures
      var p, t := |trace[i].passes|, trace[i].threads[m];
      var target := Get(Propagate(Overlay(frameMd, trace[i].threads[n].conn.md), span), TARGET_KEY);
      && p < |trace[j].passes| && m < |trace[j].threads|
      && NoDup(trace[j].passes[p].written)
      && var wanted := if t.hs.wanted != "" then Some(t.hs.wanted) else Get(t.authMd, WANTED_TARGET_KEY);
         var due := IsIndexed(t.phase) && t.hs.kind == StreamFunction && tag in t.hs.tags
                    && (target.Some? ==> target == wanted);
         && (m in trace[j].passes[p].written ==> due)
         && (due && IsOver(trace[j].passes[p]) && !trace[j].closed ==>
              m in trace[j].passes[p].written || trace[j].threads[m].phase.Gone?)
  {
    var p, target := |trace[i].passes|, Target(FrameMd(trace[i], n, frameMd, span));
    PassIsOfFrame(trace, i, j, n, tag, frameMd, span, ids);
    RunRemembers(trace, i, j);
    RunKeepsInv(trace, i);
    RoutedIsMeant(trace, i, tag, target);
    MeantIsMeantBy(trace, i, m, tag, target);
    assert Id(m) in ids <==> Id(m) in Elems(ids);
    WrittenIsListed(trace, j, p, m);
    if IsOver(trace[j].passes[p]) && !trace[j].closed && Id(m) in ids {
      ListedIsWritten(trace, j, p, m);
    }
  }

  predicate IsOver(p: Pass) {
    p.pos == |p.ids| && p.got.None?
  }

  lemma WrittenIsListed(trace: seq<State>, j: nat, p: nat, m: nat)
    requires Run(trace) && j < |trace| && p < |trace[j].passes|
    ensures NoDup(trace[j].passes[p].written)
    ensures m in trace[j].passes[p].written ==> Id(m) in trace[j].passes[p].ids
  {
    RunKeepsInv(trace, j);
    var pass := trace[j].passes[p];
    assert PassOk(trace[j], pass);
    if m in pass.written {
      var k :| 0 <= k < |pass.written| && pass.written[k] == m;
      assert Id(pass.written[k]) in pass.ids[..pass.pos];
    }
  }

  lemma ListedIsWritten(trace: seq<State>, j: nat, p: nat, m: nat)
    requires Run(trace) && j < |trace| && p < |trace[j].passes| && IsOver(trace[j].passes[p]) && !trace[j].closed
    requires m < |trace[j].threads| && Id(m) in trace[j].passes[p].ids
    ensures m in trace[j].passes[p].written || trace[j].threads[m].phase.Gone?
  {
    RunKeepsInv(trace, j);
    RunReaches(trace, j);
    var pass := trace[j].passes[p];
    assert PassReaches(trace[j], pass);
    var k :| 0 <= k < |pass.ids| && pass.ids[k] == Id(m);
    assert Serial(pass.ids[k]) == m;
  }

  // ---------------------------------------------------------------- the register by handshake

  /**
   Once the middleware is through with a connection, and until it unregisters it, the connection is in the register
   exactly if it is a stream function with tags and with a definition that decodes; under its last tag,
     with the tool its
   definition decodes to.
   */
  lemma RegisteredByHandshake(trace: seq<State>, i: nat, n: nat)
    requires Run(trace) && i < |trace| && n < |trace[i].threads| && IsSettled(trace[i].threads[n].phase)
    ensures
      var s, t := trace[i], trace[i].threads[n];
      var tool := ToolFor(s.parse, t.hs, t.authMd);
      && (Id(n) in s.fns <==> s.ai && tool.Some? && t.hs.tags != [] && MayBeRegistered(t.phase))
      && (Id(n) in s.fns ==> s.fns[Id(n)] == ConnectedFn(t.hs.tags[|t.hs.tags| - 1], tool.value))
  {
    RunKeepsInv(trace, i);
    RunKeepsOrigins(trace, i);
    assert ConnOk(trace[i], n);
    assert Origin(trace[i].ai, trace[i].parse, trace[i].threads[n]);
  }

  // ---------------------------------------------------------------- a closed connector

  /** The connector has not let the connection in. */
  predicate IsOutside(s: State, n: nat) {
    n < |s.threads| ==> s.threads[n].phase.Created? || s.threads[n].phase.Refused?
  }

  lemma ClosedStaysClosed(s: State, step: Step)
    requires Enabled(s, step) && s.closed
    ensures Do(s, step).closed
  {
    if !IsPassStep(step) {
      StepForward(s, step);
    }
  }

  lemma ClosedKeepsOutside(s: State, step: Step, n: nat)
    requires Origins(s) && Enabled(s, step) && s.closed && IsOutside(s, n)
    ensures IsOutside(Do(s, step), n)
  {
    StepKeepsOrigins(s, step);
    if n < |s.threads| && !step.Accept? && Actor(s, step) == n {
      assert step.MayStore?;
    }
  }

  lemma NextAdmitsNobody(s: State, s': State, n: nat)
    requires Origins(s) && Next(s, s') && s.closed && IsOutside(s, n)
    ensures s'.closed && IsOutside(s', n)
  {
    var step :| Enabled(s, step) && s' == Do(s, step);
    ClosedStaysClosed(s, step);
    ClosedKeepsOutside(s, step, n);
  }

  lemma StepAtAdmitsNobody(trace: seq<State>, i: nat, n: nat)
    requires Run(trace) && i + 1 < |trace| && trace[i].closed && IsOutside(trace[i], n)
    ensures trace[i + 1].closed && IsOutside(trace[i + 1], n)
  {
    RunKeepsOrigins(trace, i);
    assert StepAt(trace, i);
    NextAdmitsNobody(trace[i], trace[i + 1], n);
  }

  /** A closed connector refuses whoever asks from then on: such a connection never gets beyond its handshake. */
  lemma {:induction false} ClosedAdmitsNobody(trace: seq<State>, i: nat, j: nat, n: nat)
    requires Run(trace) && i <= j < |trace| && trace[i].closed && IsOutside(trace[i], n)
    ensures trace[j].closed && IsOutside(trace[j], n)
    decreases j - i
  {
    if i < j {
      ClosedAdmitsNobody(trace, i, j - 1, n);
      StepAtAdmitsNobody(trace, j - 1, n);
    }
  }

  /** The pass has not been let through to another connection, or has not even started. */
  predicate IsHeld(s: State, p: nat, written: seq<nat>) {
    if p < |s.passes|
    then !s.passes[p].allowed && s.passes[p].got.None? && s.passes[p].written == written
    else written == []
  }

  lemma ClosedHoldsPasses(s: State, step: Step, p: nat, written: seq<nat>)
    requires Enabled(s, step) && s.closed && IsHeld(s, p, written)
    ensures IsHeld(Do(s, step), p, written)
  {
    if !IsPassStep(step) {
      StepForward(s, step);
    }
  }

  lemma NextHoldsPasses(s: State, s': State, p: nat, written: seq<nat>)
    requires Next(s, s') && s.closed && IsHeld(s, p, written)
    ensures s'.closed && IsHeld(s', p, written)
  {
    var step :| Enabled(s, step) && s' == Do(s, step);
    ClosedStaysClosed(s, step);
    ClosedHoldsPasses(s, step, p, written);
  }

  /** A routing pass that asks a closed connector for its next connection writes to no further one. */
  lemma {:induction false} ClosedPassWritesNoMore(trace: seq<State>, i: nat, j: nat, p: nat, written: seq<nat>)
    requires Run(trace) && i <= j < |trace| && trace[i].closed && IsHeld(trace[i], p, written)
    ensures trace[j].closed && IsHeld(trace[j], p, written)
    decreases j - i
  {
    if i < j {
      ClosedPassWritesNoMore(trace, i, j - 1, p, written);
      assert StepAt(trace, j - 1);
      NextHoldsPasses(trace[j - 1], trace[j], p, written);
    }
  }

  /** Between two states `n` keeps its entry, if any, unless `deleted`, and is not let through to remove it. */
  ghost predicate KeepsEntry(s: State, s': State, n: nat, deleted: bool)
    requires n < |s.threads|
  {
    && (Id(n) in s'.connector <==> Id(n) in s.connector && !deleted)
    && n < |s'.threads| && !s'.threads[n].phase.Dropping?
  }

  lemma JoiningKeepsEntry(s: State, step: Step, n: nat)
    requires Inv(s) && Enabled(s, step) && n < |s.threads| && !s.threads[n].phase.Storing?
      && !s.threads[n].phase.Dropping?
    requires step.Accept? || step.MayStore? || step.Store?
    ensures KeepsEntry(s, Do(s, step), n, false)
  {
    if step.Store? {
      assert ConnOk(s, step.n);
    }
  }

  lemma ServingKeepsEntry(s: State, step: Step, n: nat)
    requires Enabled(s, step) && n < |s.threads| && !s.threads[n].phase.Dropping?
    requires IsPassStep(step) || IsMiddlewareStep(step)
    ensures KeepsEntry(s, Do(s, step), n, false)
  {
  }

  lemma IndexingKeepsEntry(s: State, m: nat, n: nat)
    requires At(s, m, Stored) && n < |s.threads| && !s.threads[n].phase.Dropping?
    ensures KeepsEntry(s, DoIndex(s, m), n, false)
  {
  }

  lemma UnindexingKeepsEntry(s: State, m: nat, n: nat)
    requires At(s, m, Unregistered) && n < |s.threads| && !s.threads[n].phase.Dropping?
    ensures KeepsEntry(s, DoUnindex(s, m), n, false)
  {
  }

  lemma EndingKeepsEntry(s: State, step: Step, n: nat)
    requires Enabled(s, step) && n < |s.threads| && !s.threads[n].phase.Dropping?
    requires step.EndPass? || step.StopServing? || step.Unregister?
    ensures KeepsEntry(s, Do(s, step), n, false)
  {
  }

  lemma LeavingKeepsEntry(s: State, step: Step, n: nat)
    requires Inv(s) && Enabled(s, step) && n < |s.threads| && s.closed && !s.threads[n].phase.Dropping?
    requires step.MayDrop? || step.Drop? || IsShutdownStep(step)
    ensures KeepsEntry(s, Do(s, step), n, step == DeleteConn(Id(n)))
  {
    if step.Drop? {
      assert ConnOk(s, step.n);
    }
  }

  /**
   What a closed connector still holds, only the shutdown takes out: a goroutine that asks whether it may remove its
   connection is not let.
   */
  lemma ShutdownTakesOut(s: State, step: Step, n: nat)
    requires Inv(s) && Enabled(s, step) && s.closed && n < |s.threads|
    requires !s.threads[n].phase.Storing? && !s.threads[n].phase.Dropping?
    ensures KeepsEntry(s, Do(s, step), n, step == DeleteConn(Id(n)))
  {
    if step.Accept? || step.MayStore? || step.Store? {
      JoiningKeepsEntry(s, step, n);
    } else if IsPassStep(step) || IsMiddlewareStep(step) {
      ServingKeepsEntry(s, step, n);
    } else if step.MayDrop? || step.Drop? || IsShutdownStep(step) {
      LeavingKeepsEntry(s, step, n);
    } else if step.Index? {
      IndexingKeepsEntry(s, step.n, n);
    } else if step.Unindex? {
      UnindexingKeepsEntry(s, step.n, n);
    } else {
      EndingKeepsEntry(s, step, n);
    }
  }

  /** A released router names nobody. */
  lemma ReleasedRouterNamesNobody(s: State, tag: Tag, target: Option<string>)
    requires Enabled(s, ReleaseRouter)
    ensures Routed(Do(s, ReleaseRouter).rules, tag, target) == {}
  {
  }

  // ---------------------------------------------------------------- what can happen

  /** The steps lead from one state to the other. */
  ghost predicate Leads(s: State, steps: seq<Step>, s': State)
    decreases |steps|
  {
    if steps == [] then s' == s else Enabled(s, steps[0]) && Leads(Do(s, steps[0]), steps[1..], s')
  }

  lemma {:induction false} LeadsOn(s: State, first: seq<Step>, s': State, second: seq<Step>, s'': State)
    requires Leads(s, first, s') && Leads(s', second, s'')
    ensures Leads(s, first + second, s'')
    decreases |first|
  {
    if first == [] {
      assert first + second == second;
    } else {
      LeadsOn(Do(s, first[0]), first[1..], s', second, s'');
      assert (first + second)[1..] == first[1..] + second;
    }
  }

  lemma OneMore(s: State, steps: seq<Step>, s': State, step: Step)
    requires Leads(s, steps, s') && Enabled(s', step)
    ensures Leads(s, steps + [step], Do(s', step))
  {
    assert [step][1..] == [];
    assert Leads(Do(s', step), [], Do(s', step));
    LeadsOn(s, steps, s', [step], Do(s', step));
  }

  /** Whatever else is going on, a client can connect to an open zipper and is then served. */
  lemma HandshakeSucceeds(s: State, hs: Handshake, authMd: M) returns (steps: seq<Step>, s': State)
    requires !s.closed
    ensures Leads(s, steps, s') && !s'.closed && At(s', |s.threads|, Serving)
    ensures s'.threads[|s.threads|].hs == hs && s'.threads[|s.threads|].authMd == authMd
  {
    var n := |s.threads|;
    steps, s' := Joins(s, hs, authMd);
    OneMore(s, steps, s', Intercept(n));
    steps, s' := steps + [Intercept(n)], Do(s', Intercept(n));
    if s'.threads[n].phase.Registering? {
      var more, s'' := LoopEnds(s', n);
      LeadsOn(s, steps, s', more, s'');
      steps, s' := steps + more, s'';
    }
    if s'.threads[n].phase.Registered? {
      OneMore(s, steps, s', Blank(n));
      steps, s' := steps + [Blank(n)], Do(s', Blank(n));
    }
  }

  lemma Joins(s: State, hs: Handshake, authMd: M) returns (steps: seq<Step>, s': State)
    requires !s.closed
    ensures Leads(s, steps, s') && !s'.closed && At(s', |s.threads|, Indexed)
    ensures s'.threads[|s.threads|].hs == hs && s'.threads[|s.threads|].authMd == authMd
  {
    var n := |s.threads|;
    var s1 := Do(s, Accept(hs, authMd));
    var s2 := Do(s1, MayStore(n));
    var s3 := Do(s2, Store(n));
    IndexEndsHandshake(s3, n);
    s' := Do(s3, Index(n));
    steps := [];
    OneMore(s, steps, s, Accept(hs, authMd));
    OneMore(s, steps + [Accept(hs, authMd)], s1, MayStore(n));
    OneMore(s, steps + [Accept(hs, authMd)] + [MayStore(n)], s2, Store(n));
    OneMore(s, steps + [Accept(hs, authMd)] + [MayStore(n)] + [Store(n)], s3, Index(n));
    steps := steps + [Accept(hs, authMd)] + [MayStore(n)] + [Store(n)] + [Index(n)];
  }

  lemma {:induction false} LoopEnds(s: State, n: nat) returns (steps: seq<Step>, s': State)
    requires At(s, n, Registering)
    ensures Leads(s, steps, s') && s'.closed == s.closed && At(s', n, Registered)
    ensures s'.threads[n].hs == s.threads[n].hs && s'.threads[n].authMd == s.threads[n].authMd
    decreases |s.threads[n].conn.tags| - s.threads[n].tagsDone
  {
    if HasTagsLeft(s.threads[n]) && Parsed(s, n).Some? {
      var more;
      more, s' := LoopEnds(Do(s, RegisterTag(n)), n);
      steps := [RegisterTag(n)] + more;
    } else {
      s' := Do(s, EndRegister(n));
      steps := [EndRegister(n)];
      assert steps[1..] == [];
    }
  }

  /** A set in some order. */
  lemma {:induction false} Listing(s: set<ConnId>) returns (ids: seq<ConnId>)
    ensures NoDup(ids) && Elems(ids) == s
  {
    if s == {} {
      ids := [];
    } else {
      var id :| id in s;
      var rest := Listing(s - {id});
      assert id !in Elems(rest);
      ids := [id] + rest;
      assert Elems(ids) == {id} + Elems(rest);
    }
  }

  /** Any frame that arrives can be routed to the end, to each connection it is meant for. */
  lemma FrameIsDelivered(s: State, n: nat, tag: Tag, frameMd: M, span: Span) returns (steps: seq<Step>, s': State)
    requires Inv(s) && Reaches(s) && !s.closed && At(s, n, Serving)
    ensures Leads(s, steps, s') && At(s', n, Serving) && |s'.passes| == |s.passes| + 1 && |s'.threads| == |s.threads|
    ensures
      var pass, md := s'.passes[|s.passes|], FrameMd(s, n, frameMd, span);
      && pass.tag == tag && pass.md == md
      && forall m :: 0 <= m < |s.threads| && Id(m) in Routed(s.rules, tag, Target(md)) ==>
           m in pass.written || s'.threads[m].phase.Gone?
  {
    var md := FrameMd(s, n, frameMd, span);
    var ids := Listing(Routed(s.rules, tag, Target(md)));
    var start := StartPass(n, tag, frameMd, span, ids);
    var s1 := Do(s, start);
    StepKeepsInv(s, start);
    StepReaches(s, start);
    var more, s2 := PassEnds(s1, n);
    steps := [start] + more;
    OneMore(s, steps, s2, EndPass(n));
    steps, s' := steps + [EndPass(n)], Do(s2, EndPass(n));
    forall m | 0 <= m < |s.threads| && Id(m) in Routed(s.rules, tag, Target(md))
      ensures m in s'.passes[|s.passes|].written || s'.threads[m].phase.Gone?
    {
      assert Id(m) in Elems(ids);
      OverReachesAll(s2, |s.passes|, m);
    }
  }

  lemma OverReachesAll(s: State, p: nat, m: nat)
    requires Reaches(s) && !s.closed && p < |s.passes| && IsOver(s.passes[p]) && m < ID_LIMIT
      && Id(m) in s.passes[p].ids
    ensures m < |s.threads| && (m in s.passes[p].written || s.threads[m].phase.Gone?)
  {
    var pass := s.passes[p];
    assert PassReaches(s, pass);
    var k :| 0 <= k < |pass.ids| && pass.ids[k] == Id(m);
    assert Serial(pass.ids[k]) == m;
  }

  /** A pass can go on to its end. */
  lemma {:induction false} PassEnds(s: State, n: nat) returns (steps: seq<Step>, s': State)
    requires Inv(s) && Reaches(s) && !s.closed && InPass(s, n)
    ensures Leads(s, steps, s') && Inv(s') && Reaches(s') && !s'.closed
    ensures s'.threads == s.threads && |s'.passes| == |s.passes|
    ensures InPass(s', n) && PassKept(PassOf(s, n), PassOf(s', n)) && IsOver(PassOf(s', n))
    decreases |PassOf(s, n).ids| - PassOf(s, n).pos, if PassOf(s, n).got.Some? then 0 else 1,
      if PassOf(s, n).allowed then 0 else 1
  {
    assert PassOk(s, PassOf(s, n));
    if IsOver(PassOf(s, n)) {
      steps, s' := [], s;
    } else {
      var step := PassGoesOn(s, n);
      var more;
      more, s' := PassEnds(Do(s, step), n);
      steps := [step] + more;
    }
  }

  function NextPassStep(s: State, n: nat): (step: Step)
    requires InPass(s, n)
  {
    if PassOf(s, n).got.Some? then Write(n) else if PassOf(s, n).allowed then Lookup(n) else MayLookup(n)
  }

  lemma PassGoesOn(s: State, n: nat) returns (step: Step)
    requires Inv(s) && Reaches(s) && !s.closed && InPass(s, n) && !IsOver(PassOf(s, n))
    ensures Enabled(s, step) && Inv(Do(s, step)) && Reaches(Do(s, step)) && Advances(s, Do(s, step), n)
  {
    assert PassOk(s, PassOf(s, n));
    step := NextPassStep(s, n);
    PassAdvances(s, n);
    StepKeepsInv(s, step);
    StepReaches(s, step);
  }

  /** One step of a pass, and nothing else. */
  ghost predicate Advances(s: State, s': State, n: nat)
    requires InPass(s, n)
  {
    && !s'.closed && s'.threads == s.threads && |s'.passes| == |s.passes| && InPass(s', n)
    && var p, p' := PassOf(s, n), PassOf(s', n);
       && PassKept(p, p') && p.pos <= p'.pos <= |p.ids|
       && (p'.pos == p.pos ==> p.got.None? && (p'.got.Some? || (p'.got.None? && !p.allowed && p'.allowed)))
  }

  lemma PassAdvances(s: State, n: nat)
    requires !s.closed && InPass(s, n) && !IsOver(PassOf(s, n))
    requires PassOf(s, n).pos <= |PassOf(s, n).ids|
      && (PassOf(s, n).got.Some? ==> PassOf(s, n).pos < |PassOf(s, n).ids|)
    ensures Enabled(s, NextPassStep(s, n)) && Advances(s, Do(s, NextPassStep(s, n)), n)
  {
  }

  /** A connection whose read loop ends can be torn down to the end. */
  lemma LeavesCleanly(s: State, n: nat) returns (steps: seq<Step>, s': State)
    requires At(s, n, Serving)
    ensures Leads(s, steps, s') && At(s', n, Gone)
  {
    steps, s' := LeavesRouter(s, n);
    OneMore(s, steps, s', MayDrop(n));
    steps, s' := steps + [MayDrop(n)], Do(s', MayDrop(n));
    if s'.threads[n].phase.Dropping? {
      OneMore(s, steps, s', Drop(n));
      steps, s' := steps + [Drop(n)], Do(s', Drop(n));
    }
  }

  lemma LeavesRouter(s: State, n: nat) returns (steps: seq<Step>, s': State)
    requires At(s, n, Serving)
    ensures Leads(s, steps, s') && At(s', n, Unindexed)
  {
    var s1 := Do(s, StopServing(n));
    var s2 := Do(s1, Unregister(n));
    var steps0: seq<Step> := [];
    OneMore(s, steps0, s, StopServing(n));
    OneMore(s, steps0 + [StopServing(n)], s1, Unregister(n));
    OneMore(s, steps0 + [StopServing(n)] + [Unregister(n)], s2, Unindex(n));
    steps, s' := steps0 + [StopServing(n)] + [Unregister(n)] + [Unindex(n)], Do(s2, Unindex(n));
  }
}
