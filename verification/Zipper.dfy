/**
 The connections of one zipper as a step system (core/server.go, core/connector.go, core/connection.go,
 pkg/bridge/ai/ai.go). Every accepted connection runs its own goroutine: handshake, storing, indexing,
 registering, serving, teardown. Each operation on a shared structure is one step, and the steps of all
 goroutines interleave freely.
 */
module Zipper {
  import opened Common
  import opened Metadata
  import opened Router
  import opened Register

  const ID_LIMIT: nat := 0x1_0000_0000_0000_0000

  /** The ID of the n-th connection (from 0): an atomic increment of a 64-bit counter, which wraps. */
  function Id(n: nat): (id: ConnId)
    ensures id < ID_LIMIT
    ensures n < ID_LIMIT ==> Serial(id) == n
  {
    (n + 1) % ID_LIMIT
  }

  /** Which connection, among the first 2^64, has this ID. */
  function Serial(id: ConnId): (n: nat) {
    if id == 0 then ID_LIMIT - 1 else id - 1
  }

  /** IDs repeat with period 2^64 and not before. */
  lemma IdsRepeatExactly(m: nat, n: nat)
    ensures Id(m) == Id(n) <==> m % ID_LIMIT == n % ID_LIMIT
    ensures m < ID_LIMIT && n < ID_LIMIT && m != n ==> Id(m) != Id(n)
  {
    NextRemainder(m);
    NextRemainder(n);
  }

  lemma NextRemainder(n: nat)
    ensures n % ID_LIMIT < ID_LIMIT
    ensures Id(n) == if n % ID_LIMIT == ID_LIMIT - 1 then 0 else n % ID_LIMIT + 1
    ensures n < ID_LIMIT ==> n % ID_LIMIT == n
  {
    var q, r := n / ID_LIMIT, n % ID_LIMIT;
    assert n == q * ID_LIMIT + r;
    if r == ID_LIMIT - 1 {
      assert n + 1 == (q + 1) * ID_LIMIT;
    }
  }

  datatype ClientType = Source | UpstreamZipper | StreamFunction

  /** What the handshake frame says. */
  datatype Handshake = Handshake(kind: ClientType, tags: seq<Tag>, wanted: string, definition: Option<string>)

  datatype Conn = Conn(id: ConnId, kind: ClientType, tags: seq<Tag>, md: M)

  /** Where a connection's goroutine is. */
  datatype Phase =
    | Created               // has an ID
    | Refused               // the connector was closed: rejected
    | Storing               // the connector was open
    | Stored                // in the connector
    | Indexed               // handshake complete
    | Registering           // in the middleware's loop over the observed tags
    | Registered            // the middleware's loop is over
    | Serving               // waiting for a frame
    | Routing(pass: nat)    // handling one
    | Served                // the read loop has ended
    | Unregistered          // out of the register
    | Unindexed             // out of the router
    | Dropping              // the connector was open
    | Gone                  // out of the connector

  /**
   A connection's goroutine: `authMd` is what authentication gave, `definition` the copy of the function definition that
   the middleware holds, `tagsDone` how far its loop went.
   */
  datatype Thread = Thread(conn: Conn, hs: Handshake, authMd: M, definition: Option<string>, tagsDone: nat,
    phase: Phase)

  /**
   One routing pass: the frame's tag and metadata, the IDs the router gave, how far the loop is,
     whether the connector was open for the next ID, the
   connection just looked up, the connections written to.
   */
  datatype Pass = Pass(
    tag: Tag,
    md: M,
    ids: seq<ConnId>,
    pos: nat,
    allowed: bool,
    got: Option<nat>,
    written: seq<nat>)

  /** How a function definition decodes: its name and what else it says, if it is one. */
  type Parser = string -> Option<(string, string)>

  /** The shared structures, the connector naming a connection by its serial number, and where every goroutine is. */
  datatype State = State(
    ai: bool,
    parse: Parser,
    threads: seq<Thread>,
    connector: map<ConnId, nat>,
    closed: bool,
    rules: Rules,
    fns: Fns,
    passes: seq<Pass>)

  datatype Step =
    | Accept(hs: Handshake, authMd: M)
    | MayStore(n: nat)
    | Store(n: nat)
    | Index(n: nat)
    | Intercept(n: nat)
    | RegisterTag(n: nat)
    | EndRegister(n: nat)
    | Blank(n: nat)
    | StartPass(n: nat, tag: Tag, frameMd: M, span: Span, ids: seq<ConnId>)
    | MayLookup(n: nat)
    | Lookup(n: nat)
    | Write(n: nat)
    | EndPass(n: nat)
    | StopServing(n: nat)
    | Unregister(n: nat)
    | Unindex(n: nat)
    | MayDrop(n: nat)
    | Drop(n: nat)
    | CloseConnector
    | DeleteConn(id: ConnId)
    | ReleaseRouter

  predicate Init(s: State) {
    s.threads == [] && s.connector == map[] && !s.closed && s.rules == EMPTY_RULES && s.fns == map[] && s.passes == []
  }

  predicate At(s: State, n: nat, phase: Phase) {
    n < |s.threads| && s.threads[n].phase == phase
  }

  function Move(s: State, n: nat, phase: Phase): (s': State)
    requires n < |s.threads|
  {
    s.(threads := s.threads[n := s.threads[n].(phase := phase)])
  }

  function SetMd(s: State, n: nat, k: string, v: string): (s': State)
    requires n < |s.threads|
  {
    s.(threads := s.threads[n := s.threads[n].(conn := s.threads[n].conn.(md := Set(s.threads[n].conn.md, k, v)))])
  }

  function NewConn(n: nat, hs: Handshake, authMd: M): (c: Conn) {
    Conn(Id(n), hs.kind, hs.tags, if hs.wanted != "" then Set(authMd, WANTED_TARGET_KEY, hs.wanted) else authMd)
  }

  ghost predicate Enabled(s: State, step: Step) {
    match step
    case Accept(_, _) => true
    case MayStore(n) => At(s, n, Created)
    case Store(n) => At(s, n, Storing)
    case Index(n) => At(s, n, Stored)
    case Intercept(n) => At(s, n, Indexed)
    case RegisterTag(n) => At(s, n, Registering) && HasTagsLeft(s.threads[n]) && Parsed(s, n).Some?
    case EndRegister(n) => At(s, n, Registering) && (HasTagsLeft(s.threads[n]) ==> Parsed(s, n).None?)
    case Blank(n) => At(s, n, Registered)
    case StartPass(n, tag, frameMd, span, ids) =>
      At(s, n, Serving) && MayPass(s, tag, FrameMd(s, n, frameMd, span), ids)
    case MayLookup(n) => AtNextId(s, n) && !PassOf(s, n).allowed
    case Lookup(n) => AtNextId(s, n) && PassOf(s, n).allowed
    case Write(n) => InPass(s, n) && PassOf(s, n).got.Some?
    case EndPass(n) => InPass(s, n) && PassOf(s, n).got.None? && PassOf(s, n).pos == |PassOf(s, n).ids|
    case StopServing(n) => At(s, n, Serving)
    case Unregister(n) => At(s, n, Served)
    case Unindex(n) => At(s, n, Unregistered)
    case MayDrop(n) => At(s, n, Unindexed)
    case Drop(n) => At(s, n, Dropping)
    case CloseConnector => true
    case DeleteConn(id) => s.closed
    case ReleaseRouter => s.closed
  }

  predicate HasTagsLeft(t: Thread) {
    t.tagsDone < |t.conn.tags|
  }

  /** What the middleware's copy of the definition decodes to. */
  function Parsed(s: State, n: nat): (d: Option<(string, string)>)
    requires n < |s.threads|
  {
    if s.threads[n].definition.Some? then s.parse(s.threads[n].definition.value) else None
  }

  function ToolOf(parsed: (string, string)): (t: Tool) {
    Tool(FUNCTION_TOOL, parsed.0, parsed.1)
  }

  /** The metadata a frame that arrives on connection `n` is routed with. */
  function FrameMd(s: State, n: nat, frameMd: M, span: Span): (md: M)
    requires n < |s.threads|
  {
    Propagate(Overlay(frameMd, s.threads[n].conn.md), span)
  }

  /** The router may answer `ids`. */
  ghost predicate MayPass(s: State, tag: Tag, md: M, ids: seq<ConnId>) {
    NoDup(ids) && Elems(ids) == Routed(s.rules, tag, Target(md))
  }

  function Target(md: M): (target: Option<string>) {
    Get(md, TARGET_KEY)
  }

  predicate InPass(s: State, n: nat) {
    n < |s.threads| && s.threads[n].phase.Routing? && s.threads[n].phase.pass < |s.passes|
  }

  /** A pass has an ID to look up. */
  predicate AtNextId(s: State, n: nat) {
    InPass(s, n) && PassOf(s, n).got.None? && PassOf(s, n).pos < |PassOf(s, n).ids|
  }

  function PassOf(s: State, n: nat): (p: Pass)
    requires InPass(s, n)
  {
    s.passes[s.threads[n].phase.pass]
  }

  function Do(s: State, step: Step): (s': State)
    requires Enabled(s, step)
  {
    match step
    case Accept(hs, authMd) => DoAccept(s, hs, authMd)
    case MayStore(n) => Move(s, n, if s.closed then Refused else Storing)
    case Store(n) => DoStore(s, n)
    case Index(n) => DoIndex(s, n)
    case Intercept(n) => DoIntercept(s, n)
    case RegisterTag(n) => DoRegisterTag(s, n)
    case EndRegister(n) => Move(s, n, Registered)
    case Blank(n) => Move(SetMd(s, n, FUNCTION_DEFINITION_KEY, ""), n, Serving)
    case StartPass(n, tag, frameMd, span, ids) => DoStartPass(s, n, tag, FrameMd(s, n, frameMd, span), ids)
    case MayLookup(n) => DoMayLookup(s, n)
    case Lookup(n) => DoLookup(s, n)
    case Write(n) => DoWrite(s, n)
    case EndPass(n) => Move(s, n, Serving)
    case StopServing(n) => Move(s, n, Served)
    case Unregister(n) => DoUnregister(s, n)
    case Unindex(n) => DoUnindex(s, n)
    case MayDrop(n) => Move(s, n, if s.closed then Gone else Dropping)
    case Drop(n) => DoDrop(s, n)
    case CloseConnector => s.(closed := true)
    case DeleteConn(id) => s.(connector := s.connector - {id})
    case ReleaseRouter => s.(rules := EMPTY_RULES)
  }

  /** incrID and newConnection; version and authentication failures come before this and leave no trace. */
  function DoAccept(s: State, hs: Handshake, authMd: M): (s': State) {
    s.(threads := s.threads + [Thread(NewConn(|s.threads|, hs, authMd), hs, authMd, None, 0, Created)])
  }

  /** The map's own Store; the connector may have been closed since it was asked. */
  function DoStore(s: State, n: nat): (s': State)
    requires n < |s.threads|
  {
    Move(s, n, Stored).(connector := s.connector[s.threads[n].conn.id := n])
  }

  /** The definition goes into the connection's metadata; a stream function is added to the router. */
  function DoIndex(s: State, n: nat): (s': State)
    requires n < |s.threads|
  {
    var definition := s.threads[n].hs.definition;
    var s1 := Move(if definition.Some? then SetMd(s, n, FUNCTION_DEFINITION_KEY, definition.value) else s, n, Indexed);
    var c := s1.threads[n].conn;
    if c.kind == StreamFunction
    then s1.(rules := AddRule(s1.rules, c.id, c.tags, Get(c.md, WANTED_TARGET_KEY)))
    else s1
  }

  /** The middleware, if installed, registers stream functions that came with a definition. */
  function DoIntercept(s: State, n: nat): (s': State)
    requires n < |s.threads|
  {
    if !s.ai then Move(s, n, Serving)
    else
      var t := s.threads[n];
      var definition := Get(t.conn.md, FUNCTION_DEFINITION_KEY);
      var phase := if t.conn.kind == StreamFunction && definition.Some? then Registering else Registered;
      s.(threads := s.threads[n := t.(definition := definition, phase := phase)])
  }

  function DoRegisterTag(s: State, n: nat): (s': State)
    requires Enabled(s, RegisterTag(n))
  {
    var t, parsed := s.threads[n], Parsed(s, n).value;
    s.(threads := s.threads[n := t.(tagsDone := t.tagsDone + 1)],
       fns := s.fns[t.conn.id := ConnectedFn(t.conn.tags[t.tagsDone], ToolOf(parsed))])
  }

  function DoStartPass(s: State, n: nat, tag: Tag, md: M, ids: seq<ConnId>): (s': State)
    requires n < |s.threads|
  {
    Move(s, n, Routing(|s.passes|)).(passes := s.passes + [Pass(tag, md, ids, 0, false, None, [])])
  }

  /** connector.Get asks whether it is closed: then the ID is skipped. */
  function DoMayLookup(s: State, n: nat): (s': State)
    requires Enabled(s, MayLookup(n))
  {
    var p := PassOf(s, n);
    UpdatePass(s, n, if s.closed then p.(pos := p.pos + 1) else p.(allowed := true))
  }

  /** The map's own Load: a missing connection is skipped. */
  function DoLookup(s: State, n: nat): (s': State)
    requires Enabled(s, Lookup(n))
  {
    var p := PassOf(s, n).(allowed := false);
    var id := p.ids[p.pos];
    UpdatePass(s, n, if id in s.connector then p.(got := Some(s.connector[id])) else p.(pos := p.pos + 1))
  }

  function DoWrite(s: State, n: nat): (s': State)
    requires Enabled(s, Write(n))
  {
    var p := PassOf(s, n);
    UpdatePass(s, n, p.(pos := p.pos + 1, got := None, written := p.written + [p.got.value]))
  }

  function DoUnregister(s: State, n: nat): (s': State)
    requires n < |s.threads|
  {
    Move(s, n, Unregistered).(fns := if s.threads[n].definition.Some? then s.fns - {s.threads[n].conn.id} else s.fns)
  }

  function DoUnindex(s: State, n: nat): (s': State)
    requires n < |s.threads|
  {
    var c := s.threads[n].conn;
    Move(s, n, Unindexed).(rules := if c.kind == StreamFunction then RemoveRule(s.rules, c.id) else s.rules)
  }

  /** The map's own Delete. */
  function DoDrop(s: State, n: nat): (s': State)
    requires n < |s.threads|
  {
    Move(s, n, Gone).(connector := s.connector - {s.threads[n].conn.id})
  }

  function UpdatePass(s: State, n: nat, p: Pass): (s': State)
    requires InPass(s, n)
  {
    s.(passes := s.passes[s.threads[n].phase.pass := p])
  }

  // ---------------------------------------------------------------- the invariant

  /** The connection has not been indexed yet. */
  predicate IsEarly(phase: Phase) {
    phase.Created? || phase.Refused? || phase.Storing? || phase.Stored?
  }

  /** The connection has been removed from the router. */
  predicate LeftRouter(phase: Phase) {
    phase.Unindexed? || phase.Dropping? || phase.Gone?
  }

  /** The connection has been indexed and not yet removed from the router. */
  predicate IsIndexed(phase: Phase) {
    !IsEarly(phase) && !LeftRouter(phase)
  }

  predicate WasStored(phase: Phase) {
    !phase.Created? && !phase.Refused? && !phase.Storing?
  }

  predicate IsStored(phase: Phase) {
    WasStored(phase) && !phase.Gone?
  }

  predicate MayBeRegistered(phase: Phase) {
    phase.Registering? || phase.Registered? || phase.Serving? || phase.Routing? || phase.Served?
  }

  /** The middleware has blanked the definition. */
  predicate IsPastBlanking(phase: Phase) {
    phase.Serving? || phase.Routing? || phase.Served? || phase.Unregistered? || LeftRouter(phase)
  }

  predicate Known(s: State, id: ConnId) {
    id < ID_LIMIT && Serial(id) < |s.threads|
  }

  function Owner(s: State, id: ConnId): (t: Thread)
    requires Known(s, id)
  {
    s.threads[Serial(id)]
  }

  /** A connection that the router may name, for this tag. */
  predicate MayRoute(t: Thread, tag: Tag) {
    IsIndexedFn(t) && tag in t.conn.tags
  }

  predicate IsIndexedFn(t: Thread) {
    IsIndexed(t.phase) && t.conn.kind == StreamFunction
  }

  /** What the goroutine of connection `n` has of its own. */
  ghost predicate LocalOk(s: State, n: nat)
    requires n < |s.threads|
  {
    var t := s.threads[n];
    && t.conn.id == Id(n)
    && (t.phase.Routing? ==> t.phase.pass < |s.passes|)
    && (t.phase.Registering? || t.tagsDone > 0 ==> t.conn.kind == StreamFunction && t.definition.Some?)
    && (IsEarly(t.phase) || t.phase.Indexed? ==> t.tagsDone == 0)
    && t.tagsDone <= |t.conn.tags|
    && (s.ai && IsPastBlanking(t.phase) ==> Get(t.conn.md, FUNCTION_DEFINITION_KEY) == Some(""))
  }

  /** The connector holds the object itself, and while open holds it exactly from Store to Remove. */
  ghost predicate ConnectorOk(s: State, n: nat)
    requires n < |s.threads|
  {
    && (Id(n) in s.connector ==>
          s.connector[Id(n)] == n && WasStored(s.threads[n].phase) && (!s.closed ==> IsStored(s.threads[n].phase)))
    && (!s.closed && IsStored(s.threads[n].phase) ==> Id(n) in s.connector)
    && (s.threads[n].phase.Refused? ==> s.closed)
  }

  /**
   The index has the connection under no other tags than it observes, and while the connector is open under all of them.
   */
  ghost predicate IndexOk(s: State, n: nat)
    requires n < |s.threads|
  {
    && (forall tag :: InIndex(s.rules.data, tag, Id(n)) ==> MayRoute(s.threads[n], tag))
    && (!s.closed ==> forall tag :: MayRoute(s.threads[n], tag) ==> InIndex(s.rules.data, tag, Id(n)))
  }

  ghost predicate TargetOk(s: State, n: nat)
    requires n < |s.threads|
  {
    var w := WantedTarget(s.rules.targets, Id(n));
    && (w.Some? ==> IsIndexedFn(s.threads[n]) && Get(s.threads[n].conn.md, WANTED_TARGET_KEY) == w)
    && (!s.closed && IsIndexedFn(s.threads[n]) ==> Get(s.threads[n].conn.md, WANTED_TARGET_KEY) == w)
  }

  /**
   The register has the connection from its first registered tag until it is unregistered, under the latest of its tags.
   */
  ghost predicate FnOk(s: State, n: nat)
    requires n < |s.threads|
  {
    var t := s.threads[n];
    && (Id(n) in s.fns <==> MayBeRegistered(t.phase) && t.tagsDone > 0)
    && (Id(n) in s.fns && t.tagsDone <= |t.conn.tags| ==> s.fns[Id(n)].tag == t.conn.tags[t.tagsDone - 1])
    && (Id(n) in s.fns ==> Parsed(s, n).Some? && s.fns[Id(n)].tool == ToolOf(Parsed(s, n).value))
  }

  ghost predicate ConnOk(s: State, n: nat)
    requires n < |s.threads|
  {
    LocalOk(s, n) && ConnectorOk(s, n) && IndexOk(s, n) && TargetOk(s, n) && FnOk(s, n)
  }

  ghost predicate Mentions(s: State, id: ConnId) {
    id in s.connector || id in s.rules.targets || id in s.fns || exists tag :: InIndex(s.rules.data, tag, id)
  }

  /** A connection the frame of this pass is meant for. */
  predicate Meant(c: Conn, tag: Tag, target: Option<string>) {
    c.kind == StreamFunction && tag in c.tags && (target.Some? ==> Get(c.md, WANTED_TARGET_KEY) == target)
  }

  ghost predicate PassOk(s: State, p: Pass) {
    && NoDup(p.ids) && p.pos <= |p.ids|
    && (s.ai ==> Get(p.md, FUNCTION_DEFINITION_KEY) == Some(""))
    && (forall i :: 0 <= i < |p.ids| ==> Known(s, p.ids[i]) && Meant(Owner(s, p.ids[i]).conn, p.tag, Target(p.md)))
    && (p.got.Some? ==> p.pos < |p.ids| && p.got.value == Serial(p.ids[p.pos]))
    && (forall k :: 0 <= k < |p.written| ==> p.written[k] < |s.threads| && Id(p.written[k]) in p.ids[..p.pos])
    && NoDup(p.written)
  }

  ghost predicate PassesOk(s: State) {
    forall p :: 0 <= p < |s.passes| ==> PassOk(s, s.passes[p])
  }

  ghost predicate Inv(s: State) {
    && |s.threads| <= ID_LIMIT
    && (forall n :: 0 <= n < |s.threads| ==> ConnOk(s, n))
    && (forall id :: Mentions(s, id) ==> Known(s, id))
    && PassesOk(s)
  }

  // ---------------------------------------------------------------- every step keeps it

  /** What routing reads of a connection never changes. */
  ghost predicate SameForRouting(c: Conn, d: Conn) {
    c.id == d.id && c.kind == d.kind && c.tags == d.tags && Get(c.md, WANTED_TARGET_KEY) == Get(d.md, WANTED_TARGET_KEY)
  }

  /** No connection disappears or changes for routing. */
  ghost predicate Grows(s: State, s': State) {
    s'.ai == s.ai && |s.threads| <= |s'.threads|
    && forall n :: 0 <= n < |s.threads| ==> SameForRouting(s.threads[n].conn, s'.threads[n].conn)
  }

  lemma PassStable(s: State, s': State, p: Pass)
    requires Grows(s, s') && PassOk(s, p)
    ensures PassOk(s', p)
  {
    forall i | 0 <= i < |p.ids|
      ensures Known(s', p.ids[i]) && Meant(Owner(s', p.ids[i]).conn, p.tag, Target(p.md))
    {
      assert Known(s, p.ids[i]) && SameForRouting(Owner(s, p.ids[i]).conn, Owner(s', p.ids[i]).conn);
    }
  }

  lemma PassesStable(s: State, s': State)
    requires Grows(s, s') && PassesOk(s) && s'.passes == s.passes
    ensures PassesOk(s')
  {
    forall p | 0 <= p < |s'.passes| ensures PassOk(s', s'.passes[p]) {
      PassStable(s, s', s.passes[p]);
    }
  }

  /** The shared structures say the same of `id`. */
  ghost predicate AgreeOn(s: State, s': State, id: ConnId) {
    && (id in s.connector <==> id in s'.connector) && (id in s.connector ==> s.connector[id] == s'.connector[id])
    && (id in s.fns <==> id in s'.fns) && (id in s.fns ==> s.fns[id] == s'.fns[id])
    && WantedTarget(s.rules.targets, id) == WantedTarget(s'.rules.targets, id)
    && (forall tag :: InIndex(s.rules.data, tag, id) <==> InIndex(s'.rules.data, tag, id))
  }

  /** Only goroutine `n` moved, and it touched nothing of the others. */
  ghost predicate Local(s: State, s': State, n: nat) {
    && n < |s.threads| == |s'.threads| && |s.passes| <= |s'.passes|
    && s'.ai == s.ai && s'.parse == s.parse && s'.closed == s.closed
    && (forall m :: 0 <= m < |s.threads| && m != n ==> s'.threads[m] == s.threads[m])
    && SameForRouting(s.threads[n].conn, s'.threads[n].conn)
    && (forall id :: id != Id(n) ==> AgreeOn(s, s', id))
  }

  lemma LocalStep(s: State, s': State, n: nat)
    requires Inv(s) && Local(s, s', n) && ConnOk(s', n)
    ensures Grows(s, s')
    ensures s'.passes == s.passes ==> Inv(s')
    ensures PassesOk(s') ==> Inv(s')
  {
    forall m | 0 <= m < |s'.threads| ensures ConnOk(s', m) {
      if m != n {
        assert ConnOk(s, m) && Id(m) != Id(n) && AgreeOn(s, s', Id(m));
      }
    }
    forall id | Mentions(s', id) ensures Known(s', id) {
      if id != Id(n) {
        assert AgreeOn(s, s', id);
        assert Mentions(s, id);
      }
    }
    if s'.passes == s.passes {
      PassesStable(s, s');
    }
  }

  lemma KeepAccept(s: State, hs: Handshake, authMd: M)
    requires Inv(s) && |s.threads| < ID_LIMIT
    ensures Inv(DoAccept(s, hs, authMd))
    ensures
      var c := DoAccept(s, hs, authMd).threads[|s.threads|].conn;
      && c.id == Id(|s.threads|) && c.kind == hs.kind && c.tags == hs.tags
      && Get(c.md, WANTED_TARGET_KEY) == if hs.wanted != "" then Some(hs.wanted) else Get(authMd, WANTED_TARGET_KEY)
  {
    var s' := DoAccept(s, hs, authMd);
    var n := |s.threads|;
    assert !Mentions(s, Id(n)) by { assert !Known(s, Id(n)); }
    assert forall tag :: !InIndex(s.rules.data, tag, Id(n));
    forall m | 0 <= m < |s'.threads| ensures ConnOk(s', m) {
      if m < n {
        assert ConnOk(s, m);
      }
    }
    forall id | Mentions(s', id) ensures Known(s', id) {
      assert Mentions(s, id);
    }
    PassesStable(s, s');
  }

  lemma KeepMayStore(s: State, n: nat)
    requires Inv(s) && At(s, n, Created)
    ensures Inv(Do(s, MayStore(n)))
  {
    assert ConnOk(s, n);
    LocalStep(s, Do(s, MayStore(n)), n);
  }

  lemma KeepStore(s: State, n: nat)
    requires Inv(s) && At(s, n, Storing)
    ensures Inv(DoStore(s, n))
  {
    assert ConnOk(s, n);
    LocalStep(s, DoStore(s, n), n);
  }

  lemma DefinitionIsNotTarget(c: Conn, v: string)
    ensures SameForRouting(c, c.(md := Set(c.md, FUNCTION_DEFINITION_KEY, v)))
  {
    assert |FUNCTION_DEFINITION_KEY| != |WANTED_TARGET_KEY|;
  }

  /**
   What completing the handshake does: the rule of a stream function, and nothing that routing reads of a connection.
   */
  ghost predicate HandshakeEnds(s: State, s': State, n: nat)
    requires n < |s.threads|
  {
    && |s'.threads| == |s.threads| && s'.threads[n] == s.threads[n].(conn := s'.threads[n].conn, phase := Indexed)
    && SameForRouting(s.threads[n].conn, s'.threads[n].conn)
    && (forall m :: 0 <= m < |s.threads| && m != n ==> s'.threads[m] == s.threads[m])
    && s' == s.(threads := s'.threads, rules := s'.rules)
    && var c := s'.threads[n].conn;
       s'.rules == if c.kind == StreamFunction then AddRule(s.rules, c.id, c.tags, Get(c.md, WANTED_TARGET_KEY))
         else s.rules
  }

  lemma IndexEndsHandshake(s: State, n: nat)
    requires n < |s.threads|
    ensures HandshakeEnds(s, DoIndex(s, n), n)
  {
    if s.threads[n].hs.definition.Some? {
      DefinitionIsNotTarget(s.threads[n].conn, s.threads[n].hs.definition.value);
    }
  }

  /** Adding a rule changes what the router says of that connection only. */
  lemma AddRuleSays(r: Rules, id: ConnId, tags: seq<Tag>, wanted: Option<string>, x: ConnId)
    ensures var r' := AddRule(r, id, tags, wanted);
      && (forall tag :: InIndex(r'.data, tag, x) <==> InIndex(r.data, tag, x) || (x == id && tag in tags))
      && WantedTarget(r'.targets, x) == if x == id && wanted.Some? then wanted else WantedTarget(r.targets, x)
  {
    forall tag
      ensures InIndex(AddRule(r, id, tags, wanted).data, tag, x) <==>
        InIndex(r.data, tag, x) || (x == id && tag in tags)
    {
      IndexedTags(r.data, tags, id, tag, x);
    }
  }

  lemma KeepIndex(s: State, n: nat)
    requires Inv(s) && At(s, n, Stored)
    ensures Inv(DoIndex(s, n))
  {
    IndexEndsHandshake(s, n);
    EndedHandshakeKeeps(s, DoIndex(s, n), n);
  }

  lemma EndedHandshakeKeeps(s: State, s': State, n: nat)
    requires Inv(s) && At(s, n, Stored) && HandshakeEnds(s, s', n)
    ensures Inv(s')
  {
    assert ConnOk(s, n);
    var c := s'.threads[n].conn;
    if c.kind == StreamFunction {
      forall x ensures x != Id(n) ==> AgreeOn(s, s', x) {
        AddRuleSays(s.rules, c.id, c.tags, Get(c.md, WANTED_TARGET_KEY), x);
      }
      AddRuleSays(s.rules, c.id, c.tags, Get(c.md, WANTED_TARGET_KEY), Id(n));
    }
    LocalStep(s, s', n);
  }

  lemma KeepIntercept(s: State, n: nat)
    requires Inv(s) && At(s, n, Indexed)
    ensures Inv(DoIntercept(s, n))
  {
    assert ConnOk(s, n);
    LocalStep(s, DoIntercept(s, n), n);
  }

  lemma KeepRegisterTag(s: State, n: nat)
    requires Inv(s) && Enabled(s, RegisterTag(n))
    ensures Inv(DoRegisterTag(s, n))
  {
    assert ConnOk(s, n);
    LocalStep(s, DoRegisterTag(s, n), n);
  }

  /** A move to a later phase that shares the standing of the earlier one. */
  lemma KeepMove(s: State, n: nat, phase: Phase)
    requires Inv(s) && n < |s.threads|
    requires var old' := s.threads[n].phase;
             && IsIndexed(old') && IsIndexed(phase) && (MayBeRegistered(old') <==> MayBeRegistered(phase))
             && !phase.Routing? && !phase.Registering? && !phase.Indexed?
             && (IsPastBlanking(phase) ==> IsPastBlanking(old'))
    ensures Inv(Move(s, n, phase))
  {
    assert ConnOk(s, n);
    LocalStep(s, Move(s, n, phase), n);
  }

  lemma KeepBlank(s: State, n: nat)
    requires Inv(s) && At(s, n, Registered)
    ensures Inv(Move(SetMd(s, n, FUNCTION_DEFINITION_KEY, ""), n, Serving))
  {
    var s' := Move(SetMd(s, n, FUNCTION_DEFINITION_KEY, ""), n, Serving);
    assert ConnOk(s, n);
    DefinitionIsNotTarget(s.threads[n].conn, "");
    LocalStep(s, s', n);
  }

  lemma KeepUnregister(s: State, n: nat)
    requires Inv(s) && At(s, n, Served)
    ensures Inv(DoUnregister(s, n))
  {
    assert ConnOk(s, n);
    LocalStep(s, DoUnregister(s, n), n);
  }

  lemma KeepUnindex(s: State, n: nat)
    requires Inv(s) && At(s, n, Unregistered)
    ensures Inv(DoUnindex(s, n))
  {
    var s' := DoUnindex(s, n);
    assert ConnOk(s, n);
    if s.threads[n].conn.kind == StreamFunction {
      assert forall tag, id :: InIndex(s'.rules.data, tag, id) <==> InIndex(s.rules.data, tag, id) && id != Id(n);
    }
    LocalStep(s, s', n);
  }

  lemma KeepMayDrop(s: State, n: nat)
    requires Inv(s) && At(s, n, Unindexed)
    ensures Inv(Do(s, MayDrop(n)))
  {
    assert ConnOk(s, n);
    LocalStep(s, Do(s, MayDrop(n)), n);
  }

  lemma KeepDrop(s: State, n: nat)
    requires Inv(s) && At(s, n, Dropping)
    ensures Inv(DoDrop(s, n))
  {
    assert ConnOk(s, n);
    LocalStep(s, DoDrop(s, n), n);
  }

  lemma RoutedIsKnown(s: State, tag: Tag, target: Option<string>, ids: seq<ConnId>, k: nat)
    requires Inv(s) && k < |ids| && Elems(ids) == Routed(s.rules, tag, target)
    ensures Known(s, ids[k]) && IsIndexed(Owner(s, ids[k]).phase) && Meant(Owner(s, ids[k]).conn, tag, target)
  {
    assert ids[k] in Elems(ids);
    assert InIndex(s.rules.data, tag, ids[k]);
    assert Mentions(s, ids[k]);
    assert ConnOk(s, Serial(ids[k])) && Id(Serial(ids[k])) == ids[k];
  }

  lemma KeepStartPass(s: State, n: nat, tag: Tag, md: M, ids: seq<ConnId>)
    requires Inv(s) && At(s, n, Serving) && MayPass(s, tag, md, ids)
    requires s.ai ==> Get(md, FUNCTION_DEFINITION_KEY) == Some("")
    ensures Inv(DoStartPass(s, n, tag, md, ids))
  {
    var s' := DoStartPass(s, n, tag, md, ids);
    assert ConnOk(s, n);
    LocalStep(s, s', n);
    forall i | 0 <= i < |ids| ensures Known(s', ids[i]) && Meant(Owner(s', ids[i]).conn, tag, Target(md)) {
      RoutedIsKnown(s, tag, Target(md), ids, i);
    }
    forall p | 0 <= p < |s'.passes| ensures PassOk(s', s'.passes[p]) {
      if p < |s.passes| {
        PassStable(s, s', s.passes[p]);
      }
    }
  }

  /** Behind the middleware, whatever metadata a frame arrives with, it is routed with an empty definition. */
  lemma FrameMdIsBlank(s: State, n: nat, frameMd: M, span: Span)
    requires Inv(s) && At(s, n, Serving) && s.ai
    ensures Get(FrameMd(s, n, frameMd, span), FUNCTION_DEFINITION_KEY) == Some("")
  {
    assert ConnOk(s, n);
    var md := s.threads[n].conn.md;
    assert FUNCTION_DEFINITION_KEY in md && md[FUNCTION_DEFINITION_KEY] == "";
    KeySurvivesTracing(Overlay(frameMd, md), span, FUNCTION_DEFINITION_KEY);
  }

  lemma KeepUpdatePass(s: State, n: nat, p: Pass)
    requires Inv(s) && InPass(s, n) && PassOk(s, p)
    ensures Inv(UpdatePass(s, n, p))
  {
    var s' := UpdatePass(s, n, p);
    assert ConnOk(s, n);
    LocalStep(s, s', n);
    PassStable(s, s', p);
    forall q | 0 <= q < |s'.passes| ensures PassOk(s', s'.passes[q]) {
      if q != s.threads[n].phase.pass {
        PassStable(s, s', s.passes[q]);
      }
    }
  }

  lemma KeepMayLookup(s: State, n: nat)
    requires Inv(s) && Enabled(s, MayLookup(n))
    ensures Inv(DoMayLookup(s, n))
  {
    var p := PassOf(s, n);
    assert PassOk(s, p);
    assert p.ids[..p.pos] <= p.ids[..p.pos + 1];
    KeepUpdatePass(s, n, if s.closed then p.(pos := p.pos + 1) else p.(allowed := true));
  }

  lemma KeepLookup(s: State, n: nat)
    requires Inv(s) && Enabled(s, Lookup(n))
    ensures Inv(DoLookup(s, n))
  {
    var p := PassOf(s, n);
    assert PassOk(s, p);
    var id := p.ids[p.pos];
    if id in s.connector {
      assert ConnOk(s, Serial(id)) && Id(Serial(id)) == id;
      KeepUpdatePass(s, n, p.(allowed := false, got := Some(s.connector[id])));
    } else {
      assert p.ids[..p.pos] <= p.ids[..p.pos + 1];
      KeepUpdatePass(s, n, p.(allowed := false, pos := p.pos + 1));
    }
  }

  lemma KeepWrite(s: State, n: nat)
    requires Inv(s) && Enabled(s, Write(n))
    ensures Inv(DoWrite(s, n))
  {
    var p := PassOf(s, n);
    assert PassOk(s, p);
    var id := p.ids[p.pos];
    assert id !in p.ids[..p.pos];
    assert Id(p.got.value) == id;
    assert p.ids[..p.pos + 1] == p.ids[..p.pos] + [id];
    KeepUpdatePass(s, n, p.(pos := p.pos + 1, got := None, written := p.written + [p.got.value]));
  }

  /** Shutdown only takes things away from the shared structures, and the invariant then asks less. */
  lemma KeepShutdown(s: State, s': State)
    requires Inv(s) && s'.closed && s'.ai == s.ai && s'.parse == s.parse
    requires s'.threads == s.threads && s'.fns == s.fns && s'.passes == s.passes
    requires forall id :: id in s'.connector ==> id in s.connector && s'.connector[id] == s.connector[id]
    requires s'.rules == s.rules || s'.rules == EMPTY_RULES
    ensures Inv(s')
  {
    forall n | 0 <= n < |s'.threads| ensures ConnOk(s', n) {
      assert ConnOk(s, n);
    }
    forall id | Mentions(s', id) ensures Known(s', id) {
      assert Mentions(s, id);
    }
    PassesStable(s, s');
  }

  lemma StepKeepsInv(s: State, step: Step)
    requires Inv(s) && Enabled(s, step) && |Do(s, step).threads| <= ID_LIMIT
    ensures Inv(Do(s, step))
  {
    match step
    case Accept(hs, authMd) => KeepAccept(s, hs, authMd);
    case MayStore(n) => KeepMayStore(s, n);
    case Store(n) => KeepStore(s, n);
    case Index(n) => KeepIndex(s, n);
    case Intercept(n) => KeepIntercept(s, n);
    case RegisterTag(n) => KeepRegisterTag(s, n);
    case EndRegister(n) => KeepMove(s, n, Registered);
    case Blank(n) => KeepBlank(s, n);
    case StartPass(n, tag, frameMd, span, ids) =>
      if s.ai {
        FrameMdIsBlank(s, n, frameMd, span);
      }
      KeepStartPass(s, n, tag, FrameMd(s, n, frameMd, span), ids);
    case MayLookup(n) => KeepMayLookup(s, n);
    case Lookup(n) => KeepLookup(s, n);
    case Write(n) => KeepWrite(s, n);
    case EndPass(n) => KeepMove(s, n, Serving);
    case StopServing(n) => KeepMove(s, n, Served);
    case Unregister(n) => KeepUnregister(s, n);
    case Unindex(n) => KeepUnindex(s, n);
    case MayDrop(n) => KeepMayDrop(s, n);
    case Drop(n) => KeepDrop(s, n);
    case CloseConnector => KeepShutdown(s, Do(s, step));
    case DeleteConn(id) => KeepShutdown(s, Do(s, step));
    case ReleaseRouter => KeepShutdown(s, Do(s, step));
  }

  // ---------------------------------------------------------------- whole runs

  ghost predicate Next(s: State, s': State) {
    exists step :: Enabled(s, step) && s' == Do(s, step)
  }

  ghost predicate StepAt(trace: seq<State>, i: nat)
    requires i + 1 < |trace|
  {
    Next(trace[i], trace[i + 1])
  }

  /** A run that accepts at most 2^64 connections, the range of the ID counter. */
  ghost predicate Run(trace: seq<State>) {
    && |trace| > 0 && Init(trace[0])
    && (forall i :: 0 <= i < |trace| - 1 ==> StepAt(trace, i))
    && (forall i :: 0 <= i < |trace| ==> |trace[i].threads| <= ID_LIMIT)
  }

  lemma NextKeepsInv(s: State, s': State)
    requires Inv(s) && Next(s, s') && |s'.threads| <= ID_LIMIT
    ensures Inv(s')
  {
    var step :| Enabled(s, step) && s' == Do(s, step);
    StepKeepsInv(s, step);
  }

  lemma {:induction false} RunKeepsInv(trace: seq<State>, i: nat)
    requires Run(trace) && i < |trace|
    ensures Inv(trace[i])
  {
    if i > 0 {
      RunKeepsInv(trace, i - 1);
      assert StepAt(trace, i - 1);
      NextKeepsInv(trace[i - 1], trace[i]);
    }
  }

  /**
   While the connector is open, every registered function is routed under its tag, every routed connection is in the
   connector, and so no tag is counted more often than an untargeted frame with that tag is delivered.
   */
  lemma RegisteredIsRoutedIsConnected(trace: seq<State>, i: nat)
    requires Run(trace) && i < |trace| && !trace[i].closed
    ensures var s := trace[i];
      && (forall id :: id in s.fns ==> id in Routed(s.rules, s.fns[id].tag, None))
      && (forall tag, target, id :: id in Routed(s.rules, tag, target) ==> id in s.connector)
      && (forall tag :: Factor(s.fns, tag) <= |Routed(s.rules, tag, None)|)
  {
    var s := trace[i];
    RunKeepsInv(trace, i);
    forall id | id in s.fns ensures id in Routed(s.rules, s.fns[id].tag, None) {
      assert Mentions(s, id);
      assert ConnOk(s, Serial(id)) && Id(Serial(id)) == id;
      assert MayRoute(Owner(s, id), s.fns[id].tag);
    }
    forall tag, target, id | id in Routed(s.rules, tag, target) ensures id in s.connector {
      assert InIndex(s.rules.data, tag, id);
      assert Mentions(s, id);
      assert ConnOk(s, Serial(id)) && Id(Serial(id)) == id;
    }
    forall tag ensures Factor(s.fns, tag) <= |Routed(s.rules, tag, None)| {
      assert Holders(s.fns, tag) <= Routed(s.rules, tag, None);
      SubsetCardinality(Holders(s.fns, tag), Routed(s.rules, tag, None));
    }
  }

  /**
   While the connector is open, a tag's factor is the number of connections that an untargeted frame with that tag goes
   to if and only if each of them is registered, and under this tag; a function that observes several tags is not.
   */
  lemma FactorIsExact(trace: seq<State>, i: nat, tag: Tag)
    requires Run(trace) && i < |trace| && !trace[i].closed
    ensures var s := trace[i];
      Factor(s.fns, tag) == |Routed(s.rules, tag, None)| <==>
        forall n :: 0 <= n < |s.threads| && MayRoute(s.threads[n], tag) ==> Id(n) in Holders(s.fns, tag)
  {
    var s := trace[i];
    var holders, routed := Holders(s.fns, tag), Routed(s.rules, tag, None);
    RegisteredIsRoutedIsConnected(trace, i);
    SameCardinality(holders, routed);
    forall n | 0 <= n < |s.threads| ensures MayRoute(s.threads[n], tag) <==> Id(n) in routed {
      RunKeepsInv(trace, i);
      assert ConnOk(s, n);
    }
    forall id | id in routed ensures Known(s, id) && Id(Serial(id)) == id {
      RunKeepsInv(trace, i);
      assert InIndex(s.rules.data, tag, id);
      assert Mentions(s, id);
    }
    assert routed <= holders <==> forall n :: 0 <= n < |s.threads| && Id(n) in routed ==> Id(n) in holders;
  }

  lemma SameCardinality(small: set<ConnId>, big: set<ConnId>)
    requires small <= big
    ensures |small| == |big| <==> big <= small
  {
    assert big == small + (big - small);
  }

  /**
   While the connector is open, the router's answer is exactly the indexed stream functions the frame is meant for.
   */
  lemma RoutedIsMeant(trace: seq<State>, i: nat, tag: Tag, target: Option<string>)
    requires Run(trace) && i < |trace| && !trace[i].closed
    ensures var s := trace[i];
      forall n :: 0 <= n < |s.threads| ==>
        (Id(n) in Routed(s.rules, tag, target) <==>
          IsIndexed(s.threads[n].phase) && Meant(s.threads[n].conn, tag, target))
  {
    var s := trace[i];
    RunKeepsInv(trace, i);
    forall n | 0 <= n < |s.threads|
      ensures Id(n) in Routed(s.rules, tag, target) <==>
        IsIndexed(s.threads[n].phase) && Meant(s.threads[n].conn, tag, target)
    {
      assert ConnOk(s, n);
      assert Id(n) in Routed(s.rules, tag, target) <==>
        InIndex(s.rules.data, tag, Id(n)) && (target.Some? ==> WantedTarget(s.rules.targets, Id(n)) == target);
      assert MayRoute(s.threads[n], tag) <==> InIndex(s.rules.data, tag, Id(n));
    }
  }

  /**
   In every run the register holds exactly the connections whose middleware got past a first tag and has not
   unregistered them; and of the tags a connection observes it holds the latest registered only, so a stream function
   that observes several tags ends up under the last.
   */
  lemma RegisterHoldsLastTag(trace: seq<State>, i: nat, n: nat)
    requires Run(trace) && i < |trace| && n < |trace[i].threads|
    ensures var s, t := trace[i], trace[i].threads[n];
      && (Id(n) in s.fns <==> MayBeRegistered(t.phase) && t.tagsDone > 0)
      && t.tagsDone <= |t.conn.tags|
      && (Id(n) in s.fns ==> s.fns[Id(n)].tag == t.conn.tags[t.tagsDone - 1])
      && (forall tag :: Id(n) in Holders(s.fns, tag) ==> tag == t.conn.tags[t.tagsDone - 1])
  {
    RunKeepsInv(trace, i);
    assert ConnOk(trace[i], n);
  }

  /** Storing a connection never replaces another: its ID is not in the connector. */
  lemma StoreReplacesNothing(trace: seq<State>, i: nat, n: nat)
    requires Run(trace) && i < |trace| && Enabled(trace[i], Store(n))
    ensures trace[i].threads[n].conn.id !in trace[i].connector
  {
    RunKeepsInv(trace, i);
    assert ConnOk(trace[i], n);
  }

  /** A routing pass writes to a connection at most once, and only to stream functions the frame is meant for. */
  lemma PassWritesOnceToMeant(trace: seq<State>, i: nat, p: nat)
    requires Run(trace) && i < |trace| && p < |trace[i].passes|
    ensures var s, pass := trace[i], trace[i].passes[p];
      && NoDup(pass.written)
      && forall k :: 0 <= k < |pass.written| ==>
           pass.written[k] < |s.threads| && Meant(s.threads[pass.written[k]].conn, pass.tag, Target(pass.md))
  {
    var s := trace[i];
    RunKeepsInv(trace, i);
    var pass := s.passes[p];
    assert PassOk(s, pass);
    forall k | 0 <= k < |pass.written|
      ensures Meant(s.threads[pass.written[k]].conn, pass.tag, Target(pass.md))
    {
      var j :| 0 <= j < pass.pos && pass.ids[..pass.pos][j] == Id(pass.written[k]);
      assert pass.ids[j] == Id(pass.written[k]);
    }
  }

  // ---------------------------------------------------------------- a pass forgets nobody

  /**
   Every connection the pass lists was indexed, and those the loop is past were written to or have left the connector.
   */
  ghost predicate PassReaches(s: State, p: Pass) {
    forall k :: 0 <= k < |p.ids| ==>
      && Known(s, p.ids[k]) && !IsEarly(Owner(s, p.ids[k]).phase)
      && (k < p.pos ==> Serial(p.ids[k]) in p.written || Owner(s, p.ids[k]).phase.Gone?)
  }

  ghost predicate Reaches(s: State) {
    !s.closed ==> forall p :: 0 <= p < |s.passes| ==> PassReaches(s, s.passes[p])
  }

  /** Phases only go forward. */
  ghost predicate Forward(s: State, s': State) {
    && |s.threads| <= |s'.threads|
    && forall n :: 0 <= n < |s.threads| ==> PhaseForward(s.threads[n].phase, s'.threads[n].phase)
  }

  predicate PhaseForward(a: Phase, b: Phase) {
    (!IsEarly(a) ==> !IsEarly(b)) && (LeftRouter(a) ==> LeftRouter(b)) && (a.Gone? ==> b.Gone?)
  }

  /** Nothing but goroutine phases has changed for a pass, and a closed connector stays closed. */
  ghost predicate OnlyForward(s: State, s': State) {
    Forward(s, s') && s'.passes == s.passes && (s.closed ==> s'.closed)
  }

  predicate IsPassStep(step: Step) {
    step.StartPass? || step.MayLookup? || step.Lookup? || step.Write?
  }

  predicate IsMiddlewareStep(step: Step) {
    step.Intercept? || step.RegisterTag? || step.EndRegister? || step.Blank?
  }

  predicate IsShutdownStep(step: Step) {
    step.CloseConnector? || step.DeleteConn? || step.ReleaseRouter?
  }

  lemma JoiningForward(s: State, step: Step)
    requires Enabled(s, step) && (step.Accept? || step.MayStore? || step.Store?)
    ensures OnlyForward(s, Do(s, step))
  {
  }

  lemma IndexingForward(s: State, n: nat)
    requires At(s, n, Stored)
    ensures OnlyForward(s, DoIndex(s, n))
  {
    IndexEndsHandshake(s, n);
  }

  lemma MiddlewareForward(s: State, step: Step)
    requires Enabled(s, step) && IsMiddlewareStep(step)
    ensures OnlyForward(s, Do(s, step))
  {
  }

  lemma ServingForward(s: State, step: Step)
    requires Enabled(s, step) && (step.EndPass? || step.StopServing?)
    ensures OnlyForward(s, Do(s, step))
  {
  }

  lemma UnregisterForward(s: State, n: nat)
    requires At(s, n, Served)
    ensures OnlyForward(s, DoUnregister(s, n))
  {
  }

  lemma UnindexForward(s: State, n: nat)
    requires At(s, n, Unregistered)
    ensures OnlyForward(s, DoUnindex(s, n))
  {
  }

  lemma LeavingForward(s: State, step: Step)
    requires Enabled(s, step) && (step.MayDrop? || step.Drop? || IsShutdownStep(step))
    ensures OnlyForward(s, Do(s, step))
  {
  }

  lemma StepForward(s: State, step: Step)
    requires Enabled(s, step) && !IsPassStep(step)
    ensures OnlyForward(s, Do(s, step))
  {
    if step.Accept? || step.MayStore? || step.Store? {
      JoiningForward(s, step);
    } else if step.Index? {
      IndexingForward(s, step.n);
    } else if IsMiddlewareStep(step) {
      MiddlewareForward(s, step);
    } else if step.EndPass? || step.StopServing? {
      ServingForward(s, step);
    } else if step.Unregister? {
      UnregisterForward(s, step.n);
    } else if step.Unindex? {
      UnindexForward(s, step.n);
    } else {
      LeavingForward(s, step);
    }
  }

  lemma PassReachesOn(s: State, s': State, p: Pass)
    requires Forward(s, s') && PassReaches(s, p)
    ensures PassReaches(s', p)
  {
    forall k | 0 <= k < |p.ids|
      ensures Known(s', p.ids[k]) && PhaseForward(Owner(s, p.ids[k]).phase, Owner(s', p.ids[k]).phase) {
      assert Known(s, p.ids[k]);
    }
  }

  /** A step that changes or starts pass `q` and no other. */
  lemma ReachesOn(s: State, s': State, q: nat)
    requires Reaches(s) && Forward(s, s') && (s.closed ==> s'.closed)
    requires |s.passes| <= |s'.passes| <= |s.passes| + 1 && (|s'.passes| > |s.passes| ==> q == |s.passes|)
    requires forall p :: 0 <= p < |s.passes| && p != q ==> s'.passes[p] == s.passes[p]
    requires !s'.closed && q < |s'.passes| ==> PassReaches(s', s'.passes[q])
    ensures Reaches(s')
  {
    if !s'.closed {
      forall p | 0 <= p < |s'.passes| ensures PassReaches(s', s'.passes[p]) {
        if p != q {
          PassReachesOn(s, s', s.passes[p]);
        }
      }
    }
  }

  lemma StartPassReaches(s: State, n: nat, tag: Tag, md: M, ids: seq<ConnId>)
    requires Inv(s) && Reaches(s) && At(s, n, Serving) && MayPass(s, tag, md, ids)
    ensures Reaches(DoStartPass(s, n, tag, md, ids))
  {
    var s' := DoStartPass(s, n, tag, md, ids);
    forall k | 0 <= k < |ids| ensures Known(s', ids[k]) && !IsEarly(Owner(s', ids[k]).phase) {
      RoutedIsKnown(s, tag, Target(md), ids, k);
    }
    ReachesOn(s, s', |s.passes|);
  }

  lemma LookupReaches(s: State, n: nat)
    requires Inv(s) && Reaches(s) && Enabled(s, Lookup(n))
    ensures Reaches(DoLookup(s, n))
  {
    var s' := DoLookup(s, n);
    var p := PassOf(s, n);
    var id := p.ids[p.pos];
    if !s.closed {
      assert PassReaches(s, p) && Known(s, id);
      assert ConnOk(s, Serial(id)) && Id(Serial(id)) == id;
      assert PassReaches(s', PassOf(s', n));
    }
    ReachesOn(s, s', s.threads[n].phase.pass);
  }

  lemma MayLookupReaches(s: State, n: nat)
    requires Inv(s) && Reaches(s) && Enabled(s, MayLookup(n))
    ensures Reaches(DoMayLookup(s, n))
  {
    var s' := DoMayLookup(s, n);
    if !s.closed {
      assert PassReaches(s, PassOf(s, n));
      assert PassReaches(s', PassOf(s', n));
    }
    ReachesOn(s, s', s.threads[n].phase.pass);
  }

  lemma WriteReaches(s: State, n: nat)
    requires Inv(s) && Reaches(s) && Enabled(s, Write(n))
    ensures Reaches(DoWrite(s, n))
  {
    var s' := DoWrite(s, n);
    var p, p' := PassOf(s, n), PassOf(s', n);
    assert PassOk(s, p);
    if !s.closed {
      assert PassReaches(s, p);
      assert p'.written[|p.written|] == Serial(p.ids[p.pos]);
      assert forall x :: x in p.written ==> x in p'.written;
      assert PassReaches(s', p');
    }
    ReachesOn(s, s', s.threads[n].phase.pass);
  }

  lemma StepReaches(s: State, step: Step)
    requires Inv(s) && Reaches(s) && Enabled(s, step)
    ensures Reaches(Do(s, step))
  {
    if step.StartPass? {
      StartPassReaches(s, step.n, step.tag, FrameMd(s, step.n, step.frameMd, step.span), step.ids);
    } else if step.MayLookup? {
      MayLookupReaches(s, step.n);
    } else if step.Lookup? {
      LookupReaches(s, step.n);
    } else if step.Write? {
      WriteReaches(s, step.n);
    } else {
      StepForward(s, step);
      ReachesOn(s, Do(s, step), |s.passes|);
    }
  }

  lemma NextReaches(s: State, s': State)
    requires Inv(s) && Reaches(s) && Next(s, s')
    ensures Reaches(s')
  {
    var step :| Enabled(s, step) && s' == Do(s, step);
    StepReaches(s, step);
  }

  lemma StepAtReaches(trace: seq<State>, i: nat)
    requires Run(trace) && i + 1 < |trace| && Reaches(trace[i])
    ensures Reaches(trace[i + 1])
  {
    RunKeepsInv(trace, i);
    assert StepAt(trace, i);
    NextReaches(trace[i], trace[i + 1]);
  }

  lemma {:induction false} RunReaches(trace: seq<State>, i: nat)
    requires Run(trace) && i < |trace|
    ensures Reaches(trace[i])
  {
    if i > 0 {
      RunReaches(trace, i - 1);
      StepAtReaches(trace, i - 1);
    }
  }

  /**
   A pass that ends while the connector is open has written to every connection it was routed to and that is not gone.
   */
  lemma PassForgetsNobody(trace: seq<State>, i: nat, n: nat, id: ConnId)
    requires Run(trace) && i < |trace| && !trace[i].closed && Enabled(trace[i], EndPass(n))
      && id in PassOf(trace[i], n).ids
    ensures Known(trace[i], id)
    ensures Serial(id) in PassOf(trace[i], n).written || Owner(trace[i], id).phase.Gone?
  {
    RunReaches(trace, i);
    var p := PassOf(trace[i], n);
    assert PassReaches(trace[i], p);
    var k :| 0 <= k < |p.ids| && p.ids[k] == id;
  }

  // ---------------------------------------------------------------- after teardown

  predicate TornDown(s: State, n: nat) {
    n < |s.threads| && LeftRouter(s.threads[n].phase)
  }

  /** A torn-down connection stays so; a pass keeps its ID list; new passes do not list the connection. */
  ghost predicate TeardownKept(s: State, s': State, n: nat) {
    && TornDown(s', n)
    && |s.passes| <= |s'.passes|
    && (forall p :: 0 <= p < |s.passes| ==> s'.passes[p].ids == s.passes[p].ids)
    && (forall p :: |s.passes| <= p < |s'.passes| ==> Id(n) !in s'.passes[p].ids)
  }

  lemma PassFromTeardown(s: State, n: nat, m: nat, tag: Tag, md: M, ids: seq<ConnId>)
    requires Inv(s) && At(s, m, Serving) && MayPass(s, tag, md, ids) && TornDown(s, n)
    ensures TeardownKept(s, DoStartPass(s, m, tag, md, ids), n)
  {
    assert ConnOk(s, n);
    assert !InIndex(s.rules.data, tag, Id(n));
    assert Id(n) !in Elems(ids);
  }

  lemma LookupFromTeardown(s: State, n: nat, m: nat)
    requires TornDown(s, n) && Enabled(s, Lookup(m))
    ensures TeardownKept(s, DoLookup(s, m), n)
  {
  }

  lemma MayLookupFromTeardown(s: State, n: nat, m: nat)
    requires TornDown(s, n) && Enabled(s, MayLookup(m))
    ensures TeardownKept(s, DoMayLookup(s, m), n)
  {
  }

  lemma WriteFromTeardown(s: State, n: nat, m: nat)
    requires TornDown(s, n) && Enabled(s, Write(m))
    ensures TeardownKept(s, DoWrite(s, m), n)
  {
  }

  lemma ForwardFromTeardown(s: State, s': State, n: nat)
    requires TornDown(s, n) && OnlyForward(s, s')
    ensures TeardownKept(s, s', n)
  {
  }

  lemma StepFromTeardown(s: State, step: Step, n: nat)
    requires Inv(s) && Enabled(s, step) && TornDown(s, n)
    ensures TeardownKept(s, Do(s, step), n)
  {
    if step.StartPass? {
      PassFromTeardown(s, n, step.n, step.tag, FrameMd(s, step.n, step.frameMd, step.span), step.ids);
    } else if step.MayLookup? {
      MayLookupFromTeardown(s, n, step.n);
    } else if step.Lookup? {
      LookupFromTeardown(s, n, step.n);
    } else if step.Write? {
      WriteFromTeardown(s, n, step.n);
    } else {
      StepForward(s, step);
      ForwardFromTeardown(s, Do(s, step), n);
    }
  }

  lemma NextFromTeardown(s: State, s': State, n: nat)
    requires Inv(s) && Next(s, s') && TornDown(s, n)
    ensures TeardownKept(s, s', n)
  {
    var step :| Enabled(s, step) && s' == Do(s, step);
    StepFromTeardown(s, step, n);
  }

  lemma {:induction false} TeardownLasts(trace: seq<State>, i: nat, j: nat, n: nat)
    requires Run(trace) && i <= j < |trace| && TornDown(trace[i], n)
    ensures TornDown(trace[j], n) && |trace[i].passes| <= |trace[j].passes|
    ensures forall p :: |trace[i].passes| <= p < |trace[j].passes| ==> Id(n) !in trace[j].passes[p].ids
    decreases j - i
  {
    if i < j {
      TeardownLasts(trace, i, j - 1, n);
      RunKeepsInv(trace, j - 1);
      assert StepAt(trace, j - 1);
      NextFromTeardown(trace[j - 1], trace[j], n);
    }
  }

  /** A pass that starts after a connection has left the router never writes to it. */
  lemma NoWriteAfterTeardown(trace: seq<State>, i: nat, j: nat, n: nat, p: nat)
    requires Run(trace) && i <= j < |trace| && TornDown(trace[i], n)
    requires |trace[i].passes| <= p < |trace[j].passes|
    ensures n !in trace[j].passes[p].written
  {
    TeardownLasts(trace, i, j, n);
    RunKeepsInv(trace, j);
    var pass := trace[j].passes[p];
    assert PassOk(trace[j], pass);
    assert Id(n) !in pass.ids[..pass.pos];
  }

  /** With the middleware installed, whatever metadata a frame arrives with, it is routed with an empty definition. */
  lemma RoutedFramesCarryNoDefinition(trace: seq<State>, i: nat, p: nat)
    requires Run(trace) && i < |trace| && trace[i].ai && p < |trace[i].passes|
    ensures Get(trace[i].passes[p].md, FUNCTION_DEFINITION_KEY) == Some("")
  {
    RunKeepsInv(trace, i);
    assert PassOk(trace[i], trace[i].passes[p]);
  }
}
