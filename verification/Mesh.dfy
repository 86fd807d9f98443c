/**
 Zippers connected to each other (zipper.go, core/server.go). A zipper hands every frame it gets from a source or a
 stream function to all its downstream zippers, and hands on nothing it gets from an upstream zipper.
 */
module Mesh {
  import opened Common

  type ZipperId = nat
  type Address = string

  // ---------------------------------------------------------------- building the downstream table

  /** The mesh entries a zipper connects to: every one but the unnamed and its own. */
  ghost predicate Connects(own: string, mesh: map<string, Address>, name: string) {
    name in mesh && name != "" && name != own
  }

  /** The entries already walked, one client each. `clientId` gives the random ID of the client created for an entry. */
  ghost predicate Built(
    own: string, mesh: map<string, Address>, clientId: string -> string, done: set<string>, ds: map<string, Address>)
  {
    && (forall name :: name in done && Connects(own, mesh, name) ==> clientId(name) in ds)
    && (forall id :: id in ds ==>
      exists name :: name in done && Connects(own, mesh, name) && clientId(name) == id && ds[id] == mesh[name])
  }

  /** The loop of NewZipper, over the mesh in an arbitrary order: downstreams are keyed by client ID. */
  method NewZipper(own: string, mesh: map<string, Address>, clientId: string -> string)
      returns (ds: map<string, Address>)
    ensures Built(own, mesh, clientId, mesh.Keys, ds)
  {
    ds := map[];
    var todo := mesh.Keys;
    while todo != {}
      invariant todo <= mesh.Keys
      invariant Built(own, mesh, clientId, mesh.Keys - todo, ds)
    {
      var name :| name in todo;
      ghost var before := ds;
      ghost var done := mesh.Keys - todo;
      todo := todo - {name};
      assert mesh.Keys - todo == done + {name};
      if name != "" && name != own {
        ds := ds[clientId(name) := mesh[name]];
      }
      forall id | id in ds
        ensures exists x :: x in done + {name} && Connects(own, mesh, x) && clientId(x) == id && ds[id] == mesh[x]
      {
        if id == clientId(name) && name != "" && name != own {
          assert Connects(own, mesh, name);
        } else {
          var x :| x in done && Connects(own, mesh, x) && clientId(x) == id && before[id] == mesh[x];
          assert x in done + {name};
        }
      }
    }
    assert mesh.Keys - todo == mesh.Keys;
  }

  /** With distinct client IDs the table has exactly one downstream for each entry connected to, with its address. */
  lemma OneDownstreamPerEntry(
    own: string, mesh: map<string, Address>, clientId: string -> string, ds: map<string, Address>)
    requires Built(own, mesh, clientId, mesh.Keys, ds)
    requires forall x, y :: Connects(own, mesh, x) && Connects(own, mesh, y) && clientId(x) == clientId(y) ==> x == y
    ensures forall name :: Connects(own, mesh, name) ==> clientId(name) in ds && ds[clientId(name)] == mesh[name]
    ensures |ds| == |set name | name in mesh && Connects(own, mesh, name)|
  {
    var names := set name | name in mesh && Connects(own, mesh, name);
    assert forall name :: Connects(own, mesh, name) ==> clientId(name) in ds;
    assert ds.Keys == set name | name in names :: clientId(name);
    InjectiveImage(names, clientId);
  }

  lemma {:induction false} InjectiveImage(names: set<string>, f: string -> string)
    requires forall x, y :: x in names && y in names && f(x) == f(y) ==> x == y
    ensures |set name | name in names :: f(name)| == |names|
  {
    if names != {} {
      var x :| x in names;
      InjectiveImage(names - {x}, f);
      assert (set name | name in names :: f(name)) == (set name | name in names - {x} :: f(name)) + {f(x)};
    }
  }

  // ---------------------------------------------------------------- frames in the mesh

  /**
   For each zipper, the zippers its downstream clients are connected to; any graph, with cycles, loops and repetitions.
   */
  type Topology = map<ZipperId, seq<ZipperId>>

  function Downs(net: Topology, z: ZipperId): (ds: seq<ZipperId>) {
    if z in net then net[z] else []
  }

  /** A frame, injected once, by a source or stream function connected to zipper `entry`. */
  datatype Frame = Frame(serial: nat, entry: ZipperId)

  /** A copy of a frame on its way into zipper `at`, having travelled `hops` zipper-to-zipper hops. */
  datatype Copy = Copy(frame: Frame, at: ZipperId, hops: nat)

  /**
   Copies waiting on connections of clients, and of upstream zippers; copies a running handler has still to write to
   a downstream; copies handled (routed) from either kind of connection; copies whose write failed.
   */
  datatype State = State(
    fromClients: multiset<Copy>,
    fromZippers: multiset<Copy>,
    toWrite: multiset<Copy>,
    handled: multiset<Copy>,
    relayed: multiset<Copy>,
    lost: multiset<Copy>)

  datatype Step =
    | HandleClient(c: Copy)
    | HandleZipper(c: Copy)
    | Dispatch(c: Copy, ok: bool)

  /** One copy for each downstream. */
  function Fan(c: Copy, ds: seq<ZipperId>): (cs: multiset<Copy>) {
    if ds == [] then multiset{} else multiset{Copy(c.frame, ds[0], c.hops + 1)} + Fan(c, ds[1..])
  }

  ghost predicate Enabled(s: State, step: Step) {
    match step
    case HandleClient(c) => c in s.fromClients
    case HandleZipper(c) => c in s.fromZippers
    case Dispatch(c, _) => c in s.toWrite
  }

  /**
   handleFrame routes the frame locally and then, unless it came from an upstream zipper, goes through the downstream
   table in an arbitrary order; each write succeeds or fails on its own.
   */
  ghost function Do(net: Topology, s: State, step: Step): (s': State)
    requires Enabled(s, step)
  {
    match step
    case HandleClient(c) =>
      s.(fromClients := s.fromClients - multiset{c}, handled := s.handled + multiset{c}, toWrite := s.toWrite
        + Fan(c, Downs(net, c.at)))
    case HandleZipper(c) =>
      s.(fromZippers := s.fromZippers - multiset{c}, relayed := s.relayed + multiset{c})
    case Dispatch(c, ok) =>
      if ok then s.(toWrite := s.toWrite - multiset{c}, fromZippers := s.fromZippers + multiset{c})
      else s.(toWrite := s.toWrite - multiset{c}, lost := s.lost + multiset{c})
  }

  ghost predicate Next(net: Topology, s: State, s': State) {
    exists step :: Enabled(s, step) && s' == Do(net, s, step)
  }

  /** Nothing is waiting anywhere. */
  predicate Quiescent(s: State) {
    s.fromClients == multiset{} && s.fromZippers == multiset{} && s.toWrite == multiset{}
  }

  /** The frames, each waiting once at its entry; a frame handled late is one injected late. */
  ghost function Injected(frames: set<Frame>): (s: State) {
    State(Fresh(frames), multiset{}, multiset{}, multiset{}, multiset{}, multiset{})
  }

  ghost function Fresh(frames: set<Frame>): (cs: multiset<Copy>) {
    multiset(set f | f in frames :: Copy(f, f.entry, 0))
  }

  ghost predicate StepAt(net: Topology, trace: seq<State>, i: nat)
    requires i + 1 < |trace|
  {
    Next(net, trace[i], trace[i + 1])
  }

  ghost predicate Run(net: Topology, frames: set<Frame>, trace: seq<State>) {
    |trace| > 0 && trace[0] == Injected(frames) && forall i :: 0 <= i < |trace| - 1 ==> StepAt(net, trace, i)
  }

  // ---------------------------------------------------------------- termination

  /** The work left: client copies waiting, writes to do, zipper copies waiting. */
  datatype Work = Work(clients: nat, writes: nat, zippers: nat)

  ghost function WorkLeft(s: State): (w: Work) {
    Work(|s.fromClients|, |s.toWrite|, |s.fromZippers|)
  }

  /** Lexicographically less. */
  predicate Below(a: Work, b: Work) {
    || a.clients < b.clients
    || (a.clients == b.clients && a.writes < b.writes)
    || (a.clients == b.clients && a.writes == b.writes && a.zippers < b.zippers)
  }

  /** Each step descends: the order in which a zipper does things does not matter, nor how the zippers are connected. */
  lemma StepDescends(net: Topology, s: State, step: Step)
    requires Enabled(s, step)
    ensures Below(WorkLeft(Do(net, s, step)), WorkLeft(s))
  {
  }

  lemma NextDescends(net: Topology, s: State, s': State)
    requires Next(net, s, s')
    ensures Below(WorkLeft(s'), WorkLeft(s))
  {
    var step :| Enabled(s, step) && s' == Do(net, s, step);
    StepDescends(net, s, step);
  }

  /** No infinite descent. */
  lemma {:induction false} DescentEnds(work: nat -> Work, i: nat) returns (j: nat)
    ensures j >= i && !Below(work(j + 1), work(j))
    decreases work(i).clients, work(i).writes, work(i).zippers
  {
    j := i;
    if Below(work(i + 1), work(i)) {
      j := DescentEnds(work, i + 1);
    }
  }

  /**
   No infinite interleaving exists: in any infinite sequence of states, from any state on, some pair is not a step.
   */
  lemma EveryInterleavingEnds(net: Topology, states: nat -> State, i: nat) returns (j: nat)
    ensures j >= i && !Next(net, states(j), states(j + 1))
  {
    var work: nat -> Work := (k: nat) => WorkLeft(states(k));
    j := DescentEnds(work, i);
    assert !Below(WorkLeft(states(j + 1)), WorkLeft(states(j))) by {
      assert work(j + 1) == WorkLeft(states(j + 1)) && work(j) == WorkLeft(states(j));
    }
    if Next(net, states(j), states(j + 1)) {
      NextDescends(net, states(j), states(j + 1));
    }
  }

  /** And no interleaving ends before everything is done: a state that is not quiescent has a step. */
  lemma WorkLeftCanProceed(net: Topology, s: State) returns (s': State)
    requires !Quiescent(s)
    ensures Next(net, s, s')
  {
    var step := SomeStep(s);
    s' := Do(net, s, step);
  }

  lemma SomeStep(s: State) returns (step: Step)
    requires !Quiescent(s)
    ensures Enabled(s, step)
  {
    if s.fromClients != multiset{} {
      var c :| c in s.fromClients;
      step := HandleClient(c);
    } else if s.fromZippers != multiset{} {
      var c :| c in s.fromZippers;
      step := HandleZipper(c);
    } else {
      var c :| c in s.toWrite;
      step := Dispatch(c, true);
    }
  }

  // ---------------------------------------------------------------- conservation

  /** How many of a zipper's downstreams point at `z`. */
  ghost function Pointing(net: Topology, from: ZipperId, z: ZipperId): (n: nat) {
    multiset(Downs(net, from))[z]
  }

  lemma {:induction false} FanCounts(c: Copy, ds: seq<ZipperId>, x: Copy)
    ensures Fan(c, ds)[x] == if x.frame == c.frame && x.hops == c.hops + 1 then multiset(ds)[x.at] else 0
  {
    if ds != [] {
      FanCounts(c, ds[1..], x);
      assert ds == [ds[0]] + ds[1..];
    }
  }

  /** A client copy is at its frame's entry with no hop behind it; any other copy has exactly one. */
  ghost predicate HopsOk(s: State) {
    && AtEntry(s.fromClients) && AtEntry(s.handled)
    && OneHop(s.fromZippers) && OneHop(s.toWrite) && OneHop(s.relayed) && OneHop(s.lost)
  }

  ghost predicate AtEntry(cs: multiset<Copy>) {
    forall c :: c in cs ==> c == Copy(c.frame, c.frame.entry, 0)
  }

  ghost predicate OneHop(cs: multiset<Copy>) {
    forall c :: c in cs ==> c.hops == 1
  }

  /** The entry copy of `f` is waiting or handled, once if the frame was injected. */
  ghost predicate EntryOk(frames: set<Frame>, s: State, f: Frame) {
    s.fromClients[Copy(f, f.entry, 0)] + s.handled[Copy(f, f.entry, 0)] == if f in frames then 1 else 0
  }

  /** Where the copies of `f` for zipper `z` are, in all. */
  ghost function Accounted(s: State, f: Frame, z: ZipperId): (n: nat) {
    var c := Copy(f, z, 1);
    s.toWrite[c] + s.fromZippers[c] + s.relayed[c] + s.lost[c]
  }

  /** Once the entry has handled `f`, one copy for each downstream pointing at `z`; before that, none. */
  ghost predicate CopiesOk(net: Topology, s: State, f: Frame, z: ZipperId) {
    Accounted(s, f, z) == if s.handled[Copy(f, f.entry, 0)] == 0 then 0 else Pointing(net, f.entry, z)
  }

  ghost predicate Inv(net: Topology, frames: set<Frame>, s: State) {
    && HopsOk(s)
    && (forall f :: EntryOk(frames, s, f))
    && (forall f, z :: CopiesOk(net, s, f, z))
  }

  lemma ClientStepKeepsInv(net: Topology, frames: set<Frame>, s: State, c: Copy)
    requires Inv(net, frames, s) && c in s.fromClients
    ensures Inv(net, frames, Do(net, s, HandleClient(c)))
  {
    var s' := Do(net, s, HandleClient(c));
    ClientStepHops(s, c, Downs(net, c.at));
    forall f ensures EntryOk(frames, s', f) {
      assert EntryOk(frames, s, f);
    }
    forall f, z ensures CopiesOk(net, s', f, z) {
      assert EntryOk(frames, s, f) && CopiesOk(net, s, f, z);
      ClientStepCopies(net, frames, s, c, f, z);
    }
  }

  lemma ClientStepCopies(net: Topology, frames: set<Frame>, s: State, c: Copy, f: Frame, z: ZipperId)
    requires c in s.fromClients && c == Copy(c.frame, c.frame.entry, 0)
    requires EntryOk(frames, s, f) && CopiesOk(net, s, f, z)
    ensures CopiesOk(net, Do(net, s, HandleClient(c)), f, z)
  {
    FanCounts(c, Downs(net, c.at), Copy(f, z, 1));
  }

  lemma ClientStepHops(s: State, c: Copy, ds: seq<ZipperId>)
    requires HopsOk(s) && c in s.fromClients
    ensures AtEntry(s.fromClients - multiset{c}) && AtEntry(s.handled + multiset{c}) && OneHop(s.toWrite + Fan(c, ds))
  {
    forall x | x in Fan(c, ds) ensures x.hops == 1 {
      FanCounts(c, ds, x);
    }
  }

  /** Writing to a downstream, and handling what an upstream sent, move copies about and make none. */
  lemma ZipperStepConserves(net: Topology, s: State, step: Step, f: Frame, z: ZipperId)
    requires Enabled(s, step) && !step.HandleClient?
    ensures Accounted(Do(net, s, step), f, z) == Accounted(s, f, z)
    ensures Do(net, s, step).fromClients == s.fromClients && Do(net, s, step).handled == s.handled
  {
  }

  lemma ZipperStepHops(net: Topology, s: State, step: Step)
    requires HopsOk(s) && Enabled(s, step) && !step.HandleClient?
    ensures HopsOk(Do(net, s, step))
  {
    assert step.c.hops == 1;
    forall cs | OneHop(cs) ensures OneHop(cs - multiset{step.c}) && OneHop(cs + multiset{step.c}) {
      OneHopMoves(cs, step.c);
    }
  }

  lemma OneHopMoves(cs: multiset<Copy>, c: Copy)
    requires OneHop(cs) && c.hops == 1
    ensures OneHop(cs - multiset{c}) && OneHop(cs + multiset{c})
  {
  }

  lemma ZipperStepKeepsInv(net: Topology, frames: set<Frame>, s: State, s': State)
    requires Inv(net, frames, s) && HopsOk(s') && s'.fromClients == s.fromClients && s'.handled == s.handled
    requires forall f, z :: Accounted(s', f, z) == Accounted(s, f, z)
    ensures Inv(net, frames, s')
  {
    forall f ensures EntryOk(frames, s', f) {
      assert EntryOk(frames, s, f);
    }
    forall f, z ensures CopiesOk(net, s', f, z) {
      assert CopiesOk(net, s, f, z);
    }
  }

  lemma StepKeepsInv(net: Topology, frames: set<Frame>, s: State, step: Step)
    requires Inv(net, frames, s) && Enabled(s, step)
    ensures Inv(net, frames, Do(net, s, step))
  {
    if step.HandleClient? {
      ClientStepKeepsInv(net, frames, s, step.c);
    } else {
      var s' := Do(net, s, step);
      forall f, z ensures Accounted(s', f, z) == Accounted(s, f, z) {
        ZipperStepConserves(net, s, step, f, z);
      }
      ZipperStepConserves(net, s, step, Frame(0, 0), 0);
      ZipperStepHops(net, s, step);
      ZipperStepKeepsInv(net, frames, s, s');
    }
  }

  lemma InjectedIsOk(net: Topology, frames: set<Frame>)
    ensures Inv(net, frames, Injected(frames))
  {
    var s := Injected(frames);
    forall f ensures EntryOk(frames, s, f) {
      assert Copy(f, f.entry, 0) in Fresh(frames) <==> f in frames;
    }
  }

  lemma NextKeepsInv(net: Topology, frames: set<Frame>, s: State, s': State)
    requires Inv(net, frames, s)
    ensures Next(net, s, s') ==> Inv(net, frames, s')
  {
    if step :| Enabled(s, step) && s' == Do(net, s, step) {
      StepKeepsInv(net, frames, s, step);
    }
  }

  lemma {:induction false} RunKeepsInv(net: Topology, frames: set<Frame>, trace: seq<State>, i: nat)
    requires Run(net, frames, trace) && i < |trace|
    ensures Inv(net, frames, trace[i])
  {
    if i == 0 {
      InjectedIsOk(net, frames);
    } else {
      RunKeepsInv(net, frames, trace, i - 1);
      assert StepAt(net, trace, i - 1);
      NextKeepsInv(net, frames, trace[i - 1], trace[i]);
    }
  }

  /** No copy ever travels more than one zipper-to-zipper hop. */
  lemma OneHopAtMost(net: Topology, frames: set<Frame>, trace: seq<State>, i: nat, c: Copy)
    requires Run(net, frames, trace) && i < |trace|
    requires var s := trace[i]; c in s.fromClients + s.fromZippers + s.toWrite + s.handled + s.relayed + s.lost
    ensures c.hops <= 1
  {
    RunKeepsInv(net, frames, trace, i);
  }

  // ---------------------------------------------------------------- how often a frame is handled

  /** A run together with its steps. */
  ghost predicate Execution(net: Topology, frames: set<Frame>, trace: seq<State>, steps: seq<Step>) {
    && |trace| == |steps| + 1 && trace[0] == Injected(frames)
    && forall i :: 0 <= i < |steps| ==> TookAt(net, trace, steps, i)
  }

  ghost predicate TookAt(net: Topology, trace: seq<State>, steps: seq<Step>, i: nat)
    requires i < |steps| && |trace| == |steps| + 1
  {
    Enabled(trace[i], steps[i]) && trace[i + 1] == Do(net, trace[i], steps[i])
  }

  lemma ExecutionIsRun(net: Topology, frames: set<Frame>, trace: seq<State>, steps: seq<Step>)
    requires Execution(net, frames, trace, steps)
    ensures Run(net, frames, trace)
  {
    forall i | 0 <= i < |trace| - 1 ensures StepAt(net, trace, i) {
      assert TookAt(net, trace, steps, i);
    }
  }

  predicate Handles(step: Step, f: Frame, z: ZipperId) {
    !step.Dispatch? && step.c.frame == f && step.c.at == z
  }

  predicate Loses(step: Step, f: Frame, z: ZipperId) {
    step.Dispatch? && !step.ok && step.c.frame == f && step.c.at == z
  }

  /** How many of the steps handle the frame at the zipper, whichever connection it came from. */
  function Handlings(steps: seq<Step>, f: Frame, z: ZipperId): (n: nat) {
    if steps == [] then 0
    else Handlings(steps[..|steps| - 1], f, z) + if Handles(steps[|steps| - 1], f, z) then 1 else 0
  }

  /** How many of the steps are failed writes of the frame to the zipper. */
  function Failures(steps: seq<Step>, f: Frame, z: ZipperId): (n: nat) {
    if steps == [] then 0
    else Failures(steps[..|steps| - 1], f, z) + if Loses(steps[|steps| - 1], f, z) then 1 else 0
  }

  /** What the state has recorded of the frame at the zipper. */
  ghost function Recorded(s: State, f: Frame, z: ZipperId): (n: nat) {
    (if z == f.entry then s.handled[Copy(f, z, 0)] else 0) + s.relayed[Copy(f, z, 1)]
  }

  lemma StepRecords(net: Topology, s: State, step: Step, f: Frame, z: ZipperId)
    requires HopsOk(s) && Enabled(s, step)
    ensures Recorded(Do(net, s, step), f, z) == Recorded(s, f, z) + if Handles(step, f, z) then 1 else 0
    ensures Do(net, s, step).lost[Copy(f, z, 1)] == s.lost[Copy(f, z, 1)] + if Loses(step, f, z) then 1 else 0
  {
    assert step.HandleClient? ==> step.c == Copy(step.c.frame, step.c.frame.entry, 0);
    assert !step.HandleClient? ==> step.c.hops == 1;
  }

  lemma {:induction false} RunRecords(
    net: Topology, frames: set<Frame>, trace: seq<State>, steps: seq<Step>, i: nat, f: Frame, z: ZipperId)
    requires Execution(net, frames, trace, steps) && i < |trace|
    ensures Recorded(trace[i], f, z) == Handlings(steps[..i], f, z)
    ensures trace[i].lost[Copy(f, z, 1)] == Failures(steps[..i], f, z)
  {
    if i > 0 {
      RunRecords(net, frames, trace, steps, i - 1, f, z);
      ExecutionIsRun(net, frames, trace, steps);
      RunKeepsInv(net, frames, trace, i - 1);
      assert TookAt(net, trace, steps, i - 1);
      assert steps[..i][..i - 1] == steps[..i - 1];
      StepRecords(net, trace[i - 1], steps[i - 1], f, z);
    }
  }

  /** Where a list names the zipper. */
  function Places(ds: seq<ZipperId>, z: ZipperId): (places: set<int>) {
    set i | 0 <= i < |ds| && ds[i] == z
  }

  lemma {:induction false} MultisetCounts(ds: seq<ZipperId>, z: ZipperId)
    ensures multiset(ds)[z] == |Places(ds, z)|
  {
    if ds == [] {
      assert Places(ds, z) == {};
    } else {
      var n := |ds| - 1;
      var rest := ds[..n];
      MultisetCounts(rest, z);
      assert ds == rest + [ds[n]];
      assert Places(ds, z) == Places(rest, z) + if ds[n] == z then {n} else {};
    }
  }

  /** A zipper's downstreams that point at another: their places in its entry of the topology. */
  lemma PointingIsPlaces(net: Topology, from: ZipperId, z: ZipperId)
    ensures Pointing(net, from, z) == if from in net then |set i | 0 <= i < |net[from]| && net[from][i] == z| else 0
  {
    MultisetCounts(Downs(net, from), z);
    if from in net {
      assert Places(net[from], z) == set i | 0 <= i < |net[from]| && net[from][i] == z;
    }
  }

  /** When no step is possible any more, nothing is waiting. */
  lemma StuckIsQuiescent(s: State)
    requires forall step :: !Enabled(s, step)
    ensures Quiescent(s)
  {
    if !Quiescent(s) {
      var step := SomeStep(s);
    }
  }

  /**
   Whatever the interleaving, a zipper handles a frame at most once as the frame's entry plus once for each place in the
   entry's list of downstreams that names the zipper; and when no step is possible any more, exactly that often less the
   failed writes. A frame that was not injected is never handled.
   */
  lemma HandledAsOftenAsPointedAt(
    net: Topology, frames: set<Frame>, trace: seq<State>, steps: seq<Step>, f: Frame, z: ZipperId)
    requires Execution(net, frames, trace, steps)
    ensures
      var places := if f.entry in net then |set i | 0 <= i < |net[f.entry]| && net[f.entry][i] == z| else 0;
      var expected := (if z == f.entry then 1 else 0) + places;
      && (f in frames ==> Handlings(steps, f, z) <= expected)
      && (f in frames && (forall step :: !Enabled(trace[|steps|], step)) ==>
            Handlings(steps, f, z) + Failures(steps, f, z) == expected)
      && (f !in frames ==> Handlings(steps, f, z) == 0)
  {
    var n := |steps|;
    assert steps[..n] == steps;
    ExecutionIsRun(net, frames, trace, steps);
    RunKeepsInv(net, frames, trace, n);
    RunRecords(net, frames, trace, steps, n, f, z);
    PointingIsPlaces(net, f.entry, z);
    assert EntryOk(frames, trace[n], f) && CopiesOk(net, trace[n], f, z);
    if forall step :: !Enabled(trace[n], step) {
      StuckIsQuiescent(trace[n]);
    }
  }
}
