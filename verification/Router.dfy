/**
 The zipper's routing table (core/router/router.go): a mutable index from tags to connection IDs,
 specified by the log of the calls made on it.
 */
module Router {
  import opened Common
  import opened Metadata

  type ConnId = nat
  type Tag = nat

  /** The two maps of the table. */
  datatype Rules = Rules(targets: map<ConnId, string>, data: map<Tag, set<ConnId>>)

  const EMPTY_RULES := Rules(map[], map[])

  /** The connections a frame goes to: those indexed under the tag and, for a targeted frame, wanting that target. */
  function Routed(r: Rules, tag: Tag, target: Option<string>): (ids: set<ConnId>) {
    if tag !in r.data then {}
    else set id | id in r.data[tag] && (target.Some? ==> WantedTarget(r.targets, id) == target)
  }

  function WantedTarget(m: map<ConnId, string>, id: ConnId): (v: Option<string>) {
    if id in m then Some(m[id]) else None
  }

  function IndexTag(data: map<Tag, set<ConnId>>, tag: Tag, id: ConnId): (d: map<Tag, set<ConnId>>) {
    data[tag := (if tag in data then data[tag] else {}) + {id}]
  }

  function IndexTags(data: map<Tag, set<ConnId>>, tags: seq<Tag>, id: ConnId): (d: map<Tag, set<ConnId>>) {
    if tags == [] then data
    else IndexTag(IndexTags(data, tags[..|tags| - 1], id), tags[|tags| - 1], id)
  }

  function AddRule(r: Rules, id: ConnId, tags: seq<Tag>, wanted: Option<string>): (r': Rules) {
    Rules(if wanted.Some? then r.targets[id := wanted.value] else r.targets, IndexTags(r.data, tags, id))
  }

  /** Emptied tag entries stay in the index. */
  function RemoveRule(r: Rules, id: ConnId): (r': Rules) {
    Rules(r.targets - {id}, map tag | tag in r.data :: r.data[tag] - {id})
  }

  lemma {:induction false} IndexedTags(data: map<Tag, set<ConnId>>, tags: seq<Tag>, id: ConnId, tag: Tag, x: ConnId)
    ensures InIndex(IndexTags(data, tags, id), tag, x) <==> InIndex(data, tag, x) || (x == id && tag in tags)
  {
    if tags != [] {
      IndexedTags(data, tags[..|tags| - 1], id, tag, x);
      assert tags == tags[..|tags| - 1] + [tags[|tags| - 1]];
    }
  }

  predicate InIndex(data: map<Tag, set<ConnId>>, tag: Tag, id: ConnId) {
    tag in data && id in data[tag]
  }

  // ---------------------------------------------------------------- the log

  datatype Op =
    | Add(id: ConnId, tags: seq<Tag>, wanted: Option<string>)
    | Remove(id: ConnId)
    | Release

  type Log = seq<Op>

  /** The table after a sequence of calls. */
  ghost function Replay(log: Log): (r: Rules) {
    if log == [] then EMPTY_RULES else Apply(Replay(log[..|log| - 1]), log[|log| - 1])
  }

  ghost function Apply(r: Rules, op: Op): (r': Rules) {
    match op
    case Add(id, tags, wanted) => AddRule(r, id, tags, wanted)
    case Remove(id) => RemoveRule(r, id)
    case Release => EMPTY_RULES
  }

  /** `op` forgets everything about `id`. */
  predicate Forgets(op: Op, id: ConnId) {
    op.Release? || op == Remove(id)
  }

  /** Call `i` added `id`, and nothing since has forgotten it. */
  ghost predicate LiveAdd(log: Log, i: int, id: ConnId) {
    0 <= i < |log| && log[i].Add? && log[i].id == id && forall j :: i < j < |log| ==> !Forgets(log[j], id)
  }

  /** `id` was added for `tag` since it was last forgotten. */
  ghost predicate Observes(log: Log, id: ConnId, tag: Tag) {
    exists i :: LiveAdd(log, i, id) && tag in log[i].tags
  }

  /** The latest target given for `id` since it was last forgotten is `target`. */
  ghost predicate Wants(log: Log, id: ConnId, target: string) {
    exists i :: LiveAdd(log, i, id) && log[i].wanted == Some(target)
             && forall j :: i < j && LiveAdd(log, j, id) ==> log[j].wanted.None?
  }

  /** The two maps say exactly what the log says. */
  lemma {:induction false} TableIsLog(log: Log, id: ConnId, tag: Tag, target: string)
    ensures InIndex(Replay(log).data, tag, id) <==> Observes(log, id, tag)
    ensures WantedTarget(Replay(log).targets, id) == Some(target) <==> Wants(log, id, target)
  {
    if log != [] {
      var n := |log| - 1;
      var rest, op := log[..n], log[n];
      TableIsLog(rest, id, tag, target);
      assert log == rest + [op];
      if Forgets(op, id) {
        assert log[n] == op;
        assert forall i :: !LiveAdd(log, i, id);
      } else {
        LiveAddExtends(rest, op, id);
        ObservesExtends(rest, op, id, tag);
        WantsExtends(rest, op, id, target);
        if op.Add? {
          IndexedTags(Replay(rest).data, op.tags, op.id, tag, id);
        }
      }
    }
  }

  lemma LiveAddExtends(rest: Log, op: Op, id: ConnId)
    requires !Forgets(op, id)
    ensures forall i :: i != |rest| ==> (LiveAdd(rest + [op], i, id) <==> LiveAdd(rest, i, id))
    ensures LiveAdd(rest + [op], |rest|, id) <==> op.Add? && op.id == id
  {
    var log := rest + [op];
    forall i | i != |rest|
      ensures LiveAdd(log, i, id) <==> LiveAdd(rest, i, id)
    {
      if 0 <= i < |rest| {
        assert log[i] == rest[i];
        assert (forall j :: i < j < |log| ==> !Forgets(log[j], id)) <==>
          (forall j :: i < j < |rest| ==> !Forgets(rest[j], id)) by {
          if forall j :: i < j < |log| ==> !Forgets(log[j], id) {
            forall j | i < j < |rest| ensures !Forgets(rest[j], id) { assert log[j] == rest[j]; }
          }
        }
      }
    }
  }

  lemma ObservesExtends(rest: Log, op: Op, id: ConnId, tag: Tag)
    requires !Forgets(op, id)
    ensures Observes(rest + [op], id, tag) <==> Observes(rest, id, tag) || (op.Add? && op.id == id && tag in op.tags)
  {
    var log := rest + [op];
    LiveAddExtends(rest, op, id);
    if Observes(rest, id, tag) {
      var i :| LiveAdd(rest, i, id) && tag in rest[i].tags;
      assert LiveAdd(log, i, id) && log[i] == rest[i];
    }
    if op.Add? && op.id == id && tag in op.tags {
      assert LiveAdd(log, |rest|, id) && log[|rest|] == op;
    }
    if Observes(log, id, tag) {
      var i :| LiveAdd(log, i, id) && tag in log[i].tags;
      if i < |rest| {
        assert LiveAdd(rest, i, id) && log[i] == rest[i];
      }
    }
  }

  lemma WantsExtends(rest: Log, op: Op, id: ConnId, target: string)
    requires !Forgets(op, id)
    ensures Wants(rest + [op], id, target) <==>
            if op.Add? && op.id == id && op.wanted.Some? then op.wanted == Some(target) else Wants(rest, id, target)
  {
    var log := rest + [op];
    LiveAddExtends(rest, op, id);
    assert log[|rest|] == op;
    assert forall i :: LiveAdd(rest, i, id) ==> log[i] == rest[i];
    if op.Add? && op.id == id && op.wanted.Some? {
      assert LiveAdd(log, |rest|, id);
    } else {
      if Wants(rest, id, target) {
        var i :| LiveAdd(rest, i, id) && rest[i].wanted == Some(target)
              && forall j :: i < j && LiveAdd(rest, j, id) ==> rest[j].wanted.None?;
        assert LiveAdd(log, i, id) && log[i].wanted == Some(target);
        assert forall j :: i < j && LiveAdd(log, j, id) ==> log[j].wanted.None?;
      }
      if Wants(log, id, target) {
        var i :| LiveAdd(log, i, id) && log[i].wanted == Some(target)
              && forall j :: i < j && LiveAdd(log, j, id) ==> log[j].wanted.None?;
        assert i < |rest| && LiveAdd(rest, i, id) && rest[i].wanted == Some(target);
        assert forall j :: i < j && LiveAdd(rest, j, id) ==> LiveAdd(log, j, id);
      }
    }
  }

  /** What Route answers, said of the log alone. */
  ghost predicate RoutedByLog(log: Log, tag: Tag, target: Option<string>, id: ConnId) {
    Observes(log, id, tag) && (target.Some? ==> Wants(log, id, target.value))
  }

  lemma RouteMeaning(log: Log, tag: Tag, target: Option<string>)
    ensures forall id :: id in Routed(Replay(log), tag, target) <==> RoutedByLog(log, tag, target, id)
  {
    forall id
      ensures id in Routed(Replay(log), tag, target) <==> RoutedByLog(log, tag, target, id)
    {
      TableIsLog(log, id, tag, if target.Some? then target.value else "");
    }
  }

  // ---------------------------------------------------------------- the mutable table

  class Table {
    var targets: map<ConnId, string>
    var data: map<Tag, set<ConnId>>
    ghost var log: Log

    ghost predicate Valid()
      reads this
    {
      Rules(targets, data) == Replay(log)
    }

    constructor ()
      ensures Valid() && log == []
    {
      targets, data, log := map[], map[], [];
    }

    method AddRoute(id: ConnId, tags: seq<Tag>, md: M)
      requires Valid()
      modifies this
      ensures Valid() && log == old(log) + [Op.Add(id, tags, Get(md, WANTED_TARGET_KEY))]
    {
      var wanted := Get(md, WANTED_TARGET_KEY);
      if wanted.Some? {
        targets := targets[id := wanted.value];
      }
      for i := 0 to |tags|
        invariant data == IndexTags(old(data), tags[..i], id)
        invariant targets == AddRule(Rules(old(targets), old(data)), id, tags, wanted).targets
        invariant log == old(log)
      {
        if tags[i] !in data {
          data := data[tags[i] := {}];
        }
        data := data[tags[i] := data[tags[i]] + {id}];
        assert tags[..i + 1][..i] == tags[..i];
      }
      assert tags[..|tags|] == tags;
      log := log + [Op.Add(id, tags, wanted)];
      assert log[..|log| - 1] == old(log);
    }

    method RemoveRoute(id: ConnId)
      requires Valid()
      modifies this
      ensures Valid() && log == old(log) + [Op.Remove(id)]
    {
      targets := targets - {id};
      var todo := data.Keys;
      while todo != {}
        invariant todo <= data.Keys == old(data).Keys
        invariant forall tag :: tag in data ==>
          data[tag] == if tag in todo then old(data)[tag] else old(data)[tag] - {id}
        invariant targets == old(targets) - {id} && log == old(log)
      {
        var tag :| tag in todo;
        data := data[tag := data[tag] - {id}];
        todo := todo - {tag};
      }
      assert data == RemoveRule(Rules(old(targets), old(data)), id).data;
      log := log + [Op.Remove(id)];
      assert log[..|log| - 1] == old(log);
    }

    method Clear()
      requires Valid()
      modifies this
      ensures Valid() && log == old(log) + [Op.Release]
    {
      targets, data := map[], map[];
      log := log + [Op.Release];
    }

    /** Walks the tag's set in an arbitrary order: the answer lists each connection the log routes to, once. */
    method Route(tag: Tag, md: M) returns (ids: seq<ConnId>)
      requires Valid()
      ensures NoDup(ids)
      ensures forall id :: id in ids <==> RoutedByLog(log, tag, Get(md, TARGET_KEY), id)
    {
      var target := Get(md, TARGET_KEY);
      ids := [];
      if tag in data {
        var todo := data[tag];
        while todo != {}
          invariant todo <= data[tag]
          invariant NoDup(ids)
          invariant forall id :: id in ids <==> id in Routed(Rules(targets, data), tag, target) && id !in todo
        {
          var id :| id in todo;
          todo := todo - {id};
          if target.None? || (id in targets && targets[id] == target.value) {
            ids := ids + [id];
          }
        }
      }
      RouteMeaning(log, tag, target);
    }
  }

  // ---------------------------------------------------------------- adding and removing again

  /** No trace of `id` in the table. */
  ghost predicate Unknown(r: Rules, id: ConnId) {
    id !in r.targets && forall tag :: !InIndex(r.data, tag, id)
  }

  /** Two tables that no call of Route, now or after any further calls, can tell apart. */
  ghost predicate Indistinguishable(a: Log, b: Log) {
    forall suffix: Log, tag, target :: Routed(Replay(a + suffix), tag, target) ==
      Routed(Replay(b + suffix), tag, target)
  }

  /** The same targets and the same index, up to empty tag entries. */
  ghost predicate Same(a: Rules, b: Rules) {
    a.targets == b.targets && forall tag, id :: InIndex(a.data, tag, id) <==> InIndex(b.data, tag, id)
  }

  lemma {:induction false} SameForever(a: Log, b: Log, suffix: Log)
    requires Same(Replay(a), Replay(b))
    ensures Same(Replay(a + suffix), Replay(b + suffix))
  {
    if suffix == [] {
      assert a + suffix == a && b + suffix == b;
    } else {
      var rest, op := suffix[..|suffix| - 1], suffix[|suffix| - 1];
      SameForever(a, b, rest);
      assert (a + suffix)[..|a + suffix| - 1] == a + rest && (b + suffix)[..|b + suffix| - 1] == b + rest;
      SameStep(Replay(a + rest), Replay(b + rest), op);
    }
  }

  lemma SameStep(x: Rules, y: Rules, op: Op)
    requires Same(x, y)
    ensures Same(Apply(x, op), Apply(y, op))
  {
    if op.Add? {
      forall tag, id
        ensures InIndex(Apply(x, op).data, tag, id) <==> InIndex(Apply(y, op).data, tag, id)
      {
        IndexedTags(x.data, op.tags, op.id, tag, id);
        IndexedTags(y.data, op.tags, op.id, tag, id);
      }
    } else {
      assert op.Remove? ==> forall tag, id :: InIndex(Apply(x, op).data, tag, id) <==>
        InIndex(x.data, tag, id) && id != op.id;
      assert op.Remove? ==> forall tag, id :: InIndex(Apply(y, op).data, tag, id) <==>
        InIndex(y.data, tag, id) && id != op.id;
    }
  }

  lemma AddThenRemove(r: Rules, id: ConnId, tags: seq<Tag>, wanted: Option<string>)
    ensures Same(RemoveRule(AddRule(r, id, tags, wanted), id), RemoveRule(r, id))
  {
    forall tag, x
      ensures InIndex(RemoveRule(AddRule(r, id, tags, wanted), id).data, tag, x) <==>
        InIndex(RemoveRule(r, id).data, tag, x)
    {
      IndexedTags(r.data, tags, id, tag, x);
    }
  }

  /** A connection's Add and Remove leave no observable trace exactly when the table did not know it before. */
  lemma ConnectionLeavesNoTrace(log: Log, id: ConnId, tags: seq<Tag>, wanted: Option<string>)
    ensures Indistinguishable(log + [Op.Add(id, tags, wanted), Op.Remove(id)], log) <==> Unknown(Replay(log), id)
  {
    var both := log + [Op.Add(id, tags, wanted), Op.Remove(id)];
    ReplayBoth(log, id, tags, wanted);
    if Unknown(Replay(log), id) {
      NewcomerLeavesNoTrace(log, both, id);
    } else {
      NewcomerForgets(log, both, id);
    }
  }

  lemma ReplayBoth(log: Log, id: ConnId, tags: seq<Tag>, wanted: Option<string>)
    ensures Same(Replay(log + [Op.Add(id, tags, wanted), Op.Remove(id)]), RemoveRule(Replay(log), id))
  {
    var add, rem := Op.Add(id, tags, wanted), Op.Remove(id);
    var both := log + [add, rem];
    assert both[..|both| - 1] == log + [add] && (log + [add])[..|log|] == log;
    AddThenRemove(Replay(log), id, tags, wanted);
  }

  lemma NewcomerLeavesNoTrace(log: Log, both: Log, id: ConnId)
    requires Unknown(Replay(log), id) && Same(Replay(both), RemoveRule(Replay(log), id))
    ensures Indistinguishable(both, log)
  {
    assert Same(RemoveRule(Replay(log), id), Replay(log));
    forall suffix: Log, tag, target
      ensures Routed(Replay(both + suffix), tag, target) == Routed(Replay(log + suffix), tag, target)
    {
      SameForever(both, log, suffix);
      SameRoutes(Replay(both + suffix), Replay(log + suffix), tag, target);
    }
  }

  lemma NewcomerForgets(log: Log, both: Log, id: ConnId)
    requires !Unknown(Replay(log), id) && Same(Replay(both), RemoveRule(Replay(log), id))
    ensures !Indistinguishable(both, log)
  {
    if id in Replay(log).targets {
      RevealTarget(both, log, id);
    } else {
      var tag :| InIndex(Replay(log).data, tag, id);
      assert both + [] == both && log + [] == log;
      assert !InIndex(Replay(both).data, tag, id);
      assert id in Routed(Replay(log + []), tag, None) && id !in Routed(Replay(both + []), tag, None);
    }
  }

  lemma SameRoutes(a: Rules, b: Rules, tag: Tag, target: Option<string>)
    requires Same(a, b)
    ensures Routed(a, tag, target) == Routed(b, tag, target)
  {
    assert forall id :: id in Routed(a, tag, target) <==>
      InIndex(a.data, tag, id) && (target.Some? ==> WantedTarget(a.targets, id) == target);
    assert forall id :: id in Routed(b, tag, target) <==>
      InIndex(b.data, tag, id) && (target.Some? ==> WantedTarget(b.targets, id) == target);
  }

  /** A target left behind becomes visible once the connection is added again without one. */
  lemma RevealTarget(a: Log, b: Log, id: ConnId)
    requires id in Replay(b).targets && id !in Replay(a).targets
    ensures !Indistinguishable(a, b)
  {
    var again := [Op.Add(id, [0], None)];
    var target := Some(Replay(b).targets[id]);
    assert (a + again)[..|a|] == a && (b + again)[..|b|] == b;
    IndexedTags(Replay(b).data, [0], id, 0, id);
    assert id in Routed(Replay(b + again), 0, target);
    assert id !in Routed(Replay(a + again), 0, target);
  }
}
