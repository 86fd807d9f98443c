/**
 The register of AI functions (pkg/bridge/ai/register/register.go): at most one function for each
 connection, listed by tag and counted by tag.
 */
module Register {
  import opened Common
  import opened Router

  const FUNCTION_TOOL := "function"

  datatype Tool = Tool(kind: string, name: string, definition: string)

  datatype ConnectedFn = ConnectedFn(tag: Tag, tool: Tool)

  type Fns = map<ConnId, ConnectedFn>

  /** The connections registered under a tag. */
  function Holders(fns: Fns, tag: Tag): (ids: set<ConnId>) {
    set id | id in fns && fns[id].tag == tag
  }

  /** The factor of a tag: how many connections are registered under it. */
  function Factor(fns: Fns, tag: Tag): (n: nat) {
    |Holders(fns, tag)|
  }

  ghost function Tags(fns: Fns): (tags: set<Tag>) {
    set id | id in fns :: fns[id].tag
  }

  class Registry {
    var fns: Fns

    constructor ()
      ensures fns == map[]
    {
      fns := map[];
    }

    /** Registering a connection again replaces its function, whatever the tag. */
    method RegisterFunction(tag: Tag, name: string, definition: string, id: ConnId)
      modifies this
      ensures fns == old(fns)[id := ConnectedFn(tag, Tool(FUNCTION_TOOL, name, definition))]
      ensures forall t :: Factor(fns, t) == Factor(old(fns) - {id}, t) + if t == tag then 1 else 0
    {
      fns := fns[id := ConnectedFn(tag, Tool(FUNCTION_TOOL, name, definition))];
      forall t
        ensures Factor(fns, t) == Factor(old(fns) - {id}, t) + if t == tag then 1 else 0
      {
        assert Holders(fns, t) == Holders(old(fns) - {id}, t) + if t == tag then {id} else {};
      }
    }

    method UnregisterFunction(id: ConnId)
      modifies this
      ensures fns == old(fns) - {id}
      ensures forall t :: Factor(fns, t) == Factor(old(fns), t) - if id in Holders(old(fns), t) then 1 else 0
    {
      fns := fns - {id};
      forall t ensures Factor(fns, t) == Factor(old(fns), t) - if id in Holders(old(fns), t) then 1 else 0 {
        assert Holders(fns, t) == Holders(old(fns), t) - {id};
      }
    }

    /** A tag is listed exactly when its factor is at least 1, with the tool of one of its connections. */
    method ListToolCalls() returns (tools: map<Tag, Tool>)
      ensures forall tag :: tag in tools <==> Factor(fns, tag) >= 1
      ensures forall tag :: tag in tools ==> exists id :: id in fns && fns[id] == ConnectedFn(tag, tools[tag])
      ensures forall id :: id in fns ==> fns[id].tag in tools
    {
      tools := map[];
      var todo := fns.Keys;
      while todo != {}
        invariant todo <= fns.Keys
        invariant forall tag :: tag in tools <==> exists id :: id in fns && id !in todo && fns[id].tag == tag
        invariant forall tag :: tag in tools ==> exists id :: id in fns && fns[id] == ConnectedFn(tag, tools[tag])
      {
        var id :| id in todo;
        todo := todo - {id};
        tools := tools[fns[id].tag := fns[id].tool];
      }
      forall tag
        ensures tag in tools <==> Factor(fns, tag) >= 1
      {
        if tag in tools {
          var id :| id in fns && fns[id].tag == tag;
          assert id in Holders(fns, tag);
        } else {
          assert Holders(fns, tag) == {};
        }
      }
    }

    method SfnFactor(tag: Tag) returns (factor: nat)
      ensures factor == Factor(fns, tag) == |set id | id in fns && fns[id].tag == tag|
    {
      factor := 0;
      var todo := fns.Keys;
      ghost var counted: set<ConnId> := {};
      while todo != {}
        invariant todo <= fns.Keys
        invariant counted == (set id | id in fns && id !in todo && fns[id].tag == tag)
        invariant factor == |counted|
      {
        var id :| id in todo;
        todo := todo - {id};
        if fns[id].tag == tag {
          factor := factor + 1;
          counted := counted + {id};
        }
      }
      assert counted == Holders(fns, tag) == set id | id in fns && fns[id].tag == tag;
    }
  }

  ghost function PickTag(tags: set<Tag>): (tag: Tag)
    requires tags != {}
    ensures tag in tags
  {
    var tag :| tag in tags; tag
  }

  ghost function SumOfFactors(fns: Fns, tags: set<Tag>): (n: nat) {
    if tags == {} then 0
    else var tag := PickTag(tags); Factor(fns, tag) + SumOfFactors(fns, tags - {tag})
  }

  ghost function HoldersOf(fns: Fns, tags: set<Tag>): (ids: set<ConnId>) {
    set id | id in fns && fns[id].tag in tags
  }

  lemma {:induction false} SumOverSomeTags(fns: Fns, tags: set<Tag>)
    ensures SumOfFactors(fns, tags) == |HoldersOf(fns, tags)|
  {
    if tags == {} {
      assert HoldersOf(fns, tags) == {};
    } else {
      var tag := PickTag(tags);
      SumOverSomeTags(fns, tags - {tag});
      assert HoldersOf(fns, tags) == Holders(fns, tag) + HoldersOf(fns, tags - {tag});
    }
  }

  /** The factors of the listed tags sum to the number of registered connections. */
  lemma FactorsCountConnections(fns: Fns)
    ensures SumOfFactors(fns, Tags(fns)) == |fns|
  {
    SumOverSomeTags(fns, Tags(fns));
    assert HoldersOf(fns, Tags(fns)) == fns.Keys;
  }
}
