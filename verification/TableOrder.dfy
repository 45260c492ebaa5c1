/** Ordering tables for a restore by depth-first search over foreign keys, which may form cycles. */
module TableOrder {

  type Graph = map<string, set<string>>

  /** b is reached from a by n dependency edges. */
  ghost predicate Steps(deps: Graph, a: string, b: string, n: nat)
    decreases n
  {
    if n == 0 then a == b
    else a in deps && exists m :: m in deps[a] && Steps(deps, m, b, n - 1)
  }

  /** a is b or depends on b, transitively. */
  ghost predicate Reaches(deps: Graph, a: string, b: string) {
    exists n :: Steps(deps, a, b, n)
  }

  lemma {:induction false} StepsEdge(deps: Graph, a: string, b: string, c: string, n: nat)
    requires Steps(deps, a, b, n) && b in deps && c in deps[b]
    ensures Steps(deps, a, c, n + 1)
    decreases n
  {
    if n == 0 {
      assert Steps(deps, c, c, 0);
    } else {
      var m :| m in deps[a] && Steps(deps, m, b, n - 1);
      StepsEdge(deps, m, b, c, n - 1);
    }
  }

  lemma ReachesEdge(deps: Graph, a: string, b: string, c: string)
    requires Reaches(deps, a, b) && b in deps && c in deps[b]
    ensures Reaches(deps, a, c)
  {
    var n :| Steps(deps, a, b, n);
    StepsEdge(deps, a, b, c, n);
  }

  lemma ReachesItself(deps: Graph, a: string)
    ensures Reaches(deps, a, a)
  {
    assert Steps(deps, a, a, 0);
  }

  /** Every dependency that does not lead back is placed before its dependent. */
  ghost predicate Ordered(deps: Graph, result: seq<string>) {
    forall i, p :: 0 <= i < |result| && result[i] in deps && p in deps[result[i]] && !Reaches(deps, p, result[i]) ==>
      p in result[..i]
  }

  predicate Distinct(s: seq<string>) {
    forall i, j :: 0 <= i < j < |s| ==> s[i] != s[j]
  }

  predicate Closed(deps: Graph) {
    forall t, p :: t in deps && p in deps[t] ==> p in deps
  }

  function Elements(s: seq<string>): set<string> {
    set x | x in s
  }

  lemma OrderedSnoc(deps: Graph, result: seq<string>, t: string)
    requires Ordered(deps, result)
    requires t in deps ==> forall p :: p in deps[t] && !Reaches(deps, p, t) ==> p in result
    ensures Ordered(deps, result + [t])
  {
    var all := result + [t];
    forall i, p | 0 <= i < |all| && all[i] in deps && p in deps[all[i]] && !Reaches(deps, p, all[i])
      ensures p in all[..i]
    {
      if i < |result| {
        assert all[..i] == result[..i] && all[i] == result[i];
      } else {
        assert all[..i] == result;
      }
    }
  }

  class Sorter {
    const deps: Graph
    var seen: set<string>
    var result: seq<string>

    constructor (graph: Graph)
      ensures deps == graph && seen == {} && result == []
    {
      deps, seen, result := graph, {}, [];
    }

    /** Tables entered but not finished. */
    ghost function Open(): set<string>
      reads this
    {
      seen - Elements(result)
    }

    ghost predicate Valid()
      reads this
    {
      Closed(deps) && seen <= deps.Keys && Elements(result) <= seen && Distinct(result) && Ordered(deps, result)
    }

    /** Finishes t and everything it depends on; whatever is still open depends on t. */
    method Visit(t: string)
      requires Valid() && t in deps
      requires forall g :: g in Open() ==> Reaches(deps, g, t)
      modifies this
      ensures Valid() && t in seen && old(seen) <= seen && Open() == old(Open())
      ensures old(result) <= result
      decreases deps.Keys - seen
    {
      if t in seen {
        return;
      }
      ghost var open := Open();
      seen := seen + {t};
      var parents := deps[t];
      ReachesItself(deps, t);
      while parents != {}
        invariant Valid() && t in seen && old(seen) <= seen && old(result) <= result
        invariant Open() == open + {t} && t !in result
        invariant parents <= deps[t] && forall p :: p in deps[t] && p !in parents ==> p in seen
        decreases |parents|
      {
        var p :| p in parents;
        forall g | g in Open()
          ensures Reaches(deps, g, p)
        {
          ReachesEdge(deps, g, t, p);
        }
        Visit(p);
        assert t in Open();
        parents := parents - {p};
      }
      forall p | p in deps[t] && !Reaches(deps, p, t)
        ensures p in result
      {
        assert p !in Open();
      }
      OrderedSnoc(deps, result, t);
      assert Elements(result + [t]) == Elements(result) + {t};
      result := result + [t];
    }
  }

  /** The edges among the restored tables, as parents by child. */
  function Dependencies(tables: seq<string>, edges: seq<(string, string)>): Graph {
    map t | t in tables :: set e | e in edges && e.0 == t && e.1 in tables :: e.1
  }

  method BuildDependencies(tables: seq<string>, edges: seq<(string, string)>) returns (deps: Graph)
    ensures deps == Dependencies(tables, edges)
  {
    deps := map t | t in tables :: {};
    assert forall t :: t in tables ==> Dependencies(tables, edges[..0])[t] == {};
    for i := 0 to |edges|
      invariant deps == Dependencies(tables, edges[..i])
    {
      var (child, parent) := edges[i];
      assert edges[..i + 1] == edges[..i] + [edges[i]];
      ghost var before := deps;
      if child in deps && parent in deps {
        deps := deps[child := deps[child] + {parent}];
      }
      forall t | t in tables
        ensures deps[t] == Dependencies(tables, edges[..i + 1])[t]
      {
        assert forall e :: e in edges[..i + 1] <==> e in edges[..i] || e == edges[i];
      }
    }
    assert edges[..|edges|] == edges;
  }

  method TopologicalSort(tables: seq<string>, edges: seq<(string, string)>) returns (result: seq<string>)
    ensures Distinct(result) && Elements(result) == Elements(tables)
    ensures Ordered(Dependencies(tables, edges), result)
  {
    var deps := BuildDependencies(tables, edges);
    var sorter := new Sorter(deps);
    assert Elements([]) == {};
    for i := 0 to |tables|
      invariant sorter.Valid() && sorter.Open() == {} && sorter.deps == deps
      invariant forall j :: 0 <= j < i ==> tables[j] in sorter.seen
    {
      sorter.Visit(tables[i]);
    }
    result := sorter.result;
    assert sorter.Open() == {} && Elements(result) <= sorter.seen;
    assert forall t :: t in sorter.seen ==> t in Elements(result) || t in sorter.Open();
    assert forall t :: t in tables ==> t in sorter.seen;
    assert sorter.seen <= deps.Keys;
  }

  /** The position of a table in an order. */
  ghost predicate Before(result: seq<string>, a: string, b: string) {
    exists i, j :: 0 <= i < j < |result| && result[i] == a && result[j] == b
  }

  /** Each foreign key whose parent does not lead back to the child is respected. */
  lemma ParentsComeFirst(tables: seq<string>, edges: seq<(string, string)>, result: seq<string>, child: string,
                         parent: string)
    requires Elements(result) == Elements(tables) && Ordered(Dependencies(tables, edges), result)
    requires (child, parent) in edges && child in tables && parent in tables
    requires !Reaches(Dependencies(tables, edges), parent, child)
    ensures Before(result, parent, child)
  {
    assert child in Elements(result);
    var j :| 0 <= j < |result| && result[j] == child;
    var deps := Dependencies(tables, edges);
    assert (child, parent).0 == child && (child, parent).1 == parent;
    assert parent in deps[child];
    assert parent in result[..j];
    var i :| 0 <= i < j && result[..j][i] == parent;
    assert result[i] == parent;
  }

  /** Acyclic foreign keys are fully ordered. */
  lemma AcyclicFullyOrdered(tables: seq<string>, edges: seq<(string, string)>, result: seq<string>)
    requires Elements(result) == Elements(tables) && Ordered(Dependencies(tables, edges), result)
    requires forall c, p | (c, p) in edges && c in tables && p in tables ::
      !Reaches(Dependencies(tables, edges), p, c)
    ensures forall c, p :: (c, p) in edges && c in tables && p in tables ==> Before(result, p, c)
  {
    forall c, p | (c, p) in edges && c in tables && p in tables
      ensures Before(result, p, c)
    {
      ParentsComeFirst(tables, edges, result, c, p);
    }
  }
}
