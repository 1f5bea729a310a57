/**
 Connected components by an explicit stack: the loop terminates, each group it reports or suppresses
 is exactly one connected component, and no connected collection is left out.
*/
module GroupingComponents {
  type Node = nat
  type Graph = map<Node, set<Node>>

  // Adjacency sets over known nodes, kept on both sides.
  ghost predicate GraphOk(g: Graph) {
    && (forall x, y :: x in g && y in g[x] ==> y in g)
    && (forall x, y :: x in g && y in g[x] && y in g ==> x in g[y])
  }

  ghost predicate Walk(g: Graph, path: seq<Node>) {
    && path != []
    && (forall i :: 0 <= i < |path| ==> path[i] in g)
    && (forall i :: 0 <= i < |path| - 1 ==> path[i + 1] in g[path[i]])
  }

  ghost predicate Connected(g: Graph, x: Node, y: Node) {
    exists path :: Walk(g, path) && path[0] == x && path[|path| - 1] == y
  }

  lemma ConnectedSelf(g: Graph, x: Node)
    requires x in g
    ensures Connected(g, x, x)
  {
    assert Walk(g, [x]);
  }

  lemma ConnectedStep(g: Graph, x: Node, y: Node, z: Node)
    requires GraphOk(g) && Connected(g, x, y) && y in g && z in g[y]
    ensures Connected(g, x, z)
  {
    var path :| Walk(g, path) && path[0] == x && path[|path| - 1] == y;
    assert Walk(g, path + [z]);
    assert (path + [z])[0] == x;
  }

  // A set closed under neighbours holds whatever is connected to its members.
  lemma {:induction false} ClosedHoldsWalk(g: Graph, s: set<Node>, path: seq<Node>)
    requires Walk(g, path) && path[0] in s && (forall x :: x in s ==> x in g && g[x] <= s)
    ensures path[|path| - 1] in s
  {
    if |path| > 1 {
      assert path[1] in g[path[0]];
      ClosedHoldsWalk(g, s, path[1..]);
    }
  }

  lemma ConnectedBack(g: Graph, x: Node, y: Node)
    requires GraphOk(g) && Connected(g, x, y)
    ensures Connected(g, y, x)
  {
    var path :| Walk(g, path) && path[0] == x && path[|path| - 1] == y;
    var back := seq(|path|, i requires 0 <= i < |path| => path[|path| - 1 - i]);
    forall i | 0 <= i < |back| - 1
      ensures back[i + 1] in g[back[i]]
    {
      assert path[|path| - 2 - i + 1] in g[path[|path| - 2 - i]];
    }
    assert Walk(g, back);
    assert back[0] == y && back[|back| - 1] == x;
  }

  lemma ConnectedThrough(g: Graph, x: Node, y: Node, z: Node)
    requires Connected(g, x, y) && Connected(g, y, z)
    ensures Connected(g, x, z)
  {
    var p :| Walk(g, p) && p[0] == x && p[|p| - 1] == y;
    var q :| Walk(g, q) && q[0] == y && q[|q| - 1] == z;
    var path := p + q[1..];
    forall i | 0 <= i < |path| - 1
      ensures path[i + 1] in g[path[i]]
    {
      if i >= |p| - 1 { assert path[i] == q[i - |p| + 1] && path[i + 1] == q[i - |p| + 2]; }
    }
    assert Walk(g, path);
    assert path[|path| - 1] == z;
  }

  ghost predicate IsComponent(g: Graph, x: Node, c: set<Node>) {
    x in g && forall y :: y in c <==> y in g && Connected(g, x, y)
  }

  // Any order of a set's elements.
  method ToSeq(s: set<Node>) returns (xs: seq<Node>)
    ensures forall x :: x in xs <==> x in s
  {
    xs := [];
    var todo := s;
    while todo != {}
      invariant todo <= s && forall x :: x in xs <==> x in s - todo
      decreases |todo|
    {
      var x :| x in todo;
      xs, todo := xs + [x], todo - {x};
    }
  }

  // What the stack loop keeps.
  ghost predicate Exploring(g: Graph, x: Node, c: set<Node>, stack: seq<Node>) {
    && (x in c || x in stack)
    && c <= g.Keys
    && (forall y :: y in c ==> Connected(g, x, y))
    && (forall i :: 0 <= i < |stack| ==> stack[i] in g && Connected(g, x, stack[i]))
    && (forall y, z :: y in c && z in g[y] ==> z in c || z in stack)
  }

  lemma Visit(g: Graph, x: Node, c: set<Node>, stack: seq<Node>, current: Node, added: seq<Node>)
    requires GraphOk(g) && current in g && Exploring(g, x, c, stack + [current])
    requires forall y :: y in added <==> y in g[current] - (c + {current})
    ensures Exploring(g, x, c + {current}, stack + added)
  {
    assert (stack + [current])[|stack|] == current;
    forall i | 0 <= i < |stack + added|
      ensures (stack + added)[i] in g && Connected(g, x, (stack + added)[i])
    {
      if i < |stack| {
        assert (stack + [current])[i] == stack[i];
      } else {
        assert added[i - |stack|] in added;
        ConnectedStep(g, x, current, added[i - |stack|]);
      }
    }
    forall y, z | y in c + {current} && z in g[y]
      ensures z in c + {current} || z in stack + added
    {
      if y in c { assert z in c || z in stack + [current]; }
    }
  }

  lemma Skip(g: Graph, x: Node, c: set<Node>, stack: seq<Node>, current: Node)
    requires Exploring(g, x, c, stack + [current]) && current in c
    ensures Exploring(g, x, c, stack)
  {
    forall i | 0 <= i < |stack|
      ensures stack[i] in g && Connected(g, x, stack[i])
    {
      assert (stack + [current])[i] == stack[i];
    }
    forall y, z | y in c && z in g[y]
      ensures z in c || z in stack
    {
      assert z in c || z in stack + [current];
    }
  }

  lemma Explored(g: Graph, x: Node, c: set<Node>)
    requires x in g && Exploring(g, x, c, [])
    ensures IsComponent(g, x, c)
  {
    forall y | y in g && Connected(g, x, y)
      ensures y in c
    {
      var path :| Walk(g, path) && path[0] == x && path[|path| - 1] == y;
      ClosedHoldsWalk(g, c, path);
    }
  }

  // The stack loop.
  method Component(g: Graph, x: Node) returns (c: set<Node>)
    requires GraphOk(g) && x in g
    ensures IsComponent(g, x, c)
  {
    var stack := [x];
    c := {};
    ConnectedSelf(g, x);
    while stack != []
      invariant Exploring(g, x, c, stack)
      decreases |g.Keys - c|, |stack|
    {
      var current := stack[|stack| - 1];
      ghost var before := stack;
      stack := stack[..|stack| - 1];
      assert before == stack + [current];
      if current in c {
        Skip(g, x, c, stack, current);
      } else {
        var added := ToSeq(g[current] - (c + {current}));
        Visit(g, x, c, stack, current, added);
        ghost var rest := g.Keys - c;
        c := c + {current};
        assert g.Keys - c == rest - {current} && current in rest;
        stack := stack + added;
      }
    }
    Explored(g, x, c);
  }

  // --------------------------------------------------------------------------- all groups

  ghost predicate Whole(g: Graph, c: set<Node>) {
    exists x :: x in g && x in c && g[x] != {} && IsComponent(g, x, c)
  }

  lemma ComponentsOverlapOnlyWhole(g: Graph, x: Node, c: set<Node>, y: Node, d: set<Node>, z: Node)
    requires GraphOk(g) && IsComponent(g, x, c) && IsComponent(g, y, d) && z in c && z in d
    ensures c == d
  {
    forall w
      ensures w in c <==> w in d
    {
      if w in c {
        ConnectedBack(g, x, z);
        ConnectedThrough(g, z, x, w);
        ConnectedThrough(g, y, z, w);
      }
      if w in d {
        ConnectedBack(g, y, z);
        ConnectedThrough(g, z, y, w);
        ConnectedThrough(g, x, z, w);
      }
    }
  }

  ghost predicate InSome(groups: seq<set<Node>>, x: Node) {
    exists i :: 0 <= i < |groups| && x in groups[i]
  }

  ghost predicate AllWhole(g: Graph, groups: seq<set<Node>>) {
    forall i :: 0 <= i < |groups| ==> groups[i] <= g.Keys && Whole(g, groups[i])
  }

  ghost predicate Apart(groups: seq<set<Node>>) {
    forall i, j :: 0 <= i < j < |groups| ==> groups[i] !! groups[j]
  }

  // The groups found so far, whether reported or suppressed by an earlier decision.
  ghost predicate Partitioned(g: Graph, seen: set<Node>, visited: set<Node>, groups: seq<set<Node>>) {
    && AllWhole(g, groups) && Apart(groups)
    && (forall x :: x in visited <==> InSome(groups, x))
    && (forall x :: x in seen && x in g && g[x] != {} ==> x in visited)
  }

  lemma ComponentsDisjoint(g: Graph, x: Node, c: set<Node>, d: set<Node>)
    requires GraphOk(g) && IsComponent(g, x, c) && Whole(g, d) && x !in d
    ensures d !! c
  {
    var y :| y in g && y in d && g[y] != {} && IsComponent(g, y, d);
    ConnectedSelf(g, x);
    if z :| z in d && z in c {
      ComponentsOverlapOnlyWhole(g, y, d, x, c, z);
      assert false;
    }
  }

  lemma WholeAppended(g: Graph, groups: seq<set<Node>>, x: Node, c: set<Node>)
    requires GraphOk(g) && AllWhole(g, groups) && IsComponent(g, x, c) && g[x] != {}
    ensures AllWhole(g, groups + [c])
  {
    ConnectedSelf(g, x);
  }

  lemma ApartAppended(g: Graph, groups: seq<set<Node>>, x: Node, c: set<Node>)
    requires GraphOk(g) && AllWhole(g, groups) && Apart(groups) && IsComponent(g, x, c) && !InSome(groups, x)
    ensures Apart(groups + [c])
  {
    forall i | 0 <= i < |groups|
      ensures groups[i] !! c
    {
      ComponentsDisjoint(g, x, c, groups[i]);
    }
  }

  lemma AddGroup(g: Graph, seen: set<Node>, visited: set<Node>, groups: seq<set<Node>>, x: Node, c: set<Node>)
    requires GraphOk(g) && Partitioned(g, seen, visited, groups) && IsComponent(g, x, c) && x !in visited && g[x] != {}
    ensures Partitioned(g, seen + {x}, visited + c, groups + [c])
  {
    ConnectedSelf(g, x);
    assert !InSome(groups, x);
    WholeAppended(g, groups, x, c);
    ApartAppended(g, groups, x, c);
    forall z
      ensures InSome(groups + [c], z) <==> InSome(groups, z) || z in c
    {
      InSomeAppended(groups, c, z);
    }
  }

  lemma InSomeAppended(groups: seq<set<Node>>, c: set<Node>, z: Node)
    ensures InSome(groups + [c], z) <==> InSome(groups, z) || z in c
  {
    if z in c { assert z in (groups + [c])[|groups|]; }
    if i :| 0 <= i < |groups| && z in groups[i] {
      assert z in (groups + [c])[i];
    }
  }

  lemma SkipNode(g: Graph, seen: set<Node>, visited: set<Node>, groups: seq<set<Node>>, x: Node)
    requires Partitioned(g, seen, visited, groups) && x in g && (x in visited || g[x] == {})
    ensures Partitioned(g, seen + {x}, visited, groups)
  {
  }

  // Every group is one whole component, groups are disjoint, and a collection is in one of them
  // exactly when something is linked to it.
  ghost predicate GroupsAreComponents(g: Graph, groups: seq<set<Node>>) {
    && AllWhole(g, groups) && Apart(groups)
    && (forall x :: x in g ==> (g[x] != {} <==> InSome(groups, x)))
  }

  lemma GroupedIsLinked(g: Graph, groups: seq<set<Node>>, x: Node)
    requires GraphOk(g) && InSome(groups, x) && forall i :: 0 <= i < |groups| ==> Whole(g, groups[i])
    ensures x in g && g[x] != {}
  {
    var i :| 0 <= i < |groups| && x in groups[i];
    GroupsAreLinked(g, groups[i], x);
  }

  lemma AllSeen(g: Graph, seen: set<Node>, visited: set<Node>, groups: seq<set<Node>>)
    requires GraphOk(g) && Partitioned(g, seen, visited, groups) && forall x :: x in g ==> x in seen
    ensures GroupsAreComponents(g, groups)
  {
    forall x | x in g
      ensures g[x] != {} <==> InSome(groups, x)
    {
      if InSome(groups, x) {
        GroupedIsLinked(g, groups, x);
      }
    }
  }

  // One turn of the outer loop: isolated collections are skipped, visited ones are in an earlier group.
  method Turn(g: Graph, ghost seen: set<Node>, visited: set<Node>, groups: seq<set<Node>>, x: Node)
    returns (visited': set<Node>, groups': seq<set<Node>>)
    requires GraphOk(g) && x in g && Partitioned(g, seen, visited, groups)
    ensures Partitioned(g, seen + {x}, visited', groups')
  {
    visited', groups' := visited, groups;
    if x !in visited && g[x] != {} {
      var c := Component(g, x);
      AddGroup(g, seen, visited, groups, x, c);
      visited', groups' := visited + c, groups + [c];
    } else {
      SkipNode(g, seen, visited, groups, x);
    }
  }

  method Groups(g: Graph, active: seq<Node>) returns (groups: seq<set<Node>>)
    requires GraphOk(g) && (forall i :: 0 <= i < |active| ==> active[i] in g) && forall x :: x in g ==> x in active
    ensures GroupsAreComponents(g, groups)
  {
    groups := [];
    var visited: set<Node> := {};
    ghost var seen: set<Node> := {};
    for k := 0 to |active|
      invariant Partitioned(g, seen, visited, groups) && forall i :: 0 <= i < k ==> active[i] in seen
    {
      visited, groups := Turn(g, seen, visited, groups, active[k]);
      seen := seen + {active[k]};
    }
    AllSeen(g, seen, visited, groups);
  }

  // A component with an edge has no isolated member.
  lemma GroupsAreLinked(g: Graph, c: set<Node>, x: Node)
    requires GraphOk(g) && Whole(g, c) && x in c
    ensures x in g && g[x] != {}
  {
    var y :| y in g && y in c && g[y] != {} && IsComponent(g, y, c);
    var path :| Walk(g, path) && path[0] == y && path[|path| - 1] == x;
    if |path| > 1 {
      assert x in g[path[|path| - 2]];
    }
  }
}
