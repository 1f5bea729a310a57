/**
 The grouping graph: collections linked by ancestry, by related names under one parent, or as
 structural siblings; and the groups the search reports or suppresses.
*/
module GroupingGraph {
  import opened Basics
  import opened GroupingComponents
  import opened GroupingSearch

  function Parent(path: seq<string>): seq<string> {
    if path == [] then [] else path[..|path| - 1]
  }

  // ------------------------------------------------------------------------------ ancestry

  // a is a stored proper ancestor directory of c, and c is structural or related to it by name.
  ghost predicate AncestorLink(active: seq<Named>, a: Node, c: Node) {
    && a < |active| && c < |active| && active[a].path != []
    && |active[a].path| < |active[c].path| && active[a].path == active[c].path[..|active[a].path|]
    && (active[c].structural || Related(active[a].base, active[c].base))
  }

  ghost predicate DistinctPaths(active: seq<Named>) {
    forall i, j :: 0 <= i < j < |active| ==> active[i].path != active[j].path
  }

  // by_path
  ghost predicate PathIndex(active: seq<Named>, byPath: map<seq<string>, Node>) {
    && (forall p :: p in byPath ==> byPath[p] < |active| && active[byPath[p]].path == p)
    && (forall i :: 0 <= i < |active| ==> active[i].path in byPath)
  }

  method IndexPaths(active: seq<Named>) returns (byPath: map<seq<string>, Node>)
    requires DistinctPaths(active)
    ensures PathIndex(active, byPath)
  {
    byPath := map[];
    for i := 0 to |active|
      invariant forall p :: p in byPath ==> byPath[p] < |active| && active[byPath[p]].path == p
      invariant forall k :: 0 <= k < i ==> active[k].path in byPath
    {
      byPath := byPath[active[i].path := i];
    }
  }

  lemma IndexedIsUnique(active: seq<Named>, byPath: map<seq<string>, Node>, a: Node)
    requires DistinctPaths(active) && PathIndex(active, byPath) && a < |active|
    ensures byPath[active[a].path] == a
  {
    var b := byPath[active[a].path];
    assert active[b].path == active[a].path;
  }

  // Walk up the directories of one collection.
  method AncestorsOf(active: seq<Named>, byPath: map<seq<string>, Node>, c: Node) returns (pairs: Pairs)
    requires DistinctPaths(active) && PathIndex(active, byPath) && c < |active|
    ensures forall x: Node, y: Node :: (x, y) in pairs <==> y == c && AncestorLink(active, x, c)
  {
    pairs := {};
    var path := active[c].path;
    var k := |path| - 1;
    while k > 0
      invariant k < |path| || k == -1
      invariant forall x: Node, y: Node :: (x, y) in pairs <==> y == c && AncestorLink(active, x, c) && |active[x].path| > k
      decreases k
    {
      var up := path[..k];
      if up in byPath && (active[c].structural || Related(active[byPath[up]].base, active[c].base)) {
        pairs := pairs + {(byPath[up], c)};
      }
      forall x: Node | AncestorLink(active, x, c) && |active[x].path| == k
        ensures up in byPath && byPath[up] == x
      {
        IndexedIsUnique(active, byPath, x);
      }
      k := k - 1;
    }
  }

  method AncestorPairs(active: seq<Named>) returns (pairs: Pairs)
    requires DistinctPaths(active)
    ensures forall x: Node, y: Node :: (x, y) in pairs <==> AncestorLink(active, x, y)
  {
    var byPath := IndexPaths(active);
    pairs := {};
    for c := 0 to |active|
      invariant forall x: Node, y: Node :: (x, y) in pairs <==> y < c && AncestorLink(active, x, y)
    {
      var more := AncestorsOf(active, byPath, c);
      pairs := pairs + more;
    }
  }

  // ------------------------------------------------------------------------------- siblings

  // by_parent, in list order
  function Children(active: seq<Named>, parent: seq<string>, n: nat): (members: seq<Node>)
    requires n <= |active|
  {
    if n == 0 then []
    else
      var rest := Children(active, parent, n - 1);
      if Parent(active[n - 1].path) == parent then rest + [n - 1] else rest
  }

  lemma {:induction false} ChildrenIff(active: seq<Named>, parent: seq<string>, n: nat)
    requires n <= |active|
    ensures forall x: Node :: x in Children(active, parent, n) <==> x < n && Parent(active[x].path) == parent
    ensures Distinct(Children(active, parent, n)) && Indices(active, Children(active, parent, n))
  {
    if n > 0 {
      ChildrenIff(active, parent, n - 1);
      assert n - 1 !in Children(active, parent, n - 1);
    }
  }

  method ByParent(active: seq<Named>) returns (groups: map<seq<string>, seq<Node>>)
    ensures forall p :: p in groups ==> groups[p] == Children(active, p, |active|)
    ensures forall p :: p in groups <==> Children(active, p, |active|) != []
  {
    groups := map[];
    for i := 0 to |active|
      invariant forall p :: p in groups ==> groups[p] == Children(active, p, i)
      invariant forall p :: p in groups <==> Children(active, p, i) != []
    {
      var p := Parent(active[i].path);
      groups := groups[p := (if p in groups then groups[p] else []) + [i]];
    }
  }

  ghost predicate HasRelated(active: seq<Named>, members: seq<Node>, x: Node) {
    exists y: Node :: SameName(active, members, x, y)
  }

  ghost predicate AnyRelated(active: seq<Named>, members: seq<Node>) {
    exists x: Node :: HasRelated(active, members, x)
  }

  // What structural siblings attach to: the related ones, or each other if there are none.
  ghost predicate Anchor(active: seq<Named>, members: seq<Node>, x: Node) {
    && x in members && x < |active|
    && if AnyRelated(active, members) then HasRelated(active, members, x) else active[x].structural
  }

  ghost predicate StructuralLink(active: seq<Named>, members: seq<Node>, x: Node, y: Node) {
    x in members && x < |active| && active[x].structural && Anchor(active, members, y) && x != y
  }

  ghost predicate SiblingLink(active: seq<Named>, members: seq<Node>, x: Node, y: Node) {
    SameName(active, members, x, y) || StructuralLink(active, members, x, y) || StructuralLink(active, members, y, x)
  }

  // Members whose id is among the given ones, as a set.
  method Anchors(active: seq<Named>, members: seq<Node>, names: Pairs) returns (anchors: set<Node>)
    requires Indices(active, members)
    requires forall x: Node, y: Node :: (x, y) in names || (y, x) in names <==> SameName(active, members, x, y)
    ensures forall x: Node :: x in anchors <==> Anchor(active, members, x)
  {
    var related := (set p | p in names :: p.0) + (set p | p in names :: p.1);
    assert forall x: Node :: x in related <==> HasRelated(active, members, x) by {
      forall x: Node
        ensures x in related <==> HasRelated(active, members, x)
      {
        RelatedIff(active, members, names, related, x);
      }
    }
    if related != {} {
      var x :| x in related;
      assert HasRelated(active, members, x);
      anchors := related;
    } else {
      anchors := set x | x in members && active[x].structural;
    }
  }

  lemma RelatedIff(active: seq<Named>, members: seq<Node>, names: Pairs, related: set<Node>, x: Node)
    requires forall x: Node, y: Node :: (x, y) in names || (y, x) in names <==> SameName(active, members, x, y)
    requires related == (set p | p in names :: p.0) + (set p | p in names :: p.1)
    ensures x in related <==> HasRelated(active, members, x)
  {
    if p :| p in names && p.0 == x {
      assert (x, p.1) in names;
    }
    if p :| p in names && p.1 == x {
      assert (p.0, x) in names;
    }
    if y: Node :| SameName(active, members, x, y) {
      assert (x, y) in names || (y, x) in names;
    }
  }

  method SiblingPairs(active: seq<Named>, members: seq<Node>) returns (pairs: Pairs)
    requires Indices(active, members) && Distinct(members) && Normal(active)
    ensures forall x: Node, y: Node :: (x, y) in pairs || (y, x) in pairs <==> SiblingLink(active, members, x, y)
  {
    var names := RelatedPairs(active, members);
    var anchors := Anchors(active, members, names);
    var structural := set x | x in members && active[x].structural;
    var attached := set x, y | x in structural && y in anchors && x != y :: (x, y);
    pairs := names + attached;
    assert forall x: Node, y: Node :: (x, y) in attached <==> StructuralLink(active, members, x, y);
  }

  // ----------------------------------------------------------------------------- the graph

  ghost predicate LinkedUnder(active: seq<Named>, generic: string -> bool, p: seq<string>, x: Node, y: Node) {
    p != [] && !generic(p[|p| - 1]) && SiblingLink(active, Children(active, p, |active|), x, y)
  }

  // Why two collections belong together.
  ghost predicate Linked(active: seq<Named>, generic: string -> bool, x: Node, y: Node) {
    || AncestorLink(active, x, y) || AncestorLink(active, y, x)
    || (x < |active| && LinkedUnder(active, generic, Parent(active[x].path), x, y))
  }

  lemma LinkedUnderParent(active: seq<Named>, generic: string -> bool, p: seq<string>, x: Node, y: Node)
    requires LinkedUnder(active, generic, p, x, y)
    ensures x < |active| && y < |active| && Parent(active[x].path) == p && Parent(active[y].path) == p && x != y
  {
    ChildrenIff(active, p, |active|);
  }

  ghost predicate LinkedAmong(active: seq<Named>, generic: string -> bool, parents: set<seq<string>>, x: Node, y: Node) {
    exists p :: p in parents && LinkedUnder(active, generic, p, x, y)
  }

  method AllSiblingPairs(active: seq<Named>, generic: string -> bool) returns (pairs: Pairs, ghost parents: set<seq<string>>)
    requires Normal(active)
    ensures forall x: Node, y: Node :: (x, y) in pairs || (y, x) in pairs <==> LinkedAmong(active, generic, parents, x, y)
    ensures forall p :: p in parents <==> Children(active, p, |active|) != []
  {
    var groups := ByParent(active);
    pairs := {};
    var todo, done := groups.Keys, {};
    while todo != {}
      invariant todo + done == groups.Keys
      invariant forall x: Node, y: Node :: (x, y) in pairs || (y, x) in pairs <==> LinkedAmong(active, generic, done, x, y)
      decreases |todo|
    {
      var p :| p in todo;
      ChildrenIff(active, p, |active|);
      var more: Pairs := {};
      if p != [] && !generic(p[|p| - 1]) {
        more := SiblingPairs(active, groups[p]);
      }
      forall x: Node, y: Node
        ensures LinkedAmong(active, generic, done + {p}, x, y) <==>
          LinkedAmong(active, generic, done, x, y) || LinkedUnder(active, generic, p, x, y)
      {
        LinkedAmongAdded(active, generic, done, p, x, y);
      }
      pairs, todo, done := pairs + more, todo - {p}, done + {p};
    }
    assert done == groups.Keys;
    parents := done;
  }

  lemma LinkedAmongAdded(
    active: seq<Named>, generic: string -> bool, parents: set<seq<string>>, p: seq<string>, x: Node, y: Node)
    ensures LinkedAmong(active, generic, parents + {p}, x, y) <==>
      LinkedAmong(active, generic, parents, x, y) || LinkedUnder(active, generic, p, x, y)
  {
    if LinkedUnder(active, generic, p, x, y) {
      assert p in parents + {p};
    }
    if q :| q in parents && LinkedUnder(active, generic, q, x, y) {
      assert q in parents + {p};
    }
  }

  lemma LinkedIff(active: seq<Named>, generic: string -> bool, parents: set<seq<string>>, x: Node, y: Node)
    requires forall p :: p in parents <==> Children(active, p, |active|) != []
    ensures LinkedAmong(active, generic, parents, x, y) <==>
      x < |active| && LinkedUnder(active, generic, Parent(active[x].path), x, y)
  {
    if p :| p in parents && LinkedUnder(active, generic, p, x, y) {
      LinkedUnderParent(active, generic, p, x, y);
    }
    if x < |active| && LinkedUnder(active, generic, Parent(active[x].path), x, y) {
      ChildrenIff(active, Parent(active[x].path), |active|);
      assert x in Children(active, Parent(active[x].path), |active|);
    }
  }

  function Nodes(n: nat): (nodes: set<Node>)
    ensures forall x: Node :: x in nodes <==> x < n
  {
    if n == 0 then {} else Nodes(n - 1) + {n - 1}
  }

  // connect: both sides of every pair.
  function Neighbours(nodes: set<Node>, pairs: Pairs, x: Node): set<Node> {
    set y | y in nodes && ((x, y) in pairs || (y, x) in pairs)
  }

  function Adjacency(n: nat, pairs: Pairs): Graph {
    map x | x in Nodes(n) :: Neighbours(Nodes(n), pairs, x)
  }

  ghost predicate LinkGraph(active: seq<Named>, generic: string -> bool, g: Graph) {
    && g.Keys == Nodes(|active|)
    && forall x: Node, y: Node :: x in g ==> (y in g[x] <==> Linked(active, generic, x, y))
  }

  method BuildGraph(active: seq<Named>, generic: string -> bool) returns (g: Graph)
    requires DistinctPaths(active) && Normal(active)
    ensures GraphOk(g) && LinkGraph(active, generic, g)
  {
    var up := AncestorPairs(active);
    var across, parents := AllSiblingPairs(active, generic);
    g := Adjacency(|active|, up + across);
    forall x: Node, y: Node | x in g
      ensures y in g[x] <==> Linked(active, generic, x, y)
    {
      LinkedIff(active, generic, parents, x, y);
      if LinkedUnder(active, generic, Parent(active[x].path), x, y) {
        LinkedUnderParent(active, generic, Parent(active[x].path), x, y);
      }
    }
  }

  // ------------------------------------------------------------------------ links by their fields

  // Different collections in one directory.
  ghost predicate Beside(active: seq<Named>, x: Node, y: Node) {
    && x < |active| && y < |active| && x != y && active[x].path != [] && active[y].path != []
    && active[x].path[..|active[x].path| - 1] == active[y].path[..|active[y].path| - 1]
  }

  ghost predicate Kin(active: seq<Named>, x: Node, y: Node) {
    Beside(active, x, y) && WordsBegin(active[x].base, active[y].base)
  }

  // What a bare season folder beside y attaches to: the named kin, if the directory has any.
  ghost predicate Attracts(active: seq<Named>, y: Node)
    requires y < |active|
  {
    if KinAround(active, y) then exists v: Node :: Kin(active, y, v)
    else active[y].structural
  }

  lemma SameNameIsKin(active: seq<Named>, p: seq<string>, x: Node, y: Node)
    requires p != [] && x < |active| && active[x].path != [] && active[x].path[..|active[x].path| - 1] == p
    ensures SameName(active, Children(active, p, |active|), x, y) <==> Kin(active, x, y)
  {
    ChildrenIff(active, p, |active|);
    if y < |active| {
      RelatedByWords(active[x].base, active[y].base);
    }
  }

  lemma SameNameIsBelow(active: seq<Named>, p: seq<string>, x: Node, y: Node)
    requires p != [] && SameName(active, Children(active, p, |active|), x, y)
    ensures x < |active| && active[x].path != [] && active[x].path[..|active[x].path| - 1] == p && Kin(active, x, y)
  {
    ChildrenIff(active, p, |active|);
    SameNameIsKin(active, p, x, y);
  }

  ghost predicate KinAround(active: seq<Named>, y: Node) {
    exists u: Node, v: Node :: Kin(active, u, v) && (u == y || Beside(active, u, y))
  }

  lemma KinAroundIff(active: seq<Named>, p: seq<string>, y: Node)
    requires p != [] && y < |active| && active[y].path != [] && active[y].path[..|active[y].path| - 1] == p
    ensures AnyRelated(active, Children(active, p, |active|)) <==> KinAround(active, y)
  {
    var members := Children(active, p, |active|);
    if AnyRelated(active, members) {
      var x: Node :| HasRelated(active, members, x);
      var z: Node :| SameName(active, members, x, z);
      SameNameIsBelow(active, p, x, z);
      assert Kin(active, x, z) && (x == y || Beside(active, x, y));
    }
    if KinAround(active, y) {
      var u: Node, v: Node :| Kin(active, u, v) && (u == y || Beside(active, u, y));
      SameNameIsKin(active, p, u, v);
      assert HasRelated(active, members, u);
    }
  }

  lemma AnchorAttracts(active: seq<Named>, p: seq<string>, y: Node)
    requires p != [] && y < |active| && active[y].path != [] && active[y].path[..|active[y].path| - 1] == p
    ensures Anchor(active, Children(active, p, |active|), y) <==> Attracts(active, y)
  {
    var members := Children(active, p, |active|);
    ChildrenIff(active, p, |active|);
    assert y in members;
    KinAroundIff(active, p, y);
    forall v: Node
      ensures SameName(active, members, y, v) <==> Kin(active, y, v)
    {
      SameNameIsKin(active, p, y, v);
    }
    assert HasRelated(active, members, y) <==> exists v: Node :: Kin(active, y, v);
  }

  lemma BesideIsNotBelow(active: seq<Named>, x: Node, y: Node)
    requires Beside(active, x, y)
    ensures !AncestorLink(active, x, y) && Parent(active[x].path) == Parent(active[y].path)
  {
    assert |active[x].path[..|active[x].path| - 1]| == |active[y].path[..|active[y].path| - 1]|;
  }

  /** Collections in one directory that is neither the library's root nor a generic folder are linked
      exactly when their names are kin, or when one is a bare season folder and the other attracts it. */
  lemma BesideLinkedIff(active: seq<Named>, generic: string -> bool, x: Node, y: Node)
    requires Beside(active, x, y)
    ensures var p := active[x].path[..|active[x].path| - 1];
      Linked(active, generic, x, y) <==>
      && p != [] && !generic(p[|p| - 1])
      && (Kin(active, x, y) || (active[x].structural && Attracts(active, y)) || (active[y].structural && Attracts(active, x)))
  {
    var p := active[x].path[..|active[x].path| - 1];
    BesideIsNotBelow(active, x, y);
    BesideIsNotBelow(active, y, x);
    if p != [] {
      BesideSiblingIff(active, p, x, y);
    }
  }

  lemma BesideSiblingIff(active: seq<Named>, p: seq<string>, x: Node, y: Node)
    requires Beside(active, x, y) && p != [] && p == active[x].path[..|active[x].path| - 1]
    ensures SiblingLink(active, Children(active, p, |active|), x, y) <==>
      Kin(active, x, y) || (active[x].structural && Attracts(active, y)) || (active[y].structural && Attracts(active, x))
  {
    ChildrenIff(active, p, |active|);
    SameNameIsKin(active, p, x, y);
    AnchorAttracts(active, p, x);
    AnchorAttracts(active, p, y);
  }

  /** Collections in different directories are linked exactly when one lies anywhere below the other
      and is a bare season folder or has a kindred name. */
  lemma ApartLinkedIff(active: seq<Named>, generic: string -> bool, x: Node, y: Node)
    requires x < |active| && y < |active| && !Beside(active, x, y)
    ensures Linked(active, generic, x, y) <==> Below(active, x, y) || Below(active, y, x)
  {
    RelatedByWords(active[x].base, active[y].base);
    RelatedByWords(active[y].base, active[x].base);
    if LinkedUnder(active, generic, Parent(active[x].path), x, y) {
      LinkedUnderParent(active, generic, Parent(active[x].path), x, y);
    }
  }

  // y lies below x and belongs to it.
  ghost predicate Below(active: seq<Named>, x: Node, y: Node)
    requires x < |active| && y < |active|
  {
    && active[x].path != [] && active[x].path < active[y].path
    && (active[y].structural || WordsBegin(active[x].base, active[y].base))
  }

  // The groups an unchanged earlier decision covers are left out of the report.
  method Report(groups: seq<set<Node>>, decided: set<Node> -> bool) returns (reported: seq<set<Node>>)
    ensures forall c :: c in reported <==> c in groups && !decided(c)
  {
    reported := [];
    for k := 0 to |groups|
      invariant forall c :: c in reported <==> c in groups[..k] && !decided(c)
    {
      assert groups[..k + 1] == groups[..k] + [groups[k]];
      if !decided(groups[k]) {
        reported := reported + [groups[k]];
      }
    }
    assert groups[..|groups|] == groups;
  }

  method ListNodes(n: nat) returns (order: seq<Node>)
    ensures |order| == n && forall i :: 0 <= i < n ==> order[i] == i
    ensures forall x: Node :: x < n ==> x in order
  {
    order := seq(n, i => i);
    forall x: Node | x < n
      ensures x in order
    {
      assert order[x] == x;
    }
  }

  // collection_grouping_suggestions up to the wording: the groups are exactly the components of the
  // links, and exactly those without an unchanged earlier decision are reported.
  method Suggestions(active: seq<Named>, generic: string -> bool, decided: set<Node> -> bool)
    returns (reported: seq<set<Node>>, ghost g: Graph, ghost groups: seq<set<Node>>)
    requires DistinctPaths(active) && Normal(active)
    ensures LinkGraph(active, generic, g) && GraphOk(g) && GroupsAreComponents(g, groups)
    ensures forall c :: c in reported <==> c in groups && !decided(c)
  {
    var graph := BuildGraph(active, generic);
    var order := ListNodes(|active|);
    var found := Groups(graph, order);
    reported := Report(found, decided);
    g, groups := graph, found;
  }
}
