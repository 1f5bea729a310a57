/**
 Path inference: the collection and title a video's directories point at.  The reading of a single
 directory name is a parser handed in; what is modelled is how the names along a path combine.
*/
module PathInference {
  import opened Basics

  type Directories = seq<string>

  datatype Part = Part(kind: string, season: Option<nat>, part: Option<nat>, tag: Option<string>)

  // What the name patterns say: generic roots, explicit parts, a roman base and number, a child
  // that repeats its parent's name, and directories that are only technical.
  datatype Names = Names(
    generic: string -> bool, explicit: string -> Option<Part>, roman: string -> Option<(string, nat)>,
    related: (string, string) -> bool, technical: string -> bool, seasonLabel: nat -> string)

  datatype Identity = Identity(
    collectionName: string, collectionRoot: Directories, titleName: string, titleRoot: Directories,
    kind: string, season: Option<nat>, part: Option<nat>, tag: Option<string>, sortOrder: nat)

  // The first directory that is no generic root.
  function Offset(names: Names, dirs: Directories): (k: nat)
    ensures k <= |dirs|
    ensures k < |dirs| ==> !names.generic(dirs[k])
    ensures forall i :: 0 <= i < k ==> names.generic(dirs[i])
  {
    if dirs == [] || !names.generic(dirs[0]) then 0 else 1 + Offset(names, dirs[1..])
  }

  // ------------------------------------------------------------------------ roman siblings

  // name is a meaningful child of parent on some path.
  ghost predicate Child(names: Names, paths: set<Directories>, parent: Directories, name: string) {
    exists dirs :: dirs in paths && ChildOn(names, dirs, parent, name)
  }

  ghost predicate ChildOn(names: Names, dirs: Directories, parent: Directories, name: string) {
    Offset(names, dirs) <= |parent| < |dirs| && dirs[..|parent|] == parent && dirs[|parent|] == name
  }

  ghost predicate RomanChild(names: Names, paths: set<Directories>, parent: Directories, name: string) {
    Child(names, paths, parent, name) && names.roman(name).Some? && names.roman(name).value.1 > 0
  }

  // A roman sibling: another child of the same parent has the same base and another number.
  ghost predicate RomanPart(names: Names, paths: set<Directories>, parent: Directories, name: string) {
    && RomanChild(names, paths, parent, name)
    && exists other :: RomanChild(names, paths, parent, other) && Sibling(names, name, other)
  }

  ghost predicate Sibling(names: Names, name: string, other: string) {
    && names.roman(name).Some? && names.roman(other).Some?
    && names.roman(name).value.0 == names.roman(other).value.0 && names.roman(name).value.1 != names.roman(other).value.1
  }

  // Adding paths only enlarges the set of roman-numeral parts.
  lemma MorePathsMoreRomanParts(names: Names, paths: set<Directories>, more: set<Directories>, parent: Directories, name: string)
    requires paths <= more && RomanPart(names, paths, parent, name)
    ensures RomanPart(names, more, parent, name)
  {
    var other :| RomanChild(names, paths, parent, other) && Sibling(names, name, other);
    ChildStays(names, paths, more, parent, name);
    ChildStays(names, paths, more, parent, other);
  }

  lemma ChildStays(names: Names, paths: set<Directories>, more: set<Directories>, parent: Directories, name: string)
    requires paths <= more && Child(names, paths, parent, name)
    ensures Child(names, more, parent, name)
  {
    var dirs :| dirs in paths && ChildOn(names, dirs, parent, name);
    assert dirs in more;
  }

  type RomanParts = set<(Directories, string)>

  ghost predicate FoundRomans(names: Names, paths: set<Directories>, found: RomanParts) {
    forall parent, name :: (parent, name) in found <==> RomanPart(names, paths, parent, name)
  }

  // --------------------------------------------------------------------- the scan of one path

  datatype Found = Found(part: Option<nat>, title: Option<nat>, data: Option<Part>, scope: Option<nat>)

  // An explicit part without a season of its own takes the season in scope.
  function Scoped(names: Names, p: Part, scope: Option<nat>): Part {
    if p.kind != "season" && p.season.None? && scope.Some?
    then p.(season := scope, tag := Some(names.seasonLabel(scope.value))) else p
  }

  function First(found: Option<nat>, index: nat): Option<nat> {
    if found.Some? then found else Some(index)
  }

  // One directory of the scan.
  function Scan(names: Names, romans: RomanParts, dirs: Directories, offset: nat, index: nat, f: Found): Found
    requires 1 <= index < |dirs|
  {
    var name := dirs[index];
    if names.explicit(name).Some? then
      var p := names.explicit(name).value;
      Found(First(f.part, index), Some(index), Some(Scoped(names, p, f.scope)), if p.kind == "season" then p.season else f.scope)
    else if (dirs[..index], name) in romans then
      var number := if names.roman(name).Some? then Some(names.roman(name).value.1) else None;
      Found(
        First(f.part, index), Some(index),
        Some(Part("season", number, None, if number.Some? then Some(names.seasonLabel(number.value)) else None)), number)
    else if f.part.None? && index == offset + 1 && names.related(dirs[index - 1], name) then
      Found(Some(index), Some(index), Some(Part("title", None, None, None)), f.scope)
    else f
  }

  function ScanUpTo(names: Names, romans: RomanParts, dirs: Directories, offset: nat, n: nat): Found
    requires n <= |dirs|
    decreases n
  {
    if n <= offset + 1 then Found(None, None, None, None)
    else Scan(names, romans, dirs, offset, n - 1, ScanUpTo(names, romans, dirs, offset, n - 1))
  }

  // A directory the scan takes for a part on its own evidence.
  predicate Strong(names: Names, romans: RomanParts, dirs: Directories, index: nat)
    requires index < |dirs|
  {
    names.explicit(dirs[index]).Some? || (dirs[..index], dirs[index]) in romans
  }

  predicate Weak(names: Names, dirs: Directories, offset: nat, index: nat)
    requires index < |dirs|
  {
    index == offset + 1 && names.related(dirs[index - 1], dirs[index])
  }

  // Main result on the scan: the part is the first recognised directory and the title the last one
  // recognised on its own evidence, or the part itself.
  lemma {:induction false} ScanFinds(names: Names, romans: RomanParts, dirs: Directories, offset: nat, n: nat)
    requires n <= |dirs|
    ensures var f := ScanUpTo(names, romans, dirs, offset, n);
      && (f.part.Some? <==> f.title.Some?) && (f.part.Some? <==> f.data.Some?)
      && (f.part.None? <==> forall i :: offset < i < n ==> !Strong(names, romans, dirs, i) && !Weak(names, dirs, offset, i))
      && (f.part.Some? ==>
            && offset < f.part.value <= f.title.value < n
            && (Strong(names, romans, dirs, f.part.value) || Weak(names, dirs, offset, f.part.value))
            && (forall i :: offset < i < f.part.value ==> !Strong(names, romans, dirs, i) && !Weak(names, dirs, offset, i))
            && (Strong(names, romans, dirs, f.title.value) || f.title == f.part)
            && (forall i :: f.title.value < i < n ==> !Strong(names, romans, dirs, i)))
  {
    if n > offset + 1 {
      ScanFinds(names, romans, dirs, offset, n - 1);
      var seen := Strong(names, romans, dirs, n - 1) || Weak(names, dirs, offset, n - 1);
      if ScanUpTo(names, romans, dirs, offset, n - 1).part.None? {
        assert ScanUpTo(names, romans, dirs, offset, n).part.Some? <==> seen;
      }
    }
  }

  // -------------------------------------------------------------------------- without a part

  // The deepest directory that is not technical, going up from the first technical one.
  function Above(names: Names, dirs: Directories, n: nat): (k: nat)
    requires n <= |dirs|
    ensures k <= n
  {
    if n == 0 then 0 else if names.technical(dirs[n - 1]) then Above(names, dirs, n - 1) else n
  }

  function FirstTechnical(names: Names, dirs: Directories, from: nat): (k: nat)
    requires from <= |dirs|
    ensures from <= k <= |dirs|
    decreases |dirs| - from
  {
    if from == |dirs| || names.technical(dirs[from]) then from else FirstTechnical(names, dirs, from + 1)
  }

  const LIBRARY := "Knihovna"

  // determine_parent_series: how many leading directories make the series root.
  function SeriesDepth(names: Names, dirs: Directories): (k: nat)
    ensures k <= |dirs|
  {
    var offset := Offset(names, dirs);
    if offset == |dirs| then 0
    else
      var technical := FirstTechnical(names, dirs, offset);
      if technical < |dirs| then Above(names, dirs, technical) else |dirs|
  }

  function Series(names: Names, dirs: Directories): (string, Directories) {
    var k := SeriesDepth(names, dirs);
    if k == 0 then (LIBRARY, []) else (dirs[k - 1], dirs[..k])
  }

  // ------------------------------------------------------------------------------- identities

  predicate NamedChildKind(kind: string) {
    kind == "film" || kind == "ova" || kind == "special" || kind == "preview" || kind == "recap" || kind == "bonus"
  }

  // Python's `a or b or 0`
  function OrZero(part: Option<nat>, season: Option<nat>): nat {
    if part.Some? && part.value != 0 then part.value else if season.Some? then season.value else 0
  }

  function SortOrder(p: Part): nat {
    if p.season.Some? && p.part.Some? then p.season.value * 1000 + p.part.value else OrZero(p.part, p.season)
  }

  // The identity of any file in the given directories.
  function Identify(names: Names, film: string -> bool, romans: RomanParts, dirs: Directories): Identity {
    var offset := Offset(names, dirs);
    var f := ScanUpTo(names, romans, dirs, offset, |dirs|);
    ScanFinds(names, romans, dirs, offset, |dirs|);
    if f.part.None? then
      var (name, root) := Series(names, dirs);
      Identity(
        name, root, name, root, if film(name) then "film" else "title", None, None, if film(name) then Some("Film") else None, 0)
    else
      var part, title, data := f.part.value, f.title.value, f.data.value;
      var child := NamedChildKind(data.kind) && title == part && |dirs| > part + 1;
      var last := if child then part + 1 else title;
      Identity(
        dirs[part - 1], dirs[..part], if child then dirs[part] + " \U{2013} " + dirs[last] else dirs[last], dirs[..last + 1],
        data.kind, data.season, data.part, data.tag, SortOrder(data))
  }

  // Main result: the collection root is a prefix of the title root, which is a prefix of the
  // directory; the collection root is a strict prefix exactly when a part was found.
  lemma RootsAreNested(names: Names, film: string -> bool, romans: RomanParts, dirs: Directories)
    ensures var id := Identify(names, film, romans, dirs);
      && id.collectionRoot <= id.titleRoot <= dirs
      && (id.collectionRoot < id.titleRoot <==> ScanUpTo(names, romans, dirs, Offset(names, dirs), |dirs|).part.Some?)
  {
    var f := ScanUpTo(names, romans, dirs, Offset(names, dirs), |dirs|);
    ScanFinds(names, romans, dirs, Offset(names, dirs), |dirs|);
    if f.part.Some? {
      var part, title := f.part.value, f.title.value;
      var child := NamedChildKind(f.data.value.kind) && title == part && |dirs| > part + 1;
      var last := if child then part + 1 else title;
      assert dirs[..part] == dirs[..last + 1][..part];
    }
  }

  // With a part the collection is never a generic root and never the library itself.
  lemma PartHasCollection(names: Names, film: string -> bool, romans: RomanParts, dirs: Directories)
    requires ScanUpTo(names, romans, dirs, Offset(names, dirs), |dirs|).part.Some?
    ensures var id := Identify(names, film, romans, dirs);
      && |id.collectionRoot| > Offset(names, dirs)
      && id.collectionName == id.collectionRoot[|id.collectionRoot| - 1]
  {
    ScanFinds(names, romans, dirs, Offset(names, dirs), |dirs|);
    RootsAreNested(names, film, romans, dirs);
  }

  // ------------------------------------------------------------------------------- the loops

  type Children = set<(Directories, string)>

  ghost predicate ChildrenFound(names: Names, paths: set<Directories>, children: Children) {
    forall parent, name :: (parent, name) in children <==> Child(names, paths, parent, name)
  }

  // The parent and name of every meaningful directory of one path.
  method ChildrenOn(names: Names, dirs: Directories) returns (children: Children)
    ensures forall parent, name :: (parent, name) in children <==> ChildOn(names, dirs, parent, name)
  {
    children := {};
    var offset := Offset(names, dirs);
    for index := offset to |dirs|
      invariant forall parent, name :: (parent, name) in children <==> ChildOn(names, dirs, parent, name) && |parent| < index
    {
      children := children + {(dirs[..index], dirs[index])};
    }
  }

  method SiblingNames(names: Names, paths: set<Directories>) returns (children: Children)
    ensures ChildrenFound(names, paths, children)
  {
    children := {};
    var todo, done := paths, {};
    while todo != {}
      invariant todo + done == paths && ChildrenFound(names, done, children)
      decreases |todo|
    {
      var dirs :| dirs in todo;
      var more := ChildrenOn(names, dirs);
      forall parent, name
        ensures Child(names, done + {dirs}, parent, name) <==> Child(names, done, parent, name) || ChildOn(names, dirs, parent, name)
      {
        ChildAdded(names, done, dirs, parent, name);
      }
      children, todo, done := children + more, todo - {dirs}, done + {dirs};
    }
    assert done == paths;
  }

  lemma ChildAdded(names: Names, paths: set<Directories>, dirs: Directories, parent: Directories, name: string)
    ensures Child(names, paths + {dirs}, parent, name) <==> Child(names, paths, parent, name) || ChildOn(names, dirs, parent, name)
  {
    if ChildOn(names, dirs, parent, name) {
      assert dirs in paths + {dirs};
    }
    if Child(names, paths, parent, name) {
      ChildStays(names, paths, paths + {dirs}, parent, name);
    }
  }

  predicate Numbered(names: Names, name: string) {
    names.roman(name).Some? && names.roman(name).value.1 > 0
  }

  predicate Paired(names: Names, children: Children, c: (Directories, string)) {
    exists d :: d in children && d.0 == c.0 && Numbered(names, d.1) && Numbered(names, c.1)
      && names.roman(c.1).value.0 == names.roman(d.1).value.0 && names.roman(c.1).value.1 != names.roman(d.1).value.1
  }

  method RomanSiblings(names: Names, paths: set<Directories>) returns (found: RomanParts)
    ensures FoundRomans(names, paths, found)
  {
    var children := SiblingNames(names, paths);
    found := set c | c in children && Paired(names, children, c);
    forall parent, name
      ensures (parent, name) in found <==> RomanPart(names, paths, parent, name)
    {
      PairedIff(names, paths, children, parent, name);
    }
  }

  lemma PairedIff(names: Names, paths: set<Directories>, children: Children, parent: Directories, name: string)
    requires ChildrenFound(names, paths, children)
    ensures (parent, name) in children && Paired(names, children, (parent, name)) <==> RomanPart(names, paths, parent, name)
  {
    if (parent, name) in children && Paired(names, children, (parent, name)) {
      var d :| d in children && d.0 == parent && Numbered(names, d.1) && Numbered(names, name)
        && names.roman(name).value.0 == names.roman(d.1).value.0 && names.roman(name).value.1 != names.roman(d.1).value.1;
      assert (parent, d.1) in children;
      assert RomanChild(names, paths, parent, d.1) && Sibling(names, name, d.1);
    }
    if RomanPart(names, paths, parent, name) {
      var other :| RomanChild(names, paths, parent, other) && Sibling(names, name, other);
      assert (parent, other) in children;
    }
  }

  method ScanPath(names: Names, romans: RomanParts, dirs: Directories, offset: nat) returns (f: Found)
    requires offset < |dirs|
    ensures f == ScanUpTo(names, romans, dirs, offset, |dirs|)
  {
    f := Found(None, None, None, None);
    for index := offset + 1 to |dirs|
      invariant f == ScanUpTo(names, romans, dirs, offset, index)
    {
      f := Scan(names, romans, dirs, offset, index, f);
    }
  }

  method IdentifyPath(names: Names, film: string -> bool, romans: RomanParts, dirs: Directories) returns (id: Identity)
    ensures id == Identify(names, film, romans, dirs)
  {
    var offset := Offset(names, dirs);
    var f: Found := Found(None, None, None, None);
    if offset < |dirs| {
      f := ScanPath(names, romans, dirs, offset);
    }
    ScanFinds(names, romans, dirs, offset, |dirs|);
    if f.part.None? {
      var (name, root) := Series(names, dirs);
      id := Identity(
        name, root, name, root, if film(name) then "film" else "title", None, None, if film(name) then Some("Film") else None, 0);
    } else {
      var part, title, data := f.part.value, f.title.value, f.data.value;
      var partName := dirs[title];
      if NamedChildKind(data.kind) && title == part && |dirs| > part + 1 {
        title := part + 1;
        partName := dirs[part] + " \U{2013} " + dirs[title];
      }
      id := Identity(
        dirs[part - 1], dirs[..part], partName, dirs[..title + 1], data.kind, data.season, data.part, data.tag, SortOrder(data));
    }
  }

  // The path parts of a file; all but the last are its directories.
  type Path = seq<string>

  function DirectoriesOf(path: Path): Directories {
    if path == [] then [] else path[..|path| - 1]
  }

  function AllDirectories(files: set<Path>): set<Directories> {
    set p | p in files :: DirectoriesOf(p)
  }

  // derive_library_hierarchy.  The roman parts are those of all paths together, each file has its
  // directory's identity whatever its own name, and each identity's roots are nested in its directory.
  method Derive(names: Names, film: string -> bool, files: set<Path>) returns (result: map<Path, Identity>, romans: RomanParts)
    ensures FoundRomans(names, AllDirectories(files), romans)
    ensures result.Keys == files
    ensures forall p :: p in files ==> result[p] == Identify(names, film, romans, DirectoriesOf(p))
    ensures forall p, q :: p in files && q in files && DirectoriesOf(p) == DirectoriesOf(q) ==> result[p] == result[q]
    ensures forall p :: p in files ==> result[p].collectionRoot <= result[p].titleRoot <= DirectoriesOf(p)
  {
    romans := RomanSiblings(names, AllDirectories(files));
    result := map[];
    var todo := files;
    while todo != {}
      invariant todo <= files && result.Keys == files - todo
      invariant forall p :: p in result ==> result[p] == Identify(names, film, romans, DirectoriesOf(p))
      decreases |todo|
    {
      var p :| p in todo;
      var id := IdentifyPath(names, film, romans, DirectoriesOf(p));
      result, todo := result[p := id], todo - {p};
    }
    forall p | p in files
      ensures result[p].collectionRoot <= result[p].titleRoot <= DirectoriesOf(p)
    {
      RootsAreNested(names, film, romans, DirectoriesOf(p));
    }
  }
}
