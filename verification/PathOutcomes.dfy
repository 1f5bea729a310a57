/**
 What a path says, told from its directories: which directory names the collection and which the
 title, the season and kind a title gets, and what remains when no directory names a part.
*/
module PathOutcomes {
  import opened Basics
  import opened PathInference

  // An explicit part, or a numbered sibling, below the first meaningful directory.
  ghost predicate Named(names: Names, romans: RomanParts, dirs: Directories, i: nat) {
    i < |dirs| && (names.explicit(dirs[i]).Some? || (dirs[..i], dirs[i]) in romans)
  }

  // ... or the directory right below it that repeats its name.
  ghost predicate Recognised(names: Names, romans: RomanParts, dirs: Directories, offset: nat, i: nat) {
    && offset < i < |dirs|
    && (Named(names, romans, dirs, i) || (i == offset + 1 && names.related(dirs[i - 1], dirs[i])))
  }

  // A directory that says which season everything below it belongs to, and that season.
  ghost predicate SeasonDirectory(names: Names, romans: RomanParts, dirs: Directories, i: nat) {
    && i < |dirs|
    && match names.explicit(dirs[i])
       case Some(p) => p.kind == "season"
       case None => (dirs[..i], dirs[i]) in romans
  }

  ghost predicate NearestSeason(names: Names, romans: RomanParts, dirs: Directories, i: nat, n: nat) {
    SeasonDirectory(names, romans, dirs, i) && forall j: nat :: i < j < n ==> !SeasonDirectory(names, romans, dirs, j)
  }

  function SeasonOf(names: Names, name: string): Option<nat> {
    match names.explicit(name)
    case Some(p) => p.season
    case None => if names.roman(name).Some? then Some(names.roman(name).value.1) else None
  }

  /** The season in scope is that of the nearest season directory above, and none if there is none. */
  lemma {:induction false} ScopeIsNearest(names: Names, romans: RomanParts, dirs: Directories, offset: nat, n: nat)
    requires n <= |dirs|
    ensures var scope := ScanUpTo(names, romans, dirs, offset, n).scope;
      && (forall i: nat :: offset < i < n && NearestSeason(names, romans, dirs, i, n) ==> scope == SeasonOf(names, dirs[i]))
      && ((forall i: nat :: offset < i < n ==> !SeasonDirectory(names, romans, dirs, i)) ==> scope == None)
    decreases n
  {
    if n > offset + 1 {
      ScopeIsNearest(names, romans, dirs, offset, n - 1);
      ScopeStep(names, romans, dirs, offset, n);
    }
  }

  lemma ScopeStep(names: Names, romans: RomanParts, dirs: Directories, offset: nat, n: nat)
    requires offset + 1 < n <= |dirs|
    ensures ScanUpTo(names, romans, dirs, offset, n).scope ==
      if SeasonDirectory(names, romans, dirs, n - 1) then SeasonOf(names, dirs[n - 1])
      else ScanUpTo(names, romans, dirs, offset, n - 1).scope
  {
  }

  // What the directory at i, by itself and by the season in scope, says the title is.
  ghost predicate Says(names: Names, romans: RomanParts, dirs: Directories, scope: Option<nat>, i: nat, p: Part)
    requires i < |dirs|
  {
    match names.explicit(dirs[i])
    case Some(e) =>
      && p.kind == e.kind && p.part == e.part
      && (e.kind == "season" || e.season.Some? || scope.None? ==> p == e)
      && (e.kind != "season" && e.season.None? && scope.Some? ==>
            p.season == scope && p.tag == Some(names.seasonLabel(scope.value)))
    case None =>
      if (dirs[..i], dirs[i]) in romans then
        && p.kind == "season" && p.season == SeasonOf(names, dirs[i]) && p.part == None
        && (p.season.Some? ==> p.tag == Some(names.seasonLabel(p.season.value))) && (p.season.None? ==> p.tag == None)
      else p == Part("title", None, None, None)
  }

  lemma {:induction false} DataIsSaid(names: Names, romans: RomanParts, dirs: Directories, offset: nat, n: nat)
    requires n <= |dirs|
    ensures var f := ScanUpTo(names, romans, dirs, offset, n);
      f.title.Some? ==>
        && f.title.value < n && f.data.Some?
        && Says(names, romans, dirs, ScanUpTo(names, romans, dirs, offset, f.title.value).scope, f.title.value, f.data.value)
    decreases n
  {
    if n > offset + 1 {
      DataIsSaid(names, romans, dirs, offset, n - 1);
    }
  }

  // `part` is the first recognised directory, `title` the last one named, or the same.
  ghost predicate Split(names: Names, romans: RomanParts, dirs: Directories, offset: nat, part: nat, title: nat) {
    && offset < part <= title < |dirs|
    && Recognised(names, romans, dirs, offset, part)
    && (forall i: nat :: offset < i < part ==> !Recognised(names, romans, dirs, offset, i))
    && (title == part || Named(names, romans, dirs, title))
    && forall i: nat :: title < i < |dirs| ==> !Named(names, romans, dirs, i)
  }

  lemma SplitIsScanned(names: Names, romans: RomanParts, dirs: Directories, offset: nat, part: nat, title: nat)
    requires Split(names, romans, dirs, offset, part, title)
    ensures var f := ScanUpTo(names, romans, dirs, offset, |dirs|); f.part == Some(part) && f.title == Some(title)
  {
    var f := ScanUpTo(names, romans, dirs, offset, |dirs|);
    ScanFinds(names, romans, dirs, offset, |dirs|);
    assert Strong(names, romans, dirs, part) || Weak(names, dirs, offset, part);
    FirstIs(names, romans, dirs, offset, part, f.part.value);
    assert Strong(names, romans, dirs, title) || title == part;
    assert Named(names, romans, dirs, f.title.value) <==> Strong(names, romans, dirs, f.title.value);
  }

  lemma FirstIs(names: Names, romans: RomanParts, dirs: Directories, offset: nat, a: nat, b: nat)
    requires Recognised(names, romans, dirs, offset, a) && offset < b < |dirs|
    requires Strong(names, romans, dirs, b) || Weak(names, dirs, offset, b)
    requires forall i: nat :: offset < i < a ==> !Recognised(names, romans, dirs, offset, i)
    requires forall i :: offset < i < b ==> !Strong(names, romans, dirs, i) && !Weak(names, dirs, offset, i)
    ensures a == b
  {
    assert Recognised(names, romans, dirs, offset, b);
    assert Strong(names, romans, dirs, a) || Weak(names, dirs, offset, a);
  }

  /** With a part, the directory above the first recognised one is the collection; the title is the last
      named directory, or, for a named kind of extra content with a folder of its own, that folder. */
  lemma IdentityWithPart(
    names: Names, film: string -> bool, romans: RomanParts, dirs: Directories, part: nat, title: nat)
    requires Split(names, romans, dirs, Offset(names, dirs), part, title)
    ensures var id := Identify(names, film, romans, dirs);
      && id.collectionName == dirs[part - 1] && id.collectionRoot == dirs[..part]
      && if id.kind in ["film", "ova", "special", "preview", "recap", "bonus"] && title == part && part + 1 < |dirs|
         then id.titleRoot == dirs[..part + 2] && id.titleName == dirs[part] + " \U{2013} " + dirs[part + 1]
         else id.titleRoot == dirs[..title + 1] && id.titleName == dirs[title]
  {
    SplitIsScanned(names, romans, dirs, Offset(names, dirs), part, title);
    ScanFinds(names, romans, dirs, Offset(names, dirs), |dirs|);
  }

  /** ... and the title's kind, season and part are what its last named directory says, with the season
      of the nearest season directory above it where it names none itself. */
  lemma IdentitySaysWhat(
    names: Names, film: string -> bool, romans: RomanParts, dirs: Directories, part: nat, title: nat)
    requires Split(names, romans, dirs, Offset(names, dirs), part, title)
    ensures var id := Identify(names, film, romans, dirs);
      Says(names, romans, dirs, ScanUpTo(names, romans, dirs, Offset(names, dirs), title).scope, title,
           Part(id.kind, id.season, id.part, id.tag))
  {
    SplitIsScanned(names, romans, dirs, Offset(names, dirs), part, title);
    ScanFinds(names, romans, dirs, Offset(names, dirs), |dirs|);
    DataIsSaid(names, romans, dirs, Offset(names, dirs), |dirs|);
  }

  // ---------------------------------------------------------------------------- without a part

  // The series root: up to the first technical directory, and further up while those are technical.
  ghost predicate SeriesRoot(names: Names, dirs: Directories, offset: nat, k: nat) {
    && k <= |dirs|
    && (k > 0 ==> k == |dirs| || !names.technical(dirs[k - 1]))
    && exists t: nat :: StopsAt(names, dirs, offset, k, t)
  }

  // t is the first technical directory, or the end; everything between k and t is technical.
  ghost predicate StopsAt(names: Names, dirs: Directories, offset: nat, k: nat, t: nat) {
    && offset <= t <= |dirs| && k <= t
    && (forall i :: offset <= i < t ==> !names.technical(dirs[i]))
    && (if t < |dirs| then names.technical(dirs[t]) else k == t)
    && forall i :: k <= i < t ==> names.technical(dirs[i])
  }

  lemma {:induction false} AboveMeans(names: Names, dirs: Directories, n: nat)
    requires n <= |dirs|
    ensures var k := Above(names, dirs, n);
      (k > 0 ==> !names.technical(dirs[k - 1])) && forall i :: k <= i < n ==> names.technical(dirs[i])
  {
    if n > 0 && names.technical(dirs[n - 1]) {
      AboveMeans(names, dirs, n - 1);
    }
  }

  lemma {:induction false} FirstTechnicalMeans(names: Names, dirs: Directories, from: nat)
    requires from <= |dirs|
    ensures var k := FirstTechnical(names, dirs, from);
      (forall i :: from <= i < k ==> !names.technical(dirs[i])) && (k < |dirs| ==> names.technical(dirs[k]))
    decreases |dirs| - from
  {
    if from < |dirs| && !names.technical(dirs[from]) {
      FirstTechnicalMeans(names, dirs, from + 1);
    }
  }

  lemma NothingScanned(names: Names, romans: RomanParts, dirs: Directories, offset: nat)
    requires forall i: nat :: !Recognised(names, romans, dirs, offset, i)
    ensures ScanUpTo(names, romans, dirs, offset, |dirs|).part.None?
  {
    var f := ScanUpTo(names, romans, dirs, offset, |dirs|);
    ScanFinds(names, romans, dirs, offset, |dirs|);
    if f.part.Some? {
      assert Recognised(names, romans, dirs, offset, f.part.value);
    }
  }

  lemma SeriesMeans(names: Names, dirs: Directories)
    ensures var (name, root) := Series(names, dirs);
      && root <= dirs && name == (if root == [] then "Knihovna" else root[|root| - 1])
      && (Offset(names, dirs) == |dirs| ==> root == [])
      && (Offset(names, dirs) < |dirs| ==> SeriesRoot(names, dirs, Offset(names, dirs), |root|))
  {
    if Offset(names, dirs) < |dirs| {
      SeriesIsRoot(names, dirs, Offset(names, dirs), FirstTechnical(names, dirs, Offset(names, dirs)));
    }
  }

  /** Without a part, collection and title are the same: the series root, or the library itself when
      there is none or only generic directories; a film is told by that name alone. */
  lemma IdentityWithoutPart(names: Names, film: string -> bool, romans: RomanParts, dirs: Directories)
    requires forall i: nat :: !Recognised(names, romans, dirs, Offset(names, dirs), i)
    ensures var id := Identify(names, film, romans, dirs);
      && id.titleName == id.collectionName && id.titleRoot == id.collectionRoot && id.collectionRoot <= dirs
      && id.collectionName == (if id.collectionRoot == [] then "Knihovna" else id.collectionRoot[|id.collectionRoot| - 1])
      && (Offset(names, dirs) == |dirs| ==> id.collectionRoot == [])
      && (Offset(names, dirs) < |dirs| ==> SeriesRoot(names, dirs, Offset(names, dirs), |id.collectionRoot|))
      && id.kind == (if film(id.titleName) then "film" else "title") && id.season == None && id.part == None && id.sortOrder == 0
  {
    NothingScanned(names, romans, dirs, Offset(names, dirs));
    SeriesMeans(names, dirs);
  }

  lemma SeriesIsRoot(names: Names, dirs: Directories, offset: nat, t: nat)
    requires offset == Offset(names, dirs) && offset < |dirs| && t == FirstTechnical(names, dirs, offset)
    ensures SeriesRoot(names, dirs, offset, SeriesDepth(names, dirs))
  {
    FirstTechnicalMeans(names, dirs, offset);
    AboveMeans(names, dirs, t);
    var k := SeriesDepth(names, dirs);
    assert StopsAt(names, dirs, offset, k, t);
  }

  // ------------------------------------------------------------------------------- sort order

  /** Numbered parts sort by season and then by part, as long as a season has fewer than 1000 parts. */
  lemma PartsSortBySeason(p: Part, q: Part)
    requires p.season.Some? && p.part.Some? && q.season.Some? && q.part.Some? && p.part.value < 1000 && q.part.value < 1000
    ensures SortOrder(p) < SortOrder(q) <==>
      p.season.value < q.season.value || (p.season == q.season && p.part.value < q.part.value)
  {
  }

  /** With only one of the two numbers the other counts, and with neither the title sorts first. */
  lemma OtherPartsSort(p: Part)
    requires p.season.None? || p.part.None?
    ensures SortOrder(p) ==
      if p.season.Some? then p.season.value else if p.part.Some? then p.part.value else 0
  {
  }
}
