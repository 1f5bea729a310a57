/**
 The planner's builders as the code runs them: loops that fill dictionaries.  Each is proved to
 compute what the specification says, and together they never reach a defensive raise other than
 the one for inconsistent assignments.
*/
module HierarchyRebuildBuilders {
  import opened Basics
  import opened HierarchyRebuild
  import opened HierarchyRebuildPlanning
  import opened HierarchyRebuildOutcomes

  // dict.get(key, empty)
  function At<K(==), T(==)>(m: map<K, set<T>>, k: K): set<T> {
    if k in m then m[k] else {}
  }

  // dict.setdefault(key, []).append(x)
  function Appended<K(==), T(==)>(m: map<K, set<T>>, k: K, x: T): map<K, set<T>> {
    m[k := At(m, k) + {x}]
  }

  // ------------------------------------------------------------------ explicit authority

  // The part of the explicit authority that titles outside `todo` contribute.
  ghost predicate AuthorityRead(
    m: Inputs, todo: set<TitleId>, targets: map<VideoId, set<TitleId>>, dangling: set<string>)
  {
    && (forall v :: v in m.library.videos ==> At(targets, v) == ExplicitTargets(m, v) - todo)
    && (forall c :: c in dangling <==> exists t :: t in m.library.titles && t !in todo && DanglesIn(m, t, c))
  }

  ghost predicate DanglesIn(m: Inputs, t: TitleId, c: string)
    requires t in m.library.titles
  {
    m.library.titles[t].collection == Some(c) && exists v :: v in m.library.titles[t].selectors && v !in m.library.videos
  }

  ghost predicate TitleRead(
    m: Inputs, t: TitleId, seen: set<VideoId>, before: map<VideoId, set<TitleId>>, targets: map<VideoId, set<TitleId>>)
  {
    forall v :: v in m.library.videos ==> At(targets, v) == if v in seen then At(before, v) + {t} else At(before, v)
  }

  ghost predicate DanglesAmong(m: Inputs, seen: set<VideoId>) {
    exists v :: v in seen && v !in m.library.videos
  }

  lemma ReadStep(
    m: Inputs, t: TitleId, seen: set<VideoId>, before: map<VideoId, set<TitleId>>, targets: map<VideoId, set<TitleId>>,
    v: VideoId)
    requires TitleRead(m, t, seen, before, targets)
    ensures TitleRead(m, t, seen + {v}, before, if v in m.library.videos then Appended(targets, v, t) else targets)
    ensures DanglesAmong(m, seen + {v}) <==> DanglesAmong(m, seen) || v !in m.library.videos
  {
    assert v in seen + {v};
    forall w | w in m.library.videos
      ensures At(Appended(targets, v, t), w) == if w == v then At(targets, w) + {t} else At(targets, w)
    {
      AtAppended(targets, v, t, w);
    }
  }

  method ReadSelector(
    m: Inputs, t: TitleId, ghost seen: set<VideoId>, ghost before: map<VideoId, set<TitleId>>,
    targets: map<VideoId, set<TitleId>>, dangles: bool, v: VideoId)
    returns (targets': map<VideoId, set<TitleId>>, dangles': bool)
    requires TitleRead(m, t, seen, before, targets) && (dangles <==> DanglesAmong(m, seen))
    ensures TitleRead(m, t, seen + {v}, before, targets') && (dangles' <==> DanglesAmong(m, seen + {v}))
  {
    ReadStep(m, t, seen, before, targets, v);
    targets', dangles' := targets, dangles;
    if v !in m.library.videos {
      dangles' := true;
    } else {
      targets' := Appended(targets, v, t);
    }
  }

  method ReadTitle(m: Inputs, t: TitleId, before: map<VideoId, set<TitleId>>)
    returns (targets: map<VideoId, set<TitleId>>, dangles: bool)
    requires t in m.library.titles
    ensures TitleRead(m, t, m.library.titles[t].selectors, before, targets)
    ensures dangles <==> DanglesAmong(m, m.library.titles[t].selectors)
  {
    var selectors := m.library.titles[t].selectors;
    targets, dangles := before, false;
    var todo := selectors;
    while todo != {}
      invariant todo <= selectors && TitleRead(m, t, selectors - todo, before, targets)
      invariant dangles <==> DanglesAmong(m, selectors - todo)
      decreases |todo|
    {
      var v :| v in todo;
      targets, dangles := ReadSelector(m, t, selectors - todo, before, targets, dangles, v);
      assert selectors - (todo - {v}) == (selectors - todo) + {v};
      todo := todo - {v};
    }
    assert selectors - {} == selectors;
  }

  // The blockers of the titles outside `todo` that select videos which are not there.
  ghost predicate DanglingReported(m: Inputs, todo: set<TitleId>, blockers: set<Blocker>) {
    forall b :: b in blockers <==>
      b.DanglingAuthority? && b.title in m.library.titles && b.title !in todo
      && DanglesAmong(m, m.library.titles[b.title].selectors)
  }

  method ReadAuthority(m: Inputs)
    returns (targets: map<VideoId, set<TitleId>>, dangling: set<string>, blockers: set<Blocker>)
    ensures AuthorityRead(m, {}, targets, dangling) && DanglingReported(m, {}, blockers)
  {
    targets, dangling, blockers := map[], {}, {};
    var todo := m.library.titles.Keys;
    while todo != {}
      invariant todo <= m.library.titles.Keys && AuthorityRead(m, todo, targets, dangling)
      invariant DanglingReported(m, todo, blockers)
      decreases |todo|
    {
      var t :| t in todo;
      var targets', dangles := ReadTitle(m, t, targets);
      var place := m.library.titles[t].collection;
      var dangling' := if dangles && place.Some? then dangling + {place.value} else dangling;
      AuthorityStep(m, todo, t, targets, dangling, targets', dangling');
      blockers := if dangles then blockers + {DanglingAuthority(t)} else blockers;
      targets, dangling, todo := targets', dangling', todo - {t};
    }
  }

  lemma AuthorityStep(
    m: Inputs, todo: set<TitleId>, t: TitleId, targets: map<VideoId, set<TitleId>>, dangling: set<string>,
    targets': map<VideoId, set<TitleId>>, dangling': set<string>)
    requires t in todo && t in m.library.titles && AuthorityRead(m, todo, targets, dangling)
    requires TitleRead(m, t, m.library.titles[t].selectors, targets, targets')
    requires forall c :: c in dangling' <==> c in dangling || DanglesIn(m, t, c)
    ensures AuthorityRead(m, todo - {t}, targets', dangling')
  {
    forall v | v in m.library.videos
      ensures At(targets', v) == ExplicitTargets(m, v) - (todo - {t})
    {
    }
    forall c
      ensures c in dangling' <==> exists x :: x in m.library.titles && x !in todo - {t} && DanglesIn(m, x, c)
    {
    }
  }

  // ------------------------------------------------------------------------ grouping videos

  datatype Grouping = Grouping(
    places: map<VideoId, Option<string>>, candidates: map<VideoId, Option<(TitleId, string)>>,
    groups: map<string, set<VideoId>>, blockedVideos: set<VideoId>, blockedPaths: set<string>)

  ghost predicate PlacesKnown(m: Inputs, todo: set<VideoId>, g: Grouping)
    requires InputsOk(m)
  {
    && g.places.Keys == m.library.videos.Keys - todo && g.candidates.Keys == m.library.videos.Keys - todo
    && (forall v :: v in g.places ==> g.places[v] == Preliminary(m, v))
    && (forall v :: v in g.candidates ==> g.candidates[v] == Candidate(m, m.library.videos[v]))
  }

  ghost predicate GroupsKnown(m: Inputs, todo: set<VideoId>, groups: map<string, set<VideoId>>)
    requires InputsOk(m)
  {
    forall c :: GroupKnown(m, todo, groups, c)
  }

  ghost predicate GroupKnown(m: Inputs, todo: set<VideoId>, groups: map<string, set<VideoId>>, c: string)
    requires InputsOk(m)
  {
    At(groups, c) == Group(m, c) - todo && (c in groups ==> groups[c] != {})
  }

  ghost predicate BlocksKnown(m: Inputs, todo: set<VideoId>, blockedVideos: set<VideoId>, blockedPaths: set<string>) {
    && (forall v :: v in blockedVideos <==> v in m.library.videos && v !in todo && (Orphaned(m, v) || AcrossCollections(m, v)))
    && (forall c :: c in blockedPaths <==> BlockedBefore(m, todo, c))
  }

  ghost predicate Grouped(m: Inputs, todo: set<VideoId>, g: Grouping)
    requires InputsOk(m)
  {
    PlacesKnown(m, todo, g) && GroupsKnown(m, todo, g.groups) && BlocksKnown(m, todo, g.blockedVideos, g.blockedPaths)
  }

  ghost predicate BlockedBefore(m: Inputs, todo: set<VideoId>, c: string) {
    || (exists t :: t in m.library.titles && DanglesIn(m, t, c))
    || (exists v :: v in m.library.videos && v !in todo && AcrossCollections(m, v) && c in ExplicitPaths(m, v))
  }

  // ... and those of the videos outside `todo` whose explicit targets have no or several collections.
  ghost predicate AuthorityReported(m: Inputs, todo: set<VideoId>, blockers: set<Blocker>) {
    forall b :: b in blockers <==> IsAuthorityBlocker(m, todo, b)
  }

  ghost predicate IsAuthorityBlocker(m: Inputs, todo: set<VideoId>, b: Blocker) {
    match b
    case DanglingAuthority(t) => t in m.library.titles && DanglesAmong(m, m.library.titles[t].selectors)
    case OrphanAuthority(v) => v in m.library.videos && v !in todo && Orphaned(m, v)
    case CrossCollectionAuthority(v) => v in m.library.videos && v !in todo && AcrossCollections(m, v)
    case _ => false
  }

  lemma NothingGrouped(m: Inputs, dangling: set<string>, dangles: set<Blocker>)
    requires InputsOk(m) && DanglingReported(m, {}, dangles)
    requires forall c :: c in dangling <==> exists t :: t in m.library.titles && DanglesIn(m, t, c)
    ensures AuthorityReported(m, m.library.videos.Keys, dangles)
    ensures Grouped(m, m.library.videos.Keys, Grouping(map[], map[], map[], {}, dangling))
  {
    forall b
      ensures b in dangles <==> IsAuthorityBlocker(m, m.library.videos.Keys, b)
    {
    }
  }

  lemma AllAuthorityReported(m: Inputs, blockers: set<Blocker>)
    requires AuthorityReported(m, {}, blockers)
    ensures blockers == AuthorityBlockers(m)
  {
    forall b
      ensures b in blockers <==> b in AuthorityBlockers(m)
    {
      assert b in blockers <==> IsAuthorityBlocker(m, {}, b);
    }
  }

  method GroupVideos(m: Inputs) returns (g: Grouping, blockers: set<Blocker>)
    requires InputsOk(m)
    ensures Grouped(m, {}, g) && blockers == AuthorityBlockers(m)
  {
    var targets, dangling, dangles := ReadAuthority(m);
    g, blockers := Grouping(map[], map[], map[], {}, dangling), dangles;
    NothingGrouped(m, dangling, dangles);
    var todo := m.library.videos.Keys;
    while todo != {}
      invariant todo <= m.library.videos.Keys && Grouped(m, todo, g) && AuthorityReported(m, todo, blockers)
      decreases |todo|
    {
      var v :| v in todo;
      g, blockers := GroupTurn(m, targets, todo, v, g, blockers);
      todo := todo - {v};
    }
    AllAuthorityReported(m, blockers);
  }

  method GroupTurn(
    m: Inputs, targets: map<VideoId, set<TitleId>>, ghost todo: set<VideoId>, v: VideoId, g: Grouping, blockers: set<Blocker>)
    returns (g': Grouping, blockers': set<Blocker>)
    requires InputsOk(m) && v in todo && v in m.library.videos && Grouped(m, todo, g) && AuthorityReported(m, todo, blockers)
    requires At(targets, v) == ExplicitTargets(m, v)
    ensures Grouped(m, todo - {v}, g') && AuthorityReported(m, todo - {v}, blockers')
  {
    var found: set<Blocker>;
    g', found := GroupVideo(m, targets, todo, v, g);
    AuthorityReportedStep(m, todo, blockers, v, found);
    blockers' := blockers + found;
  }

  function VideoBlockers(m: Inputs, v: VideoId): set<Blocker> {
    (if Orphaned(m, v) then {OrphanAuthority(v)} else {})
    + (if AcrossCollections(m, v) then {CrossCollectionAuthority(v)} else {})
  }

  lemma AuthorityReportedStep(m: Inputs, todo: set<VideoId>, blockers: set<Blocker>, v: VideoId, found: set<Blocker>)
    requires AuthorityReported(m, todo, blockers) && v in todo && v in m.library.videos && found == VideoBlockers(m, v)
    ensures AuthorityReported(m, todo - {v}, blockers + found)
  {
    forall b
      ensures b in blockers + found <==> IsAuthorityBlocker(m, todo - {v}, b)
    {
      assert b in blockers <==> IsAuthorityBlocker(m, todo, b);
      AuthorityBlockerStep(m, todo, v, Orphaned(m, v), AcrossCollections(m, v), b);
    }
  }

  lemma AuthorityBlockerStep(m: Inputs, todo: set<VideoId>, v: VideoId, orphaned: bool, across: bool, b: Blocker)
    requires v in todo && v in m.library.videos && orphaned == Orphaned(m, v) && across == AcrossCollections(m, v)
    ensures IsAuthorityBlocker(m, todo - {v}, b) <==>
      IsAuthorityBlocker(m, todo, b) || (b == OrphanAuthority(v) && orphaned) || (b == CrossCollectionAuthority(v) && across)
  {
    match b
    case DanglingAuthority(t) =>
    case OrphanAuthority(w) =>
    case CrossCollectionAuthority(w) =>
    case _ =>
  }

  method ReadBlocks(m: Inputs, explicit: set<TitleId>, ghost todo: set<VideoId>, v: VideoId, videos: set<VideoId>, paths: set<string>)
    returns (videos': set<VideoId>, paths': set<string>, blockers: set<Blocker>)
    requires v in todo && v in m.library.videos && BlocksKnown(m, todo, videos, paths) && explicit == ExplicitTargets(m, v)
    ensures BlocksKnown(m, todo - {v}, videos', paths') && blockers == VideoBlockers(m, v)
  {
    var s := m.library;
    var across := set t | t in explicit && s.titles[t].collection.Some? :: s.titles[t].collection.value;
    assert across == ExplicitPaths(m, v);
    videos', paths', blockers := videos, paths, {};
    if exists t :: t in explicit && s.titles[t].collection.None? {
      videos', blockers := videos' + {v}, blockers + {OrphanAuthority(v)};
    }
    if |across| > 1 {
      videos', paths', blockers := videos' + {v}, paths' + across, blockers + {CrossCollectionAuthority(v)};
    }
    BlockedStep(m, todo, v, paths, paths');
  }

  // The preliminary collection of one video.
  method PlaceVideo(m: Inputs, explicit: set<TitleId>, v: VideoId, candidate: Option<(TitleId, string)>)
    returns (place: Option<string>)
    requires InputsOk(m) && v in m.library.videos && explicit == ExplicitTargets(m, v)
    requires candidate == Candidate(m, m.library.videos[v])
    ensures place == Preliminary(m, v)
  {
    var s, video := m.library, m.library.videos[v];
    var paths := set t | t in explicit && s.titles[t].collection.Some? :: s.titles[t].collection.value;
    assert paths == ExplicitPaths(m, v);
    var legacy := LegacyConflict(m, video);
    place :=
      if |paths| == 1 then Some(Only(paths))
      else if video.root then MeaningfulRoot(s, video)
      else if candidate.Some? then Some(candidate.value.1)
      else if legacy.Some? then legacy
      else Some(m.hierarchy[video.path].collection.path);
  }

  method GroupVideo(m: Inputs, targets: map<VideoId, set<TitleId>>, ghost todo: set<VideoId>, v: VideoId, g: Grouping)
    returns (g': Grouping, blockers: set<Blocker>)
    requires InputsOk(m) && v in todo && v in m.library.videos && Grouped(m, todo, g)
    requires At(targets, v) == ExplicitTargets(m, v)
    ensures Grouped(m, todo - {v}, g') && blockers == VideoBlockers(m, v)
  {
    var blockedVideos, blockedPaths, found := ReadBlocks(m, At(targets, v), todo, v, g.blockedVideos, g.blockedPaths);
    blockers := found;
    var candidate := Candidate(m, m.library.videos[v]);
    var place := PlaceVideo(m, At(targets, v), v, candidate);
    var groups := if place.Some? then Appended(g.groups, place.value, v) else g.groups;
    g' := Grouping(g.places[v := place], g.candidates[v := candidate], groups, blockedVideos, blockedPaths);
    GroupsStep(m, todo, v, g.groups);
    PlacesStep(m, todo, v, g, g');
  }

  lemma AtAppended<K, T>(m: map<K, set<T>>, k: K, x: T, c: K)
    ensures At(Appended(m, k, x), c) == if c == k then At(m, c) + {x} else At(m, c)
  {
  }

  lemma GroupGrows(m: Inputs, todo: set<VideoId>, v: VideoId, c: string)
    requires InputsOk(m) && v in todo && v in m.library.videos
    ensures Group(m, c) - (todo - {v}) == (Group(m, c) - todo) + (if Preliminary(m, v) == Some(c) then {v} else {})
  {
  }

  ghost function GroupsWith(groups: map<string, set<VideoId>>, place: Option<string>, v: VideoId): map<string, set<VideoId>> {
    if place.Some? then Appended(groups, place.value, v) else groups
  }

  lemma GroupStep(m: Inputs, todo: set<VideoId>, v: VideoId, groups: map<string, set<VideoId>>, c: string)
    requires InputsOk(m) && v in todo && v in m.library.videos && GroupKnown(m, todo, groups, c)
    ensures GroupKnown(m, todo - {v}, GroupsWith(groups, Preliminary(m, v), v), c)
  {
    GroupGrows(m, todo, v, c);
    if Preliminary(m, v).Some? {
      AtAppended(groups, Preliminary(m, v).value, v, c);
    }
  }

  lemma GroupsStep(m: Inputs, todo: set<VideoId>, v: VideoId, groups: map<string, set<VideoId>>)
    requires InputsOk(m) && v in todo && v in m.library.videos && GroupsKnown(m, todo, groups)
    ensures GroupsKnown(m, todo - {v}, GroupsWith(groups, Preliminary(m, v), v))
  {
    forall c
      ensures GroupKnown(m, todo - {v}, GroupsWith(groups, Preliminary(m, v), v), c)
    {
      GroupStep(m, todo, v, groups, c);
    }
  }

  lemma PlacesStep(m: Inputs, todo: set<VideoId>, v: VideoId, g: Grouping, g': Grouping)
    requires InputsOk(m) && v in todo && v in m.library.videos && PlacesKnown(m, todo, g)
    requires g'.places == g.places[v := Preliminary(m, v)]
    requires g'.candidates == g.candidates[v := Candidate(m, m.library.videos[v])]
    ensures PlacesKnown(m, todo - {v}, g')
  {
  }

  lemma BlockedStep(m: Inputs, todo: set<VideoId>, v: VideoId, blocked: set<string>, blocked': set<string>)
    requires v in todo && v in m.library.videos
    requires forall c :: c in blocked <==> BlockedBefore(m, todo, c)
    requires blocked' == if AcrossCollections(m, v) then blocked + ExplicitPaths(m, v) else blocked
    ensures forall c :: c in blocked' <==> BlockedBefore(m, todo - {v}, c)
  {
  }

  // The grouping's blocked collections are those the specification blocks for their authority.
  lemma BlockedInTheEnd(m: Inputs, c: string)
    ensures BlockedBefore(m, {}, c) <==> BlockedByAuthority(m, c)
  {
    if BlockedByAuthority(m, c) {
      if t, v :|
          t in m.library.titles && v in m.library.titles[t].selectors && v !in m.library.videos
          && m.library.titles[t].collection == Some(c) {
        assert DanglesIn(m, t, c);
      }
    }
    if t :| t in m.library.titles && DanglesIn(m, t, c) {
      var v :| v in m.library.titles[t].selectors && v !in m.library.videos;
    }
  }

  // ---------------------------------------------------------------------- deciding groups

  ghost predicate Decided(m: Inputs, todo: set<string>, decisions: map<VideoId, Decision>)
    requires InputsOk(m)
  {
    && decisions.Keys <= m.library.videos.Keys
    && forall v :: v in m.library.videos ==> DecidedVideo(m, todo, decisions, v)
  }

  ghost predicate DecidedVideo(m: Inputs, todo: set<string>, decisions: map<VideoId, Decision>, v: VideoId)
    requires InputsOk(m) && v in m.library.videos
  {
    (if v in decisions then Some(decisions[v]) else None)
    == (if Preliminary(m, v).Some? && Preliminary(m, v).value in todo then None else DecisionOf(m, v))
  }

  ghost predicate PathsKnown(m: Inputs, todo: set<string>, blocked: set<string>)
    requires InputsOk(m)
  {
    forall c :: c in blocked <==> BlockedByAuthority(m, c) || (c !in todo && BlockedBySplit(m, c))
  }

  lemma UndecidedGroup(m: Inputs, todo: set<string>, decisions: map<VideoId, Decision>, c: string)
    requires InputsOk(m) && c in todo && Decided(m, todo, decisions)
    requires !ReachesSplit(m, c) || MalformedSplit(m, c)
    ensures Decided(m, todo - {c}, decisions)
  {
    forall v | v in m.library.videos
      ensures DecidedVideo(m, todo - {c}, decisions, v)
    {
      assert DecidedVideo(m, todo, decisions, v);
    }
  }

  ghost function GroupDecisions(m: Inputs, c: string): map<VideoId, Decision>
    requires InputsOk(m)
  {
    var result, historical := m.splitter.evaluate(c, Group(m, c)), m.splitter.historical(c, Group(m, c));
    map v | v in result && v !in historical :: result[v]
  }

  lemma DecidedInGroup(m: Inputs, c: string, v: VideoId)
    requires InputsOk(m) && ReachesSplit(m, c) && !MalformedSplit(m, c) && v in m.library.videos
    ensures Preliminary(m, v) == Some(c) ==>
      DecisionOf(m, v) == if v in GroupDecisions(m, c) then Some(GroupDecisions(m, c)[v]) else None
    ensures v in GroupDecisions(m, c) ==> Preliminary(m, v) == Some(c)
  {
    if v in GroupDecisions(m, c) {
      assert v in Group(m, c);
    }
  }

  lemma DecidedGroup(m: Inputs, todo: set<string>, decisions: map<VideoId, Decision>, c: string)
    requires InputsOk(m) && c in todo && Decided(m, todo, decisions)
    requires ReachesSplit(m, c) && !MalformedSplit(m, c)
    ensures Decided(m, todo - {c}, decisions + GroupDecisions(m, c))
  {
    forall v | v in m.library.videos
      ensures DecidedVideo(m, todo - {c}, decisions + GroupDecisions(m, c), v)
    {
      assert DecidedVideo(m, todo, decisions, v);
      DecidedInGroup(m, c, v);
    }
    forall v | v in GroupDecisions(m, c)
      ensures v in m.library.videos
    {
      assert v in Group(m, c);
    }
  }

  // The blockers of one group of a collection that is not blocked yet.
  ghost function GroupBlockers(m: Inputs, c: string): set<Blocker>
    requires InputsOk(m)
  {
    if SplitTitles(m, c) == {} then {}
    else if MalformedSplit(m, c) then
      set t | t in SplitTitles(m, c) && m.library.titles[t].malformedRule :: MalformedRule(t)
    else set v | v in m.splitter.historical(c, Group(m, c)) :: HistoricalConflict(v)
  }

  // The blockers of the groups outside `todo`.
  ghost predicate GroupsReported(m: Inputs, todo: set<string>, blockers: set<Blocker>)
    requires InputsOk(m)
  {
    forall b :: b in blockers <==> exists c :: c !in todo && ReachesSplit(m, c) && b in GroupBlockers(m, c)
  }

  lemma GroupsReportedStep(m: Inputs, todo: set<string>, blockers: set<Blocker>, c: string, found: set<Blocker>)
    requires InputsOk(m) && GroupsReported(m, todo, blockers) && c in todo
    requires found == if ReachesSplit(m, c) then GroupBlockers(m, c) else {}
    ensures GroupsReported(m, todo - {c}, blockers + found)
  {
    forall b
      ensures b in blockers + found <==> exists d :: d !in todo - {c} && ReachesSplit(m, d) && b in GroupBlockers(m, d)
    {
    }
  }

  lemma AllGroupsReported(m: Inputs, blockers: set<Blocker>)
    requires InputsOk(m) && GroupsReported(m, {}, blockers)
    ensures blockers == SplitBlockers(m)
  {
    forall b
      ensures b in blockers <==> b in SplitBlockers(m)
    {
    }
  }

  lemma MalformedIff(m: Inputs, c: string, malformed: set<Blocker>)
    requires malformed == set t | t in SplitTitles(m, c) && m.library.titles[t].malformedRule :: MalformedRule(t)
    ensures malformed != {} <==> MalformedSplit(m, c)
  {
    if MalformedSplit(m, c) {
      var t :| t in SplitTitles(m, c) && m.library.titles[t].malformedRule;
      assert MalformedRule(t) in malformed;
    }
  }

  // What one group adds: its decisions, and whether it is blocked.
  method DecideGroup(m: Inputs, c: string, group: set<VideoId>)
    returns (decisions: map<VideoId, Decision>, blocks: bool, blockers: set<Blocker>)
    requires InputsOk(m) && c in m.library.collections
    requires group == Group(m, c)
    ensures blockers == GroupBlockers(m, c)
    ensures blocks <==> SplitTitles(m, c) != {} && (MalformedSplit(m, c) || m.splitter.historical(c, group) != {})
    ensures decisions == if SplitTitles(m, c) == {} || MalformedSplit(m, c) then map[] else GroupDecisions(m, c)
  {
    decisions, blocks, blockers := map[], false, {};
    if SplitTitles(m, c) != {} {
      var malformed := set t | t in SplitTitles(m, c) && m.library.titles[t].malformedRule :: MalformedRule(t);
      MalformedIff(m, c, malformed);
      if malformed != {} {
        blocks, blockers := true, malformed;
      } else {
        var result, historical := m.splitter.evaluate(c, group), m.splitter.historical(c, group);
        blocks, blockers := historical != {}, set v | v in historical :: HistoricalConflict(v);
        decisions := map v | v in result && v !in historical :: result[v];
      }
    }
  }

  lemma PathsStep(m: Inputs, todo: set<string>, blocked: set<string>, c: string, blocks: bool)
    requires InputsOk(m) && c in todo && PathsKnown(m, todo, blocked)
    requires c !in blocked ==> (blocks <==> BlockedBySplit(m, c))
    requires c in blocked ==> !blocks
    ensures PathsKnown(m, todo - {c}, if blocks then blocked + {c} else blocked)
  {
    forall d
      ensures d in (if blocks then blocked + {c} else blocked)
        <==> BlockedByAuthority(m, d) || (d !in todo - {c} && BlockedBySplit(m, d))
    {
      if d == c && c in blocked {
        assert BlockedByAuthority(m, c);
      }
    }
  }

  lemma GroupReachesSplit(m: Inputs, g: Grouping, c: string)
    requires InputsOk(m) && Grouped(m, {}, g) && c in g.groups
    ensures g.groups[c] == Group(m, c) && Group(m, c) != {}
    ensures ReachesSplit(m, c) <==> !BlockedByAuthority(m, c) && c in m.library.collections && SplitTitles(m, c) != {}
  {
    assert GroupKnown(m, {}, g.groups, c);
  }

  method DecideStep(
    m: Inputs, g: Grouping, ghost todo: set<string>, c: string, decisions: map<VideoId, Decision>, blocked: set<string>)
    returns (decisions': map<VideoId, Decision>, blocked': set<string>, blockers: set<Blocker>)
    requires InputsOk(m) && Grouped(m, {}, g) && c in todo && c in g.groups
    requires Decided(m, todo, decisions) && PathsKnown(m, todo, blocked)
    ensures Decided(m, todo - {c}, decisions') && PathsKnown(m, todo - {c}, blocked')
    ensures blockers == if ReachesSplit(m, c) then GroupBlockers(m, c) else {}
  {
    GroupReachesSplit(m, g, c);
    var found, blocks := map[], false;
    blockers := {};
    if c !in blocked && c in m.library.collections {
      found, blocks, blockers := DecideGroup(m, c, g.groups[c]);
    }
    StepFinds(m, g, todo, c, blocked, found, blocks);
    PathsStep(m, todo, blocked, c, blocks);
    DecisionsStep(m, todo, c, decisions, found);
    decisions', blocked' := decisions + found, if blocks then blocked + {c} else blocked;
  }

  lemma DecisionsStep(m: Inputs, todo: set<string>, c: string, decisions: map<VideoId, Decision>, found: map<VideoId, Decision>)
    requires InputsOk(m) && c in todo && Decided(m, todo, decisions)
    requires found == if ReachesSplit(m, c) && !MalformedSplit(m, c) then GroupDecisions(m, c) else map[]
    ensures Decided(m, todo - {c}, decisions + found)
  {
    if ReachesSplit(m, c) && !MalformedSplit(m, c) {
      DecidedGroup(m, todo, decisions, c);
    } else {
      UndecidedGroup(m, todo, decisions, c);
      assert decisions + found == decisions;
    }
  }

  // Skipping a blocked or foreign group, or deciding it, is what the specification says of it.
  lemma StepFinds(
    m: Inputs, g: Grouping, todo: set<string>, c: string, blocked: set<string>, found: map<VideoId, Decision>, blocks: bool)
    requires InputsOk(m) && Grouped(m, {}, g) && c in todo && c in g.groups && PathsKnown(m, todo, blocked)
    requires c in blocked || c !in m.library.collections ==> found == map[] && !blocks
    requires c !in blocked && c in m.library.collections ==>
      && (blocks <==> SplitTitles(m, c) != {} && (MalformedSplit(m, c) || m.splitter.historical(c, g.groups[c]) != {}))
      && found == if SplitTitles(m, c) == {} || MalformedSplit(m, c) then map[] else GroupDecisions(m, c)
    ensures found == if ReachesSplit(m, c) && !MalformedSplit(m, c) then GroupDecisions(m, c) else map[]
    ensures c !in blocked ==> (blocks <==> BlockedBySplit(m, c))
    ensures c in blocked ==> !blocks
  {
    GroupReachesSplit(m, g, c);
  }

  lemma NothingDecided(m: Inputs, g: Grouping)
    requires InputsOk(m) && Grouped(m, {}, g)
    ensures Decided(m, g.groups.Keys, map[]) && PathsKnown(m, g.groups.Keys, g.blockedPaths)
  {
    forall v | v in m.library.videos
      ensures DecidedVideo(m, g.groups.Keys, map[], v)
    {
      if Preliminary(m, v).Some? {
        assert GroupKnown(m, {}, g.groups, Preliminary(m, v).value);
        assert v in Group(m, Preliminary(m, v).value);
      }
    }
    forall c
      ensures c in g.blockedPaths <==> BlockedByAuthority(m, c) || (c !in g.groups.Keys && BlockedBySplit(m, c))
    {
      BlockedInTheEnd(m, c);
      assert GroupKnown(m, {}, g.groups, c);
    }
  }

  // A collection without a group has nothing to report.
  lemma NothingReported(m: Inputs, g: Grouping)
    requires InputsOk(m) && Grouped(m, {}, g)
    ensures GroupsReported(m, g.groups.Keys, {})
  {
    forall c | c !in g.groups
      ensures !ReachesSplit(m, c)
    {
      assert GroupKnown(m, {}, g.groups, c);
    }
  }

  method DecideGroups(m: Inputs, g: Grouping)
    returns (decisions: map<VideoId, Decision>, blocked: set<string>, blockers: set<Blocker>)
    requires InputsOk(m) && Grouped(m, {}, g)
    ensures Decided(m, {}, decisions) && PathsKnown(m, {}, blocked) && blockers == SplitBlockers(m)
  {
    decisions, blocked, blockers := map[], g.blockedPaths, {};
    var todo := g.groups.Keys;
    NothingDecided(m, g);
    NothingReported(m, g);
    while todo != {}
      invariant todo <= g.groups.Keys && Decided(m, todo, decisions) && PathsKnown(m, todo, blocked)
      invariant GroupsReported(m, todo, blockers)
      decreases |todo|
    {
      var c :| c in todo;
      var found: set<Blocker>;
      decisions, blocked, found := DecideStep(m, g, todo, c, decisions, blocked);
      GroupsReportedStep(m, todo, blockers, c, found);
      blockers, todo := blockers + found, todo - {c};
    }
    AllGroupsReported(m, blockers);
  }

  // ------------------------------------------------------------------------------ routing

  ghost predicate CollisionsKnown(m: Inputs, todo: set<VideoId>, blocked: set<VideoId>)
    requires InputsOk(m)
  {
    forall v :: v in blocked <==> v in m.library.videos && BlockedSoFar(m, todo, v)
  }

  ghost predicate BlockedSoFar(m: Inputs, todo: set<VideoId>, v: VideoId)
    requires InputsOk(m) && v in m.library.videos
  {
    Orphaned(m, v) || AcrossCollections(m, v) || (v !in todo && LocatorCollides(m, v))
  }

  method Collides(m: Inputs, g: Grouping, decisions: map<VideoId, Decision>, v: VideoId) returns (collides: bool)
    requires InputsOk(m) && Grouped(m, {}, g) && Decided(m, {}, decisions) && v in m.library.videos
    ensures collides <==> LocatorCollides(m, v)
  {
    assert DecidedVideo(m, {}, decisions, v);
    var video := m.library.videos[v];
    if video.root || g.candidates[v].Some? || (v in decisions && !decisions[v].NotRequired?) {
      collides := false;
    } else {
      var locator := m.hierarchy[video.path].title.path;
      collides := |InferredAt(m, locator)| > 1 || |Locators(m, locator)| > 1;
    }
  }

  // The blockers of the colliding videos outside `todo`.
  ghost function CollisionBlockers(m: Inputs, todo: set<VideoId>): set<Blocker>
    requires InputsOk(m)
  {
    set v | v in m.library.videos && v !in todo && LocatorCollides(m, v) :: LocatorCollision(v)
  }

  lemma NothingCollides(m: Inputs, g: Grouping)
    requires InputsOk(m) && Grouped(m, {}, g)
    ensures CollisionsKnown(m, m.library.videos.Keys, g.blockedVideos) && CollisionBlockers(m, m.library.videos.Keys) == {}
  {
    forall v
      ensures v in g.blockedVideos <==> v in m.library.videos && BlockedSoFar(m, m.library.videos.Keys, v)
    {
    }
  }

  method BlockCollisions(m: Inputs, g: Grouping, decisions: map<VideoId, Decision>)
    returns (blocked: set<VideoId>, blockers: set<Blocker>)
    requires InputsOk(m) && Grouped(m, {}, g) && Decided(m, {}, decisions)
    ensures CollisionsKnown(m, {}, blocked) && blockers == CollisionBlockers(m, {})
  {
    blocked, blockers := g.blockedVideos, {};
    var todo := m.library.videos.Keys;
    NothingCollides(m, g);
    while todo != {}
      invariant todo <= m.library.videos.Keys && CollisionsKnown(m, todo, blocked)
      invariant blockers == CollisionBlockers(m, todo)
      decreases |todo|
    {
      var v :| v in todo;
      blocked, blockers := CollisionTurn(m, g, decisions, todo, v, blocked, blockers);
      todo := todo - {v};
    }
  }

  method CollisionTurn(
    m: Inputs, g: Grouping, decisions: map<VideoId, Decision>, ghost todo: set<VideoId>, v: VideoId,
    blocked: set<VideoId>, blockers: set<Blocker>)
    returns (blocked': set<VideoId>, blockers': set<Blocker>)
    requires InputsOk(m) && Grouped(m, {}, g) && Decided(m, {}, decisions) && v in todo && v in m.library.videos
    requires CollisionsKnown(m, todo, blocked) && blockers == CollisionBlockers(m, todo)
    ensures CollisionsKnown(m, todo - {v}, blocked') && blockers' == CollisionBlockers(m, todo - {v})
  {
    var collides := Collides(m, g, decisions, v);
    CollisionStep(m, todo, blocked, v, collides);
    CollisionReported(m, todo, v);
    blocked' := if collides then blocked + {v} else blocked;
    blockers' := if collides then blockers + {LocatorCollision(v)} else blockers;
  }

  lemma CollisionReported(m: Inputs, todo: set<VideoId>, v: VideoId)
    requires InputsOk(m) && v in todo && v in m.library.videos
    ensures CollisionBlockers(m, todo - {v})
      == CollisionBlockers(m, todo) + (if LocatorCollides(m, v) then {LocatorCollision(v)} else {})
  {
  }

  lemma CollisionStep(m: Inputs, todo: set<VideoId>, blocked: set<VideoId>, v: VideoId, collides: bool)
    requires InputsOk(m) && v in todo && v in m.library.videos && CollisionsKnown(m, todo, blocked)
    requires collides <==> LocatorCollides(m, v)
    ensures CollisionsKnown(m, todo - {v}, if collides then blocked + {v} else blocked)
  {
    var blocked' := if collides then blocked + {v} else blocked;
    forall w
      ensures w in blocked' <==> w in m.library.videos && BlockedSoFar(m, todo - {v}, w)
    {
      assert w in blocked <==> w in m.library.videos && BlockedSoFar(m, todo, w);
    }
  }

  lemma BlockedIff(m: Inputs, blockedVideos: set<VideoId>, blockedPaths: set<string>, v: VideoId)
    requires InputsOk(m) && v in m.library.videos
    requires CollisionsKnown(m, {}, blockedVideos) && PathsKnown(m, {}, blockedPaths)
    ensures Blocked(m, v) <==> v in blockedVideos || (Preliminary(m, v).Some? && Preliminary(m, v).value in blockedPaths)
  {
    assert v in blockedVideos <==> BlockedSoFar(m, {}, v);
  }

  // The intent of one video; automatic routing never finds its locator occupied.
  method RouteVideo(
    m: Inputs, g: Grouping, decisions: map<VideoId, Decision>, blockedVideos: set<VideoId>, blockedPaths: set<string>,
    v: VideoId)
    returns (intent: Result<Intent, RebuildError>)
    requires InputsOk(m) && v in m.library.videos && Grouped(m, {}, g) && Decided(m, {}, decisions)
    requires CollisionsKnown(m, {}, blockedVideos) && PathsKnown(m, {}, blockedPaths)
    ensures intent == IntentOf(m, v) && intent.Ok?
  {
    BlockedIff(m, blockedVideos, blockedPaths, v);
    assert DecidedVideo(m, {}, decisions, v);
    SplitTargetKnown(m, v);
    VideoIsRouted(m, v);
    var video, place := m.library.videos[v], g.places[v];
    var blocked := v in blockedVideos || (place.Some? && place.value in blockedPaths);
    var decision := if v in decisions then Some(decisions[v]) else None;
    var evidence := Evidence(blocked, CurrentIntent(m, v), place, g.candidates[v], decision, MeaningfulRoot(m.library, video));
    var choice := Choose(m.library, video, evidence);
    OnlyPathsAreRouted(m.library, video, evidence);
    intent := if choice.Settled? then Ok(choice.intent) else AutomaticIntent(m, m.hierarchy[video.path]);
  }

  ghost predicate RoutedVideos(m: Inputs, todo: set<VideoId>, found: Intents)
    requires InputsOk(m)
  {
    && found.Keys == m.library.videos.Keys - todo
    && forall v :: v in found ==> IntentOf(m, v) == Ok(found[v])
  }

  function WithIntent(found: Intents, v: VideoId, intent: Result<Intent, RebuildError>): Result<Intents, RebuildError> {
    match intent
    case Ok(i) => Ok(found[v := i])
    case Err(e) => Err(e)
  }

  lemma RoutedStep(m: Inputs, todo: set<VideoId>, found: Intents, v: VideoId)
    requires InputsOk(m) && v in todo && v in m.library.videos && RoutedVideos(m, todo, found) && IntentOf(m, v).Ok?
    ensures RoutedVideos(m, todo - {v}, found[v := IntentOf(m, v).value])
  {
  }

  method RouteVideos(
    m: Inputs, g: Grouping, decisions: map<VideoId, Decision>, blockedVideos: set<VideoId>, blockedPaths: set<string>)
    returns (intents: Result<Intents, RebuildError>)
    requires InputsOk(m) && Grouped(m, {}, g) && Decided(m, {}, decisions)
    requires CollisionsKnown(m, {}, blockedVideos) && PathsKnown(m, {}, blockedPaths)
    ensures intents.Ok? && RoutedVideos(m, {}, intents.value)
  {
    intents := Ok(map[]);
    var todo := m.library.videos.Keys;
    while todo != {} && intents.Ok?
      invariant todo <= m.library.videos.Keys && intents.Ok? && RoutedVideos(m, todo, intents.value)
      decreases |todo|
    {
      var v :| v in todo;
      var intent := RouteVideo(m, g, decisions, blockedVideos, blockedPaths, v);
      RoutedStep(m, todo, intents.value, v);
      intents := WithIntent(intents.value, v, intent);
      todo := todo - {v};
    }
  }

  // _build_assignment_intents
  method BuildAssignmentIntents(m: Inputs) returns (intents: Result<Intents, RebuildError>, blockers: set<Blocker>)
    requires InputsOk(m)
    ensures AllRouted(m) && intents == Ok(IntentsOf(m))
    ensures forall v :: v in intents.value ==> GoesByRows(m, v, intents.value[v].place, intents.value[v].title)
    ensures blockers == AuthorityBlockers(m) + SplitBlockers(m) + CollisionBlockers(m, {})
  {
    RoutingIsNeverAmbiguous(m);
    var g, authority := GroupVideos(m);
    var decisions, blockedPaths, splits := DecideGroups(m, g);
    var blockedVideos, collisions := BlockCollisions(m, g, decisions);
    blockers := authority + splits + collisions;
    intents := RouteVideos(m, g, decisions, blockedVideos, blockedPaths);
    assert intents.value == IntentsOf(m);
    IntentsGoByRows(m);
  }

  // ------------------------------------------------------------------ specs and collections

  ghost predicate SpecsKnown(m: Inputs, intents: Intents, todo: set<TitleId>, specs: map<TitleRef, TitleSpec>) {
    && (forall r :: r in specs <==> r.Existing? && r.id in m.library.titles && r.id !in todo && KeepsTitle(m, intents, r.id))
    && (forall r :: r in specs ==> specs[r] == SpecOf(m, r))
  }

  method SpecifyExisting(m: Inputs, intents: Intents, required: set<TitleRef>) returns (specs: map<TitleRef, TitleSpec>)
    requires required == RequiredTitles(intents)
    ensures SpecsKnown(m, intents, {}, specs)
  {
    specs := map[];
    var todo := m.library.titles.Keys;
    while todo != {}
      invariant todo <= m.library.titles.Keys && SpecsKnown(m, intents, todo, specs)
      decreases |todo|
    {
      var t :| t in todo;
      var title := m.library.titles[t];
      if Protected(title) || Existing(t) in required {
        specs := specs[Existing(t) := ExistingSpec(m, title)];
      }
      todo := todo - {t};
    }
  }

  // The specifications after the intents outside `todo`; planned titles need their inferred identity.
  ghost predicate PlannedSpecs(
    m: Inputs, intents: Intents, todo: set<VideoId>, base: map<TitleRef, TitleSpec>, specs: map<TitleRef, TitleSpec>)
  {
    && (forall r :: r in specs <==> r in base || PlannedBy(m, intents, intents.Keys - todo, r))
    && (forall r :: r in specs ==> specs[r] == SpecOf(m, r))
  }

  ghost predicate PlannedBy(m: Inputs, intents: Intents, seen: set<VideoId>, r: TitleRef) {
    r.Planned? && exists v :: v in seen && v in intents && intents[v].title == Some(r)
  }

  method SpecifyPlanned(m: Inputs, intents: Intents, base: map<TitleRef, TitleSpec>)
    returns (specs: Result<map<TitleRef, TitleSpec>, RebuildError>)
    requires forall r :: r in base ==> base[r] == SpecOf(m, r)
    requires forall v :: v in intents && intents[v].title.Some? ==> OwnerExists(m, intents[v].title.value)
    ensures specs.Ok? && PlannedSpecs(m, intents, {}, base, specs.value)
  {
    specs := Ok(base);
    var todo := intents.Keys;
    while todo != {} && specs.Ok?
      invariant todo <= intents.Keys && specs.Ok? && PlannedSpecs(m, intents, todo, base, specs.value)
      decreases |todo|
    {
      var v :| v in todo;
      var r := intents[v].title;
      PlannedStep(m, intents, todo, base, specs.value, v);
      if r.Some? && r.value.Planned? && r.value !in specs.value {
        specs := if 1 <= r.value.token <= |m.inferred| then Ok(specs.value[r.value := SpecOf(m, r.value)]) else Err(MissingEvidence);
      }
      todo := todo - {v};
    }
  }

  lemma PlannedStep(
    m: Inputs, intents: Intents, todo: set<VideoId>, base: map<TitleRef, TitleSpec>, specs: map<TitleRef, TitleSpec>,
    v: VideoId)
    requires v in todo && v in intents && PlannedSpecs(m, intents, todo, base, specs)
    ensures var r := intents[v].title;
      PlannedSpecs(m, intents, todo - {v}, base,
                   if r.Some? && r.value.Planned? && r.value !in specs then specs[r.value := SpecOf(m, r.value)] else specs)
  {
    assert intents.Keys - (todo - {v}) == (intents.Keys - todo) + {v};
    forall r
      ensures PlannedBy(m, intents, intents.Keys - (todo - {v}), r) <==>
        PlannedBy(m, intents, intents.Keys - todo, r) || (r.Planned? && intents[v].title == Some(r))
    {
    }
  }

  // _build_title_specs
  method BuildTitleSpecs(m: Inputs, intents: Intents) returns (specs: Result<map<TitleRef, TitleSpec>, RebuildError>)
    requires InputsOk(m) && AllRouted(m) && intents == IntentsOf(m)
    ensures specs == Ok(TitleSpecs(m, intents))
  {
    var required := set v | v in intents && intents[v].title.Some? :: intents[v].title.value;
    assert required == RequiredTitles(intents);
    forall v | v in intents && intents[v].title.Some?
      ensures OwnerExists(m, intents[v].title.value)
    {
      IntentOwnerExists(m, v);
    }
    var base := SpecifyExisting(m, intents, required);
    specs := SpecifyPlanned(m, intents, base);
    AllSpecified(m, intents, base, specs.value);
    RequiredTitlesAreSpecified(m);
    specs := if exists r :: r in required && r !in specs.value then Err(MissingOwner) else specs;
  }

  lemma AllSpecified(m: Inputs, intents: Intents, base: map<TitleRef, TitleSpec>, specs: map<TitleRef, TitleSpec>)
    requires SpecsKnown(m, intents, {}, base) && PlannedSpecs(m, intents, {}, base, specs)
    requires forall v :: v in intents && intents[v].title.Some? ==> OwnerExists(m, intents[v].title.value)
    ensures specs == TitleSpecs(m, intents)
  {
    forall r
      ensures r in specs <==> r in SpecRefs(m, intents)
    {
      PlannedIff(m, intents, r);
    }
  }

  lemma PlannedIff(m: Inputs, intents: Intents, r: TitleRef)
    requires forall v :: v in intents && intents[v].title.Some? ==> OwnerExists(m, intents[v].title.value)
    ensures PlannedBy(m, intents, intents.Keys, r) <==>
      r in RequiredTitles(intents) && r.Planned? && 1 <= r.token <= |m.inferred|
  {
    if r in RequiredTitles(intents) {
      var v :| v in intents && intents[v].title.Some? && intents[v].title.value == r;
      assert intents[v].title == Some(r);
    }
  }

  // _build_collection_identities: the places the plan keeps.
  method BuildKeptPlaces(m: Inputs, intents: Intents, specs: map<TitleRef, TitleSpec>) returns (kept: set<string>)
    ensures kept == KeptPlaces(m, intents, specs)
  {
    var required := set v | v in intents && intents[v].place.Some? :: intents[v].place.value;
    required := required + set r | r in specs && specs[r].collection.Some? :: specs[r].collection.value;
    required := required + set c | c in m.library.collections && HasUserState(m.library.collections[c]);
    kept := set c | c in required && (c in m.library.collections || c in m.parsed);
  }

  // Projecting the videos raises for the first one whose title lies elsewhere.
  method Project(intents: Intents, specs: map<TitleRef, TitleSpec>) returns (r: Result<(), RebuildError>)
    requires RequiredTitles(intents) <= specs.Keys
    ensures r.Ok? <==> Agrees(intents, specs)
    ensures r.Err? ==> r.error == InconsistentAssignment
  {
    r := Ok(());
    var todo := intents.Keys;
    while todo != {} && r.Ok?
      invariant todo <= intents.Keys
      invariant r.Ok? ==> forall v :: v in intents && v !in todo ==> AgreesOn(intents[v], specs)
      invariant r.Err? ==> r.error == InconsistentAssignment && exists v :: v in intents && !AgreesOn(intents[v], specs)
      decreases |todo|
    {
      var v :| v in todo;
      if !AgreesOn(intents[v], specs) {
        r := Err(InconsistentAssignment);
      }
      todo := todo - {v};
    }
  }

  lemma AllBlockers(m: Inputs, preview: Preview, blockers: set<Blocker>, recaps: set<Blocker>)
    requires InputsOk(m) && blockers == AuthorityBlockers(m) + SplitBlockers(m) + CollisionBlockers(m, {})
    requires recaps == set v | v in preview.recaps :: RecapOutsideSeason(v)
    ensures blockers + recaps == HardBlockers(m, preview)
  {
    assert CollisionBlockers(m, {}) == set v | v in m.library.videos && LocatorCollides(m, v) :: LocatorCollision(v);
  }

  // build_hierarchy_rebuild_plan: the only defensive raise it can reach is the inconsistent
  // assignment, it does so exactly when some video is displaced, and the plan it returns is the one
  // specified.
  method BuildPlan(m: Inputs, preview: Preview) returns (plan: Result<Plan, RebuildError>)
    requires InputsOk(m)
    ensures AllRouted(m)
    ensures plan.Ok? ==> IsPlan(m, preview, plan.value)
    ensures plan.Ok? ==> forall v :: v in plan.value.assignments ==>
      GoesByRows(m, v, plan.value.assignments[v].place, plan.value.assignments[v].title)
    ensures plan.Err? <==> exists v :: v in m.library.videos && Displaced(m, v)
    ensures plan.Err? ==> plan.error == InconsistentAssignment
  {
    var built, blockers := BuildAssignmentIntents(m);
    var intents := built.value;
    var specified := BuildTitleSpecs(m, intents);
    var specs := specified.value;
    RequiredTitlesAreSpecified(m);
    SpecsAreOk(m, intents);
    AgreesIff(m);
    var projected := Project(intents, specs);
    if projected.Err? {
      return Err(projected.error);
    }
    var kept := BuildKeptPlaces(m, intents, specs);
    var recaps := set v | v in preview.recaps :: RecapOutsideSeason(v);
    AllBlockers(m, preview, blockers, recaps);
    plan := Ok(Plan(
      m.library, CollectionItems(m, preview, kept), TitleItems(m, specs), Assignments(intents),
      ChangedNumbering(m, preview), blockers + recaps));
  }
}
