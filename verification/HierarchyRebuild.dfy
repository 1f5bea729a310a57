/**
 The hierarchy rebuild as values: the library state, the evidence the planner reads, the
 assignment intent of each video, the title specifications, the collections the plan keeps, and
 the plan itself.  The imperative builders and the apply are proved against these functions.
*/
module HierarchyRebuild {
  import opened Basics

  const ROOT_FOLDER := "."

  type VideoId = nat
  type TitleId = nat

  // ------------------------------------------------------------------------- the library

  datatype CollectionFacts = CollectionFacts(localTitle: string, normalized: string, periodHint: Option<string>)

  datatype TitleFacts = TitleFacts(
    localTitle: string, normalized: string, partType: string, season: Option<int>, part: Option<int>,
    seasonLabel: Option<string>, folder: Option<string>, sortOrder: int)

  datatype HierarchyState = HierarchyState(status: string, note: Option<string>, verified: bool)

  datatype Collection = Collection(
    facts: CollectionFacts, hierarchy: HierarchyState, displayTitle: Option<string>, namingChoice: bool)

  // `selectors` are the explicit video selectors, `userData` the other protection reasons that hold.
  datatype Title = Title(
    locator: string, collection: Option<string>, facts: TitleFacts, manualOverride: bool, verified: bool,
    splitRule: bool, malformedRule: bool, selectors: set<VideoId>, variantGroups: set<nat>, userData: set<string>)

  datatype Numbering = Unknown | Derived(
    local: Option<int>, season: Option<int>, absolute: Option<int>, external: Option<int>, source: string)

  // `collapses` and `supplementary` are the classification without the current title.
  datatype Video = Video(
    path: string, root: bool, title: Option<TitleId>, collection: Option<string>, collapses: bool,
    supplementary: bool, variantGroup: Option<nat>, numbering: Numbering)

  datatype Library = Library(
    collections: map<string, Collection>, titles: map<TitleId, Title>, videos: map<VideoId, Video>)

  // Foreign keys point at rows; explicit selectors may dangle.
  ghost predicate Consistent(s: Library) {
    && (forall t :: t in s.titles && s.titles[t].collection.Some? ==> s.titles[t].collection.value in s.collections)
    && (forall v :: v in s.videos && s.videos[v].title.Some? ==> s.videos[v].title.value in s.titles)
    && (forall v :: v in s.videos && s.videos[v].collection.Some? ==> s.videos[v].collection.value in s.collections)
  }

  predicate HasUserState(c: Collection) {
    || c.displayTitle.Some? || c.namingChoice || c.hierarchy.verified
    || c.hierarchy.status != "automatic" || c.hierarchy.note.Some?
  }

  predicate RequiresPreservation(t: Title) {
    t.manualOverride || t.verified
  }

  predicate HasSelector(t: Title) {
    t.selectors != {} || t.splitRule
  }

  predicate Protected(t: Title) {
    RequiresPreservation(t) || t.selectors != {} || t.variantGroups != {} || t.userData != {}
  }

  // ------------------------------------------------------------------------ the evidence

  datatype CollectionIdentity = CollectionIdentity(path: string, facts: CollectionFacts)
  datatype TitleIdentity = TitleIdentity(path: string, facts: TitleFacts)
  datatype Identity = Identity(collection: CollectionIdentity, title: TitleIdentity)

  datatype Decision =
    | Unique(target: TitleId)
    | Conflict
    | Unmatched
    | NotRequired

  // The manual-split evaluation of one collection's group, and its historical ambiguities.
  datatype Splitter = Splitter(
    evaluate: (string, set<VideoId>) -> map<VideoId, Decision>,
    historical: (string, set<VideoId>) -> set<VideoId>)

  datatype Inputs = Inputs(
    library: Library, hierarchy: map<string, Identity>, inferred: seq<Identity>,
    parsed: map<string, CollectionIdentity>, splitter: Splitter)

  ghost predicate HierarchyOk(m: Inputs) {
    && (forall v :: v in m.library.videos && !m.library.videos[v].root ==> m.library.videos[v].path in m.hierarchy)
    && (forall p :: p in m.hierarchy ==> m.hierarchy[p] in m.inferred)
    && Distinct(m.inferred)
    && (forall h :: h in m.inferred ==> h.collection.path in m.parsed)
  }

  // A unique match targets a title of the evaluated collection that carries a selector.
  ghost predicate SplitterOk(m: Inputs) {
    forall c, g, v :: c in m.library.collections && v in m.splitter.evaluate(c, g) ==>
      v in g && (m.splitter.evaluate(c, g)[v].Unique? ==>
        var t := m.splitter.evaluate(c, g)[v].target; t in m.library.titles && m.library.titles[t].collection == Some(c))
  }

  ghost predicate InputsOk(m: Inputs) {
    Consistent(m.library) && HierarchyOk(m) && SplitterOk(m)
  }

  lemma SingletonIsUnique<T>(s: set<T>)
    requires |s| == 1
    ensures forall x, y :: x in s && y in s ==> x == y
  {
    forall x, y | x in s && y in s
      ensures x == y
    {
      assert |s - {x}| == 0;
    }
  }

  // The one element of a singleton.
  function Only<T(==)>(s: set<T>): (x: T)
    requires |s| == 1
    ensures s == {x}
  {
    SingletonIsUnique(s);
    var x :| x in s;
    x
  }

  // ---------------------------------------------------------- locators and automatic routing

  function Locators(m: Inputs, locator: string): set<TitleId> {
    set t | t in m.library.titles && m.library.titles[t].locator == locator
  }

  function InferredAt(m: Inputs, locator: string): set<nat> {
    set k | 0 <= k < |m.inferred| && m.inferred[k].title.path == locator
  }

  function PreservedTitle(m: Inputs, video: Video): Option<TitleId>
    requires video in m.library.videos.Values && Consistent(m.library)
  {
    if video.title.Some? && m.library.titles[video.title.value].collection.Some?
       && RequiresPreservation(m.library.titles[video.title.value]) then video.title
    else None
  }

  function AutomaticTitle(m: Inputs, identity: Identity): Option<TitleId> {
    var found := Locators(m, identity.title.path);
    if |found| == 1 then Some(Only(found)) else None
  }

  // Where a title itself belongs; a path that is no collection yet stays the inferred one.
  function PlacementPath(t: Title, inferredPath: string): string {
    if t.collection.Some? && RequiresPreservation(t) then t.collection.value else inferredPath
  }

  function Candidate(m: Inputs, video: Video): (c: Option<(TitleId, string)>)
    requires video in m.library.videos.Values && Consistent(m.library) && HierarchyOk(m)
    ensures c.Some? ==> c.value.0 in m.library.titles
  {
    if video.root then None
    else
      var identity := m.hierarchy[video.path];
      var preserved := PreservedTitle(m, video);
      var title := if preserved.Some? then preserved else AutomaticTitle(m, identity);
      if title.None? then None
      else Some((title.value, PlacementPath(m.library.titles[title.value], identity.collection.path)))
  }

  // ---------------------------------------------------------------- explicit split authority

  function ExplicitTargets(m: Inputs, v: VideoId): set<TitleId> {
    set t | t in m.library.titles && v in m.library.titles[t].selectors
  }

  function ExplicitPaths(m: Inputs, v: VideoId): set<string> {
    set t | t in ExplicitTargets(m, v) && m.library.titles[t].collection.Some? :: m.library.titles[t].collection.value
  }

  predicate Orphaned(m: Inputs, v: VideoId) {
    exists t :: t in ExplicitTargets(m, v) && m.library.titles[t].collection.None?
  }

  predicate AcrossCollections(m: Inputs, v: VideoId) {
    |ExplicitPaths(m, v)| > 1
  }

  // A collection with dangling selectors, or with a video selected across collections.
  ghost predicate BlockedByAuthority(m: Inputs, c: string) {
    || (exists t, v :: t in m.library.titles && v in m.library.titles[t].selectors && v !in m.library.videos
          && m.library.titles[t].collection == Some(c))
    || (exists v :: v in m.library.videos && AcrossCollections(m, v) && c in ExplicitPaths(m, v))
  }

  // ------------------------------------------------------------------- preliminary placement

  function MeaningfulRoot(s: Library, video: Video): Option<string>
    requires video.title.Some? ==> video.title.value in s.titles
  {
    var ofTitle := if video.title.Some? then s.titles[video.title.value].collection else None;
    if ofTitle.Some? && ofTitle.value != ROOT_FOLDER then ofTitle
    else if video.collection.Some? && video.collection.value != ROOT_FOLDER then video.collection
    else None
  }

  function SplitTitles(m: Inputs, c: string): set<TitleId> {
    set t | t in m.library.titles && m.library.titles[t].collection == Some(c) && HasSelector(m.library.titles[t])
  }

  function LegacyConflict(m: Inputs, video: Video): Option<string>
    requires video in m.library.videos.Values && Consistent(m.library)
  {
    if video.title.None? && video.collection.Some?
       && m.library.collections[video.collection.value].hierarchy.status == "conflict"
       && SplitTitles(m, video.collection.value) != {} then video.collection
    else None
  }

  function Preliminary(m: Inputs, v: VideoId): Option<string>
    requires v in m.library.videos && Consistent(m.library) && HierarchyOk(m)
  {
    var video := m.library.videos[v];
    var candidate := Candidate(m, video);
    if |ExplicitPaths(m, v)| == 1 then Some(Only(ExplicitPaths(m, v)))
    else if video.root then MeaningfulRoot(m.library, video)
    else if candidate.Some? then Some(candidate.value.1)
    else if LegacyConflict(m, video).Some? then LegacyConflict(m, video)
    else Some(m.hierarchy[video.path].collection.path)
  }

  ghost function Group(m: Inputs, c: string): set<VideoId>
    requires Consistent(m.library) && HierarchyOk(m)
  {
    set v | v in m.library.videos && Preliminary(m, v) == Some(c)
  }

  // --------------------------------------------------------------------------- decisions

  ghost predicate ReachesSplit(m: Inputs, c: string)
    requires Consistent(m.library) && HierarchyOk(m)
  {
    && Group(m, c) != {} && !BlockedByAuthority(m, c)
    && c in m.library.collections && SplitTitles(m, c) != {}
  }

  predicate MalformedSplit(m: Inputs, c: string) {
    exists t :: t in SplitTitles(m, c) && m.library.titles[t].malformedRule
  }

  ghost predicate BlockedBySplit(m: Inputs, c: string)
    requires Consistent(m.library) && HierarchyOk(m)
  {
    ReachesSplit(m, c) && (MalformedSplit(m, c) || m.splitter.historical(c, Group(m, c)) != {})
  }

  ghost predicate BlockedPath(m: Inputs, c: string)
    requires Consistent(m.library) && HierarchyOk(m)
  {
    BlockedByAuthority(m, c) || BlockedBySplit(m, c)
  }

  ghost function DecisionOf(m: Inputs, v: VideoId): Option<Decision>
    requires v in m.library.videos && Consistent(m.library) && HierarchyOk(m)
  {
    var place := Preliminary(m, v);
    if place.None? || !ReachesSplit(m, place.value) || MalformedSplit(m, place.value) then None
    else
      var decisions := m.splitter.evaluate(place.value, Group(m, place.value));
      if v in decisions && v !in m.splitter.historical(place.value, Group(m, place.value))
      then Some(decisions[v]) else None
  }

  // The locator of a video left to automatic routing has several owners or several identities.
  ghost predicate LocatorCollides(m: Inputs, v: VideoId)
    requires v in m.library.videos && Consistent(m.library) && HierarchyOk(m)
  {
    var video := m.library.videos[v];
    && !video.root && Candidate(m, video).None?
    && (DecisionOf(m, v).None? || DecisionOf(m, v).value.NotRequired?)
    && var locator := m.hierarchy[video.path].title.path;
    && (|InferredAt(m, locator)| > 1 || |Locators(m, locator)| > 1)
  }

  ghost predicate BlockedVideo(m: Inputs, v: VideoId)
    requires v in m.library.videos && Consistent(m.library) && HierarchyOk(m)
  {
    Orphaned(m, v) || AcrossCollections(m, v) || LocatorCollides(m, v)
  }

  // ---------------------------------------------------------------------------- intents

  datatype TitleRef = Existing(id: TitleId) | Planned(token: nat)

  datatype Reason =
    | AutomaticPath | ManualSplitUnique | ManualSplitConflict | ManualSplitUnmatched
    | RootUnassigned | RootPreserved | Current

  datatype Intent = Intent(place: Option<string>, title: Option<TitleRef>, reason: Reason)

  datatype RebuildError =
    | AmbiguousLocator          // reached automatic routing
    | MissingEvidence           // a planned title without its inferred identity
    | MissingOwner              // a reference to no title
    | InconsistentAssignment    // title and video in different collections
    | StalePlan
    | BlockedPlan
    | TitleNotEmpty
    | CollectionNotEmpty
    | AssignmentRefused         // the target does not accept the video
    | NotRemoved                // verification: a removed row is still there
    | DeviatingCollection       // verification: a collection is not the previewed one
    | DeviatingTitle
    | DeviatingAssignment
    | InconsistentKey
    | DeviatingNumbering

  function IndexOf<T(==)>(xs: seq<T>, x: T): (i: nat)
    requires x in xs
    ensures i < |xs| && xs[i] == x
  {
    if xs[0] == x then 0 else 1 + IndexOf(xs[1..], x)
  }

  // Planned references number the inferred identities from one.
  function Token(inferred: seq<Identity>, identity: Identity): nat
    requires identity in inferred
  {
    IndexOf(inferred, identity) + 1
  }

  function AutomaticRef(m: Inputs, identity: Identity): Result<TitleRef, RebuildError>
    requires identity in m.inferred
  {
    var found := Locators(m, identity.title.path);
    if |found| == 1 then Ok(Existing(Only(found)))
    else if found != {} then Err(AmbiguousLocator)
    else Ok(Planned(Token(m.inferred, identity)))
  }

  function CurrentIntent(m: Inputs, v: VideoId): Intent
    requires v in m.library.videos && Consistent(m.library) && HierarchyOk(m)
  {
    var video := m.library.videos[v];
    var place := if video.title.Some? then m.library.titles[video.title.value].collection else video.collection;
    Intent(
      if place.Some? then place else Preliminary(m, v),
      if video.title.Some? then Some(Existing(video.title.value)) else None,
      Current)
  }

  // The current title, if it lies in the given collection.
  function TitleIn(s: Library, video: Video, place: Option<string>): Option<TitleRef>
    requires video.title.Some? ==> video.title.value in s.titles
  {
    if video.title.Some? && s.titles[video.title.value].collection == place then Some(Existing(video.title.value)) else None
  }

  function AutomaticIntent(m: Inputs, identity: Identity): Result<Intent, RebuildError>
    requires identity in m.inferred
  {
    match AutomaticRef(m, identity)
    case Ok(title) => Ok(Intent(Some(identity.collection.path), Some(title), AutomaticPath))
    case Err(e) => Err(e)
  }

  // What the planner weighs for one video.
  datatype Evidence = Evidence(
    blocked: bool, current: Intent, place: Option<string>, candidate: Option<(TitleId, string)>,
    decision: Option<Decision>, meaningful: Option<string>)

  datatype Choice = Settled(intent: Intent) | Routed

  // The branches of the intent loop; Routed asks automatic routing for the title.
  function Choose(s: Library, video: Video, e: Evidence): Choice
    requires video.title.Some? ==> video.title.value in s.titles
    requires e.decision.Some? && e.decision.value.Unique? ==> e.decision.value.target in s.titles
  {
    if e.blocked then Settled(e.current)
    else
      match e.decision
      case Some(Unique(target)) =>
        Settled(Intent(s.titles[target].collection, Some(Existing(target)), ManualSplitUnique))
      case Some(Conflict) => Settled(Intent(e.place, None, ManualSplitConflict))
      case Some(Unmatched) => Settled(Intent(e.place, None, ManualSplitUnmatched))
      case Some(NotRequired) =>
        if e.candidate.Some? then
          Settled(Intent(Some(e.candidate.value.1), Some(Existing(e.candidate.value.0)), AutomaticPath))
        else if video.root then
          Settled(Intent(e.meaningful, TitleIn(s, video, e.meaningful),
                         if e.meaningful.Some? then RootPreserved else RootUnassigned))
        else if video.collapses || video.supplementary then
          Settled(Intent(e.place, if e.place.Some? then TitleIn(s, video, e.place) else None, Current))
        else Routed
      case None =>
        if video.root then
          if e.meaningful.None? then Settled(Intent(None, None, RootUnassigned))
          else Settled(Intent(e.meaningful, TitleIn(s, video, e.meaningful), RootPreserved))
        else if e.candidate.Some? then
          Settled(Intent(Some(e.candidate.value.1), Some(Existing(e.candidate.value.0)), AutomaticPath))
        else Routed
  }

  ghost predicate Blocked(m: Inputs, v: VideoId)
    requires v in m.library.videos && Consistent(m.library) && HierarchyOk(m)
  {
    BlockedVideo(m, v) || (Preliminary(m, v).Some? && BlockedPath(m, Preliminary(m, v).value))
  }

  ghost function EvidenceOf(m: Inputs, v: VideoId): Evidence
    requires v in m.library.videos && Consistent(m.library) && HierarchyOk(m)
  {
    var video := m.library.videos[v];
    Evidence(Blocked(m, v), CurrentIntent(m, v), Preliminary(m, v), Candidate(m, video), DecisionOf(m, v),
             MeaningfulRoot(m.library, video))
  }

  ghost function ChoiceOf(m: Inputs, v: VideoId): Choice
    requires v in m.library.videos && InputsOk(m)
  {
    SplitTargetKnown(m, v);
    Choose(m.library, m.library.videos[v], EvidenceOf(m, v))
  }

  lemma OnlyPathsAreRouted(s: Library, video: Video, e: Evidence)
    requires video.title.Some? ==> video.title.value in s.titles
    requires e.decision.Some? && e.decision.value.Unique? ==> e.decision.value.target in s.titles
    ensures Choose(s, video, e).Routed? ==>
      !e.blocked && !video.root && e.candidate.None? && (e.decision.None? || e.decision.value.NotRequired?)
  {
  }

  ghost function IntentOf(m: Inputs, v: VideoId): Result<Intent, RebuildError>
    requires v in m.library.videos && InputsOk(m)
  {
    match ChoiceOf(m, v)
    case Settled(intent) => Ok(intent)
    case Routed =>
      OnlyPathsAreRouted(m.library, m.library.videos[v], EvidenceOf(m, v));
      AutomaticIntent(m, m.hierarchy[m.library.videos[v].path])
  }

  lemma SplitTargetKnown(m: Inputs, v: VideoId)
    requires v in m.library.videos && InputsOk(m)
    ensures DecisionOf(m, v).Some? && DecisionOf(m, v).value.Unique? ==>
      var t := DecisionOf(m, v).value.target;
      t in m.library.titles && m.library.titles[t].collection == Preliminary(m, v)
  {
  }

  // ------------------------------------------------------------------- specs and collections

  type Intents = map<VideoId, Intent>

  ghost function RequiredTitles(intents: Intents): set<TitleRef> {
    set v | v in intents && intents[v].title.Some? :: intents[v].title.value
  }

  // What the plan keeps of a title: the inferred identity that rewrites it, and its collection.
  datatype TitleSpec = TitleSpec(identity: Option<TitleIdentity>, collection: Option<string>)

  // The identity a stored title's locator points at, when both sides are alone there.
  function SoleIdentity(m: Inputs, locator: string): Option<Identity> {
    if |InferredAt(m, locator)| == 1 && |Locators(m, locator)| == 1
    then
      assert Only(InferredAt(m, locator)) in InferredAt(m, locator);
      Some(m.inferred[Only(InferredAt(m, locator))])
    else None
  }

  function ExistingSpec(m: Inputs, t: Title): TitleSpec {
    var identity := SoleIdentity(m, t.locator);
    if identity.Some? && !RequiresPreservation(t) then
      TitleSpec(Some(identity.value.title), Some(identity.value.collection.path))
    else if t.collection.Some? then TitleSpec(None, t.collection)
    else TitleSpec(None, if identity.Some? then Some(identity.value.collection.path) else None)
  }

  ghost predicate KeepsTitle(m: Inputs, intents: Intents, t: TitleId)
    requires t in m.library.titles
  {
    Protected(m.library.titles[t]) || Existing(t) in RequiredTitles(intents)
  }

  ghost function TitleSpecs(m: Inputs, intents: Intents): map<TitleRef, TitleSpec> {
    map r: TitleRef | r in SpecRefs(m, intents) :: SpecOf(m, r)
  }

  ghost function SpecRefs(m: Inputs, intents: Intents): set<TitleRef> {
    (set t | t in m.library.titles && KeepsTitle(m, intents, t) :: Existing(t))
    + (set r | r in RequiredTitles(intents) && r.Planned? && 1 <= r.token <= |m.inferred|)
  }

  function SpecOf(m: Inputs, r: TitleRef): TitleSpec {
    if r.Existing? && r.id in m.library.titles then ExistingSpec(m, m.library.titles[r.id])
    else if r.Planned? && 1 <= r.token <= |m.inferred| then
      TitleSpec(Some(m.inferred[r.token - 1].title), Some(m.inferred[r.token - 1].collection.path))
    else TitleSpec(None, None)
  }

  ghost function RequiredPlaces(m: Inputs, intents: Intents, specs: map<TitleRef, TitleSpec>): set<string> {
    (set v | v in intents && intents[v].place.Some? :: intents[v].place.value)
    + (set r | r in specs && specs[r].collection.Some? :: specs[r].collection.value)
    + (set c | c in m.library.collections && HasUserState(m.library.collections[c]))
  }

  ghost function KeptPlaces(m: Inputs, intents: Intents, specs: map<TitleRef, TitleSpec>): set<string> {
    set c | c in RequiredPlaces(m, intents, specs) && (c in m.library.collections || c in m.parsed)
  }

  // ------------------------------------------------------------------------------ the plan

  datatype Action = Create | Update | Preserve | Remove

  datatype CollectionSnapshot = CollectionSnapshot(facts: CollectionFacts, hierarchy: HierarchyState)
  datatype TitleSnapshot = TitleSnapshot(locator: string, collection: Option<string>, facts: TitleFacts)

  datatype CollectionItem = CollectionItem(action: Action, desired: Option<CollectionSnapshot>)
  datatype TitleItem = TitleItem(action: Action, desired: Option<TitleSnapshot>)
  datatype Assignment = Assignment(place: Option<string>, title: Option<TitleRef>)

  datatype Plan = Plan(
    source: Library, collections: map<string, CollectionItem>, titles: map<TitleRef, TitleItem>,
    assignments: map<VideoId, Assignment>, numbering: map<VideoId, Numbering>, hardBlockers: set<Blocker>)

  // What evaluating the projection yields: hierarchy state per collection, numbering, Recaps left
  // outside any season.
  datatype Preview = Preview(
    hierarchy: map<string, HierarchyState>, numbering: map<VideoId, Numbering>, recaps: set<VideoId>)

  // The blockers that prevent an apply.
  datatype Blocker =
    | DanglingAuthority(title: TitleId)
    | OrphanAuthority(video: VideoId)
    | CrossCollectionAuthority(video: VideoId)
    | MalformedRule(title: TitleId)
    | HistoricalConflict(video: VideoId)
    | LocatorCollision(video: VideoId)
    | RecapOutsideSeason(video: VideoId)

  ghost function AuthorityBlockers(m: Inputs): set<Blocker> {
    (set t, v | t in m.library.titles && v in m.library.titles[t].selectors && v !in m.library.videos :: DanglingAuthority(t))
    + (set v | v in m.library.videos && Orphaned(m, v) :: OrphanAuthority(v))
    + (set v | v in m.library.videos && AcrossCollections(m, v) :: CrossCollectionAuthority(v))
  }

  ghost function SplitBlockers(m: Inputs): set<Blocker>
    requires Consistent(m.library) && HierarchyOk(m)
  {
    (set c, t | c in m.library.collections && ReachesSplit(m, c) && t in SplitTitles(m, c) && m.library.titles[t].malformedRule
       :: MalformedRule(t))
    + (set c, v | c in m.library.collections && ReachesSplit(m, c) && !MalformedSplit(m, c)
         && v in m.splitter.historical(c, Group(m, c)) :: HistoricalConflict(v))
  }

  ghost function HardBlockers(m: Inputs, preview: Preview): set<Blocker>
    requires Consistent(m.library) && HierarchyOk(m)
  {
    AuthorityBlockers(m) + SplitBlockers(m)
    + (set v | v in m.library.videos && LocatorCollides(m, v) :: LocatorCollision(v))
    + (set v | v in preview.recaps :: RecapOutsideSeason(v))
  }

  function ActionFor<T(==)>(current: Option<T>, desired: Option<T>): Action {
    if current.None? then Create
    else if desired.None? then Remove
    else if current != desired then Update
    else Preserve
  }

  function SnapshotOfCollection(c: Collection): CollectionSnapshot {
    CollectionSnapshot(c.facts, c.hierarchy)
  }

  function SnapshotOfTitle(t: Title): TitleSnapshot {
    TitleSnapshot(t.locator, t.collection, t.facts)
  }

  function DesiredCollection(m: Inputs, preview: Preview, c: string): CollectionSnapshot
    requires c in m.library.collections || c in m.parsed
  {
    CollectionSnapshot(
      if c in m.parsed then m.parsed[c].facts else m.library.collections[c].facts,
      if c in preview.hierarchy then preview.hierarchy[c]
      else if c in m.library.collections then m.library.collections[c].hierarchy
      else HierarchyState("automatic", None, false))
  }

  function CollectionItems(m: Inputs, preview: Preview, kept: set<string>): map<string, CollectionItem>
    requires forall c :: c in kept ==> c in m.library.collections || c in m.parsed
  {
    map c | c in m.library.collections.Keys + kept ::
      var current := if c in m.library.collections then Some(SnapshotOfCollection(m.library.collections[c])) else None;
      var desired := if c in kept then Some(DesiredCollection(m, preview, c)) else None;
      CollectionItem(ActionFor(current, desired), desired)
  }

  function DesiredTitle(m: Inputs, r: TitleRef, spec: TitleSpec): TitleSnapshot
    requires spec.identity.None? ==> r.Existing? && r.id in m.library.titles
  {
    if spec.identity.Some? then TitleSnapshot(spec.identity.value.path, spec.collection, spec.identity.value.facts)
    else TitleSnapshot(m.library.titles[r.id].locator, spec.collection, m.library.titles[r.id].facts)
  }

  ghost predicate SpecsOk(m: Inputs, specs: map<TitleRef, TitleSpec>) {
    forall r :: r in specs && specs[r].identity.None? ==> r.Existing? && r.id in m.library.titles
  }

  function TitleItems(m: Inputs, specs: map<TitleRef, TitleSpec>): map<TitleRef, TitleItem>
    requires SpecsOk(m, specs)
  {
    map r: TitleRef | r in specs.Keys + (set t | t in m.library.titles :: Existing(t)) ::
      var current := if r.Existing? && r.id in m.library.titles then Some(SnapshotOfTitle(m.library.titles[r.id])) else None;
      var desired := if r in specs then Some(DesiredTitle(m, r, specs[r])) else None;
      TitleItem(ActionFor(current, desired), desired)
  }

  // A projected title lies in the collection its video is sent to.
  predicate AgreesOn(intent: Intent, specs: map<TitleRef, TitleSpec>) {
    intent.title.Some? ==> intent.title.value in specs && specs[intent.title.value].collection == intent.place
  }

  ghost predicate Agrees(intents: Intents, specs: map<TitleRef, TitleSpec>) {
    forall v :: v in intents ==> AgreesOn(intents[v], specs)
  }

  ghost predicate AllRouted(m: Inputs)
    requires InputsOk(m)
  {
    forall v :: v in m.library.videos ==> IntentOf(m, v).Ok?
  }

  ghost function IntentsOf(m: Inputs): Intents
    requires InputsOk(m) && AllRouted(m)
  {
    map v | v in m.library.videos :: IntentOf(m, v).value
  }

  // Only changed numbering is planned.
  function ChangedNumbering(m: Inputs, preview: Preview): map<VideoId, Numbering> {
    map v | v in preview.numbering && v in m.library.videos && preview.numbering[v] != m.library.videos[v].numbering
      :: preview.numbering[v]
  }

  function Assignments(intents: Intents): map<VideoId, Assignment> {
    map v | v in intents :: Assignment(intents[v].place, intents[v].title)
  }

  // The plan built from the inputs and the evaluation of its projection.
  ghost predicate IsPlan(m: Inputs, preview: Preview, plan: Plan)
    requires InputsOk(m) && AllRouted(m)
  {
    var intents := IntentsOf(m);
    var specs := TitleSpecs(m, intents);
    && Agrees(intents, specs)
    && SpecsOk(m, specs)
    && plan == Plan(
      m.library, CollectionItems(m, preview, KeptPlaces(m, intents, specs)), TitleItems(m, specs),
      Assignments(intents), ChangedNumbering(m, preview), HardBlockers(m, preview))
  }
}
