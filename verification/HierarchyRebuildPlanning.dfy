/**
 What the planner's phases guarantee each other: its defensive raises are unreachable, planned
 titles have locators nobody holds, and what a plan removes is unprotected and unused.
*/
module HierarchyRebuildPlanning {
  import opened Basics
  import opened HierarchyRebuild

  // --------------------------------------------------------------------- automatic routing

  lemma NotOneNotSeveral<T>(s: set<T>)
    requires |s| != 1 && !(|s| > 1)
    ensures s == {}
  {
  }

  lemma NoCandidateNoSoleOwner(m: Inputs, video: Video)
    requires video in m.library.videos.Values && Consistent(m.library) && HierarchyOk(m)
    requires !video.root && Candidate(m, video).None?
    ensures |Locators(m, m.hierarchy[video.path].title.path)| != 1
  {
  }

  // A video routed automatically has a locator no stored title holds and no other identity shares.
  lemma RoutedIsFree(m: Inputs, v: VideoId)
    requires v in m.library.videos && InputsOk(m) && ChoiceOf(m, v).Routed?
    ensures !m.library.videos[v].root
    ensures var locator := m.hierarchy[m.library.videos[v].path].title.path;
      Locators(m, locator) == {} && |InferredAt(m, locator)| <= 1
  {
    var video := m.library.videos[v];
    var e := EvidenceOf(m, v);
    SplitTargetKnown(m, v);
    OnlyPathsAreRouted(m.library, video, e);
    assert !LocatorCollides(m, v);
    NoCandidateNoSoleOwner(m, video);
    NotOneNotSeveral(Locators(m, m.hierarchy[video.path].title.path));
  }

  // No video reaches automatic routing with an occupied locator.
  lemma VideoIsRouted(m: Inputs, v: VideoId)
    requires v in m.library.videos && InputsOk(m)
    ensures IntentOf(m, v).Ok?
  {
    if ChoiceOf(m, v).Routed? {
      RoutedIsFree(m, v);
    }
  }

  lemma RoutingIsNeverAmbiguous(m: Inputs)
    requires InputsOk(m)
    ensures AllRouted(m)
  {
    forall v | v in m.library.videos
      ensures IntentOf(m, v).Ok?
    {
      VideoIsRouted(m, v);
    }
  }

  ghost predicate SoleAt(m: Inputs, k: nat) {
    && 1 <= k <= |m.inferred|
    && Locators(m, m.inferred[k - 1].title.path) == {}
    && InferredAt(m, m.inferred[k - 1].title.path) == {k - 1}
  }

  lemma AtMostOne(m: Inputs, locator: string, k: nat)
    requires k in InferredAt(m, locator) && |InferredAt(m, locator)| <= 1
    ensures InferredAt(m, locator) == {k}
  {
    var rest := InferredAt(m, locator) - {k};
    assert |rest| == |InferredAt(m, locator)| - 1;
  }

  ghost predicate PlansTitle(m: Inputs, v: VideoId)
    requires v in m.library.videos && InputsOk(m)
  {
    IntentOf(m, v).Ok? && IntentOf(m, v).value.title.Some? && IntentOf(m, v).value.title.value.Planned?
  }

  ghost function PlannedToken(m: Inputs, v: VideoId): nat
    requires v in m.library.videos && InputsOk(m) && PlansTitle(m, v)
  {
    IntentOf(m, v).value.title.value.token
  }

  lemma SettledNeverPlans(s: Library, video: Video, e: Evidence)
    requires video.title.Some? ==> video.title.value in s.titles
    requires e.decision.Some? && e.decision.value.Unique? ==> e.decision.value.target in s.titles
    requires e.current.title.Some? ==> e.current.title.value.Existing?
    ensures var c := Choose(s, video, e);
      c.Settled? && c.intent.title.Some? ==> c.intent.title.value.Existing?
  {
  }

  // Only a video left to automatic routing plans a title.
  lemma PlanningIsRouting(m: Inputs, v: VideoId)
    requires v in m.library.videos && InputsOk(m) && PlansTitle(m, v)
    ensures ChoiceOf(m, v).Routed?
  {
    SplitTargetKnown(m, v);
    SettledNeverPlans(m.library, m.library.videos[v], EvidenceOf(m, v));
  }

  lemma PlannedIntent(m: Inputs, v: VideoId)
    requires v in m.library.videos && InputsOk(m) && PlansTitle(m, v)
    ensures !m.library.videos[v].root
    ensures var identity := m.hierarchy[m.library.videos[v].path];
      && AutomaticIntent(m, identity) == IntentOf(m, v)
      && Locators(m, identity.title.path) == {} && |InferredAt(m, identity.title.path)| <= 1
  {
    PlanningIsRouting(m, v);
    RoutedIsFree(m, v);
  }

  // A title planned for creation has a locator held by no stored title and no other planned one.
  lemma PlannedIsUnclaimed(m: Inputs, v: VideoId, k: nat)
    requires v in m.library.videos && InputsOk(m) && PlansTitle(m, v) && k == PlannedToken(m, v)
    ensures SoleAt(m, k)
    ensures !m.library.videos[v].root && m.inferred[k - 1] == m.hierarchy[m.library.videos[v].path]
  {
    PlannedIntent(m, v);
    RoutedIsUnclaimed(m, m.hierarchy[m.library.videos[v].path]);
  }

  lemma RoutedIsUnclaimed(m: Inputs, identity: Identity)
    requires identity in m.inferred && Locators(m, identity.title.path) == {}
    requires |InferredAt(m, identity.title.path)| <= 1
    ensures var k := Token(m.inferred, identity);
      SoleAt(m, k)
      && AutomaticIntent(m, identity) == Ok(Intent(Some(identity.collection.path), Some(Planned(k)), AutomaticPath))
  {
    var k := Token(m.inferred, identity);
    AtMostOne(m, identity.title.path, k - 1);
  }

  lemma SolesDiffer(m: Inputs, k: nat, l: nat)
    requires SoleAt(m, k) && SoleAt(m, l) && k != l
    ensures m.inferred[k - 1].title.path != m.inferred[l - 1].title.path
  {
    assert l - 1 in InferredAt(m, m.inferred[l - 1].title.path);
  }

  // Two planned titles never share a locator.
  lemma PlannedLocatorsDiffer(m: Inputs, v: VideoId, w: VideoId)
    requires v in m.library.videos && w in m.library.videos && InputsOk(m)
    requires PlansTitle(m, v) && PlansTitle(m, w) && PlannedToken(m, v) != PlannedToken(m, w)
    ensures var k, l := PlannedToken(m, v), PlannedToken(m, w);
      SoleAt(m, k) && SoleAt(m, l) && m.inferred[k - 1].title.path != m.inferred[l - 1].title.path
  {
    var k, l := PlannedToken(m, v), PlannedToken(m, w);
    assert SoleAt(m, k) by { PlannedIsUnclaimed(m, v, k); }
    assert SoleAt(m, l) by { PlannedIsUnclaimed(m, w, l); }
    SolesDiffer(m, k, l);
  }

  // ------------------------------------------------------------------ references are specified

  ghost predicate OwnerExists(m: Inputs, r: TitleRef) {
    if r.Existing? then r.id in m.library.titles else 1 <= r.token <= |m.inferred|
  }

  lemma RoutedOwnerExists(m: Inputs, identity: Identity)
    requires identity in m.inferred && AutomaticIntent(m, identity).Ok?
    ensures OwnerExists(m, AutomaticIntent(m, identity).value.title.value)
  {
    if |Locators(m, identity.title.path)| == 1 {
      assert Only(Locators(m, identity.title.path)) in Locators(m, identity.title.path);
    }
  }

  lemma SettledOwnerExists(s: Library, video: Video, e: Evidence)
    requires video.title.Some? ==> video.title.value in s.titles
    requires e.decision.Some? && e.decision.value.Unique? ==> e.decision.value.target in s.titles
    requires e.candidate.Some? ==> e.candidate.value.0 in s.titles
    requires e.current.title.Some? ==> e.current.title.value.Existing? && e.current.title.value.id in s.titles
    ensures var c := Choose(s, video, e);
      c.Settled? && c.intent.title.Some? ==> c.intent.title.value.Existing? && c.intent.title.value.id in s.titles
  {
  }

  lemma IntentOwnerExists(m: Inputs, v: VideoId)
    requires v in m.library.videos && InputsOk(m) && IntentOf(m, v).Ok? && IntentOf(m, v).value.title.Some?
    ensures OwnerExists(m, IntentOf(m, v).value.title.value)
  {
    if ChoiceOf(m, v).Routed? {
      RoutedIsFree(m, v);
      RoutedOwnerExists(m, m.hierarchy[m.library.videos[v].path]);
    } else {
      SplitTargetKnown(m, v);
      SettledOwnerExists(m.library, m.library.videos[v], EvidenceOf(m, v));
    }
  }

  // No intent references a title that gets no specification.
  lemma RequiredTitlesAreSpecified(m: Inputs)
    requires InputsOk(m) && AllRouted(m)
    ensures RequiredTitles(IntentsOf(m)) <= TitleSpecs(m, IntentsOf(m)).Keys
  {
    var intents := IntentsOf(m);
    forall r | r in RequiredTitles(intents)
      ensures r in SpecRefs(m, intents)
    {
      var v :| v in intents && intents[v].title.Some? && intents[v].title.value == r;
      IntentOwnerExists(m, v);
    }
  }

  lemma SpecsAreOk(m: Inputs, intents: Intents)
    ensures SpecsOk(m, TitleSpecs(m, intents))
  {
  }

  // ------------------------------------------------------------------------ places are kept

  ghost predicate Place(m: Inputs, c: string) {
    c in m.library.collections || c in m.parsed
  }

  lemma SoleExplicitIsPlace(m: Inputs, v: VideoId)
    requires Consistent(m.library) && |ExplicitPaths(m, v)| == 1
    ensures Only(ExplicitPaths(m, v)) in m.library.collections
  {
    assert Only(ExplicitPaths(m, v)) in ExplicitPaths(m, v);
  }

  lemma CandidateIsPlace(m: Inputs, v: VideoId)
    requires v in m.library.videos && InputsOk(m)
    ensures Candidate(m, m.library.videos[v]).Some? ==> Place(m, Candidate(m, m.library.videos[v]).value.1)
  {
  }

  lemma PreliminaryIsPlace(m: Inputs, v: VideoId)
    requires v in m.library.videos && InputsOk(m)
    ensures Preliminary(m, v).Some? ==> Place(m, Preliminary(m, v).value)
  {
    if |ExplicitPaths(m, v)| == 1 {
      SoleExplicitIsPlace(m, v);
    } else {
      CandidateIsPlace(m, v);
    }
  }

  ghost predicate PlaceOk(m: Inputs, c: Option<string>) {
    c.Some? ==> Place(m, c.value)
  }

  lemma SettledPlaceExists(m: Inputs, video: Video, e: Evidence)
    requires Consistent(m.library)
    requires video.title.Some? ==> video.title.value in m.library.titles
    requires e.decision.Some? && e.decision.value.Unique? ==> e.decision.value.target in m.library.titles
    requires PlaceOk(m, e.current.place) && PlaceOk(m, e.place) && PlaceOk(m, e.meaningful)
    requires e.candidate.Some? ==> Place(m, e.candidate.value.1)
    ensures Choose(m.library, video, e).Settled? ==> PlaceOk(m, Choose(m.library, video, e).intent.place)
  {
  }

  lemma CurrentPlaceExists(m: Inputs, v: VideoId)
    requires v in m.library.videos && InputsOk(m)
    ensures PlaceOk(m, CurrentIntent(m, v).place)
  {
    PreliminaryIsPlace(m, v);
  }

  lemma IntentPlaceExists(m: Inputs, v: VideoId)
    requires v in m.library.videos && InputsOk(m) && IntentOf(m, v).Ok?
    ensures PlaceOk(m, IntentOf(m, v).value.place)
  {
    SplitTargetKnown(m, v);
    if ChoiceOf(m, v).Settled? {
      PreliminaryIsPlace(m, v);
      CandidateIsPlace(m, v);
      CurrentPlaceExists(m, v);
      SettledPlaceExists(m, m.library.videos[v], EvidenceOf(m, v));
    }
  }

  lemma SpecPlaceExists(m: Inputs, r: TitleRef)
    requires InputsOk(m) && SpecOf(m, r).collection.Some?
    ensures Place(m, SpecOf(m, r).collection.value)
  {
    if r.Existing? && r.id in m.library.titles {
      var t := m.library.titles[r.id];
      if SoleIdentity(m, t.locator).Some? {
        SoleIdentityIsInferred(m, t.locator);
      }
    } else if r.Planned? && 1 <= r.token <= |m.inferred| {
      assert m.inferred[r.token - 1] in m.inferred;
    }
  }

  lemma SoleIdentityIsInferred(m: Inputs, locator: string)
    requires SoleIdentity(m, locator).Some?
    ensures SoleIdentity(m, locator).value in m.inferred
    ensures SoleIdentity(m, locator).value.title.path == locator
  {
    assert Only(InferredAt(m, locator)) in InferredAt(m, locator);
  }

  // Every place a video or a kept title goes to is a collection of the plan.
  lemma PlacesAreKept(m: Inputs)
    requires InputsOk(m) && AllRouted(m)
    ensures var intents := IntentsOf(m);
      var specs := TitleSpecs(m, intents);
      var kept := KeptPlaces(m, intents, specs);
      && (forall v :: v in intents && intents[v].place.Some? ==> intents[v].place.value in kept)
      && (forall r :: r in specs && specs[r].collection.Some? ==> specs[r].collection.value in kept)
  {
    var intents := IntentsOf(m);
    var specs := TitleSpecs(m, intents);
    forall v | v in intents && intents[v].place.Some?
      ensures intents[v].place.value in KeptPlaces(m, intents, specs)
    {
      IntentPlaceExists(m, v);
    }
    forall r | r in specs && specs[r].collection.Some?
      ensures specs[r].collection.value in KeptPlaces(m, intents, specs)
    {
      SpecPlaceExists(m, r);
    }
  }

  // -------------------------------------------------------------------- what a plan promises

  ghost predicate TitlesCovered(p: Plan) {
    && (forall t :: t in p.source.titles ==> Existing(t) in p.titles)
    && (forall r :: r in p.titles ==>
          && (r.Existing? ==> r.id in p.source.titles)
          && (p.titles[r].action.Create? <==> r.Planned?)
          && (p.titles[r].action.Remove? <==> p.titles[r].desired.None?)
          && (p.titles[r].action.Preserve? ==> r.Existing? && p.titles[r].desired == Some(SnapshotOfTitle(p.source.titles[r.id]))))
  }

  ghost predicate CollectionsCovered(p: Plan) {
    && (forall c :: c in p.source.collections ==> c in p.collections)
    && (forall c :: c in p.collections ==>
          && (p.collections[c].action.Create? <==> c !in p.source.collections)
          && (p.collections[c].action.Remove? <==> p.collections[c].desired.None?)
          && (p.collections[c].action.Preserve? ==> c in p.source.collections && p.collections[c].desired == Some(SnapshotOfCollection(p.source.collections[c]))))
  }

  ghost predicate KeepsPlace(p: Plan, place: Option<string>) {
    place.Some? ==> place.value in p.collections && p.collections[place.value].desired.Some?
  }

  ghost predicate AssignmentOk(p: Plan, a: Assignment) {
    && KeepsPlace(p, a.place)
    && (a.title.Some? ==>
          && a.title.value in p.titles && p.titles[a.title.value].desired.Some?
          && p.titles[a.title.value].desired.value.collection == a.place)
  }

  ghost predicate AssignmentsCovered(p: Plan) {
    && p.assignments.Keys == p.source.videos.Keys
    && (forall v :: v in p.assignments ==> AssignmentOk(p, p.assignments[v]))
  }

  ghost predicate TitlesPlaced(p: Plan) {
    forall r :: r in p.titles && p.titles[r].desired.Some? ==> KeepsPlace(p, p.titles[r].desired.value.collection)
  }

  ghost predicate RemovalsUnprotected(p: Plan) {
    && (forall t :: t in p.source.titles && Existing(t) in p.titles && p.titles[Existing(t)].action.Remove? ==>
          !Protected(p.source.titles[t]))
    && (forall c :: c in p.source.collections && c in p.collections && p.collections[c].action.Remove? ==>
          !HasUserState(p.source.collections[c]))
  }

  ghost predicate PlanOk(p: Plan) {
    && Consistent(p.source) && TitlesCovered(p) && CollectionsCovered(p) && AssignmentsCovered(p) && TitlesPlaced(p)
    && RemovalsUnprotected(p) && p.numbering.Keys <= p.source.videos.Keys
  }

  ghost predicate RefsExist(m: Inputs, specs: map<TitleRef, TitleSpec>) {
    forall r :: r in specs && r.Existing? ==> r.id in m.library.titles
  }

  lemma SpecRefsExist(m: Inputs, intents: Intents)
    ensures RefsExist(m, TitleSpecs(m, intents))
  {
  }

  lemma TitleItemsCover(m: Inputs, specs: map<TitleRef, TitleSpec>, p: Plan)
    requires SpecsOk(m, specs) && RefsExist(m, specs) && p.source == m.library && p.titles == TitleItems(m, specs)
    ensures TitlesCovered(p)
  {
    forall r | r in p.titles
      ensures r.Existing? ==> r.id in p.source.titles
      ensures p.titles[r].action.Create? <==> r.Planned?
      ensures p.titles[r].action.Remove? <==> p.titles[r].desired.None?
      ensures p.titles[r].action.Preserve? ==> r.Existing? && p.titles[r].desired == Some(SnapshotOfTitle(p.source.titles[r.id]))
    {
      TitleItemCovers(m, specs, r);
    }
  }

  lemma TitleItemCovers(m: Inputs, specs: map<TitleRef, TitleSpec>, r: TitleRef)
    requires SpecsOk(m, specs) && RefsExist(m, specs) && r in TitleItems(m, specs)
    ensures r.Existing? ==> r.id in m.library.titles
    ensures var item := TitleItems(m, specs)[r];
      (item.action.Create? <==> r.Planned?) && (item.action.Remove? <==> item.desired.None?)
      && (item.desired.Some? <==> r in specs)
      && (r in specs ==> item.desired.value.collection == specs[r].collection)
      && (item.action.Preserve? ==> r.Existing? && item.desired == Some(SnapshotOfTitle(m.library.titles[r.id])))
  {
  }

  lemma CollectionItemsCover(m: Inputs, preview: Preview, kept: set<string>, p: Plan)
    requires forall c :: c in kept ==> c in m.library.collections || c in m.parsed
    requires p.source == m.library && p.collections == CollectionItems(m, preview, kept)
    ensures CollectionsCovered(p)
    ensures forall c :: c in kept ==> KeepsPlace(p, Some(c))
  {
  }

  lemma ItemsPlaceTitles(m: Inputs, specs: map<TitleRef, TitleSpec>, kept: set<string>, p: Plan)
    requires SpecsOk(m, specs) && RefsExist(m, specs) && p.titles == TitleItems(m, specs)
    requires forall c :: c in kept ==> KeepsPlace(p, Some(c))
    requires forall r :: r in specs && specs[r].collection.Some? ==> specs[r].collection.value in kept
    ensures TitlesPlaced(p)
  {
    forall r | r in p.titles && p.titles[r].desired.Some?
      ensures KeepsPlace(p, p.titles[r].desired.value.collection)
    {
      TitleItemCovers(m, specs, r);
    }
  }

  lemma IntentsAssign(m: Inputs, intents: Intents, specs: map<TitleRef, TitleSpec>, kept: set<string>, p: Plan)
    requires SpecsOk(m, specs) && RefsExist(m, specs) && p.titles == TitleItems(m, specs) && Agrees(intents, specs)
    requires p.source == m.library && intents.Keys == m.library.videos.Keys
    requires p.assignments == Assignments(intents)
    requires forall c :: c in kept ==> KeepsPlace(p, Some(c))
    requires forall v :: v in intents && intents[v].place.Some? ==> intents[v].place.value in kept
    ensures AssignmentsCovered(p)
  {
    forall v | v in p.assignments
      ensures AssignmentOk(p, p.assignments[v])
    {
      assert AgreesOn(intents[v], specs);
      if intents[v].title.Some? {
        TitleItemCovers(m, specs, intents[v].title.value);
      }
    }
  }

  lemma PlanCovers(m: Inputs, preview: Preview, p: Plan)
    requires InputsOk(m) && AllRouted(m) && IsPlan(m, preview, p)
    ensures TitlesCovered(p) && CollectionsCovered(p) && AssignmentsCovered(p) && TitlesPlaced(p)
  {
    var intents := IntentsOf(m);
    var specs := TitleSpecs(m, intents);
    var kept := KeptPlaces(m, intents, specs);
    SpecRefsExist(m, intents);
    PlacesAreKept(m);
    TitleItemsCover(m, specs, p);
    CollectionItemsCover(m, preview, kept, p);
    ItemsPlaceTitles(m, specs, kept, p);
    IntentsAssign(m, intents, specs, kept, p);
  }

  lemma RequiredIff(intents: Intents, p: Plan, r: TitleRef)
    requires p.assignments == Assignments(intents)
    ensures r in RequiredTitles(intents) <==> exists v :: v in p.assignments && p.assignments[v].title == Some(r)
  {
    if r in RequiredTitles(intents) {
      var v :| v in intents && intents[v].title.Some? && intents[v].title.value == r;
      assert v in p.assignments;
    }
  }

  lemma SpecifiedIff(m: Inputs, intents: Intents, t: TitleId)
    requires t in m.library.titles
    ensures Existing(t) in TitleSpecs(m, intents) <==>
      Protected(m.library.titles[t]) || Existing(t) in RequiredTitles(intents)
  {
  }

  // A title is removed exactly when nothing protects it and no video is sent to it.
  lemma RemovedTitleIff(m: Inputs, preview: Preview, p: Plan, t: TitleId)
    requires InputsOk(m) && AllRouted(m) && IsPlan(m, preview, p) && t in p.source.titles
    ensures Existing(t) in p.titles
    ensures p.titles[Existing(t)].action.Remove? <==>
      !Protected(p.source.titles[t]) && forall v :: v in p.assignments ==> p.assignments[v].title != Some(Existing(t))
  {
    var intents := IntentsOf(m);
    SpecRefsExist(m, intents);
    TitleItemCovers(m, TitleSpecs(m, intents), Existing(t));
    SpecifiedIff(m, intents, t);
    RequiredIff(intents, p, Existing(t));
  }

  lemma KeptIff(m: Inputs, intents: Intents, specs: map<TitleRef, TitleSpec>, p: Plan, c: string)
    requires SpecsOk(m, specs) && RefsExist(m, specs) && p.titles == TitleItems(m, specs)
    requires p.assignments == Assignments(intents)
    requires c in m.library.collections
    ensures c in KeptPlaces(m, intents, specs) <==>
      || HasUserState(m.library.collections[c])
      || (exists v :: v in p.assignments && p.assignments[v].place == Some(c))
      || (exists r :: r in p.titles && p.titles[r].desired.Some? && p.titles[r].desired.value.collection == Some(c))
  {
    PlaceUsedIff(intents, p, c);
    PlaceHeldIff(m, specs, p, c);
  }

  lemma PlaceUsedIff(intents: Intents, p: Plan, c: string)
    requires p.assignments == Assignments(intents)
    ensures (exists v :: v in intents && intents[v].place == Some(c))
      <==> exists v :: v in p.assignments && p.assignments[v].place == Some(c)
  {
    if v :| v in intents && intents[v].place == Some(c) {
      assert v in p.assignments;
    }
  }

  lemma PlaceHeldIff(m: Inputs, specs: map<TitleRef, TitleSpec>, p: Plan, c: string)
    requires SpecsOk(m, specs) && RefsExist(m, specs) && p.titles == TitleItems(m, specs)
    ensures (exists r :: r in specs && specs[r].collection == Some(c))
      <==> exists r :: r in p.titles && p.titles[r].desired.Some? && p.titles[r].desired.value.collection == Some(c)
  {
    if r :| r in specs && specs[r].collection == Some(c) {
      TitleItemCovers(m, specs, r);
    }
    if r :| r in p.titles && p.titles[r].desired.Some? && p.titles[r].desired.value.collection == Some(c) {
      TitleItemCovers(m, specs, r);
    }
  }

  // A collection is removed exactly when it has no user state and nothing kept is sent to it.
  lemma RemovedCollectionIff(m: Inputs, preview: Preview, p: Plan, c: string)
    requires InputsOk(m) && AllRouted(m) && IsPlan(m, preview, p) && c in p.source.collections
    ensures c in p.collections
    ensures p.collections[c].action.Remove? <==>
      && !HasUserState(p.source.collections[c])
      && (forall v :: v in p.assignments ==> p.assignments[v].place != Some(c))
      && (forall r :: r in p.titles && p.titles[r].desired.Some? ==> p.titles[r].desired.value.collection != Some(c))
  {
    var intents := IntentsOf(m);
    SpecRefsExist(m, intents);
    var specs := TitleSpecs(m, intents);
    KeptIff(m, intents, specs, p, c);
    CollectionRemovedIff(m, preview, KeptPlaces(m, intents, specs), c);
  }

  lemma CollectionRemovedIff(m: Inputs, preview: Preview, kept: set<string>, c: string)
    requires forall d :: d in kept ==> d in m.library.collections || d in m.parsed
    requires c in m.library.collections
    ensures c in CollectionItems(m, preview, kept)
    ensures CollectionItems(m, preview, kept)[c].action.Remove? <==> c !in kept
  {
  }

  lemma PlanRemovesUnprotected(m: Inputs, preview: Preview, p: Plan)
    requires InputsOk(m) && AllRouted(m) && IsPlan(m, preview, p)
    ensures RemovalsUnprotected(p)
  {
    forall t | t in p.source.titles && Existing(t) in p.titles && p.titles[Existing(t)].action.Remove?
      ensures !Protected(p.source.titles[t])
    {
      RemovedTitleIff(m, preview, p, t);
    }
    forall c | c in p.source.collections && c in p.collections && p.collections[c].action.Remove?
      ensures !HasUserState(p.source.collections[c])
    {
      RemovedCollectionIff(m, preview, p, c);
    }
  }

  lemma PlanIsOk(m: Inputs, preview: Preview, p: Plan)
    requires InputsOk(m) && AllRouted(m) && IsPlan(m, preview, p)
    ensures PlanOk(p)
  {
    PlanCovers(m, preview, p);
    PlanRemovesUnprotected(m, preview, p);
  }

  // ------------------------------------------------------------------------------- blockers

  lemma BlockedVideoBlocksApply(m: Inputs, preview: Preview, v: VideoId)
    requires Consistent(m.library) && HierarchyOk(m) && v in m.library.videos && BlockedVideo(m, v)
    ensures HardBlockers(m, preview) != {}
  {
    assert OrphanAuthority(v) in HardBlockers(m, preview) || CrossCollectionAuthority(v) in HardBlockers(m, preview)
      || LocatorCollision(v) in HardBlockers(m, preview);
  }

  lemma BlockedAuthorityBlocksApply(m: Inputs, c: string)
    requires BlockedByAuthority(m, c)
    ensures AuthorityBlockers(m) != {}
  {
    if v :| v in m.library.videos && AcrossCollections(m, v) && c in ExplicitPaths(m, v) {
      assert CrossCollectionAuthority(v) in AuthorityBlockers(m);
    } else {
      var t, v :| t in m.library.titles && v in m.library.titles[t].selectors && v !in m.library.videos;
      assert DanglingAuthority(t) in AuthorityBlockers(m);
    }
  }

  lemma BlockedSplitBlocksApply(m: Inputs, c: string)
    requires Consistent(m.library) && HierarchyOk(m) && BlockedBySplit(m, c)
    ensures SplitBlockers(m) != {}
  {
    if MalformedSplit(m, c) {
      var t :| t in SplitTitles(m, c) && m.library.titles[t].malformedRule;
      assert MalformedRule(t) in SplitBlockers(m);
    } else {
      var v :| v in m.splitter.historical(c, Group(m, c));
      assert HistoricalConflict(v) in SplitBlockers(m);
    }
  }

  // A video kept at its current membership for a conflict prevents the whole apply.
  lemma BlockedMembershipBlocksApply(m: Inputs, preview: Preview, v: VideoId)
    requires Consistent(m.library) && HierarchyOk(m) && v in m.library.videos && Blocked(m, v)
    ensures HardBlockers(m, preview) != {}
  {
    if BlockedVideo(m, v) {
      BlockedVideoBlocksApply(m, preview, v);
    } else {
      var c := Preliminary(m, v).value;
      if BlockedByAuthority(m, c) {
        BlockedAuthorityBlocksApply(m, c);
      } else {
        BlockedSplitBlocksApply(m, c);
      }
    }
  }

  // ------------------------------------------------------------ the raise that stays reachable

  // The plan moves a stored title to the collection its locator's sole identity is inferred in.
  predicate Relocated(m: Inputs, t: Title) {
    var identity := SoleIdentity(m, t.locator);
    && identity.Some? && t.collection != Some(identity.value.collection.path)
    && (!RequiresPreservation(t) || t.collection.None?)
  }

  lemma RelocatedIff(m: Inputs, t: Title)
    ensures Relocated(m, t) <==> ExistingSpec(m, t).collection != t.collection
  {
  }

  // A title that keeps its place, and a place that is not the title's own.
  predicate HomelessElsewhere(m: Inputs, t: Title, place: Option<string>) {
    var identity := SoleIdentity(m, t.locator);
    t.collection.None? && place != if identity.Some? then Some(identity.value.collection.path) else None
  }

  // A video whose stored title the plan puts into another collection than the video itself, branch
  // by branch: kept at its membership, matched by a split rule, in the root folder, routed by its
  // directory, or left where it is as a folded or supplementary file.
  ghost predicate Displaced(m: Inputs, v: VideoId)
    requires v in m.library.videos && InputsOk(m)
  {
    SplitTargetKnown(m, v);
    var video := m.library.videos[v];
    var decision := DecisionOf(m, v);
    var candidate := Candidate(m, video);
    var relocated := video.title.Some? && Relocated(m, m.library.titles[video.title.value]);
    var home := if video.title.Some? then m.library.titles[video.title.value].collection else None;
    if Blocked(m, v) then
      if home.Some? then relocated
      else video.title.Some? && HomelessElsewhere(m, m.library.titles[video.title.value], Preliminary(m, v))
    else if decision.Some? && !decision.value.NotRequired? then
      decision.value.Unique? && Relocated(m, m.library.titles[decision.value.target])
    else if video.root then
      relocated && home == MeaningfulRoot(m.library, video) && (home.Some? || decision.Some?)
    else if candidate.Some? then
      var t := m.library.titles[candidate.value.0];
      |InferredAt(m, t.locator)| > 1 && t.collection != Some(candidate.value.1)
    else
      decision.Some? && (video.collapses || video.supplementary) && relocated && home.Some? && home == Preliminary(m, v)
  }

  // An automatic candidate's collection is the one its title gets, unless several identities share
  // the locator.
  lemma CandidateAgreesIff(m: Inputs, v: VideoId)
    requires v in m.library.videos && InputsOk(m) && Candidate(m, m.library.videos[v]).Some?
    ensures var (t, place) := Candidate(m, m.library.videos[v]).value;
      ExistingSpec(m, m.library.titles[t]).collection == Some(place) <==>
      !(|InferredAt(m, m.library.titles[t].locator)| > 1 && m.library.titles[t].collection != Some(place))
  {
    var video := m.library.videos[v];
    var identity := m.hierarchy[video.path];
    var (t, place) := Candidate(m, video).value;
    var title := m.library.titles[t];
    if !(title.collection.Some? && RequiresPreservation(title)) {
      assert PreservedTitle(m, video).None?;
      assert Locators(m, identity.title.path) == {t};
      var k := IndexOf(m.inferred, identity);
      assert k in InferredAt(m, title.locator);
      if |InferredAt(m, title.locator)| == 1 {
        assert Only(InferredAt(m, title.locator)) == k;
        assert SoleIdentity(m, title.locator) == Some(identity);
      }
    }
  }

  lemma RoutedAgrees(m: Inputs, v: VideoId)
    requires v in m.library.videos && InputsOk(m) && ChoiceOf(m, v).Routed?
    ensures IntentOf(m, v).Ok? && IntentOf(m, v).value.title.Some?
    ensures SpecOf(m, IntentOf(m, v).value.title.value).collection == IntentOf(m, v).value.place
  {
    RoutedIsFree(m, v);
    RoutedIsUnclaimed(m, m.hierarchy[m.library.videos[v].path]);
  }

  // The intent's title lies elsewhere than the intent.
  ghost predicate Elsewhere(m: Inputs, intent: Intent) {
    intent.title.Some? && SpecOf(m, intent.title.value).collection != intent.place
  }

  lemma BlockedDisplacedIff(m: Inputs, v: VideoId)
    requires v in m.library.videos && InputsOk(m) && Blocked(m, v)
    ensures IntentOf(m, v) == Ok(CurrentIntent(m, v))
    ensures Displaced(m, v) <==> Elsewhere(m, CurrentIntent(m, v))
  {
    if m.library.videos[v].title.Some? {
      RelocatedIff(m, m.library.titles[m.library.videos[v].title.value]);
    }
  }

  lemma SplitDisplacedIff(m: Inputs, v: VideoId)
    requires v in m.library.videos && InputsOk(m) && !Blocked(m, v)
    requires DecisionOf(m, v).Some? && !DecisionOf(m, v).value.NotRequired?
    ensures IntentOf(m, v).Ok? && (Displaced(m, v) <==> Elsewhere(m, IntentOf(m, v).value))
  {
    SplitTargetKnown(m, v);
    if DecisionOf(m, v).value.Unique? {
      RelocatedIff(m, m.library.titles[DecisionOf(m, v).value.target]);
    }
  }

  // A title kept only in the place it lies in.
  lemma KeptTitleElsewhereIff(m: Inputs, video: Video, place: Option<string>, reason: Reason)
    requires video.title.Some? ==> video.title.value in m.library.titles
    ensures Elsewhere(m, Intent(place, TitleIn(m.library, video, place), reason)) <==>
      && video.title.Some? && m.library.titles[video.title.value].collection == place
      && Relocated(m, m.library.titles[video.title.value])
  {
    if video.title.Some? {
      RelocatedIff(m, m.library.titles[video.title.value]);
    }
  }

  // What a root video without a deciding split rule is offered.
  lemma RootChoice(s: Library, video: Video, e: Evidence)
    requires video.title.Some? ==> video.title.value in s.titles
    requires !e.blocked && video.root && (e.decision.Some? ==> e.decision.value.NotRequired?) && e.candidate.None?
    ensures Choose(s, video, e) ==
      if e.decision.None? && e.meaningful.None? then Settled(Intent(None, None, RootUnassigned))
      else Settled(Intent(e.meaningful, TitleIn(s, video, e.meaningful),
                          if e.meaningful.Some? then RootPreserved else RootUnassigned))
  {
  }

  lemma RootDisplacedIff(m: Inputs, v: VideoId)
    requires v in m.library.videos && InputsOk(m) && !Blocked(m, v) && m.library.videos[v].root
    requires DecisionOf(m, v).Some? ==> DecisionOf(m, v).value.NotRequired?
    ensures IntentOf(m, v).Ok? && (Displaced(m, v) <==> Elsewhere(m, IntentOf(m, v).value))
  {
    var video := m.library.videos[v];
    var meaningful := MeaningfulRoot(m.library, video);
    RootChoice(m.library, video, EvidenceOf(m, v));
    KeptTitleElsewhereIff(m, video, meaningful, if meaningful.Some? then RootPreserved else RootUnassigned);
  }

  // What a directory's video without a deciding split rule is offered.
  lemma PathChoice(s: Library, video: Video, e: Evidence)
    requires video.title.Some? ==> video.title.value in s.titles
    requires !e.blocked && !video.root && (e.decision.Some? ==> e.decision.value.NotRequired?)
    ensures var stays := e.decision.Some? && (video.collapses || video.supplementary);
      Choose(s, video, e) ==
        if e.candidate.Some? then
          Settled(Intent(Some(e.candidate.value.1), Some(Existing(e.candidate.value.0)), AutomaticPath))
        else if stays then Settled(Intent(e.place, if e.place.Some? then TitleIn(s, video, e.place) else None, Current))
        else Routed
  {
  }

  lemma PathDisplacedIff(m: Inputs, v: VideoId)
    requires v in m.library.videos && InputsOk(m) && !Blocked(m, v) && !m.library.videos[v].root
    requires DecisionOf(m, v).Some? ==> DecisionOf(m, v).value.NotRequired?
    ensures IntentOf(m, v).Ok? && (Displaced(m, v) <==> Elsewhere(m, IntentOf(m, v).value))
  {
    var video := m.library.videos[v];
    PathChoice(m.library, video, EvidenceOf(m, v));
    if Candidate(m, video).Some? {
      CandidateAgreesIff(m, v);
    } else if DecisionOf(m, v).Some? && (video.collapses || video.supplementary) {
      KeptTitleElsewhereIff(m, video, Preliminary(m, v), Current);
    } else {
      RoutedAgrees(m, v);
    }
  }

  lemma DisplacedIff(m: Inputs, v: VideoId)
    requires v in m.library.videos && InputsOk(m) && IntentOf(m, v).Ok?
    ensures Displaced(m, v) <==> Elsewhere(m, IntentOf(m, v).value)
  {
    if Blocked(m, v) {
      BlockedDisplacedIff(m, v);
    } else if DecisionOf(m, v).Some? && !DecisionOf(m, v).value.NotRequired? {
      SplitDisplacedIff(m, v);
    } else if m.library.videos[v].root {
      RootDisplacedIff(m, v);
    } else {
      PathDisplacedIff(m, v);
    }
  }

  // Exactly when the projection finds title and video in one collection, so that a plan is built.
  lemma AgreesIff(m: Inputs)
    requires InputsOk(m) && AllRouted(m)
    ensures Agrees(IntentsOf(m), TitleSpecs(m, IntentsOf(m))) <==>
      forall v :: v in m.library.videos ==> !Displaced(m, v)
  {
    var intents := IntentsOf(m);
    var specs := TitleSpecs(m, intents);
    RequiredTitlesAreSpecified(m);
    forall v | v in m.library.videos
      ensures AgreesOn(intents[v], specs) <==> !Displaced(m, v)
    {
      DisplacedIff(m, v);
      if intents[v].title.Some? {
        assert intents[v].title.value in RequiredTitles(intents);
      }
    }
    if forall v :: v in m.library.videos ==> !Displaced(m, v) {
      forall v | v in intents
        ensures AgreesOn(intents[v], specs)
      {
        assert !Displaced(m, v);
      }
    }
  }

  // A library on which no plan can be built: one video, selected by its unprotected title, which lies
  // in collection "a" although its locator is inferred to belong to collection "b".
  const FACTS := CollectionFacts("", "", None)
  const PART_FACTS := TitleFacts("", "", "season", None, None, None, None, 0)
  const STRANDED := Inputs(
    Library(
      map["a" := Collection(FACTS, HierarchyState("automatic", None, false), None, false)],
      map[0 := Title("b/s", Some("a"), PART_FACTS, false, false, false, false, {0}, {}, {})],
      map[0 := Video("b/s/e", false, Some(0), Some("a"), false, false, None, Unknown)]),
    map["b/s/e" := STRANDED_IDENTITY],
    [STRANDED_IDENTITY],
    map["b" := CollectionIdentity("b", FACTS)],
    Splitter(
      (c, g) => if c == "a" && 0 in g then map[0 := Unique(0)] else map[],
      (c, g) => {}))
  const STRANDED_IDENTITY := Identity(CollectionIdentity("b", FACTS), TitleIdentity("b/s", PART_FACTS))

  lemma StrandedVideo()
    ensures InputsOk(STRANDED) && DecisionOf(STRANDED, 0) == Some(Unique(0)) && !Blocked(STRANDED, 0)
  {
    var m := STRANDED;
    assert ExplicitTargets(m, 0) == {0};
    assert ExplicitPaths(m, 0) == {"a"};
    assert m.library.titles[0].selectors == {0};
    assert Preliminary(m, 0) == Some("a");
    assert 0 in Group(m, "a");
    assert SplitTitles(m, "a") == {0};
  }

  lemma StrandedHasNoPlan()
    ensures InputsOk(STRANDED) && AllRouted(STRANDED) && !Agrees(IntentsOf(STRANDED), TitleSpecs(STRANDED, IntentsOf(STRANDED)))
  {
    var m := STRANDED;
    StrandedVideo();
    RoutingIsNeverAmbiguous(m);
    assert InferredAt(m, "b/s") == {0};
    assert Locators(m, "b/s") == {0};
    assert SoleIdentity(m, "b/s") == Some(STRANDED_IDENTITY);
    assert Displaced(m, 0);
    AgreesIff(m);
  }
}
