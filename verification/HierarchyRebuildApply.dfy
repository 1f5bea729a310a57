/**
 Applying a plan to the database, step by step as the code does, under one savepoint.
*/
module HierarchyRebuildApply {
  import opened Basics
  import opened HierarchyRebuild
  import opened HierarchyRebuildPlanning

  // ------------------------------------------------------------------- rows after the steps

  function NewCollection(desired: CollectionSnapshot): Collection {
    Collection(desired.facts, HierarchyState("automatic", None, false), None, false)
  }

  function NewTitle(desired: TitleSnapshot): Title {
    Title(desired.locator, desired.collection, desired.facts, false, false, false, false, {}, {}, {})
  }

  function AppliedCollection(p: Plan, c: string): Collection
    requires CollectionsCovered(p) && c in p.collections
  {
    var item := p.collections[c];
    if item.action.Create? then NewCollection(item.desired.value)
    else if item.desired.Some? then p.source.collections[c].(facts := item.desired.value.facts)
    else p.source.collections[c]
  }

  function AppliedTitle(p: Plan, r: TitleRef): Title
    requires TitlesCovered(p) && r in p.titles
  {
    var item := p.titles[r];
    if item.action.Create? then NewTitle(item.desired.value)
    else if item.desired.Some? then Updated(p.source.titles[r.id], item.desired.value)
    else p.source.titles[r.id]
  }

  // The collections once all items but `todo` are applied.
  ghost predicate CollectionsApplied(p: Plan, todo: set<string>, collections: map<string, Collection>)
    requires CollectionsCovered(p)
  {
    && (forall c :: c in collections <==> c in p.collections && (c in todo ==> c in p.source.collections))
    && (forall c :: c in collections ==>
          collections[c] == if c in todo then p.source.collections[c] else AppliedCollection(p, c))
  }

  lemma CollectionStep(p: Plan, todo: set<string>, c: string, collections: map<string, Collection>)
    requires CollectionsCovered(p) && c in todo && c in p.collections && CollectionsApplied(p, todo, collections)
    ensures var item := p.collections[c];
      && (!item.action.Create? ==> c in collections)
      && CollectionsApplied(p, todo - {c},
        if item.action.Create? then collections[c := NewCollection(item.desired.value)]
        else if item.desired.Some? then collections[c := collections[c].(facts := item.desired.value.facts)]
        else collections)
  {
  }

  // Which stored title each reference of the plan denotes: existing titles keep their id.
  ghost predicate Owns(p: Plan, todo: set<TitleRef>, owner: map<TitleRef, TitleId>) {
    && (forall r :: r in owner <==> r in p.titles && (r in todo ==> r.Existing?))
    && (forall r :: r in owner && r.Existing? ==> owner[r] == r.id)
    && (forall r, q :: OwnersDiffer(owner, r, q))
  }

  ghost predicate OwnersDiffer(owner: map<TitleRef, TitleId>, r: TitleRef, q: TitleRef) {
    r in owner && q in owner && r != q ==> owner[r] != owner[q]
  }

  // The titles once all items but `todo` are applied.
  ghost predicate TitlesApplied(p: Plan, todo: set<TitleRef>, owner: map<TitleRef, TitleId>, titles: map<TitleId, Title>)
    requires TitlesCovered(p)
  {
    && Owns(p, todo, owner)
    && (forall r :: r in owner ==> owner[r] in titles)
    && (forall t :: t in titles ==> Owned(owner, t))
    && (forall r :: r in owner ==> titles[owner[r]] == if r in todo then p.source.titles[r.id] else AppliedTitle(p, r))
  }

  ghost predicate Owned(owner: map<TitleRef, TitleId>, t: TitleId) {
    exists r :: r in owner && owner[r] == t
  }

  lemma NothingAppliedYet(p: Plan, owner: map<TitleRef, TitleId>)
    requires TitlesCovered(p) && owner == map r: TitleRef | r in p.titles && r.Existing? :: r.id
    ensures TitlesApplied(p, p.titles.Keys, owner, p.source.titles)
  {
    forall t | t in p.source.titles
      ensures Owned(owner, t)
    {
      assert owner[Existing(t)] == t;
    }
  }

  lemma StillOwned(owner: map<TitleRef, TitleId>, r: TitleRef, unused: TitleId, t: TitleId)
    requires r !in owner && (t == unused || Owned(owner, t))
    ensures Owned(owner[r := unused], t)
  {
    if t == unused {
      assert owner[r := unused][r] == t;
    } else {
      var q :| q in owner && owner[q] == t;
      assert owner[r := unused][q] == t;
    }
  }

  lemma CreateStep(
    p: Plan, todo: set<TitleRef>, owner: map<TitleRef, TitleId>, titles: map<TitleId, Title>, r: TitleRef, unused: TitleId)
    requires TitlesCovered(p) && r in todo && r in p.titles && TitlesApplied(p, todo, owner, titles)
    requires p.titles[r].action.Create? && unused !in titles
    ensures p.titles[r].desired.Some?
    ensures TitlesApplied(p, todo - {r}, owner[r := unused], titles[unused := NewTitle(p.titles[r].desired.value)])
  {
    forall t | t == unused || t in titles
      ensures Owned(owner[r := unused], t)
    {
      StillOwned(owner, r, unused, t);
    }
    OwnersStillDiffer(owner, r, unused, owner[r := unused]);
  }

  lemma OwnersStillDiffer(owner: map<TitleRef, TitleId>, r: TitleRef, unused: TitleId, owner': map<TitleRef, TitleId>)
    requires (forall q, o :: OwnersDiffer(owner, q, o)) && (forall q :: q in owner ==> owner[q] != unused)
    requires owner' == owner[r := unused]
    ensures forall q, o :: OwnersDiffer(owner', q, o)
  {
    forall q, o
      ensures OwnersDiffer(owner', q, o)
    {
      assert OwnersDiffer(owner, q, o);
    }
  }

  lemma RemovalStep(p: Plan, todo: set<TitleRef>, owner: map<TitleRef, TitleId>, titles: map<TitleId, Title>, r: TitleRef)
    requires TitlesCovered(p) && r in todo && r in p.titles && TitlesApplied(p, todo, owner, titles)
    requires !p.titles[r].action.Create?
    ensures r in owner && owner[r] in titles
    ensures p.titles[r].desired.None? ==> TitlesApplied(p, todo - {r}, owner, titles)
  {
  }

  function Updated(t: Title, d: TitleSnapshot): Title {
    t.(locator := d.locator, collection := d.collection, facts := d.facts)
  }

  lemma OthersUntouched(
    owner: map<TitleRef, TitleId>, titles: map<TitleId, Title>, r: TitleRef, title: Title, q: TitleRef)
    requires OwnersDiffer(owner, q, r) && q in owner && r in owner && q != r && owner[q] in titles
    ensures titles[owner[r] := title][owner[q]] == titles[owner[q]]
  {
  }

  lemma UpdateStep(p: Plan, todo: set<TitleRef>, owner: map<TitleRef, TitleId>, titles: map<TitleId, Title>, r: TitleRef)
    requires TitlesCovered(p) && r in todo && r in p.titles && TitlesApplied(p, todo, owner, titles)
    requires !p.titles[r].action.Create? && p.titles[r].desired.Some? && r in owner && owner[r] in titles
    ensures TitlesApplied(p, todo - {r}, owner, titles[owner[r] := Updated(titles[owner[r]], p.titles[r].desired.value)])
  {
    var title := Updated(titles[owner[r]], p.titles[r].desired.value);
    assert title == AppliedTitle(p, r);
    forall q | q in owner && q != r
      ensures titles[owner[r] := title][owner[q]] == titles[owner[q]]
    {
      OthersUntouched(owner, titles, r, title, q);
    }
  }

  function Resolved(owner: map<TitleRef, TitleId>, r: Option<TitleRef>): Option<TitleId>
    requires r.Some? ==> r.value in owner
  {
    if r.Some? then Some(owner[r.value]) else None
  }

  // A lane survives only if it belongs to the new title.
  function KeptGroup(video: Video, target: Option<Title>): Option<nat> {
    if video.variantGroup.Some? && target.Some? && video.variantGroup.value in target.value.variantGroups
    then video.variantGroup else None
  }

  function AssignedVideo(p: Plan, owner: map<TitleRef, TitleId>, v: VideoId): Video
    requires TitlesCovered(p) && AssignmentsCovered(p) && Owns(p, {}, owner) && v in p.assignments
  {
    var a := p.assignments[v];
    assert AssignmentOk(p, a);
    var target := if a.title.Some? then Some(AppliedTitle(p, a.title.value)) else None;
    p.source.videos[v].(
    collection := a.place, title := Resolved(owner, a.title), variantGroup := KeptGroup(p.source.videos[v], target))
  }

  // The collection, then the title with its lane.
  function Assigned(video: Video, place: Option<string>, target: Option<TitleId>, titles: map<TitleId, Title>): Video
    requires target.Some? ==> target.value in titles
  {
    video.(
    collection := place, title := target,
    variantGroup := KeptGroup(video, if target.Some? then Some(titles[target.value]) else None))
  }

  // The videos once all assignments but `todo` are applied.
  ghost predicate VideosApplied(p: Plan, todo: set<VideoId>, owner: map<TitleRef, TitleId>, videos: map<VideoId, Video>)
    requires TitlesCovered(p) && AssignmentsCovered(p) && Owns(p, {}, owner)
  {
    && videos.Keys == p.assignments.Keys
    && forall v :: v in videos ==> videos[v] == if v in todo then p.source.videos[v] else AssignedVideo(p, owner, v)
  }

  lemma AssignmentStep(
    p: Plan, todo: set<VideoId>, owner: map<TitleRef, TitleId>, titles: map<TitleId, Title>, videos: map<VideoId, Video>,
    v: VideoId)
    requires TitlesCovered(p) && AssignmentsCovered(p) && TitlesApplied(p, {}, owner, titles)
    requires v in todo && v in p.assignments && VideosApplied(p, todo, owner, videos)
    ensures var a := p.assignments[v];
      && (a.title.Some? ==> a.title.value in owner)
      && var target := Resolved(owner, a.title);
      && (target.Some? ==> target.value in titles && titles[target.value].collection == a.place)
      && Assigned(videos[v], a.place, target, titles) == AssignedVideo(p, owner, v)
  {
    AssignmentAgrees(p, p.assignments[v]);
  }

  lemma VideosStep(p: Plan, todo: set<VideoId>, owner: map<TitleRef, TitleId>, videos: map<VideoId, Video>, v: VideoId)
    requires TitlesCovered(p) && AssignmentsCovered(p) && Owns(p, {}, owner)
    requires v in todo && v in p.assignments && VideosApplied(p, todo, owner, videos)
    ensures VideosApplied(p, todo - {v}, owner, videos[v := AssignedVideo(p, owner, v)])
  {
  }

  lemma AssignmentAgrees(p: Plan, a: Assignment)
    requires TitlesCovered(p) && AssignmentOk(p, a)
    ensures a.title.Some? ==> a.title.value in p.titles && AppliedTitle(p, a.title.value).collection == a.place
  {
  }

  ghost predicate KeptRef(p: Plan, r: TitleRef) {
    r in p.titles && p.titles[r].desired.Some?
  }

  ghost predicate KeptCollection(p: Plan, c: string) {
    c in p.collections && p.collections[c].desired.Some?
  }

  // -------------------------------------------------------------------- emptiness of removals

  // No video is assigned to a removed title.
  lemma RemovedTitleHasNoVideo(p: Plan, owner: map<TitleRef, TitleId>, r: TitleRef, v: VideoId)
    requires TitlesCovered(p) && AssignmentsCovered(p) && Owns(p, {}, owner)
    requires r in p.titles && p.titles[r].desired.None? && v in p.assignments
    ensures AssignedVideo(p, owner, v).title != Some(owner[r])
  {
    assert AssignmentOk(p, p.assignments[v]);
    if p.assignments[v].title.Some? {
      assert OwnersDiffer(owner, p.assignments[v].title.value, r);
    }
  }

  lemma RemovedTitleIsBare(p: Plan, r: TitleRef)
    requires TitlesCovered(p) && RemovalsUnprotected(p) && r in p.titles && p.titles[r].desired.None?
    ensures AppliedTitle(p, r).selectors == {} && AppliedTitle(p, r).variantGroups == {}
  {
    assert r.Existing?;
  }

  lemma KeptTitleInKeptCollection(p: Plan, r: TitleRef)
    requires TitlesCovered(p) && TitlesPlaced(p) && KeptRef(p, r)
    ensures KeepsPlace(p, AppliedTitle(p, r).collection)
    ensures SnapshotOfTitle(AppliedTitle(p, r)) == p.titles[r].desired.value
  {
  }

  lemma AssignedVideoInKeptCollection(p: Plan, owner: map<TitleRef, TitleId>, v: VideoId)
    requires TitlesCovered(p) && AssignmentsCovered(p) && Owns(p, {}, owner) && v in p.assignments
    ensures KeepsPlace(p, AssignedVideo(p, owner, v).collection)
  {
    assert AssignmentOk(p, p.assignments[v]);
  }

  // The titles still stored once all removed titles but `todo` are deleted.
  ghost predicate Left(p: Plan, todo: set<TitleRef>, owner: map<TitleRef, TitleId>, t: TitleId) {
    exists r :: r in owner && owner[r] == t && (KeptRef(p, r) || r in todo)
  }

  ghost predicate TitlesLeft(p: Plan, todo: set<TitleRef>, owner: map<TitleRef, TitleId>, titles: map<TitleId, Title>)
    requires TitlesCovered(p)
  {
    && Owns(p, {}, owner)
    && (forall t :: t in titles ==> Left(p, todo, owner, t))
    && (forall r :: r in owner && (KeptRef(p, r) || r in todo) ==>
          owner[r] in titles && titles[owner[r]] == AppliedTitle(p, r))
  }

  ghost predicate AllRemoved(p: Plan, todo: set<TitleRef>) {
    forall r :: r in todo ==> r in p.titles && p.titles[r].desired.None?
  }

  lemma AllLeft(p: Plan, todo: set<TitleRef>, owner: map<TitleRef, TitleId>, titles: map<TitleId, Title>)
    requires TitlesCovered(p) && TitlesApplied(p, {}, owner, titles)
    requires forall r :: r in p.titles && p.titles[r].desired.None? ==> r in todo
    ensures TitlesLeft(p, todo, owner, titles)
  {
    forall t | t in titles
      ensures Left(p, todo, owner, t)
    {
      var r :| r in owner && owner[r] == t;
      assert KeptRef(p, r) || r in todo;
    }
  }

  lemma StillLeft(p: Plan, todo: set<TitleRef>, owner: map<TitleRef, TitleId>, r: TitleRef, t: TitleId)
    requires r in owner && Left(p, todo, owner, t) && t != owner[r]
    ensures Left(p, todo - {r}, owner, t)
  {
    var q :| q in owner && owner[q] == t && (KeptRef(p, q) || q in todo);
    assert q != r;
  }

  lemma DeleteStep(p: Plan, todo: set<TitleRef>, owner: map<TitleRef, TitleId>, titles: map<TitleId, Title>, r: TitleRef)
    requires TitlesCovered(p) && TitlesLeft(p, todo, owner, titles)
    requires r in todo && r in p.titles && p.titles[r].desired.None?
    ensures TitlesLeft(p, todo - {r}, owner, titles - {owner[r]})
  {
    forall t | t in titles - {owner[r]}
      ensures Left(p, todo - {r}, owner, t)
    {
      StillLeft(p, todo, owner, r, t);
    }
    forall q | q in owner && (KeptRef(p, q) || q in todo - {r})
      ensures owner[q] in titles - {owner[r]}
    {
      assert OwnersDiffer(owner, q, r);
    }
  }

  predicate TitleInUse(titles: map<TitleId, Title>, videos: map<VideoId, Video>, t: TitleId)
    requires t in titles
  {
    (exists v :: v in videos && videos[v].title == Some(t)) || titles[t].selectors != {} || titles[t].variantGroups != {}
  }

  // A removed title that nothing points at and nothing hangs on.
  ghost predicate RemovedBare(p: Plan, owner: map<TitleRef, TitleId>, r: TitleRef, videos: map<VideoId, Video>)
    requires TitlesCovered(p)
  {
    && r in p.titles && p.titles[r].desired.None? && r in owner
    && AppliedTitle(p, r).selectors == {} && AppliedTitle(p, r).variantGroups == {}
    && forall v :: v in videos ==> videos[v].title != Some(owner[r])
  }

  ghost predicate AllBare(p: Plan, owner: map<TitleRef, TitleId>, todo: set<TitleRef>, videos: map<VideoId, Video>)
    requires TitlesCovered(p)
  {
    forall r :: r in todo ==> RemovedBare(p, owner, r, videos)
  }

  // After the assignments every removed title is empty: the deletion loop cannot find it in use.
  lemma RemovedAreUnused(p: Plan, owner: map<TitleRef, TitleId>, videos: map<VideoId, Video>, todo: set<TitleRef>)
    requires TitlesCovered(p) && AssignmentsCovered(p) && RemovalsUnprotected(p) && Owns(p, {}, owner)
    requires VideosApplied(p, {}, owner, videos) && AllRemoved(p, todo)
    ensures AllBare(p, owner, todo, videos)
  {
    forall r | r in todo
      ensures RemovedBare(p, owner, r, videos)
    {
      RemovedTitleIsUnused(p, owner, videos, r);
    }
  }

  lemma RemovedTitleIsUnused(p: Plan, owner: map<TitleRef, TitleId>, videos: map<VideoId, Video>, r: TitleRef)
    requires TitlesCovered(p) && AssignmentsCovered(p) && RemovalsUnprotected(p) && Owns(p, {}, owner)
    requires VideosApplied(p, {}, owner, videos) && r in p.titles && p.titles[r].desired.None?
    ensures RemovedBare(p, owner, r, videos)
  {
    RemovedTitleIsBare(p, r);
    forall v | v in videos
      ensures videos[v].title != Some(owner[r])
    {
      RemovedTitleHasNoVideo(p, owner, r, v);
    }
  }

  predicate CollectionInUse(titles: map<TitleId, Title>, videos: map<VideoId, Video>, c: string) {
    || (exists t :: t in titles && titles[t].collection == Some(c))
    || (exists v :: v in videos && videos[v].collection == Some(c))
  }

  // When the deletion loop reaches a removed collection it is empty.
  lemma RemovedCollectionIsUnused(
    p: Plan, owner: map<TitleRef, TitleId>, titles: map<TitleId, Title>, videos: map<VideoId, Video>, c: string)
    requires TitlesCovered(p) && AssignmentsCovered(p) && TitlesPlaced(p)
    requires TitlesLeft(p, {}, owner, titles) && VideosApplied(p, {}, owner, videos)
    requires c in p.collections && p.collections[c].desired.None?
    ensures !CollectionInUse(titles, videos, c)
  {
    forall t | t in titles
      ensures titles[t].collection != Some(c)
    {
      var r :| r in owner && owner[r] == t && KeptRef(p, r);
      KeptTitleInKeptCollection(p, r);
    }
    forall v | v in videos
      ensures videos[v].collection != Some(c)
    {
      AssignedVideoInKeptCollection(p, owner, v);
    }
  }

  // The collections still stored once all removed collections but `todo` are deleted.
  ghost predicate CollectionsLeft(p: Plan, todo: set<string>, collections: map<string, Collection>)
    requires CollectionsCovered(p)
  {
    && (forall c :: c in collections <==> c in p.collections && (KeptCollection(p, c) || c in todo))
    && (forall c :: c in collections ==> collections[c] == AppliedCollection(p, c))
  }

  // ------------------------------------------------------------ finalizing and verification

  datatype Finished = Finished(hierarchy: map<string, HierarchyState>, numbering: map<VideoId, Numbering>)

  // Evaluating every collection with videos sets its hierarchy state and its videos' numbering.
  function Finalized(s: Library, f: Finished): Library {
    Library(
      map c | c in s.collections ::
        if c in f.hierarchy && (exists v :: v in s.videos && s.videos[v].collection == Some(c))
        then s.collections[c].(hierarchy := f.hierarchy[c]) else s.collections[c],
      s.titles,
      map v | v in s.videos ::
        if v in f.numbering && s.videos[v].collection.Some? then s.videos[v].(numbering := f.numbering[v]) else s.videos[v])
  }

  function Cleared(videos: map<VideoId, Video>): map<VideoId, Video> {
    map v | v in videos :: videos[v].(numbering := Unknown)
  }

  predicate CollectionDeviates(p: Plan, s: Library) {
    exists c :: c in p.collections && p.collections[c].desired.Some?
      && (c !in s.collections || SnapshotOfCollection(s.collections[c]) != p.collections[c].desired.value)
  }

  predicate RowRemains(p: Plan, owner: map<TitleRef, TitleId>, s: Library) {
    || (exists c :: c in p.collections && p.collections[c].desired.None? && c in s.collections)
    || (exists r :: r in p.titles && p.titles[r].desired.None? && r in owner && owner[r] in s.titles)
  }

  predicate TitleDeviates(p: Plan, owner: map<TitleRef, TitleId>, s: Library) {
    exists r :: r in p.titles && p.titles[r].desired.Some?
      && (r !in owner || owner[r] !in s.titles || SnapshotOfTitle(s.titles[owner[r]]) != p.titles[r].desired.value)
  }

  predicate AssignmentDeviates(p: Plan, owner: map<TitleRef, TitleId>, s: Library) {
    exists v :: v in p.assignments
      && (v !in s.videos || s.videos[v].collection != p.assignments[v].place
          || (p.assignments[v].title.Some? && p.assignments[v].title.value !in owner)
          || s.videos[v].title != Resolved(owner, p.assignments[v].title))
  }

  predicate KeyInconsistent(s: Library) {
    exists v :: v in s.videos && s.videos[v].title.Some?
      && (s.videos[v].title.value !in s.titles || s.titles[s.videos[v].title.value].collection != s.videos[v].collection)
  }

  predicate NumberingDeviates(p: Plan, s: Library) {
    exists v :: v in p.numbering && (v !in s.videos || s.videos[v].numbering != p.numbering[v])
  }

  function Verdict(p: Plan, owner: map<TitleRef, TitleId>, s: Library): Result<(), RebuildError> {
    if RowRemains(p, owner, s) then Err(NotRemoved)
    else if CollectionDeviates(p, s) then Err(DeviatingCollection)
    else if TitleDeviates(p, owner, s) then Err(DeviatingTitle)
    else if AssignmentDeviates(p, owner, s) then Err(DeviatingAssignment)
    else if KeyInconsistent(s) then Err(InconsistentKey)
    else if NumberingDeviates(p, s) then Err(DeviatingNumbering)
    else Ok(())
  }

  // What a reconciliation never rewrites on a title: overrides, verification, split rules, selectors,
  // variant groups and other user data.
  predicate SameAuthority(a: Title, b: Title) {
    && a.manualOverride == b.manualOverride && a.verified == b.verified
    && a.splitRule == b.splitRule && a.malformedRule == b.malformedRule
    && a.selectors == b.selectors && a.variantGroups == b.variantGroups && a.userData == b.userData
  }

  // The title of a kept reference: as planned, an existing one with its own authority, a new one bare.
  ghost predicate TitleKept(p: Plan, r: TitleRef, title: Title)
    requires TitlesCovered(p) && KeptRef(p, r)
  {
    && SnapshotOfTitle(title) == p.titles[r].desired.value
    && SameAuthority(title, if r.Existing? then p.source.titles[r.id] else NewTitle(p.titles[r].desired.value))
  }

  // The plan does anything at all.
  predicate Changes(p: Plan) {
    || (exists c :: c in p.collections && !p.collections[c].action.Preserve?)
    || (exists r :: r in p.titles && !p.titles[r].action.Preserve?)
    || (exists v :: v in p.assignments && v in p.source.videos && Moves(p.source.videos[v], p.assignments[v]))
    || p.numbering != map[]
  }

  predicate Moves(video: Video, a: Assignment) {
    video.collection != a.place || (if video.title.Some? then Some(Existing(video.title.value)) else None) != a.title
  }

  // A collection that stays has its planned facts and what the user decided about it.
  ghost predicate CollectionKept(p: Plan, c: string, collection: Collection) {
    && KeptCollection(p, c) && collection.facts == p.collections[c].desired.value.facts
    && if c in p.source.collections then
         && collection.displayTitle == p.source.collections[c].displayTitle
         && collection.namingChoice == p.source.collections[c].namingChoice
       else collection.displayTitle == None && !collection.namingChoice
  }

  // The video's variant lane is one of the title it is assigned to.
  ghost predicate KeepsLane(p: Plan, v: VideoId)
    requires v in p.assignments && v in p.source.videos
  {
    var lane, title := p.source.videos[v].variantGroup, p.assignments[v].title;
    && lane.Some? && title.Some? && title.value.Existing? && title.value.id in p.source.titles
    && lane.value in p.source.titles[title.value.id].variantGroups
  }

  // The rows are where the plan puts them.
  ghost predicate Placed(p: Plan, owner: map<TitleRef, TitleId>, s: Library)
    requires TitlesCovered(p) && AssignmentsCovered(p)
  {
    && Owns(p, {}, owner)
    && (forall c :: c in s.collections <==> KeptCollection(p, c))
    && (forall c :: c in s.collections ==> CollectionKept(p, c, s.collections[c]))
    && (forall t :: t in s.titles <==> Left(p, {}, owner, t))
    && (forall r :: KeptRef(p, r) ==> owner[r] in s.titles && TitleKept(p, r, s.titles[owner[r]]))
    && s.videos.Keys == p.assignments.Keys
    && (forall v :: v in s.videos ==> VideoPlaced(p, owner, v, s.videos[v]))
  }

  ghost predicate VideoPlaced(p: Plan, owner: map<TitleRef, TitleId>, v: VideoId, video: Video)
    requires v in p.assignments && TitlesCovered(p) && AssignmentsCovered(p) && Owns(p, {}, owner)
  {
    var a := p.assignments[v];
    assert AssignmentOk(p, a);
    var before := p.source.videos[v];
    && video.collection == a.place && video.title == Resolved(owner, a.title)
    && (KeepsLane(p, v) ==> video.variantGroup == before.variantGroup)
    && (!KeepsLane(p, v) && Changes(p) ==> video.variantGroup == None)
    && video == before.(collection := video.collection, title := video.title, variantGroup := video.variantGroup,
                        numbering := video.numbering)
  }

  // What a placed library means for the videos: each has its planned title, in that title's collection.
  lemma PlacedVideo(p: Plan, owner: map<TitleRef, TitleId>, s: Library, v: VideoId)
    requires TitlesCovered(p) && AssignmentsCovered(p) && Placed(p, owner, s) && v in s.videos
    ensures s.videos[v].title.Some? ==>
      s.videos[v].title.value in s.titles && s.titles[s.videos[v].title.value].collection == s.videos[v].collection
  {
    assert AssignmentOk(p, p.assignments[v]);
    assert VideoPlaced(p, owner, v, s.videos[v]);
    if p.assignments[v].title.Some? {
      assert KeptRef(p, p.assignments[v].title.value);
    }
  }

  // ... and for the titles: one not marked for removal keeps its id and its authority.
  lemma KeptTitleKeepsAuthority(p: Plan, owner: map<TitleRef, TitleId>, s: Library, t: TitleId)
    requires TitlesCovered(p) && AssignmentsCovered(p) && Placed(p, owner, s)
    requires Existing(t) in p.titles && !p.titles[Existing(t)].action.Remove?
    ensures t in s.titles && t in p.source.titles && SameAuthority(s.titles[t], p.source.titles[t])
  {
    assert KeptRef(p, Existing(t));
  }

  lemma KeptOwnersDiffer(p: Plan, owner: map<TitleRef, TitleId>, r: TitleRef, q: TitleRef)
    requires Owns(p, {}, owner) && r in owner && q in owner && !KeptRef(p, r) && KeptRef(p, q)
    ensures owner[q] != owner[r]
  {
    assert OwnersDiffer(owner, q, r);
  }

  lemma RemovedIsGone(p: Plan, owner: map<TitleRef, TitleId>, s: Library, r: TitleRef)
    requires TitlesCovered(p) && AssignmentsCovered(p) && Placed(p, owner, s)
    requires r in p.titles && p.titles[r].desired.None? && r in owner
    ensures owner[r] !in s.titles
  {
    forall q | q in owner && KeptRef(p, q)
      ensures owner[q] != owner[r]
    {
      KeptOwnersDiffer(p, owner, r, q);
    }
  }

  lemma OnlyKeptRemain(p: Plan, owner: map<TitleRef, TitleId>, s: Library)
    requires TitlesCovered(p) && AssignmentsCovered(p) && Placed(p, owner, s)
    ensures !RowRemains(p, owner, s) && !TitleDeviates(p, owner, s)
  {
    forall r | r in p.titles && p.titles[r].desired.None? && r in owner
      ensures owner[r] !in s.titles
    {
      RemovedIsGone(p, owner, s, r);
    }
  }

  lemma AssignmentsHold(p: Plan, owner: map<TitleRef, TitleId>, s: Library)
    requires TitlesCovered(p) && AssignmentsCovered(p) && Placed(p, owner, s)
    ensures !AssignmentDeviates(p, owner, s) && !KeyInconsistent(s)
  {
    forall v | v in p.assignments
      ensures AssignmentOk(p, p.assignments[v]) && VideoPlaced(p, owner, v, s.videos[v])
    {
    }
    forall v | v in s.videos && s.videos[v].title.Some?
      ensures s.videos[v].title.value in s.titles
      ensures s.titles[s.videos[v].title.value].collection == s.videos[v].collection
    {
      PlacedVideo(p, owner, s, v);
    }
  }

  // Verification of placed rows can fail only on what finalizing computed.
  lemma PlacedPasses(p: Plan, owner: map<TitleRef, TitleId>, s: Library)
    requires TitlesCovered(p) && AssignmentsCovered(p) && Placed(p, owner, s)
    ensures Verdict(p, owner, s) ==
      if CollectionDeviates(p, s) then Err(DeviatingCollection)
      else if NumberingDeviates(p, s) then Err(DeviatingNumbering)
      else Ok(())
  {
    OnlyKeptRemain(p, owner, s);
    AssignmentsHold(p, owner, s);
  }

  lemma TitleStepsPlace(p: Plan, owner: map<TitleRef, TitleId>, titles: map<TitleId, Title>)
    requires TitlesCovered(p) && TitlesPlaced(p) && TitlesLeft(p, {}, owner, titles)
    ensures forall t :: t in titles <==> Left(p, {}, owner, t)
    ensures forall r :: KeptRef(p, r) ==> owner[r] in titles && TitleKept(p, r, titles[owner[r]])
  {
    forall r | KeptRef(p, r)
      ensures owner[r] in titles && TitleKept(p, r, titles[owner[r]])
    {
      KeptTitleInKeptCollection(p, r);
    }
  }

  lemma VideoStepPlaces(p: Plan, owner: map<TitleRef, TitleId>, v: VideoId)
    requires TitlesCovered(p) && AssignmentsCovered(p) && Owns(p, {}, owner) && v in p.assignments
    ensures VideoPlaced(p, owner, v, AssignedVideo(p, owner, v))
  {
  }

  lemma StepsPlace(p: Plan, owner: map<TitleRef, TitleId>, s: Library)
    requires TitlesCovered(p) && TitlesPlaced(p) && AssignmentsCovered(p) && CollectionsCovered(p)
    requires CollectionsLeft(p, {}, s.collections) && TitlesLeft(p, {}, owner, s.titles)
    requires VideosApplied(p, {}, owner, s.videos)
    ensures Placed(p, owner, s)
  {
    TitleStepsPlace(p, owner, s.titles);
    forall v | v in s.videos
      ensures VideoPlaced(p, owner, v, s.videos[v])
    {
      VideoStepPlaces(p, owner, v);
    }
  }

  lemma FinalizedVideo(p: Plan, owner: map<TitleRef, TitleId>, s: Library, f: Finished, v: VideoId)
    requires TitlesCovered(p) && AssignmentsCovered(p) && Owns(p, {}, owner) && v in p.assignments && v in s.videos
    requires VideoPlaced(p, owner, v, s.videos[v])
    ensures v in Finalized(s.(videos := Cleared(s.videos)), f).videos
    ensures VideoPlaced(p, owner, v, Finalized(s.(videos := Cleared(s.videos)), f).videos[v])
  {
  }

  lemma FinalizedCollection(p: Plan, s: Library, f: Finished, c: string)
    requires c in s.collections && CollectionKept(p, c, s.collections[c])
    ensures c in Finalized(s.(videos := Cleared(s.videos)), f).collections
    ensures CollectionKept(p, c, Finalized(s.(videos := Cleared(s.videos)), f).collections[c])
  {
  }

  lemma FinalizedKeys(s: Library, f: Finished, s': Library)
    requires s' == Finalized(s.(videos := Cleared(s.videos)), f)
    ensures s'.collections.Keys == s.collections.Keys && s'.titles == s.titles && s'.videos.Keys == s.videos.Keys
  {
  }

  // Finalizing moves no row.
  lemma FinalizingKeepsPlaces(p: Plan, owner: map<TitleRef, TitleId>, s: Library, f: Finished)
    requires TitlesCovered(p) && AssignmentsCovered(p) && Placed(p, owner, s)
    ensures Placed(p, owner, Finalized(s.(videos := Cleared(s.videos)), f))
  {
    var s' := Finalized(s.(videos := Cleared(s.videos)), f);
    FinalizedKeys(s, f, s');
    forall c | c in s'.collections
      ensures CollectionKept(p, c, s'.collections[c])
    {
      FinalizedCollection(p, s, f, c);
    }
    forall v | v in s'.videos
      ensures VideoPlaced(p, owner, v, s'.videos[v])
    {
      FinalizedVideo(p, owner, s, f, v);
    }
  }

  // ------------------------------------------------------------------------ plans that change nothing

  lemma UnchangedTitlesLeft(p: Plan, owner: map<TitleRef, TitleId>)
    requires TitlesCovered(p) && !Changes(p) && owner == map r: TitleRef | r in p.titles && r.Existing? :: r.id
    ensures Owns(p, {}, owner)
    ensures forall t :: t in p.source.titles <==> Left(p, {}, owner, t)
    ensures forall r :: KeptRef(p, r) ==> owner[r] in p.source.titles && TitleKept(p, r, p.source.titles[owner[r]])
  {
    forall r | r in p.titles
      ensures r.Existing? && p.titles[r].action.Preserve? && KeptRef(p, r)
    {
      assert p.titles[r].action.Preserve?;
    }
    forall t | t in p.source.titles
      ensures Left(p, {}, owner, t)
    {
      assert owner[Existing(t)] == t;
    }
  }

  // A library its plan leaves alone is already where the plan puts it.
  lemma UnchangedIsPlaced(p: Plan, owner: map<TitleRef, TitleId>)
    requires PlanOk(p) && !Changes(p) && owner == map r: TitleRef | r in p.titles && r.Existing? :: r.id
    ensures Placed(p, owner, p.source)
  {
    UnchangedTitlesLeft(p, owner);
    forall c | c in p.collections
      ensures p.collections[c].action.Preserve?
    {
    }
    forall v | v in p.source.videos
      ensures VideoPlaced(p, owner, v, p.source.videos[v])
    {
      assert AssignmentOk(p, p.assignments[v]);
      assert !Moves(p.source.videos[v], p.assignments[v]);
    }
  }

  lemma UnchangedPasses(p: Plan, owner: map<TitleRef, TitleId>)
    requires PlanOk(p) && !Changes(p) && Placed(p, owner, p.source)
    ensures Verdict(p, owner, p.source).Ok?
  {
    PlacedPasses(p, owner, p.source);
    forall c | c in p.collections
      ensures p.collections[c].action.Preserve?
    {
    }
  }

  // ------------------------------------------------------------------------------ the session

  // Some video's planned title does not accept it.
  predicate Refused(p: Plan, accepts: (VideoId, Option<TitleRef>) -> bool) {
    exists v :: v in p.assignments && !accepts(v, p.assignments[v].title)
  }

  class Session {
    var collections: map<string, Collection>
    var titles: map<TitleId, Title>
    var videos: map<VideoId, Video>
    var nextTitle: TitleId

    ghost predicate Valid()
      reads this
    {
      forall t :: t in titles ==> t < nextTitle
    }

    function State(): Library
      reads this
    {
      Library(collections, titles, videos)
    }

    method ApplyCollections(p: Plan)
      requires CollectionsCovered(p) && collections == p.source.collections
      modifies this`collections
      ensures CollectionsApplied(p, {}, collections)
    {
      var todo := p.collections.Keys;
      while todo != {}
        invariant todo <= p.collections.Keys && CollectionsApplied(p, todo, collections)
        decreases |todo|
      {
        var c :| c in todo;
        var item := p.collections[c];
        CollectionStep(p, todo, c, collections);
        if item.action.Create? {
          collections := collections[c := NewCollection(item.desired.value)];
        } else if item.desired.Some? {
          collections := collections[c := collections[c].(facts := item.desired.value.facts)];
        }
        todo := todo - {c};
      }
    }

    method ApplyTitle(p: Plan, ghost todo: set<TitleRef>, owner: map<TitleRef, TitleId>, r: TitleRef)
      returns (owner': map<TitleRef, TitleId>)
      requires Valid() && TitlesCovered(p) && r in todo && r in p.titles && TitlesApplied(p, todo, owner, titles)
      modifies this`titles, this`nextTitle
      ensures Valid() && TitlesApplied(p, todo - {r}, owner', titles)
    {
      owner' := owner;
      var item := p.titles[r];
      if item.action.Create? {
        CreateStep(p, todo, owner, titles, r, nextTitle);
        titles := titles[nextTitle := NewTitle(item.desired.value)];
        owner' := owner[r := nextTitle];
        nextTitle := nextTitle + 1;
      } else {
        RemovalStep(p, todo, owner, titles, r);
        if item.desired.Some? {
          UpdateStep(p, todo, owner, titles, r);
          titles := titles[owner[r] := Updated(titles[owner[r]], item.desired.value)];
        }
      }
    }

    method ApplyTitles(p: Plan) returns (owner: map<TitleRef, TitleId>)
      requires Valid() && TitlesCovered(p) && titles == p.source.titles
      modifies this`titles, this`nextTitle
      ensures Valid() && TitlesApplied(p, {}, owner, titles)
    {
      owner := map r: TitleRef | r in p.titles && r.Existing? :: r.id;
      var todo := p.titles.Keys;
      NothingAppliedYet(p, owner);
      while todo != {}
        invariant Valid() && todo <= p.titles.Keys && TitlesApplied(p, todo, owner, titles)
        decreases |todo|
      {
        var r :| r in todo;
        owner := ApplyTitle(p, todo, owner, r);
        todo := todo - {r};
      }
    }

    method ApplyAssignment(
      p: Plan, ghost todo: set<VideoId>, owner: map<TitleRef, TitleId>, v: VideoId, accepted: bool)
      returns (r: Result<(), RebuildError>)
      requires TitlesCovered(p) && AssignmentsCovered(p) && TitlesApplied(p, {}, owner, titles)
      requires v in todo && v in p.assignments && VideosApplied(p, todo, owner, videos)
      modifies this`videos
      ensures r.Ok? <==> accepted
      ensures r.Ok? ==> VideosApplied(p, todo - {v}, owner, videos)
      ensures r.Err? ==> r.error == AssignmentRefused
    {
      var a := p.assignments[v];
      AssignmentStep(p, todo, owner, titles, videos, v);
      VideosStep(p, todo, owner, videos, v);
      var target := Resolved(owner, a.title);
      if !accepted { return Err(AssignmentRefused); }
      videos := videos[v := Assigned(videos[v], a.place, target, titles)];
      r := if target.Some? && titles[target.value].collection != a.place then Err(InconsistentAssignment) else Ok(());
    }

    method ApplyAssignments(p: Plan, owner: map<TitleRef, TitleId>, accepts: (VideoId, Option<TitleRef>) -> bool)
      returns (r: Result<(), RebuildError>)
      requires TitlesCovered(p) && AssignmentsCovered(p) && TitlesApplied(p, {}, owner, titles)
      requires videos == p.source.videos
      modifies this`videos
      ensures r.Ok? ==> VideosApplied(p, {}, owner, videos)
      ensures r.Err? <==> Refused(p, accepts)
      ensures r.Err? ==> r.error == AssignmentRefused
    {
      r := Ok(());
      var todo := p.assignments.Keys;
      while todo != {} && r.Ok?
        invariant todo <= p.assignments.Keys
        invariant r.Ok? ==> VideosApplied(p, todo, owner, videos)
        invariant r.Ok? ==> forall v :: v in p.assignments && v !in todo ==> accepts(v, p.assignments[v].title)
        invariant r.Err? ==> r.error == AssignmentRefused && Refused(p, accepts)
        decreases |todo|
      {
        var v :| v in todo;
        r := ApplyAssignment(p, todo, owner, v, accepts(v, p.assignments[v].title));
        todo := todo - {v};
      }
    }

    method RemoveTitle(p: Plan, ghost todo: set<TitleRef>, owner: map<TitleRef, TitleId>, t: TitleRef)
      returns (r: Result<(), RebuildError>)
      requires Valid() && TitlesCovered(p) && TitlesLeft(p, todo, owner, titles)
      requires t in todo && RemovedBare(p, owner, t, videos)
      modifies this`titles
      ensures Valid() && r.Ok? && TitlesLeft(p, todo - {t}, owner, titles)
    {
      DeleteStep(p, todo, owner, titles, t);
      r := if TitleInUse(titles, videos, owner[t]) then Err(TitleNotEmpty) else Ok(());
      if r.Ok? {
        titles := titles - {owner[t]};
      }
    }

    method RemoveBareTitles(
      p: Plan, owner: map<TitleRef, TitleId>, removed: set<TitleRef>, ghost vids: map<VideoId, Video>)
      returns (r: Result<(), RebuildError>)
      requires Valid() && TitlesCovered(p) && TitlesLeft(p, removed, owner, titles)
      requires vids == videos && AllBare(p, owner, removed, vids)
      modifies this`titles
      ensures Valid() && r.Ok? && TitlesLeft(p, {}, owner, titles)
    {
      r := Ok(());
      var todo := removed;
      while todo != {} && r.Ok?
        invariant Valid() && r.Ok? && videos == vids && AllBare(p, owner, todo, vids)
        invariant TitlesLeft(p, todo, owner, titles)
        decreases |todo|
      {
        var t :| t in todo;
        assert RemovedBare(p, owner, t, vids);
        r := RemoveTitle(p, todo, owner, t);
        todo := todo - {t};
      }
    }

    method RemoveTitles(p: Plan, owner: map<TitleRef, TitleId>) returns (r: Result<(), RebuildError>)
      requires Valid() && TitlesCovered(p) && AssignmentsCovered(p) && RemovalsUnprotected(p)
      requires TitlesApplied(p, {}, owner, titles) && VideosApplied(p, {}, owner, videos)
      modifies this`titles
      ensures Valid() && r.Ok? && TitlesLeft(p, {}, owner, titles)
    {
      var removed := set t | t in p.titles && p.titles[t].action.Remove?;
      AllLeft(p, removed, owner, titles);
      RemovedAreUnused(p, owner, videos, removed);
      r := RemoveBareTitles(p, owner, removed, videos);
    }

    method RemoveCollections(p: Plan, ghost owner: map<TitleRef, TitleId>) returns (r: Result<(), RebuildError>)
      requires TitlesCovered(p) && AssignmentsCovered(p) && CollectionsCovered(p) && TitlesPlaced(p)
      requires CollectionsApplied(p, {}, collections)
      requires TitlesLeft(p, {}, owner, titles) && VideosApplied(p, {}, owner, videos)
      modifies this`collections
      ensures r.Ok? && CollectionsLeft(p, {}, collections)
    {
      r := Ok(());
      var todo := set c | c in p.collections && p.collections[c].action.Remove?;
      while todo != {} && r.Ok?
        invariant r.Ok? && CollectionsLeft(p, todo, collections)
        invariant forall c :: c in todo ==> c in p.collections && p.collections[c].desired.None?
        decreases |todo|
      {
        var c :| c in todo;
        RemovedCollectionIsUnused(p, owner, titles, videos, c);
        r := if CollectionInUse(titles, videos, c) then Err(CollectionNotEmpty) else Ok(());
        if r.Ok? {
          collections := collections - {c};
        }
        todo := todo - {c};
      }
    }

    // The steps inside the savepoint.
    method Reconcile(p: Plan, accepts: (VideoId, Option<TitleRef>) -> bool, finish: Library -> Finished)
      returns (r: Result<(), RebuildError>, ghost owner: map<TitleRef, TitleId>)
      requires Valid() && PlanOk(p) && State() == p.source
      modifies this
      ensures r.Ok? ==> Valid() && Placed(p, owner, State()) && Verdict(p, owner, State()).Ok?
      ensures r.Err? ==>
        r.error == AssignmentRefused || r.error == DeviatingCollection || r.error == DeviatingNumbering
      ensures r == Err(AssignmentRefused) <==> Refused(p, accepts)
    {
      ApplyCollections(p);
      var ids := ApplyTitles(p);
      owner := ids;
      r := ApplyAssignments(p, ids, accepts);
      if r.Ok? {
        r := RemoveTitles(p, ids);
        r := RemoveCollections(p, ids);
        StepsPlace(p, ids, State());
        FinalizingKeepsPlaces(p, ids, State(), finish(Library(collections, titles, Cleared(videos))));
        videos := Cleared(videos);
        var final := Finalized(State(), finish(State()));
        collections, videos := final.collections, final.videos;
        PlacedPasses(p, ids, State());
        r := Verdict(p, ids, State());
      }
    }

    // apply_hierarchy_rebuild_plan
    method Apply(p: Plan, accepts: (VideoId, Option<TitleRef>) -> bool, finish: Library -> Finished)
      returns (r: Result<(), RebuildError>, ghost owner: map<TitleRef, TitleId>)
      requires Valid() && PlanOk(p)
      modifies this
      ensures Valid()
      ensures r.Err? ==> State() == old(State())
      ensures r == Err(StalePlan) <==> old(State()) != p.source
      ensures r == Err(BlockedPlan) <==> old(State()) == p.source && p.hardBlockers != {}
      ensures r.Err? ==>
        || r.error == StalePlan || r.error == BlockedPlan || r.error == AssignmentRefused
        || r.error == DeviatingCollection || r.error == DeviatingNumbering
      ensures r == Err(AssignmentRefused) <==>
        old(State()) == p.source && p.hardBlockers == {} && Changes(p) && Refused(p, accepts)
      ensures r.Ok? ==> old(State()) == p.source && Placed(p, owner, State()) && Verdict(p, owner, State()).Ok?
    {
      owner := map[];
      if State() != p.source { return Err(StalePlan), owner; }
      if p.hardBlockers != {} { return Err(BlockedPlan), owner; }
      if !Changes(p) {
        owner := map t: TitleRef | t in p.titles && t.Existing? :: t.id;
        UnchangedIsPlaced(p, owner);
        UnchangedPasses(p, owner);
        return Ok(()), owner;
      }
      var savedCollections, savedTitles, savedVideos, savedNext := collections, titles, videos, nextTitle;
      r, owner := Reconcile(p, accepts, finish);
      if r.Err? {
        collections, titles, videos, nextTitle := savedCollections, savedTitles, savedVideos, savedNext;
      }
    }
  }
}
