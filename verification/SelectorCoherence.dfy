/**
 Explicit selectors stay within one collection: title moves and replays of grouping decisions are
 refused exactly when they would spread a video's selector titles, and the batched projection of
 the decisions is the same as replaying them one at a time.
*/
module SelectorCoherence {
  import opened Basics

  type TitleId = nat
  type VideoId = nat
  type CollectionId = nat
  type Places = map<TitleId, Option<CollectionId>>

  // Where each title lies, and the titles that select each video.
  datatype Catalog = Catalog(place: Places, links: map<VideoId, set<TitleId>>)

  ghost predicate CatalogOk(s: Catalog) {
    forall v :: v in s.links ==> s.links[v] <= s.place.Keys
  }

  // The collections of a video's selector titles; a missing one counts as None.
  function PlacesOf(place: Places, titles: set<TitleId>): set<Option<CollectionId>> {
    set t | t in titles :: PlaceOf(place, t)
  }

  function PlaceOf(place: Places, t: TitleId): Option<CollectionId> {
    if t in place then place[t] else None
  }

  predicate CoherentAt(place: Places, titles: set<TitleId>) {
    |PlacesOf(place, titles)| <= 1 && None !in PlacesOf(place, titles)
  }

  ghost predicate Coherent(s: Catalog) {
    forall v :: v in s.links ==> CoherentAt(s.place, s.links[v])
  }

  lemma SmallSet<T>(xs: set<T>)
    ensures |xs| <= 1 <==> forall x, y :: x in xs && y in xs ==> x == y
  {
    if |xs| > 1 {
      var x :| x in xs;
      assert |xs - {x}| > 0;
      var y :| y in xs - {x};
    }
    if x, y :| x in xs && y in xs && x != y {
      assert |{x, y}| == 2 && {x, y} <= xs;
      SubsetSize({x, y}, xs);
    }
  }

  lemma SubsetSize<T>(a: set<T>, b: set<T>)
    requires a <= b
    ensures |a| <= |b|
  {
    assert b == a + (b - a);
  }

  // What coherence says: the titles that select a video all lie in one and the same collection.
  lemma CoherentMeans(place: Places, titles: set<TitleId>)
    ensures CoherentAt(place, titles) <==>
      forall t, u :: t in titles && u in titles ==> PlaceOf(place, t) == PlaceOf(place, u) && PlaceOf(place, t).Some?
  {
    var places := PlacesOf(place, titles);
    SmallSet(places);
    if CoherentAt(place, titles) {
      forall t, u | t in titles && u in titles
        ensures PlaceOf(place, t) == PlaceOf(place, u) && PlaceOf(place, t).Some?
      {
        assert PlaceOf(place, t) in places && PlaceOf(place, u) in places;
      }
    }
  }

  // ------------------------------------------------------------------------------------ moves

  function Moved(place: Places, selected: set<TitleId>, target: CollectionId): Places {
    map t | t in place :: if t in selected then Some(target) else place[t]
  }

  // The check runs over the videos the selected titles select.
  ghost predicate Accepted(s: Catalog, place: Places, selected: set<TitleId>, target: CollectionId) {
    forall v :: v in s.links && s.links[v] * selected != {} ==> CoherentAt(Moved(place, selected, target), s.links[v])
  }

  lemma UntouchedPlaces(place: Places, selected: set<TitleId>, target: CollectionId, titles: set<TitleId>)
    requires titles * selected == {}
    ensures PlacesOf(Moved(place, selected, target), titles) == PlacesOf(place, titles)
  {
    forall t | t in titles
      ensures PlaceOf(Moved(place, selected, target), t) == PlaceOf(place, t)
    {
      assert t !in titles * selected;
    }
  }

  // In a coherent catalog a move is accepted exactly when its result is coherent.
  lemma AcceptedIff(s: Catalog, selected: set<TitleId>, target: CollectionId)
    requires Coherent(s)
    ensures Accepted(s, s.place, selected, target) <==> Coherent(Catalog(Moved(s.place, selected, target), s.links))
  {
    forall v | v in s.links && s.links[v] * selected == {}
      ensures CoherentAt(Moved(s.place, selected, target), s.links[v])
    {
      UntouchedPlaces(s.place, selected, target, s.links[v]);
    }
  }

  // --------------------------------------------------------------------------------- decisions

  // A stored grouping decision; its references may be dead.
  datatype Decision = Decision(merged: bool, target: Option<CollectionId>, titles: seq<Option<TitleId>>)

  function Resolved(place: Places, d: Decision): set<TitleId> {
    set t | t in place && Some(t) in d.titles
  }

  function ResolvedTarget(collections: set<CollectionId>, d: Decision): Option<CollectionId> {
    if d.target.Some? && d.target.value in collections then d.target else None
  }

  ghost function Replayed(s: Catalog, collections: set<CollectionId>, d: Decision): Catalog {
    var target, selected := ResolvedTarget(collections, d), Resolved(s.place, d);
    if d.merged && target.Some? && Accepted(s, s.place, selected, target.value)
    then Catalog(Moved(s.place, selected, target.value), s.links)
    else s
  }

  // The titles a decision places, and those any of the decisions place.
  ghost function ReplayedTitles(s: Catalog, collections: set<CollectionId>, d: Decision): set<TitleId> {
    var target, selected := ResolvedTarget(collections, d), Resolved(s.place, d);
    if d.merged && target.Some? && Accepted(s, s.place, selected, target.value) then selected else {}
  }

  ghost function AllReplayedTitles(s: Catalog, collections: set<CollectionId>, decisions: seq<Decision>): set<TitleId> {
    if decisions == [] then {}
    else
      var before := ReplayAll(s, collections, decisions[..|decisions| - 1]);
      AllReplayedTitles(s, collections, decisions[..|decisions| - 1])
      + ReplayedTitles(before, collections, decisions[|decisions| - 1])
  }

  ghost function ReplayAll(s: Catalog, collections: set<CollectionId>, decisions: seq<Decision>): Catalog {
    if decisions == [] then s
    else Replayed(ReplayAll(s, collections, decisions[..|decisions| - 1]), collections, decisions[|decisions| - 1])
  }

  // The places with the decision's titles at its target.
  function PlacedBy(place: Places, d: Decision): Places {
    map t | t in place :: if Some(t) in d.titles then d.target else place[t]
  }

  // The decision merges into a stored collection, and its titles can go there without spreading any
  // video's selectors over several collections or leaving one in none.
  ghost predicate CanAct(s: Catalog, collections: set<CollectionId>, d: Decision) {
    && d.merged && d.target.Some? && d.target.value in collections
    && forall v, t, u :: v in s.links && t in s.links[v] && u in s.links[v] ==>
         var after := PlacedBy(s.place, d);
         t in after && u in after && after[t].Some? && after[t] == after[u]
  }

  lemma PlacedByMoves(place: Places, d: Decision)
    requires d.target.Some?
    ensures PlacedBy(place, d) == Moved(place, Resolved(place, d), d.target.value)
  {
  }

  /** Replaying a decision puts exactly its stored titles into its collection if it can act, and changes
      nothing otherwise: a dead target, an unmerged decision or shared selectors stop it. */
  lemma DecisionMeans(s: Catalog, collections: set<CollectionId>, d: Decision)
    requires Coherent(s) && CatalogOk(s)
    ensures Replayed(s, collections, d) ==
      if CanAct(s, collections, d) then Catalog(PlacedBy(s.place, d), s.links) else s
  {
    if d.merged && d.target.Some? && d.target.value in collections {
      PlacedByMoves(s.place, d);
      AcceptedIff(s, Resolved(s.place, d), d.target.value);
      forall v | v in s.links
        ensures CoherentAt(PlacedBy(s.place, d), s.links[v]) <==>
          forall t, u :: t in s.links[v] && u in s.links[v] ==>
            PlaceOf(PlacedBy(s.place, d), t) == PlaceOf(PlacedBy(s.place, d), u) && PlaceOf(PlacedBy(s.place, d), t).Some?
      {
        CoherentMeans(PlacedBy(s.place, d), s.links[v]);
      }
    }
  }

  lemma {:induction false} ReplayKeepsCoherence(s: Catalog, collections: set<CollectionId>, decisions: seq<Decision>)
    requires Coherent(s)
    ensures Coherent(ReplayAll(s, collections, decisions))
  {
    if decisions != [] {
      var before := ReplayAll(s, collections, decisions[..|decisions| - 1]);
      ReplayKeepsCoherence(s, collections, decisions[..|decisions| - 1]);
      var d := decisions[|decisions| - 1];
      if ResolvedTarget(collections, d).Some? {
        AcceptedIff(before, Resolved(before.place, d), ResolvedTarget(collections, d).value);
      }
    }
  }

  // --------------------------------------------------------------------------------------- runs

  datatype Step =
    | Move(selected: set<TitleId>, target: CollectionId)
    | Replay(collections: set<CollectionId>, decisions: seq<Decision>)

  ghost function After(s: Catalog, step: Step): Catalog {
    match step
    case Move(selected, target) =>
      if Accepted(s, s.place, selected, target) then Catalog(Moved(s.place, selected, target), s.links) else s
    case Replay(collections, decisions) => ReplayAll(s, collections, decisions)
  }

  ghost function Run(s: Catalog, steps: seq<Step>): Catalog {
    if steps == [] then s else After(Run(s, steps[..|steps| - 1]), steps[|steps| - 1])
  }

  // Every run of moves and replays keeps the selectors of each video in one collection.
  lemma {:induction false} RunKeepsCoherence(s: Catalog, steps: seq<Step>)
    requires Coherent(s)
    ensures Coherent(Run(s, steps))
  {
    if steps != [] {
      var before := Run(s, steps[..|steps| - 1]);
      RunKeepsCoherence(s, steps[..|steps| - 1]);
      match steps[|steps| - 1]
      case Move(selected, target) => AcceptedIff(before, selected, target);
      case Replay(collections, decisions) => ReplayKeepsCoherence(before, collections, decisions);
    }
  }

  // ------------------------------------------------------------------------ the batched projection

  method SharesConflict(s: Catalog, projected: Places, selected: set<TitleId>, target: CollectionId)
    returns (conflict: bool)
    requires CatalogOk(s) && projected.Keys == s.place.Keys
    ensures conflict <==> !Accepted(s, projected, selected, target)
  {
    conflict := false;
    var todo := s.links.Keys;
    while todo != {} && !conflict
      invariant todo <= s.links.Keys
      invariant conflict <==> exists v :: v in s.links && v !in todo && SharedBadly(s, projected, selected, target, v)
      decreases |todo|
    {
      var v :| v in todo;
      var others := s.links[v];
      if others * selected != {} {
        var resulting := set t | t in others :: if t in selected then Some(target) else PlaceOf(projected, t);
        ResultingIsMoved(projected, selected, target, others);
        if |resulting| > 1 || None in resulting {
          conflict := true;
        }
      }
      todo := todo - {v};
    }
    if !conflict {
      forall v | v in s.links
        ensures !SharedBadly(s, projected, selected, target, v)
      {
      }
    }
  }

  ghost predicate SharedBadly(s: Catalog, projected: Places, selected: set<TitleId>, target: CollectionId, v: VideoId)
    requires v in s.links
  {
    s.links[v] * selected != {} && !CoherentAt(Moved(projected, selected, target), s.links[v])
  }

  lemma ResultingIsMoved(projected: Places, selected: set<TitleId>, target: CollectionId, others: set<TitleId>)
    requires others <= projected.Keys
    ensures (set t | t in others :: if t in selected then Some(target) else PlaceOf(projected, t))
      == PlacesOf(Moved(projected, selected, target), others)
  {
    forall t | t in others
      ensures (if t in selected then Some(target) else PlaceOf(projected, t)) == PlaceOf(Moved(projected, selected, target), t)
    {
    }
  }

  // The places once the assignments are made.
  function Assigned(place: Places, assignments: map<TitleId, CollectionId>): Places {
    map t | t in place :: if t in assignments then Some(assignments[t]) else place[t]
  }

  function AssignAll(assignments: map<TitleId, CollectionId>, selected: set<TitleId>, target: CollectionId): map<TitleId, CollectionId> {
    map t | t in assignments.Keys + selected :: if t in selected then target else assignments[t]
  }

  lemma AssignedMoves(place: Places, assignments: map<TitleId, CollectionId>, selected: set<TitleId>, target: CollectionId)
    requires selected <= place.Keys
    ensures Assigned(place, AssignAll(assignments, selected, target)) == Moved(Assigned(place, assignments), selected, target)
  {
  }

  // collection_grouping_authority_targets: one pass over the decisions in their order.
  method AuthorityTargets(s: Catalog, collections: set<CollectionId>, decisions: seq<Decision>)
    returns (assignments: map<TitleId, CollectionId>)
    requires CatalogOk(s)
    ensures Assigned(s.place, assignments) == ReplayAll(s, collections, decisions).place
    ensures assignments.Keys <= s.place.Keys && assignments.Values <= collections
    ensures assignments.Keys == AllReplayedTitles(s, collections, decisions)
  {
    var projected := s.place;
    assignments := map[];
    assert Assigned(s.place, assignments) == s.place;
    for i := 0 to |decisions|
      invariant projected == ReplayAll(s, collections, decisions[..i]).place && projected.Keys == s.place.Keys
      invariant ReplayAll(s, collections, decisions[..i]).links == s.links
      invariant Assigned(s.place, assignments) == projected
      invariant assignments.Keys == AllReplayedTitles(s, collections, decisions[..i])
      invariant assignments.Keys <= s.place.Keys && assignments.Values <= collections
    {
      assert decisions[..i + 1][..i] == decisions[..i];
      projected, assignments := ProjectDecision(s, collections, decisions[i], projected, assignments);
    }
    assert decisions[..|decisions|] == decisions;
  }

  method ProjectDecision(
    s: Catalog, collections: set<CollectionId>, d: Decision, projected: Places, assignments: map<TitleId, CollectionId>)
    returns (projected': Places, assignments': map<TitleId, CollectionId>)
    requires CatalogOk(s) && projected.Keys == s.place.Keys && Assigned(s.place, assignments) == projected
    requires assignments.Keys <= s.place.Keys && assignments.Values <= collections
    ensures Replayed(Catalog(projected, s.links), collections, d) == Catalog(projected', s.links)
    ensures projected'.Keys == s.place.Keys && Assigned(s.place, assignments') == projected'
    ensures assignments'.Keys == assignments.Keys + ReplayedTitles(Catalog(projected, s.links), collections, d)
    ensures assignments'.Keys <= s.place.Keys && assignments'.Values <= collections
  {
    projected', assignments' := projected, assignments;
    var target := ResolvedTarget(collections, d);
    if d.merged && target.Some? {
      var selected := Resolved(projected, d);
      var conflict := SharesConflict(s, projected, selected, target.value);
      AcceptedByLinks(s, projected, selected, target.value);
      if !conflict {
        AssignedMoves(s.place, assignments, selected, target.value);
        projected' := Moved(projected, selected, target.value);
        assignments' := AssignAll(assignments, selected, target.value);
      }
    }
  }

  lemma AcceptedByLinks(s: Catalog, projected: Places, selected: set<TitleId>, target: CollectionId)
    ensures Accepted(s, projected, selected, target) <==> Accepted(Catalog(projected, s.links), projected, selected, target)
  {
  }

  // ------------------------------------------------------------------------- stored objects

  datatype MoveError = EmptySelection | UnknownTarget | ForeignTitle | SharedSelectors | RecapContext

  // A title's own videos and the videos it selects.
  predicate Touches(
    member: map<VideoId, Option<TitleId>>, links: map<VideoId, set<TitleId>>, titles: set<TitleId>, v: VideoId)
  {
    || (v in member && member[v].Some? && member[v].value in titles)
    || (v in links && links[v] * titles != {})
  }

  // The redundant collection links once the touched videos follow.
  function Followed(
    member: map<VideoId, Option<TitleId>>, links: map<VideoId, set<TitleId>>, titles: set<TitleId>, target: CollectionId,
    videoPlace: map<VideoId, Option<CollectionId>>): map<VideoId, Option<CollectionId>>
  {
    map v | v in videoPlace :: if Touches(member, links, titles, v) then Some(target) else videoPlace[v]
  }

  lemma FollowedStep(
    member: map<VideoId, Option<TitleId>>, links: map<VideoId, set<TitleId>>, titles: set<TitleId>, t: TitleId,
    target: CollectionId, videoPlace: map<VideoId, Option<CollectionId>>)
    ensures Followed(member, links, {t}, target, Followed(member, links, titles, target, videoPlace))
      == Followed(member, links, titles + {t}, target, videoPlace)
  {
    forall v
      ensures Touches(member, links, titles + {t}, v) <==> Touches(member, links, titles, v) || Touches(member, links, {t}, v)
    {
      if v in links {
        assert links[v] * (titles + {t}) == links[v] * titles + links[v] * {t};
      }
    }
  }

  lemma NoneFollowed(
    member: map<VideoId, Option<TitleId>>, links: map<VideoId, set<TitleId>>, target: CollectionId,
    videoPlace: map<VideoId, Option<CollectionId>>)
    ensures Followed(member, links, {}, target, videoPlace) == videoPlace
  {
  }

  lemma MovedStep(place: Places, titles: set<TitleId>, t: TitleId, target: CollectionId)
    requires t in place
    ensures Moved(place, titles, target)[t := Some(target)] == Moved(place, titles + {t}, target)
    ensures Moved(place, {}, target) == place
  {
  }

  // Titles and videos with their redundant collection links.
  class Grouping {
    var place: Places
    var links: map<VideoId, set<TitleId>>
    var member: map<VideoId, Option<TitleId>>
    var videoPlace: map<VideoId, Option<CollectionId>>

    ghost predicate Valid()
      reads this
    {
      CatalogOk(Current()) && links.Keys == videoPlace.Keys && member.Keys == videoPlace.Keys
    }

    function Current(): Catalog
      reads this
    {
      Catalog(place, links)
    }

    method PlaceTitle(t: TitleId, target: CollectionId)
      requires Valid() && t in place
      modifies this`place, this`videoPlace
      ensures Valid() && place == old(place)[t := Some(target)]
      ensures videoPlace == Followed(member, links, {t}, target, old(videoPlace))
    {
      place := place[t := Some(target)];
      videoPlace := Followed(member, links, {t}, target, videoPlace);
    }

    method PlaceTitles(titles: set<TitleId>, target: CollectionId)
      requires Valid() && titles <= place.Keys
      modifies this`place, this`videoPlace
      ensures Valid() && place == Moved(old(place), titles, target)
      ensures videoPlace == Followed(member, links, titles, target, old(videoPlace))
    {
      var todo, done := titles, {};
      NoneFollowed(member, links, target, videoPlace);
      while todo != {}
        invariant Valid() && todo + done == titles && titles <= place.Keys
        invariant place == Moved(old(place), done, target)
        invariant videoPlace == Followed(member, links, done, target, old(videoPlace))
        decreases |todo|
      {
        var t :| t in todo;
        FollowedStep(member, links, done, t, target, old(videoPlace));
        MovedStep(old(place), done, t, target);
        PlaceTitle(t, target);
        todo, done := todo - {t}, done + {t};
      }
      assert done == titles;
    }

    // move_titles_to_collection up to the hierarchy evaluation that follows it
    method Move(selected: set<TitleId>, collections: set<CollectionId>, target: CollectionId, recapOk: bool)
      returns (r: Result<(), MoveError>)
      requires Valid()
      modifies this`place, this`videoPlace
      ensures Valid()
      ensures r.Err? ==> place == old(place) && videoPlace == old(videoPlace)
      ensures selected != {} && target in collections && selected <= old(place).Keys ==>
        (r == Err(SharedSelectors) <==> !Accepted(old(Current()), old(place), selected, target))
      ensures r.Ok? ==> selected != {} && target in collections && selected <= old(place).Keys
      ensures r.Ok? ==>
        && place.Keys == old(place).Keys
        && forall t :: t in place ==> place[t] == if t in selected then Some(target) else old(place)[t]
      ensures r.Ok? ==>
        && videoPlace.Keys == old(videoPlace).Keys
        && forall v :: v in videoPlace ==>
             videoPlace[v] == if DrawnAlong(old(place), selected, target, member[v], links[v]) then Some(target) else old(videoPlace)[v]
    {
      if selected == {} { return Err(EmptySelection); }
      if target !in collections { return Err(UnknownTarget); }
      if !(selected <= place.Keys) { return Err(ForeignTitle); }
      var conflict := SharesConflict(Current(), place, selected, target);
      if conflict { return Err(SharedSelectors); }
      var moved := MovedTitles(place, selected, target);
      MovingMoved(place, selected, target);
      forall v | v in videoPlace
        ensures Touches(member, links, moved, v) <==> DrawnAlong(place, selected, target, member[v], links[v])
      {
        DrawnIff(member, links, place, selected, target, v);
      }
      NoneFollowed(member, links, target, videoPlace);
      if moved == {} {
        assert place == Moved(place, {}, target);
        return Ok(());
      }
      if !recapOk { return Err(RecapContext); }
      PlaceTitles(moved, target);
      r := Ok(());
    }

    // Each title in turn, with its videos, as the projection says.
    method PlaceAssigned(assignments: map<TitleId, CollectionId>)
      requires Valid() && assignments.Keys <= place.Keys
      modifies this`place, this`videoPlace
      ensures Valid() && place == Assigned(old(place), assignments)
      ensures AllFollow(member, links, place, assignments.Keys, old(videoPlace), videoPlace)
    {
      ghost var final := Assigned(place, assignments);
      var todo, done := assignments.Keys, {};
      NoneFollow(member, links, final, videoPlace);
      AssignedEnds(place, assignments);
      while todo != {}
        invariant Valid() && todo + done == assignments.Keys && place == AssignedOnly(old(place), assignments, done)
        invariant AllFollow(member, links, final, done, old(videoPlace), videoPlace)
        decreases |todo|
      {
        var t :| t in todo;
        FollowNext(member, links, final, done, t, assignments[t], old(videoPlace), videoPlace);
        AssignedNext(old(place), assignments, done, t);
        PlaceTitle(t, assignments[t]);
        todo, done := todo - {t}, done + {t};
      }
      assert done == assignments.Keys;
    }

    // apply_collection_grouping_authority: the titles lie where the replay puts them, and every video
    // of a placed title, or selected by one, follows one of them.
    method ApplyAuthority(collections: set<CollectionId>, decisions: seq<Decision>)
      requires Valid()
      modifies this`place, this`videoPlace
      ensures Valid() && place == ReplayAll(old(Current()), collections, decisions).place
      ensures AllFollow(
        member, links, place, AllReplayedTitles(old(Current()), collections, decisions), old(videoPlace), videoPlace)
    {
      var assignments := AuthorityTargets(Current(), collections, decisions);
      PlaceAssigned(assignments);
    }
  }

  function AssignedOnly(place: Places, assignments: map<TitleId, CollectionId>, done: set<TitleId>): Places {
    map t | t in place :: if t in assignments && t in done then Some(assignments[t]) else place[t]
  }

  lemma AssignedNext(place: Places, assignments: map<TitleId, CollectionId>, done: set<TitleId>, t: TitleId)
    requires t in place && t in assignments
    ensures AssignedOnly(place, assignments, done)[t := Some(assignments[t])] == AssignedOnly(place, assignments, done + {t})
  {
  }

  lemma AssignedEnds(place: Places, assignments: map<TitleId, CollectionId>)
    ensures AssignedOnly(place, assignments, {}) == place
    ensures AssignedOnly(place, assignments, assignments.Keys) == Assigned(place, assignments)
  {
  }

  // A video touched by one of the titles lies with such a title; any other stays.
  ghost predicate FollowsOne(
    member: map<VideoId, Option<TitleId>>, links: map<VideoId, set<TitleId>>, place: Places, titles: set<TitleId>,
    v: VideoId, before: Option<CollectionId>, after: Option<CollectionId>)
  {
    if Touches(member, links, titles, v)
    then exists t :: t in titles && t in place && Touches(member, links, {t}, v) && after == place[t]
    else after == before
  }

  ghost predicate AllFollow(
    member: map<VideoId, Option<TitleId>>, links: map<VideoId, set<TitleId>>, place: Places, titles: set<TitleId>,
    before: map<VideoId, Option<CollectionId>>, after: map<VideoId, Option<CollectionId>>)
  {
    after.Keys == before.Keys && forall v :: v in after ==> FollowsOne(member, links, place, titles, v, before[v], after[v])
  }

  lemma NoneFollow(
    member: map<VideoId, Option<TitleId>>, links: map<VideoId, set<TitleId>>, place: Places,
    videoPlace: map<VideoId, Option<CollectionId>>)
    ensures AllFollow(member, links, place, {}, videoPlace, videoPlace)
  {
  }

  lemma TouchesAdded(
    member: map<VideoId, Option<TitleId>>, links: map<VideoId, set<TitleId>>, titles: set<TitleId>, t: TitleId, v: VideoId)
    ensures Touches(member, links, titles + {t}, v) <==> Touches(member, links, titles, v) || Touches(member, links, {t}, v)
  {
    if v in links {
      assert links[v] * (titles + {t}) == links[v] * titles + links[v] * {t};
    }
  }

  lemma FollowNext(
    member: map<VideoId, Option<TitleId>>, links: map<VideoId, set<TitleId>>, place: Places, titles: set<TitleId>,
    t: TitleId, target: CollectionId, before: map<VideoId, Option<CollectionId>>, now: map<VideoId, Option<CollectionId>>)
    requires t in place && place[t] == Some(target) && AllFollow(member, links, place, titles, before, now)
    ensures AllFollow(member, links, place, titles + {t}, before, Followed(member, links, {t}, target, now))
  {
    forall v | v in now
      ensures FollowsOne(member, links, place, titles + {t}, v, before[v], Followed(member, links, {t}, target, now)[v])
    {
      assert FollowsOne(member, links, place, titles, v, before[v], now[v]);
      TouchesAdded(member, links, titles, t, v);
      if Touches(member, links, {t}, v) {
        assert t in titles + {t};
      } else if Touches(member, links, titles, v) {
        var u :| u in titles && u in place && Touches(member, links, {u}, v) && now[v] == place[u];
        assert u in titles + {t};
      }
    }
  }

  // In a coherent catalog a video touched only through its selectors follows all of them at once.
  lemma FollowsAllSelectors(
    member: map<VideoId, Option<TitleId>>, links: map<VideoId, set<TitleId>>, place: Places, titles: set<TitleId>,
    v: VideoId, before: Option<CollectionId>, after: Option<CollectionId>, u: TitleId)
    requires v in links && CoherentAt(place, links[v]) && u in links[v] && links[v] * titles != {}
    requires FollowsOne(member, links, place, titles, v, before, after)
    requires v in member && member[v].Some? && member[v].value in titles ==> member[v].value in links[v]
    ensures after == PlaceOf(place, u) && after.Some?
  {
    CoherentMeans(place, links[v]);
    var t :| t in titles && t in place && Touches(member, links, {t}, v) && after == place[t];
    assert t in links[v];
  }

  // Titles not in the target collection yet.
  function MovedTitles(place: Places, selected: set<TitleId>, target: CollectionId): set<TitleId> {
    set t | t in selected && t in place && place[t] != Some(target)
  }

  // One of the titles that really move holds the video or selects it.
  ghost predicate DrawnAlong(
    place: Places, selected: set<TitleId>, target: CollectionId, title: Option<TitleId>, selectors: set<TitleId>)
    requires selected <= place.Keys
  {
    exists t :: t in selected && place[t] != Some(target) && (title == Some(t) || t in selectors)
  }

  lemma DrawnIff(
    member: map<VideoId, Option<TitleId>>, links: map<VideoId, set<TitleId>>, place: Places, selected: set<TitleId>,
    target: CollectionId, v: VideoId)
    requires v in member && v in links && selected <= place.Keys
    ensures Touches(member, links, MovedTitles(place, selected, target), v) <==>
      DrawnAlong(place, selected, target, member[v], links[v])
  {
    var moved := MovedTitles(place, selected, target);
    if t :| t in selected && place[t] != Some(target) && t in links[v] {
      assert t in links[v] * moved;
    }
    if t :| t in links[v] * moved {
      assert t in selected && place[t] != Some(target) && t in links[v];
    }
  }

  lemma MovingMoved(place: Places, selected: set<TitleId>, target: CollectionId)
    requires selected <= place.Keys
    ensures Moved(place, MovedTitles(place, selected, target), target) == Moved(place, selected, target)
  {
  }
}
