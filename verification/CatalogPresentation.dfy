/**
 Building the presentation: nested loops over episodes and lanes, the leftover rows, and the merged
 display rows.  The display rows and their folded copies show every visible video exactly once.
*/
module CatalogPresentation {
  import opened Basics
  import opened VideoRows
  import opened TitlePresentation

  datatype Lane = Lane(group: Option<nat>, rows: seq<Row>)
  datatype Episode = Episode(identity: nat, lanes: seq<Lane>)
  datatype Unit = EpisodeUnit(order: nat, episode: Episode) | RowUnit(order: nat, row: Row)

  // The two sorts; only that they permute matters here.
  datatype Sorting = Sorting(lanes: seq<Lane> -> seq<Lane>, units: seq<Unit> -> seq<Unit>)

  ghost predicate Permutes(sorting: Sorting) {
    && (forall ls :: multiset(sorting.lanes(ls)) == multiset(ls))
    && (forall us :: multiset(sorting.units(us)) == multiset(us))
  }

  // ------------------------------------------------------------------------- what is shown

  function ShownLanes(lanes: seq<Lane>): multiset<Video> {
    if lanes == [] then multiset{} else ShownLanes(lanes[..|lanes| - 1]) + Shown(lanes[|lanes| - 1].rows)
  }

  function ShownUnit(u: Unit): multiset<Video> {
    match u
    case EpisodeUnit(_, e) => ShownLanes(e.lanes)
    case RowUnit(_, row) => multiset{row.video} + multiset(row.copies)
  }

  function ShownUnits(units: seq<Unit>): multiset<Video> {
    if units == [] then multiset{} else ShownUnits(units[..|units| - 1]) + ShownUnit(units[|units| - 1])
  }

  lemma {:induction false} ShownUnitsJoin(a: seq<Unit>, b: seq<Unit>)
    ensures ShownUnits(a + b) == ShownUnits(a) + ShownUnits(b)
  {
    if b == [] {
      assert a + b == a;
    } else {
      assert (a + b)[..|a + b| - 1] == a + b[..|b| - 1];
      ShownUnitsJoin(a, b[..|b| - 1]);
    }
  }

  lemma {:induction false} ShownLanesJoin(a: seq<Lane>, b: seq<Lane>)
    ensures ShownLanes(a + b) == ShownLanes(a) + ShownLanes(b)
  {
    if b == [] {
      assert a + b == a;
    } else {
      assert (a + b)[..|a + b| - 1] == a + b[..|b| - 1];
      ShownLanesJoin(a, b[..|b| - 1]);
    }
  }

  lemma {:induction false} ShownJoin(a: seq<Row>, b: seq<Row>)
    ensures Shown(a + b) == Shown(a) + Shown(b)
  {
    if b == [] {
      assert a + b == a;
    } else {
      assert (a + b)[..|a + b| - 1] == a + b[..|b| - 1];
      ShownJoin(a, b[..|b| - 1]);
    }
  }

  lemma SplitAtMember<T>(xs: seq<T>, x: T) returns (i: nat)
    requires x in multiset(xs)
    ensures i < |xs| && xs[i] == x && xs == xs[..i] + [x] + xs[i + 1..]
    ensures multiset(xs[..i] + xs[i + 1..]) == multiset(xs) - multiset{x}
  {
    i :| 0 <= i < |xs| && xs[i] == x;
    assert xs == xs[..i] + [x] + xs[i + 1..];
    assert multiset(xs) == multiset(xs[..i]) + multiset{x} + multiset(xs[i + 1..]);
  }

  // Sorting does not change what is shown.
  lemma {:induction false} UnitsPermuted(us: seq<Unit>, vs: seq<Unit>)
    requires multiset(us) == multiset(vs)
    ensures ShownUnits(us) == ShownUnits(vs)
    decreases |us|
  {
    if us == [] {
      assert |multiset(vs)| == 0;
    } else {
      var u := us[|us| - 1];
      assert us == us[..|us| - 1] + [u];
      assert u in multiset(vs);
      var i := SplitAtMember(vs, u);
      UnitsPermuted(us[..|us| - 1], vs[..i] + vs[i + 1..]);
      ShownUnitsJoin(vs[..i] + [u], vs[i + 1..]);
      ShownUnitsJoin(vs[..i], [u]);
      ShownUnitsJoin(vs[..i], vs[i + 1..]);
      OneUnit(u);
    }
  }

  lemma OneUnit(u: Unit)
    ensures ShownUnits([u]) == ShownUnit(u)
  {
    assert [u][..0] == [];
  }

  lemma {:induction false} LanesPermuted(us: seq<Lane>, vs: seq<Lane>)
    requires multiset(us) == multiset(vs)
    ensures ShownLanes(us) == ShownLanes(vs)
    decreases |us|
  {
    if us == [] {
      assert |multiset(vs)| == 0;
    } else {
      var u := us[|us| - 1];
      assert us == us[..|us| - 1] + [u];
      assert u in multiset(vs);
      var i := SplitAtMember(vs, u);
      LanesPermuted(us[..|us| - 1], vs[..i] + vs[i + 1..]);
      ShownLanesJoin(vs[..i] + [u], vs[i + 1..]);
      ShownLanesJoin(vs[..i], [u]);
      ShownLanesJoin(vs[..i], vs[i + 1..]);
      assert ShownLanes([u]) == Shown(u.rows) by { assert [u][..0] == []; }
    }
  }

  // ---------------------------------------------------------------------------- display rows

  method FlattenLanes(lanes: seq<Lane>) returns (rows: seq<Row>)
    ensures Shown(rows) == ShownLanes(lanes)
  {
    rows := [];
    for i := 0 to |lanes|
      invariant Shown(rows) == ShownLanes(lanes[..i])
    {
      assert lanes[..i + 1][..i] == lanes[..i];
      ShownJoin(rows, lanes[i].rows);
      rows := rows + lanes[i].rows;
    }
    assert lanes[..|lanes|] == lanes;
  }

  method UnitRows(u: Unit) returns (rows: seq<Row>)
    ensures Shown(rows) == ShownUnit(u)
  {
    match u {
      case EpisodeUnit(_, e) => rows := FlattenLanes(e.lanes);
      case RowUnit(_, row) => rows := [row]; assert rows[..0] == [];
    }
  }

  method DisplayRows(units: seq<Unit>) returns (rows: seq<Row>)
    ensures Shown(rows) == ShownUnits(units)
  {
    rows := [];
    for i := 0 to |units|
      invariant Shown(rows) == ShownUnits(units[..i])
    {
      assert units[..i + 1] == units[..i] + [units[i]];
      UnitAppended(units[..i], units[i]);
      var more := UnitRows(units[i]);
      ShownJoin(rows, more);
      rows := rows + more;
    }
    assert units[..|units|] == units;
  }

  lemma UnitAppended(units: seq<Unit>, u: Unit)
    ensures ShownUnits(units + [u]) == ShownUnits(units) + ShownUnit(u)
  {
    ShownUnitsJoin(units, [u]);
    OneUnit(u);
  }

  method RowUnits(rows: seq<Row>, order: Row -> nat) returns (units: seq<Unit>)
    ensures ShownUnits(units) == Shown(rows)
  {
    units := [];
    for i := 0 to |rows|
      invariant ShownUnits(units) == Shown(rows[..i])
    {
      assert rows[..i + 1][..i] == rows[..i];
      var u := RowUnit(order(rows[i]), rows[i]);
      UnitAppended(units, u);
      units := units + [u];
    }
    assert rows[..|rows|] == rows;
  }

  // -------------------------------------------------------------------------------- one lane

  ghost function MembersOf(same: (Video, Video) -> bool, known: seq<Video>, key: Key): set<VideoId> {
    Members(same, ById(known), known, LaneVideos(same, ById(known), known, key))
  }

  lemma LaneShowsSelected(same: (Video, Video) -> bool, known: seq<Video>, visible: seq<Video>, ids: set<VideoId>, rows: seq<Row>)
    requires DistinctIds(visible) && OneObjectPerId(ById(known), visible)
    requires var scope := Completed(ById(known), Selected(visible, ids));
      rows == Rows(same, scope, ById(known).Keys, Selected(visible, ids), Kept(same, scope, Selected(visible, ids), |Selected(visible, ids)|))
    ensures Shown(rows) == multiset(Selected(visible, ids))
  {
    var selected := Selected(visible, ids);
    SelectedIsSub(visible, ids);
    OneObjectStays(ById(known), visible, selected);
    forall i | 0 <= i < |selected|
      ensures selected[i].id.Some?
    {
      assert selected[i] in selected;
    }
    ShownOnceIff(same, ById(known), selected);
  }

  lemma OneObjectStays(known: Scope, visible: seq<Video>, some: seq<Video>)
    requires OneObjectPerId(known, visible) && forall v :: v in some ==> v in visible
    ensures OneObjectPerId(known, some)
  {
    forall i | 0 <= i < |some| && some[i].id.Some? && some[i].id.value in known
      ensures known[some[i].id.value] == some[i]
    {
      assert some[i] in visible;
    }
  }

  // The rows of one lane: the visible ones among its members.
  method BuildLane(same: (Video, Video) -> bool, known: seq<Video>, byId: Scope, visible: seq<Video>, primaries: seq<Video>, ghost key: Key)
    returns (rows: seq<Row>, selected: set<VideoId>)
    requires DistinctIds(visible) && OneObjectPerId(ById(known), visible)
    requires byId == ById(known) && primaries == LaneVideos(same, byId, known, key)
    ensures Shown(rows) == multiset(Selected(visible, MembersOf(same, known, key)))
    ensures forall i :: 0 <= i < |visible| && visible[i].id.Some? ==>
      (visible[i].id.value in selected <==> visible[i].id.value in MembersOf(same, known, key))
    ensures selected <= MembersOf(same, known, key)
  {
    var members := Members(same, byId, known, primaries);
    var videos := Selected(visible, members);
    SelectedIsSub(visible, members);
    rows := PhysicalVideoRows(same, videos, byId);
    LaneShowsSelected(same, known, visible, members, rows);
    selected := Ids(videos);
  }

  // -------------------------------------------------------------------------------- the builder

  // Taken members are disjoint from every lane still to come, and what is shown so far together
  // with the rest is all that is visible.
  ghost predicate Ahead(same: (Video, Video) -> bool, known: seq<Video>, done: set<Key>, taken: set<VideoId>) {
    forall k :: k !in done ==> taken !! MembersOf(same, known, k)
  }

  ghost predicate SameWhereVisible(visible: seq<Video>, consumed: set<VideoId>, taken: set<VideoId>) {
    forall i :: 0 <= i < |visible| && visible[i].id.Some? ==> (visible[i].id.value in consumed <==> visible[i].id.value in taken)
  }

  // Exactly the members of the lanes that are done are taken.
  ghost predicate TakenBy(same: (Video, Video) -> bool, known: seq<Video>, done: set<Key>, taken: set<VideoId>) {
    forall x :: x in taken <==> exists k :: k in done && x in MembersOf(same, known, k)
  }

  ghost predicate Progress(
    same: (Video, Video) -> bool, known: seq<Video>, visible: seq<Video>, done: set<Key>, taken: set<VideoId>,
    consumed: set<VideoId>, shown: multiset<Video>)
  {
    && Ahead(same, known, done, taken) && SameWhereVisible(visible, consumed, taken) && TakenBy(same, known, done, taken)
    && multiset(visible) == multiset(Rest(visible, taken)) + shown
  }

  lemma AheadStep(same: (Video, Video) -> bool, known: seq<Video>, done: set<Key>, taken: set<VideoId>, key: Key)
    requires DistinctIds(known) && Ahead(same, known, done, taken)
    ensures Ahead(same, known, done + {key}, taken + MembersOf(same, known, key))
  {
    forall l | l !in done + {key}
      ensures taken + MembersOf(same, known, key) !! MembersOf(same, known, l)
    {
      LanesDisjoint(same, known, key, l);
    }
  }

  lemma TakenStep(same: (Video, Video) -> bool, known: seq<Video>, done: set<Key>, taken: set<VideoId>, key: Key)
    requires TakenBy(same, known, done, taken)
    ensures TakenBy(same, known, done + {key}, taken + MembersOf(same, known, key))
  {
    forall x
      ensures x in taken + MembersOf(same, known, key) <==> exists k :: k in done + {key} && x in MembersOf(same, known, k)
    {
      if x in taken {
        var k :| k in done && x in MembersOf(same, known, k);
        assert k in done + {key};
      }
      if x in MembersOf(same, known, key) {
        assert key in done + {key};
      }
    }
  }

  lemma LaneStep(
    same: (Video, Video) -> bool, known: seq<Video>, visible: seq<Video>, done: set<Key>, taken: set<VideoId>,
    consumed: set<VideoId>, shown: multiset<Video>, key: Key, selected: set<VideoId>)
    requires DistinctIds(known) && Progress(same, known, visible, done, taken, consumed, shown) && key !in done
    requires SameWhereVisible(visible, selected, MembersOf(same, known, key))
    ensures Progress(
      same, known, visible, done + {key}, taken + MembersOf(same, known, key), consumed + selected,
      shown + multiset(Selected(visible, MembersOf(same, known, key))))
  {
    var members := MembersOf(same, known, key);
    AheadStep(same, known, done, taken, key);
    TakenStep(same, known, done, taken, key);
    SelectionSplits(visible, taken, members);
    Interchange(multiset(Rest(visible, taken + members)), multiset(Selected(visible, members)), shown);
  }

  lemma LaneAppended(lanes: seq<Lane>, lane: Lane)
    ensures ShownLanes(lanes + [lane]) == ShownLanes(lanes) + Shown(lane.rows)
  {
    assert (lanes + [lane])[..|lanes|] == lanes;
  }

  lemma EmptyLaneShowsNothing(rows: seq<Row>)
    requires rows == []
    ensures Shown(rows) == multiset{}
  {
  }

  // Each lane of the episode shows something, and exactly the visible members of its lane.
  ghost predicate Labelled(same: (Video, Video) -> bool, known: seq<Video>, visible: seq<Video>, e: nat, lanes: seq<Lane>) {
    forall l :: l in lanes ==> l.rows != [] && Shown(l.rows) == multiset(Selected(visible, MembersOf(same, known, (e, l.group))))
  }

  // One lane of an episode, left out if nothing of it is visible.
  method AddLane(
    same: (Video, Video) -> bool, known: seq<Video>, byId: Scope, visible: seq<Video>, primaries: seq<Video>, key: Key,
    ghost done: set<Key>, ghost taken: set<VideoId>, consumed: set<VideoId>, ghost before: multiset<Video>, lanes: seq<Lane>)
    returns (lanes': seq<Lane>, consumed': set<VideoId>, ghost taken': set<VideoId>)
    requires DistinctIds(known) && DistinctIds(visible) && OneObjectPerId(ById(known), visible)
    requires byId == ById(known) && primaries == LaneVideos(same, byId, known, key) && key !in done
    requires Progress(same, known, visible, done, taken, consumed, before + ShownLanes(lanes))
    requires Labelled(same, known, visible, key.0, lanes)
    ensures Progress(same, known, visible, done + {key}, taken', consumed', before + ShownLanes(lanes'))
    ensures Labelled(same, known, visible, key.0, lanes')
  {
    var rows, selected := BuildLane(same, known, byId, visible, primaries, key);
    LaneStep(same, known, visible, done, taken, consumed, before + ShownLanes(lanes), key, selected);
    taken' := taken + MembersOf(same, known, key);
    consumed' := consumed + selected;
    Interchange(before, ShownLanes(lanes), Shown(rows));
    if rows == [] {
      lanes' := lanes;
      EmptyLaneShowsNothing(rows);
      assert before + ShownLanes(lanes) == before + ShownLanes(lanes) + multiset{};
    } else {
      lanes' := lanes + [Lane(key.1, rows)];
      LaneAppended(lanes, Lane(key.1, rows));
    }
  }

  ghost predicate KeysOf(lanes: map<Key, seq<Video>>, e: nat, groups: set<Option<nat>>) {
    forall g :: g in groups ==> (e, g) in lanes
  }

  ghost predicate Unseen(done: set<Key>, e: nat, groups: set<Option<nat>>) {
    forall g :: g in groups ==> (e, g) !in done
  }

  // The lanes of one episode.
  method BuildEpisode(
    same: (Video, Video) -> bool, known: seq<Video>, byId: Scope, visible: seq<Video>, lanes: map<Key, seq<Video>>,
    e: nat, groups: set<Option<nat>>, ghost done: set<Key>, ghost taken: set<VideoId>, consumed: set<VideoId>,
    ghost before: multiset<Video>)
    returns (built: seq<Lane>, consumed': set<VideoId>, ghost done': set<Key>, ghost taken': set<VideoId>)
    requires DistinctIds(known) && DistinctIds(visible) && OneObjectPerId(ById(known), visible) && byId == ById(known)
    requires forall k :: k in lanes ==> lanes[k] == LaneVideos(same, byId, known, k)
    requires KeysOf(lanes, e, groups) && Unseen(done, e, groups)
    requires Progress(same, known, visible, done, taken, consumed, before)
    ensures Progress(same, known, visible, done', taken', consumed', before + ShownLanes(built))
    ensures forall k :: k in done' ==> k in done || k.0 == e
    ensures done <= done' && (forall g :: g in groups ==> (e, g) in done') && Labelled(same, known, visible, e, built)
  {
    built, consumed', done', taken' := [], consumed, done, taken;
    var todo := groups;
    assert before + ShownLanes(built) == before;
    while todo != {}
      invariant todo <= groups && Unseen(done', e, todo)
      invariant forall k :: k in done' ==> k in done || k.0 == e
      invariant done <= done' && (forall g :: g in groups ==> g in todo || (e, g) in done') && Labelled(same, known, visible, e, built)
      invariant Progress(same, known, visible, done', taken', consumed', before + ShownLanes(built))
      decreases |todo|
    {
      var g :| g in todo;
      built, consumed', taken' := AddLane(same, known, byId, visible, lanes[(e, g)], (e, g), done', taken', consumed', before, built);
      done', todo := done' + {(e, g)}, todo - {g};
    }
  }

  // All episodes, as display units.
  method BuildEpisodes(same: (Video, Video) -> bool, known: seq<Video>, visible: seq<Video>, sorting: Sorting, order: Episode -> nat)
    returns (units: seq<Unit>, consumed: set<VideoId>, ghost taken: set<VideoId>)
    requires DistinctIds(known) && DistinctIds(visible) && OneObjectPerId(ById(known), visible) && Permutes(sorting)
    ensures SameWhereVisible(visible, consumed, taken)
    ensures multiset(visible) == multiset(Rest(visible, taken)) + ShownUnits(units)
    ensures forall x :: x in taken <==> exists k :: x in MembersOf(same, known, k)
    ensures forall u :: u in units ==> u.EpisodeUnit? && Labelled(same, known, visible, u.episode.identity, u.episode.lanes)
  {
    var byId := ById(known);
    var episodes, lanes := Partition(same, known);
    units, consumed, taken := [], {}, {};
    ghost var done: set<Key> := {};
    RestOfNothing(visible);
    assert multiset(visible) == multiset(visible) + ShownUnits(units);
    var todo := episodes.Keys;
    while todo != {}
      invariant todo <= episodes.Keys && forall k :: k in done ==> k.0 !in todo
      invariant Progress(same, known, visible, done, taken, consumed, ShownUnits(units))
      invariant forall k :: k in lanes ==> k in done || k.0 in todo
      invariant forall u :: u in units ==> u.EpisodeUnit? && Labelled(same, known, visible, u.episode.identity, u.episode.lanes)
      decreases |todo|
    {
      var e :| e in todo;
      var built;
      built, consumed, done, taken := BuildEpisode(
        same, known, byId, visible, lanes, e, episodes[e], done, taken, consumed, ShownUnits(units));
      if built == [] {
        assert ShownUnits(units) + ShownLanes(built) == ShownUnits(units);
      } else {
        var episode := Episode(e, sorting.lanes(built));
        LanesPermuted(sorting.lanes(built), built);
        StillLabelled(same, known, visible, e, built, sorting.lanes(built));
        UnitAppended(units, EpisodeUnit(order(episode), episode));
        units := units + [EpisodeUnit(order(episode), episode)];
      }
      todo := todo - {e};
    }
    forall k
      ensures k !in lanes ==> MembersOf(same, known, k) == {}
    {
      if k !in lanes { EmptyLaneHasNoMembers(same, known, k); }
    }
  }

  lemma StillLabelled(
    same: (Video, Video) -> bool, known: seq<Video>, visible: seq<Video>, e: nat, lanes: seq<Lane>, sorted: seq<Lane>)
    requires Labelled(same, known, visible, e, lanes) && multiset(sorted) == multiset(lanes)
    ensures Labelled(same, known, visible, e, sorted)
  {
    forall l | l in sorted
      ensures l in lanes
    {
      assert l in multiset(sorted);
    }
  }

  lemma {:induction false} NoDuplicates(same: (Video, Video) -> bool, scope: Scope, known: seq<Video>)
    ensures Duplicates(same, scope, known, {}) == []
  {
    if known != [] {
      NoDuplicates(same, scope, known[..|known| - 1]);
    }
  }

  lemma EmptyLaneHasNoMembers(same: (Video, Video) -> bool, known: seq<Video>, key: Key)
    requires LaneVideos(same, ById(known), known, key) == []
    ensures MembersOf(same, known, key) == {}
  {
    assert Ids([]) == {};
    NoDuplicates(same, ById(known), known);
  }

  // The episodes among display units.
  function EpisodesOf(units: seq<Unit>): seq<Episode> {
    if units == [] then []
    else
      var rest, last := EpisodesOf(units[..|units| - 1]), units[|units| - 1];
      if last.EpisodeUnit? then rest + [last.episode] else rest
  }

  lemma {:induction false} EpisodesAreUnits(units: seq<Unit>, e: Episode)
    requires e in EpisodesOf(units)
    ensures exists u :: u in units && u.EpisodeUnit? && u.episode == e
  {
    var last := units[|units| - 1];
    if !(last.EpisodeUnit? && last.episode == e) {
      EpisodesAreUnits(units[..|units| - 1], e);
    }
  }

  lemma AllLabelled(
    same: (Video, Video) -> bool, known: seq<Video>, visible: seq<Video>, units: seq<Unit>, sorted: seq<Unit>)
    requires multiset(sorted) == multiset(units)
    requires forall u :: u in units ==> u.EpisodeUnit? && Labelled(same, known, visible, u.episode.identity, u.episode.lanes)
    ensures forall e :: e in EpisodesOf(sorted) ==> Labelled(same, known, visible, e.identity, e.lanes)
  {
    forall e | e in EpisodesOf(sorted)
      ensures Labelled(same, known, visible, e.identity, e.lanes)
    {
      EpisodesAreUnits(sorted, e);
      var u :| u in sorted && u.EpisodeUnit? && u.episode == e;
      assert u in multiset(sorted);
    }
  }

  // build_catalog_title_video_presentation.  Main result: the display rows with their copies show
  // the visible videos exactly once each, plus once more every unsaved video folded among the
  // leftover rows.
  method BuildPresentation(
    same: (Video, Video) -> bool, visible: seq<Video>, known: seq<Video>, sorting: Sorting, order: Episode -> nat,
    rowOrder: Row -> nat)
    returns (episodes: seq<Episode>, display: seq<Row>, others: seq<Row>, ghost leftover: seq<Video>)
    requires DistinctIds(known) && DistinctIds(visible) && OneObjectPerId(ById(known), visible) && Permutes(sorting)
    ensures forall e :: e in episodes ==> Labelled(same, known, visible, e.identity, e.lanes)
    ensures forall v :: v in leftover <==>
      v in visible && (v.id.Some? ==> forall k :: v.id.value !in MembersOf(same, known, k))
    ensures others == Rows(
      same, Completed(ById(known), leftover), ById(known).Keys, leftover,
      Kept(same, Completed(ById(known), leftover), leftover, |leftover|))
    ensures var scope := Completed(ById(known), leftover);
      Shown(display) == multiset(visible) + multiset(UnsavedFolded(same, scope, leftover, |leftover|))
    ensures (forall v :: v in visible ==> v.id.Some?) ==> Shown(display) == multiset(visible)
  {
    var units, consumed, taken := BuildEpisodes(same, known, visible, sorting, order);
    var other := Rest(visible, consumed);
    RestByVisible(visible, consumed, taken);
    RestIsSub(visible, consumed);
    OneObjectStays(ById(known), visible, other);
    others := PhysicalVideoRows(same, other, ById(known));
    RowsShowEveryVideo(same, ById(known), other);
    var ordered := sorting.units(units);
    AllLabelled(same, known, visible, units, ordered);
    UnitsPermuted(ordered, units);
    episodes := EpisodesOf(ordered);
    var rowUnits := RowUnits(others, rowOrder);
    var sorted := sorting.units(ordered + rowUnits);
    UnitsPermuted(sorted, ordered + rowUnits);
    ShownUnitsJoin(ordered, rowUnits);
    display := DisplayRows(sorted);
    leftover := other;
    ghost var extra := UnsavedFolded(same, Completed(ById(known), other), other, |other|);
    TotalShown(ShownUnits(units), multiset(other), multiset(extra), multiset(visible));
    if forall v :: v in visible ==> v.id.Some? {
      AllSavedNoExtra(same, Completed(ById(known), other), other, |other|);
      assert multiset(visible) + multiset(extra) == multiset(visible);
    }
  }

  lemma TotalShown(units: multiset<Video>, other: multiset<Video>, extra: multiset<Video>, visible: multiset<Video>)
    requires visible == other + units
    ensures units + (other + extra) == visible + extra
  {
  }

  lemma {:induction false} AllSavedNoExtra(same: (Video, Video) -> bool, scope: Scope, other: seq<Video>, k: nat)
    requires k <= |other| && forall v :: v in other ==> v.id.Some?
    ensures UnsavedFolded(same, scope, other, k) == []
  {
    if k > 0 {
      assert other[k - 1] in other;
      AllSavedNoExtra(same, scope, other, k - 1);
    }
  }
}
