/**
 Folding confirmed duplicate copies under their primary: the rows and their copies show every video
 exactly once, except that an unsaved folded video is shown twice.
*/
module VideoRows {
  import opened Basics

  type VideoId = nat

  // `identity` is the logical episode, if any.
  datatype Video = Video(
    id: Option<VideoId>, name: string, confirmedDuplicate: bool, primaryMissing: bool, duplicateOf: Option<VideoId>,
    group: Option<nat>, identity: Option<nat>)

  datatype Row = Row(video: Video, copies: seq<Video>, orphan: bool)

  type Scope = map<VideoId, Video>

  // duplicate_relation_state == VALID, over an abstract comparison of the remaining evidence.
  predicate Collapses(same: (Video, Video) -> bool, scope: Scope, v: Video) {
    && !v.primaryMissing && v.confirmedDuplicate && v.duplicateOf.Some? && v.duplicateOf.value in scope
    && var primary := scope[v.duplicateOf.value];
    && primary != v && !primary.primaryMissing && !primary.confirmedDuplicate
    && (v.group.None? || primary.group.None? || v.group == primary.group)
    && same(v, primary)
  }

  // A collapsing duplicate's primary never itself collapses.
  lemma PrimaryStays(same: (Video, Video) -> bool, scope: Scope, v: Video)
    requires Collapses(same, scope, v)
    ensures !Collapses(same, scope, scope[v.duplicateOf.value])
  {
  }

  // ------------------------------------------------------------------------------- the rows

  function Ids(videos: seq<Video>): set<VideoId> {
    set v | v in videos && v.id.Some? :: v.id.value
  }

  // Saved videos have distinct ids.
  ghost predicate DistinctIds(videos: seq<Video>) {
    forall i, j :: 0 <= i < j < |videos| && videos[i].id.Some? ==> videos[i].id != videos[j].id
  }

  // The resolver scope: the known videos, completed by the ordered ones.
  function Completed(known: Scope, ordered: seq<Video>): Scope {
    if ordered == [] then known
    else
      var scope := Completed(known, ordered[..|ordered| - 1]);
      var v := ordered[|ordered| - 1];
      if v.id.Some? && v.id.value !in scope then scope[v.id.value := v] else scope
  }

  // One object per id, as an identity map guarantees.
  ghost predicate OneObjectPerId(known: Scope, ordered: seq<Video>) {
    && (forall x :: x in known ==> known[x].id == Some(x))
    && (forall i :: 0 <= i < |ordered| && ordered[i].id.Some? && ordered[i].id.value in known ==>
          known[ordered[i].id.value] == ordered[i])
  }

  lemma LastIdIsNew(ordered: seq<Video>)
    requires DistinctIds(ordered) && ordered != []
    ensures ordered[|ordered| - 1].id.Some? ==> ordered[|ordered| - 1].id.value !in Ids(ordered[..|ordered| - 1])
  {
    forall w | w in ordered[..|ordered| - 1] && w.id.Some?
      ensures w.id != ordered[|ordered| - 1].id
    {
    }
  }

  lemma {:induction false} CompletedHolds(known: Scope, ordered: seq<Video>)
    requires DistinctIds(ordered) && OneObjectPerId(known, ordered)
    ensures forall i :: 0 <= i < |ordered| && ordered[i].id.Some? ==>
      ordered[i].id.value in Completed(known, ordered) && Completed(known, ordered)[ordered[i].id.value] == ordered[i]
    ensures forall x :: x in known ==> x in Completed(known, ordered) && Completed(known, ordered)[x] == known[x]
    ensures forall x :: x in Completed(known, ordered) ==> x in known || x in Ids(ordered)
  {
    if ordered != [] {
      var front, last := ordered[..|ordered| - 1], ordered[|ordered| - 1];
      CompletedHolds(known, front);
      assert ordered == front + [last];
      LastIdIsNew(ordered);
      assert Ids(front) <= Ids(ordered);
    }
  }

  // Folded: a collapsing video whose primary is among the ordered ones.
  predicate Folds(same: (Video, Video) -> bool, scope: Scope, ordered: seq<Video>, v: Video) {
    v.duplicateOf.Some? && v.duplicateOf.value in Ids(ordered) && Collapses(same, scope, v)
  }

  // The copies of one primary among the first k videos, in order.
  function Copies(same: (Video, Video) -> bool, scope: Scope, ordered: seq<Video>, k: nat, id: Option<VideoId>): seq<Video>
    requires k <= |ordered|
  {
    if k == 0 then []
    else
      var rest := Copies(same, scope, ordered, k - 1, id);
      var v := ordered[k - 1];
      if id.Some? && Folds(same, scope, ordered, v) && v.duplicateOf == id then rest + [v] else rest
  }

  function Kept(same: (Video, Video) -> bool, scope: Scope, ordered: seq<Video>, k: nat): seq<Video>
    requires k <= |ordered|
  {
    if k == 0 then []
    else
      var rest := Kept(same, scope, ordered, k - 1);
      var v := ordered[k - 1];
      if v.id.Some? && Folds(same, scope, ordered, v) then rest else rest + [v]
  }

  function Folded(same: (Video, Video) -> bool, scope: Scope, ordered: seq<Video>, k: nat): seq<Video>
    requires k <= |ordered|
  {
    if k == 0 then []
    else
      var rest := Folded(same, scope, ordered, k - 1);
      if Folds(same, scope, ordered, ordered[k - 1]) then rest + [ordered[k - 1]] else rest
  }

  // Folded videos that were never saved: they are not recognised as collapsed by id.
  function UnsavedFolded(same: (Video, Video) -> bool, scope: Scope, ordered: seq<Video>, k: nat): seq<Video>
    requires k <= |ordered|
  {
    if k == 0 then []
    else
      var rest := UnsavedFolded(same, scope, ordered, k - 1);
      var v := ordered[k - 1];
      if v.id.None? && Folds(same, scope, ordered, v) then rest + [v] else rest
  }

  predicate Orphan(available: set<VideoId>, v: Video) {
    v.primaryMissing || (v.duplicateOf.Some? && v.duplicateOf.value !in available)
  }

  function Rows(
    same: (Video, Video) -> bool, scope: Scope, available: set<VideoId>, ordered: seq<Video>, kept: seq<Video>): seq<Row>
  {
    seq(|kept|, i requires 0 <= i < |kept| =>
      Row(kept[i], Copies(same, scope, ordered, |ordered|, kept[i].id), Orphan(available, kept[i])))
  }

  // What the folding loop has collected after k videos.
  ghost predicate CollapsedSoFar(
    same: (Video, Video) -> bool, scope: Scope, ordered: seq<Video>, k: nat, collapsed: set<VideoId>)
    requires k <= |ordered|
  {
    forall x: VideoId :: x in collapsed <==> CollapsedAmong(same, scope, ordered, k, x)
  }

  ghost predicate CollapsedAmong(same: (Video, Video) -> bool, scope: Scope, ordered: seq<Video>, k: nat, x: VideoId)
    requires k <= |ordered|
  {
    exists i :: 0 <= i < k && ordered[i].id == Some(x) && Folds(same, scope, ordered, ordered[i])
  }

  function CopiesIn(copies: map<VideoId, seq<Video>>, id: Option<VideoId>): seq<Video> {
    if id.Some? && id.value in copies then copies[id.value] else []
  }

  ghost predicate CopiesSoFar(
    same: (Video, Video) -> bool, scope: Scope, ordered: seq<Video>, k: nat, copies: map<VideoId, seq<Video>>)
    requires k <= |ordered|
  {
    forall id :: CopiesIn(copies, id) == Copies(same, scope, ordered, k, id)
  }

  method FoldVideos(same: (Video, Video) -> bool, scope: Scope, ordered: seq<Video>)
    returns (collapsed: set<VideoId>, copies: map<VideoId, seq<Video>>)
    ensures CollapsedSoFar(same, scope, ordered, |ordered|, collapsed)
    ensures CopiesSoFar(same, scope, ordered, |ordered|, copies)
  {
    var included := Ids(ordered);
    collapsed, copies := {}, map[];
    for k := 0 to |ordered|
      invariant CollapsedSoFar(same, scope, ordered, k, collapsed)
      invariant CopiesSoFar(same, scope, ordered, k, copies)
    {
      var v := ordered[k];
      CollapsedStep(same, scope, ordered, k);
      if v.duplicateOf.Some? && v.duplicateOf.value in included && Collapses(same, scope, v) {
        copies := copies[v.duplicateOf.value := CopiesIn(copies, v.duplicateOf) + [v]];
        if v.id.Some? {
          collapsed := collapsed + {v.id.value};
        }
      }
    }
  }

  lemma CollapsedStep(same: (Video, Video) -> bool, scope: Scope, ordered: seq<Video>, k: nat)
    requires k < |ordered|
    ensures forall x: VideoId :: CollapsedAmong(same, scope, ordered, k + 1, x) <==>
      CollapsedAmong(same, scope, ordered, k, x) || (ordered[k].id == Some(x) && Folds(same, scope, ordered, ordered[k]))
  {
  }

  // physical_video_rows
  method PhysicalVideoRows(same: (Video, Video) -> bool, ordered: seq<Video>, known: Scope) returns (rows: seq<Row>)
    requires DistinctIds(ordered)
    ensures var scope := Completed(known, ordered);
      rows == Rows(same, scope, known.Keys, ordered, Kept(same, scope, ordered, |ordered|))
  {
    var scope := Completed(known, ordered);
    var collapsed, copies := FoldVideos(same, scope, ordered);
    rows := [];
    ghost var kept: seq<Video> := [];
    for k := 0 to |ordered|
      invariant kept == Kept(same, scope, ordered, k)
      invariant rows == Rows(same, scope, known.Keys, ordered, kept)
    {
      var v := ordered[k];
      CollapsedIff(same, scope, ordered, collapsed, k);
      if v.id.None? || v.id.value !in collapsed {
        var row := Row(v, CopiesIn(copies, v.id), Orphan(known.Keys, v));
        RowsAppended(same, scope, known.Keys, ordered, kept, row);
        rows, kept := rows + [row], kept + [v];
      }
    }
  }

  lemma RowsAppended(
    same: (Video, Video) -> bool, scope: Scope, available: set<VideoId>, ordered: seq<Video>, kept: seq<Video>, row: Row)
    requires row == Row(row.video, Copies(same, scope, ordered, |ordered|, row.video.id), Orphan(available, row.video))
    ensures Rows(same, scope, available, ordered, kept + [row.video]) == Rows(same, scope, available, ordered, kept) + [row]
  {
  }

  lemma CollapsedIff(same: (Video, Video) -> bool, scope: Scope, ordered: seq<Video>, collapsed: set<VideoId>, k: nat)
    requires DistinctIds(ordered) && k < |ordered|
    requires CollapsedSoFar(same, scope, ordered, |ordered|, collapsed)
    ensures ordered[k].id.Some? ==> (ordered[k].id.value in collapsed <==> Folds(same, scope, ordered, ordered[k]))
  {
    if ordered[k].id.Some? {
      assert ordered[k].id.value in collapsed <==> CollapsedAmong(same, scope, ordered, |ordered|, ordered[k].id.value);
    }
  }

  // ------------------------------------------------------------------------- conservation

  // Everything the rows show.
  function Shown(rows: seq<Row>): multiset<Video> {
    if rows == [] then multiset{}
    else Shown(rows[..|rows| - 1]) + multiset{rows[|rows| - 1].video} + multiset(rows[|rows| - 1].copies)
  }

  // The copies below the given videos, among the first k ordered ones.
  function CopiesOf(
    same: (Video, Video) -> bool, scope: Scope, ordered: seq<Video>, k: nat, videos: seq<Video>): multiset<Video>
    requires k <= |ordered|
  {
    if videos == [] then multiset{}
    else
      CopiesOf(same, scope, ordered, k, videos[..|videos| - 1])
      + multiset(Copies(same, scope, ordered, k, videos[|videos| - 1].id))
  }

  lemma MultisetAppended(xs: seq<Video>, x: Video)
    ensures multiset(xs + [x]) == multiset(xs) + multiset{x}
  {
  }

  lemma Rearranged(a: multiset<Video>, b: multiset<Video>, c: multiset<Video>, d: multiset<Video>)
    ensures (a + b) + (c + d) == (a + c) + (b + d)
  {
  }

  lemma {:induction false} ShownIsKeptAndCopies(
    same: (Video, Video) -> bool, scope: Scope, available: set<VideoId>, ordered: seq<Video>, kept: seq<Video>)
    ensures Shown(Rows(same, scope, available, ordered, kept))
      == multiset(kept) + CopiesOf(same, scope, ordered, |ordered|, kept)
  {
    if kept != [] {
      var front, last := kept[..|kept| - 1], kept[|kept| - 1];
      ShownIsKeptAndCopies(same, scope, available, ordered, front);
      var copies := Copies(same, scope, ordered, |ordered|, last.id);
      var row := Row(last, copies, Orphan(available, last));
      assert kept == front + [last];
      RowsAppended(same, scope, available, ordered, front, row);
      ShownAppended(Rows(same, scope, available, ordered, front), row);
      MultisetAppended(front, last);
      Rearranged(multiset(front), CopiesOf(same, scope, ordered, |ordered|, front), multiset{last}, multiset(copies));
    }
  }

  lemma ShownAppended(rows: seq<Row>, row: Row)
    ensures Shown(rows + [row]) == Shown(rows) + (multiset{row.video} + multiset(row.copies))
  {
    assert (rows + [row])[..|rows|] == rows;
  }

  lemma {:induction false} NoCopiesYet(same: (Video, Video) -> bool, scope: Scope, ordered: seq<Video>, videos: seq<Video>)
    ensures CopiesOf(same, scope, ordered, 0, videos) == multiset{}
  {
    if videos != [] {
      NoCopiesYet(same, scope, ordered, videos[..|videos| - 1]);
    }
  }

  function One(shown: bool, v: Video): multiset<Video> {
    if shown then multiset{v} else multiset{}
  }

  lemma OneOfTwo(a: bool, b: bool, v: Video)
    requires !(a && b)
    ensures One(a, v) + One(b, v) == One(a || b, v)
  {
  }

  lemma CopiesStep(same: (Video, Video) -> bool, scope: Scope, ordered: seq<Video>, k: nat, id: Option<VideoId>)
    requires k < |ordered|
    ensures multiset(Copies(same, scope, ordered, k + 1, id)) == multiset(Copies(same, scope, ordered, k, id))
      + One(id.Some? && Folds(same, scope, ordered, ordered[k]) && ordered[k].duplicateOf == id, ordered[k])
  {
    MultisetAppended(Copies(same, scope, ordered, k, id), ordered[k]);
  }

  lemma FoldedStep(same: (Video, Video) -> bool, scope: Scope, ordered: seq<Video>, k: nat)
    requires k < |ordered|
    ensures multiset(Folded(same, scope, ordered, k + 1))
      == multiset(Folded(same, scope, ordered, k)) + One(Folds(same, scope, ordered, ordered[k]), ordered[k])
  {
    MultisetAppended(Folded(same, scope, ordered, k), ordered[k]);
  }

  // A folded video is one more copy below the videos that carry its primary's id: none or one.
  lemma {:induction false} CopiesGrow(
    same: (Video, Video) -> bool, scope: Scope, ordered: seq<Video>, k: nat, videos: seq<Video>)
    requires k < |ordered| && DistinctIds(videos)
    ensures CopiesOf(same, scope, ordered, k + 1, videos) == CopiesOf(same, scope, ordered, k, videos)
      + One(Folds(same, scope, ordered, ordered[k]) && ordered[k].duplicateOf.value in Ids(videos), ordered[k])
  {
    if videos != [] {
      var front, last := videos[..|videos| - 1], videos[|videos| - 1];
      CopiesGrow(same, scope, ordered, k, front);
      CopiesStep(same, scope, ordered, k, last.id);
      LastIdIsNew(videos);
      IdsAppended(front, last);
      assert videos == front + [last];
      OneOfTwo(
        Folds(same, scope, ordered, ordered[k]) && ordered[k].duplicateOf.value in Ids(front),
        last.id.Some? && Folds(same, scope, ordered, ordered[k]) && ordered[k].duplicateOf == last.id, ordered[k]);
      Rearranged(
        CopiesOf(same, scope, ordered, k, front),
        One(Folds(same, scope, ordered, ordered[k]) && ordered[k].duplicateOf.value in Ids(front), ordered[k]),
        multiset(Copies(same, scope, ordered, k, last.id)),
        One(last.id.Some? && Folds(same, scope, ordered, ordered[k]) && ordered[k].duplicateOf == last.id, ordered[k]));
    }
  }

  lemma IdsAppended(front: seq<Video>, last: Video)
    ensures Ids(front + [last]) == Ids(front) + (if last.id.Some? then {last.id.value} else {})
  {
  }

  ghost predicate PrimariesAmong(same: (Video, Video) -> bool, scope: Scope, ordered: seq<Video>, ids: set<VideoId>) {
    forall i :: 0 <= i < |ordered| && Folds(same, scope, ordered, ordered[i]) ==> ordered[i].duplicateOf.value in ids
  }

  lemma {:induction false} AllCopies(
    same: (Video, Video) -> bool, scope: Scope, ordered: seq<Video>, k: nat, videos: seq<Video>)
    requires k <= |ordered| && DistinctIds(videos) && PrimariesAmong(same, scope, ordered, Ids(videos))
    ensures CopiesOf(same, scope, ordered, k, videos) == multiset(Folded(same, scope, ordered, k))
  {
    if k == 0 {
      NoCopiesYet(same, scope, ordered, videos);
    } else {
      AllCopies(same, scope, ordered, k - 1, videos);
      CopiesGrow(same, scope, ordered, k - 1, videos);
      FoldedStep(same, scope, ordered, k - 1);
    }
  }

  lemma {:induction false} KeptAndFolded(same: (Video, Video) -> bool, scope: Scope, ordered: seq<Video>, k: nat)
    requires k <= |ordered|
    ensures multiset(Kept(same, scope, ordered, k)) + multiset(Folded(same, scope, ordered, k))
      == multiset(ordered[..k]) + multiset(UnsavedFolded(same, scope, ordered, k))
  {
    if k > 0 {
      var v := ordered[k - 1];
      KeptAndFolded(same, scope, ordered, k - 1);
      assert ordered[..k] == ordered[..k - 1] + [v];
      MultisetAppended(ordered[..k - 1], v);
      MultisetAppended(Kept(same, scope, ordered, k - 1), v);
      MultisetAppended(Folded(same, scope, ordered, k - 1), v);
      MultisetAppended(UnsavedFolded(same, scope, ordered, k - 1), v);
      CountStep(
        multiset(Kept(same, scope, ordered, k - 1)), multiset(Folded(same, scope, ordered, k - 1)),
        multiset(ordered[..k - 1]), multiset(UnsavedFolded(same, scope, ordered, k - 1)), v);
    }
  }

  lemma CountStep(kept: multiset<Video>, folded: multiset<Video>, all: multiset<Video>, unsaved: multiset<Video>, v: Video)
    requires kept + folded == all + unsaved
    ensures (kept + multiset{v}) + folded == (all + multiset{v}) + unsaved
    ensures kept + (folded + multiset{v}) == (all + multiset{v}) + unsaved
    ensures (kept + multiset{v}) + (folded + multiset{v}) == (all + multiset{v}) + (unsaved + multiset{v})
  {
    Rearranged(kept, folded, multiset{v}, multiset{v});
    Rearranged(all, unsaved, multiset{v}, multiset{v});
    assert (kept + multiset{v}) + folded == (kept + folded) + multiset{v};
    assert kept + (folded + multiset{v}) == (kept + folded) + multiset{v};
    assert (all + multiset{v}) + unsaved == (all + unsaved) + multiset{v};
  }

  lemma {:induction false} KeptIff(same: (Video, Video) -> bool, scope: Scope, ordered: seq<Video>, k: nat)
    requires k <= |ordered| && DistinctIds(ordered)
    ensures forall v :: v in Kept(same, scope, ordered, k) <==>
      v in ordered[..k] && (v.id.None? || !Folds(same, scope, ordered, v))
    ensures DistinctIds(Kept(same, scope, ordered, k))
  {
    if k > 0 {
      KeptIff(same, scope, ordered, k - 1);
      assert ordered[..k] == ordered[..k - 1] + [ordered[k - 1]];
      forall w | w in Kept(same, scope, ordered, k - 1) && w.id.Some?
        ensures w.id != ordered[k - 1].id
      {
        assert w in ordered[..k - 1];
      }
    }
  }

  // A folded video's primary has a row.
  lemma PrimaryIsKept(same: (Video, Video) -> bool, known: Scope, ordered: seq<Video>, v: Video)
    requires DistinctIds(ordered) && OneObjectPerId(known, ordered)
    requires Folds(same, Completed(known, ordered), ordered, v)
    ensures v.duplicateOf.value in Ids(Kept(same, Completed(known, ordered), ordered, |ordered|))
  {
    var scope := Completed(known, ordered);
    CompletedHolds(known, ordered);
    var primary :| primary in ordered && primary.id.Some? && primary.id.value == v.duplicateOf.value;
    PrimaryStays(same, scope, v);
    KeptIff(same, scope, ordered, |ordered|);
    assert ordered[..|ordered|] == ordered;
    assert primary in Kept(same, scope, ordered, |ordered|);
  }

  // Main result: the rows and copies show the ordered videos, plus once more each unsaved folded one.
  lemma RowsShowEveryVideo(same: (Video, Video) -> bool, known: Scope, ordered: seq<Video>)
    requires DistinctIds(ordered) && OneObjectPerId(known, ordered)
    ensures var scope := Completed(known, ordered);
      Shown(Rows(same, scope, known.Keys, ordered, Kept(same, scope, ordered, |ordered|)))
      == multiset(ordered) + multiset(UnsavedFolded(same, scope, ordered, |ordered|))
  {
    var scope := Completed(known, ordered);
    var kept := Kept(same, scope, ordered, |ordered|);
    forall i | 0 <= i < |ordered| && Folds(same, scope, ordered, ordered[i])
      ensures ordered[i].duplicateOf.value in Ids(kept)
    {
      PrimaryIsKept(same, known, ordered, ordered[i]);
    }
    KeptIff(same, scope, ordered, |ordered|);
    ShownIsKeptAndCopies(same, scope, known.Keys, ordered, kept);
    AllCopies(same, scope, ordered, |ordered|, kept);
    KeptAndFolded(same, scope, ordered, |ordered|);
    assert ordered[..|ordered|] == ordered;
  }

  // Every video is shown exactly once exactly when every folded one is saved.
  lemma ShownOnceIff(same: (Video, Video) -> bool, known: Scope, ordered: seq<Video>)
    requires DistinctIds(ordered) && OneObjectPerId(known, ordered)
    ensures var scope := Completed(known, ordered);
      Shown(Rows(same, scope, known.Keys, ordered, Kept(same, scope, ordered, |ordered|))) == multiset(ordered)
      <==> forall i :: 0 <= i < |ordered| && Folds(same, scope, ordered, ordered[i]) ==> ordered[i].id.Some?
  {
    RowsShowEveryVideo(same, known, ordered);
    var scope := Completed(known, ordered);
    UnsavedIff(same, scope, ordered, |ordered|);
    var extra := UnsavedFolded(same, scope, ordered, |ordered|);
    if extra != [] {
      assert extra[0] in multiset(extra);
    }
  }

  lemma {:induction false} UnsavedIff(same: (Video, Video) -> bool, scope: Scope, ordered: seq<Video>, k: nat)
    requires k <= |ordered|
    ensures UnsavedFolded(same, scope, ordered, k) == [] <==>
      forall i :: 0 <= i < k && Folds(same, scope, ordered, ordered[i]) ==> ordered[i].id.Some?
  {
    if k > 0 {
      UnsavedIff(same, scope, ordered, k - 1);
    }
  }

  // Why saved videos matter: a transient confirmed copy beside its saved primary is shown twice, as
  // the primary's copy and as a row of its own.
  predicate TransientPair(primary: Video, copy: Video) {
    && primary == Video(Some(1), "a", false, false, None, None, None)
    && copy == Video(None, "b", true, false, Some(1), None, None)
  }

  lemma TransientScope(primary: Video, copy: Video)
    requires TransientPair(primary, copy)
    ensures Completed(map[], [primary, copy]) == map[1 := primary] && Ids([primary, copy]) == {1}
    ensures DistinctIds([primary, copy]) && OneObjectPerId(map[], [primary, copy])
  {
    assert [primary, copy][..1] == [primary] && [primary][..0] == [];
    assert Completed(map[], [primary]) == map[1 := primary];
    assert primary in [primary, copy];
  }

  lemma TransientIsUnsaved(same: (Video, Video) -> bool, primary: Video, copy: Video)
    requires TransientPair(primary, copy) && same(copy, primary)
    ensures Folds(same, map[1 := primary], [primary, copy], copy)
    ensures UnsavedFolded(same, map[1 := primary], [primary, copy], 2) == [copy]
  {
    TransientScope(primary, copy);
    assert UnsavedFolded(same, map[1 := primary], [primary, copy], 1) == [];
  }

  lemma TransientCopyShownTwice(same: (Video, Video) -> bool, primary: Video, copy: Video)
    requires TransientPair(primary, copy) && same(copy, primary)
    ensures var ordered, scope := [primary, copy], Completed(map[], [primary, copy]);
      Shown(Rows(same, scope, {}, ordered, Kept(same, scope, ordered, 2))) == multiset{primary, copy, copy}
  {
    TransientScope(primary, copy);
    TransientIsUnsaved(same, primary, copy);
    var none: Scope := map[];
    assert none.Keys == {};
    RowsShowEveryVideo(same, none, [primary, copy]);
  }
}
