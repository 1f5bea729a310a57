/**
 The presentation told from the videos' fields: which video is a copy below which row, which rows are
 orphans, and which lane shows a video.
*/
module PresentationOutcomes {
  import opened Basics
  import opened VideoRows
  import opened TitlePresentation
  import opened CatalogPresentation

  // The confirmed duplicate v is a copy of the saved active video p, in the same variant if both say which.
  ghost predicate CopyOf(same: (Video, Video) -> bool, v: Video, p: Video) {
    && p.id.Some? && v.duplicateOf == p.id && v != p
    && v.confirmedDuplicate && !v.primaryMissing && !p.confirmedDuplicate && !p.primaryMissing
    && (v.group.None? || p.group.None? || v.group == p.group) && same(v, p)
  }

  ghost predicate CopyAmong(same: (Video, Video) -> bool, videos: seq<Video>, v: Video) {
    exists p :: p in videos && CopyOf(same, v, p)
  }

  lemma InIds(videos: seq<Video>, x: VideoId) returns (p: Video)
    requires x in Ids(videos)
    ensures p in videos && p.id == Some(x)
  {
    p :| p in videos && p.id.Some? && p.id.value == x;
  }

  lemma FoldsIff(same: (Video, Video) -> bool, known: Scope, ordered: seq<Video>, v: Video)
    requires DistinctIds(ordered) && OneObjectPerId(known, ordered)
    ensures Folds(same, Completed(known, ordered), ordered, v) <==> CopyAmong(same, ordered, v)
  {
    CompletedHolds(known, ordered);
    if p :| p in ordered && CopyOf(same, v, p) {
      var i :| 0 <= i < |ordered| && ordered[i] == p;
      assert p.id.value in Ids(ordered);
    }
    if Folds(same, Completed(known, ordered), ordered, v) {
      var p := InIds(ordered, v.duplicateOf.value);
      var i :| 0 <= i < |ordered| && ordered[i] == p;
      assert CopyOf(same, v, p);
    }
  }

  lemma {:induction false} CopiesIff(
    same: (Video, Video) -> bool, scope: Scope, ordered: seq<Video>, k: nat, id: Option<VideoId>, v: Video)
    requires k <= |ordered|
    ensures v in Copies(same, scope, ordered, k, id) <==>
      v in ordered[..k] && id.Some? && v.duplicateOf == id && Folds(same, scope, ordered, v)
  {
    if k > 0 {
      CopiesIff(same, scope, ordered, k - 1, id, v);
      assert ordered[..k] == ordered[..k - 1] + [ordered[k - 1]];
    }
  }

  lemma CopyOfThis(same: (Video, Video) -> bool, known: Scope, ordered: seq<Video>, v: Video, p: Video)
    requires DistinctIds(ordered) && OneObjectPerId(known, ordered) && p in ordered
    ensures p.id.Some? && v.duplicateOf == p.id && Folds(same, Completed(known, ordered), ordered, v) <==> CopyOf(same, v, p)
  {
    FoldsIff(same, known, ordered, v);
    if q :| q in ordered && CopyOf(same, v, q) && v.duplicateOf == p.id {
      SameIdSameVideo(ordered, p, q);
    }
  }

  lemma SameIdSameVideo(ordered: seq<Video>, p: Video, q: Video)
    requires DistinctIds(ordered) && p in ordered && q in ordered && p.id.Some? && p.id == q.id
    ensures p == q
  {
    var i :| 0 <= i < |ordered| && ordered[i] == p;
    var j :| 0 <= j < |ordered| && ordered[j] == q;
  }

  /** A row's copies are exactly the listed duplicates of its video, and it is marked an orphan exactly
      when its primary is missing or is not among the known videos. */
  lemma RowMeans(same: (Video, Video) -> bool, known: Scope, ordered: seq<Video>, rows: seq<Row>, k: nat)
    requires DistinctIds(ordered) && OneObjectPerId(known, ordered)
    requires rows == Rows(same, Completed(known, ordered), known.Keys, ordered,
                          Kept(same, Completed(known, ordered), ordered, |ordered|)) && k < |rows|
    ensures rows[k].video in ordered
    ensures forall v :: v in rows[k].copies <==> v in ordered && CopyOf(same, v, rows[k].video)
    ensures rows[k].orphan <==>
      rows[k].video.primaryMissing || (rows[k].video.duplicateOf.Some? && rows[k].video.duplicateOf.value !in known)
  {
    var scope := Completed(known, ordered);
    var kept := Kept(same, scope, ordered, |ordered|);
    var p := rows[k].video;
    assert ordered[..|ordered|] == ordered;
    KeptIff(same, scope, ordered, |ordered|);
    assert kept[k] in kept;
    forall v
      ensures v in rows[k].copies <==> v in ordered && CopyOf(same, v, p)
    {
      CopiesIff(same, scope, ordered, |ordered|, p.id, v);
      CopyOfThis(same, known, ordered, v, p);
    }
  }

  /** A listed video has a row of its own unless it is saved and a duplicate of another listed video. */
  lemma RowIff(same: (Video, Video) -> bool, known: Scope, ordered: seq<Video>, rows: seq<Row>, v: Video)
    requires DistinctIds(ordered) && OneObjectPerId(known, ordered)
    requires rows == Rows(same, Completed(known, ordered), known.Keys, ordered,
                          Kept(same, Completed(known, ordered), ordered, |ordered|))
    ensures (exists k :: 0 <= k < |rows| && rows[k].video == v) <==>
      v in ordered && (v.id.None? || !CopyAmong(same, ordered, v))
  {
    var kept := Kept(same, Completed(known, ordered), ordered, |ordered|);
    assert ordered[..|ordered|] == ordered;
    KeptIff(same, Completed(known, ordered), ordered, |ordered|);
    FoldsIff(same, known, ordered, v);
    if v in kept {
      var k :| 0 <= k < |kept| && kept[k] == v;
      assert rows[k].video == v;
    }
    if k :| 0 <= k < |rows| && rows[k].video == v {
      assert kept[k] in kept;
    }
  }

  // ------------------------------------------------------------------------------------- lanes

  lemma CollapsesIff(same: (Video, Video) -> bool, known: seq<Video>, v: Video)
    requires DistinctIds(known)
    ensures Collapses(same, ById(known), v) <==> CopyAmong(same, known, v)
  {
    ByIdHolds(known);
    if p :| p in known && CopyOf(same, v, p) {
      var i :| 0 <= i < |known| && known[i] == p;
    }
    if Collapses(same, ById(known), v) {
      assert CopyOf(same, v, ById(known)[v.duplicateOf.value]);
    }
  }

  // A known active video of this episode in this variant.
  ghost predicate InLane(same: (Video, Video) -> bool, known: seq<Video>, key: Key, v: Video) {
    v in known && v.identity == Some(key.0) && v.group == key.1 && !CopyAmong(same, known, v)
  }

  lemma InLaneIff(same: (Video, Video) -> bool, known: seq<Video>, key: Key, v: Video)
    requires DistinctIds(known)
    ensures v in LaneVideos(same, ById(known), known, key) <==> InLane(same, known, key, v)
  {
    LaneVideosIff(same, ById(known), known, key, v);
    CollapsesIff(same, known, v);
  }

  // ... or a copy of one.
  ghost predicate OfLane(same: (Video, Video) -> bool, known: seq<Video>, key: Key, v: Video) {
    v in known && (InLane(same, known, key, v) || exists p :: InLane(same, known, key, p) && CopyOf(same, v, p))
  }

  /** The members of a lane are the saved known videos of its episode in its variant that are no copies,
      and the copies of those. */
  lemma MembersMean(same: (Video, Video) -> bool, known: seq<Video>, key: Key, x: VideoId)
    requires DistinctIds(known)
    ensures x in MembersOf(same, known, key) <==> exists v: Video :: v.id == Some(x) && OfLane(same, known, key, v)
  {
    if x in MembersOf(same, known, key) {
      MemberIsOfLane(same, known, key, x);
    }
    if v: Video :| v.id == Some(x) && OfLane(same, known, key, v) {
      OfLaneIsMember(same, known, key, v);
    }
  }

  lemma MemberIsOfLane(same: (Video, Video) -> bool, known: seq<Video>, key: Key, x: VideoId)
    requires DistinctIds(known) && x in MembersOf(same, known, key)
    ensures exists v: Video :: v.id == Some(x) && OfLane(same, known, key, v)
  {
    var scope := ById(known);
    var lane := LaneVideos(same, scope, known, key);
    if x in Ids(lane) {
      var v := InIds(lane, x);
      InLaneIff(same, known, key, v);
      assert v.id == Some(x) && OfLane(same, known, key, v);
    } else {
      var v := InIds(Duplicates(same, scope, known, Ids(lane)), x);
      DuplicatesIff(same, scope, known, Ids(lane), v);
      var p := InIds(lane, v.duplicateOf.value);
      InLaneIff(same, known, key, p);
      CollapsesIff(same, known, v);
      var q :| q in known && CopyOf(same, v, q);
      SameIdSameVideo(known, p, q);
      assert v.id == Some(x) && OfLane(same, known, key, v);
    }
  }

  lemma OfLaneIsMember(same: (Video, Video) -> bool, known: seq<Video>, key: Key, v: Video)
    requires DistinctIds(known) && v.id.Some? && OfLane(same, known, key, v)
    ensures v.id.value in MembersOf(same, known, key)
  {
    var scope := ById(known);
    var lane := LaneVideos(same, scope, known, key);
    InLaneIff(same, known, key, v);
    if p :| InLane(same, known, key, p) && CopyOf(same, v, p) {
      InLaneIff(same, known, key, p);
      CollapsesIff(same, known, v);
      assert p.id.value in Ids(lane);
      DuplicatesIff(same, scope, known, Ids(lane), v);
      assert v in Duplicates(same, scope, known, Ids(lane));
    }
  }
}
