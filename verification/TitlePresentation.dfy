/**
 A title's presentation: logical episodes, their variant lanes, the leftover rows, and the display
 rows that merge them.  Nested regrouping neither loses nor repeats a visible video.
*/
module TitlePresentation {
  import opened Basics
  import opened VideoRows

  // ------------------------------------------------------------------------ logical partitions

  type Key = (nat, Option<nat>)

  // The lane of an active standard video: its episode and its confirmed group, if any.
  function KeyOf(same: (Video, Video) -> bool, scope: Scope, v: Video): Option<Key> {
    if v.identity.Some? && !Collapses(same, scope, v) then Some((v.identity.value, v.group)) else None
  }

  function ById(known: seq<Video>): Scope {
    if known == [] then map[]
    else
      var scope, v := ById(known[..|known| - 1]), known[|known| - 1];
      if v.id.Some? then scope[v.id.value := v] else scope
  }

  lemma {:induction false} ByIdHolds(known: seq<Video>)
    requires DistinctIds(known)
    ensures forall i :: 0 <= i < |known| && known[i].id.Some? ==> known[i].id.value in ById(known) && ById(known)[known[i].id.value] == known[i]
    ensures forall x :: x in ById(known) ==> ById(known)[x] in known && ById(known)[x].id == Some(x)
  {
    if known != [] {
      ByIdHolds(known[..|known| - 1]);
      assert known == known[..|known| - 1] + [known[|known| - 1]];
    }
  }

  // The videos of one lane, in known order.
  function LaneVideos(same: (Video, Video) -> bool, scope: Scope, known: seq<Video>, key: Key): seq<Video> {
    if known == [] then []
    else
      var rest := LaneVideos(same, scope, known[..|known| - 1], key);
      var v := known[|known| - 1];
      if KeyOf(same, scope, v) == Some(key) then rest + [v] else rest
  }

  lemma {:induction false} LaneVideosIff(same: (Video, Video) -> bool, scope: Scope, known: seq<Video>, key: Key, v: Video)
    ensures v in LaneVideos(same, scope, known, key) <==> v in known && KeyOf(same, scope, v) == Some(key)
  {
    if known != [] {
      LaneVideosIff(same, scope, known[..|known| - 1], key, v);
      assert known == known[..|known| - 1] + [known[|known| - 1]];
    }
  }

  // logical_episode_partitions: active videos by episode, then by confirmed group.
  method Partition(same: (Video, Video) -> bool, known: seq<Video>)
    returns (episodes: map<nat, set<Option<nat>>>, lanes: map<Key, seq<Video>>)
    ensures var scope := ById(known);
      && (forall k :: k in lanes ==> lanes[k] == LaneVideos(same, scope, known, k))
      && (forall k :: k in lanes <==> LaneVideos(same, scope, known, k) != [])
    ensures forall e, g :: e in episodes && g in episodes[e] <==> (e, g) in lanes
  {
    var scope := ById(known);
    episodes, lanes := map[], map[];
    for i := 0 to |known|
      invariant forall k :: k in lanes ==> lanes[k] == LaneVideos(same, scope, known[..i], k)
      invariant forall k :: k in lanes <==> LaneVideos(same, scope, known[..i], k) != []
      invariant forall e, g :: e in episodes && g in episodes[e] <==> (e, g) in lanes
    {
      assert known[..i + 1][..i] == known[..i];
      var key := KeyOf(same, scope, known[i]);
      if key.Some? {
        var (e, g) := key.value;
        lanes := lanes[(e, g) := (if (e, g) in lanes then lanes[(e, g)] else []) + [known[i]]];
        episodes := episodes[e := (if e in episodes then episodes[e] else {}) + {g}];
      }
    }
    assert known[..|known|] == known;
  }

  // ------------------------------------------------------------------------------- lane members

  // Ids of the lane's videos and of their known folding duplicates.
  function Members(same: (Video, Video) -> bool, scope: Scope, known: seq<Video>, primaries: seq<Video>): set<VideoId> {
    var ids := Ids(primaries);
    ids + Ids(Duplicates(same, scope, known, ids))
  }

  function Duplicates(same: (Video, Video) -> bool, scope: Scope, known: seq<Video>, ids: set<VideoId>): seq<Video> {
    if known == [] then []
    else
      var rest := Duplicates(same, scope, known[..|known| - 1], ids);
      var v := known[|known| - 1];
      if v.duplicateOf.Some? && v.duplicateOf.value in ids && Collapses(same, scope, v) then rest + [v] else rest
  }

  lemma {:induction false} DuplicatesIff(same: (Video, Video) -> bool, scope: Scope, known: seq<Video>, ids: set<VideoId>, v: Video)
    ensures v in Duplicates(same, scope, known, ids) <==>
      v in known && v.duplicateOf.Some? && v.duplicateOf.value in ids && Collapses(same, scope, v)
  {
    if known != [] {
      DuplicatesIff(same, scope, known[..|known| - 1], ids, v);
      assert known == known[..|known| - 1] + [known[|known| - 1]];
    }
  }

  // The known video with a member's id, and the lane it belongs to through itself or its primary.
  ghost predicate BelongsTo(same: (Video, Video) -> bool, scope: Scope, known: seq<Video>, key: Key, v: Video) {
    && v in known
    && (KeyOf(same, scope, v) == Some(key)
        || (v.duplicateOf.Some? && Collapses(same, scope, v) && v.duplicateOf.value in scope
            && KeyOf(same, scope, scope[v.duplicateOf.value]) == Some(key)))
  }

  lemma MemberBelongs(same: (Video, Video) -> bool, known: seq<Video>, key: Key, x: VideoId)
    requires DistinctIds(known)
    requires x in Members(same, ById(known), known, LaneVideos(same, ById(known), known, key))
    ensures x in ById(known) && BelongsTo(same, ById(known), known, key, ById(known)[x])
  {
    var scope := ById(known);
    var primaries := LaneVideos(same, scope, known, key);
    ByIdHolds(known);
    if x in Ids(primaries) {
      var v :| v in primaries && v.id.Some? && v.id.value == x;
      LaneVideosIff(same, scope, known, key, v);
    } else {
      var v :| v in Duplicates(same, scope, known, Ids(primaries)) && v.id.Some? && v.id.value == x;
      DuplicatesIff(same, scope, known, Ids(primaries), v);
      var p :| p in primaries && p.id.Some? && p.id.value == v.duplicateOf.value;
      LaneVideosIff(same, scope, known, key, p);
    }
  }

  // A video belongs to one lane only.
  lemma BelongsOnce(same: (Video, Video) -> bool, scope: Scope, known: seq<Video>, k: Key, l: Key, v: Video)
    requires BelongsTo(same, scope, known, k, v) && BelongsTo(same, scope, known, l, v)
    ensures k == l
  {
  }

  // Lanes have disjoint members.
  lemma LanesDisjoint(same: (Video, Video) -> bool, known: seq<Video>, k: Key, l: Key)
    requires DistinctIds(known) && k != l
    ensures Members(same, ById(known), known, LaneVideos(same, ById(known), known, k))
      !! Members(same, ById(known), known, LaneVideos(same, ById(known), known, l))
  {
    var scope := ById(known);
    forall x | x in Members(same, scope, known, LaneVideos(same, scope, known, k))
      ensures x !in Members(same, scope, known, LaneVideos(same, scope, known, l))
    {
      MemberBelongs(same, known, k, x);
      if x in Members(same, scope, known, LaneVideos(same, scope, known, l)) {
        MemberBelongs(same, known, l, x);
        BelongsOnce(same, scope, known, k, l, scope[x]);
      }
    }
  }

  // ------------------------------------------------------------------------- selecting visible

  function Selected(visible: seq<Video>, ids: set<VideoId>): seq<Video> {
    if visible == [] then []
    else
      var rest, v := Selected(visible[..|visible| - 1], ids), visible[|visible| - 1];
      if v.id.Some? && v.id.value in ids then rest + [v] else rest
  }

  function Rest(visible: seq<Video>, consumed: set<VideoId>): seq<Video> {
    if visible == [] then []
    else
      var rest, v := Rest(visible[..|visible| - 1], consumed), visible[|visible| - 1];
      if v.id.Some? && v.id.value in consumed then rest else rest + [v]
  }

  // Taking a disjoint set of members moves exactly the selected videos out of the rest.
  lemma {:induction false} SelectionSplits(visible: seq<Video>, consumed: set<VideoId>, ids: set<VideoId>)
    requires consumed !! ids
    ensures multiset(Rest(visible, consumed)) == multiset(Rest(visible, consumed + ids)) + multiset(Selected(visible, ids))
  {
    if visible != [] {
      var front, v := visible[..|visible| - 1], visible[|visible| - 1];
      SelectionSplits(front, consumed, ids);
      MultisetAppended(Rest(front, consumed), v);
      MultisetAppended(Rest(front, consumed + ids), v);
      MultisetAppended(Selected(front, ids), v);
      Interchange(multiset(Rest(front, consumed + ids)), multiset(Selected(front, ids)), multiset{v});
    }
  }

  lemma Interchange(a: multiset<Video>, b: multiset<Video>, c: multiset<Video>)
    ensures (a + b) + c == (a + c) + b && (a + b) + c == a + (b + c)
  {
  }

  lemma {:induction false} RestOfNothing(visible: seq<Video>)
    ensures Rest(visible, {}) == visible
  {
    if visible != [] {
      RestOfNothing(visible[..|visible| - 1]);
      assert visible == visible[..|visible| - 1] + [visible[|visible| - 1]];
    }
  }

  // The consumed ids matter only where they are visible.
  lemma {:induction false} RestByVisible(visible: seq<Video>, consumed: set<VideoId>, also: set<VideoId>)
    requires forall i :: 0 <= i < |visible| && visible[i].id.Some? ==> (visible[i].id.value in consumed <==> visible[i].id.value in also)
    ensures Rest(visible, consumed) == Rest(visible, also)
  {
    if visible != [] {
      RestByVisible(visible[..|visible| - 1], consumed, also);
    }
  }

  lemma {:induction false} SelectedIsSub(visible: seq<Video>, ids: set<VideoId>)
    requires DistinctIds(visible)
    ensures DistinctIds(Selected(visible, ids))
    ensures forall v :: v in Selected(visible, ids) <==> v in visible && v.id.Some? && v.id.value in ids
  {
    if visible != [] {
      var front, v := visible[..|visible| - 1], visible[|visible| - 1];
      SelectedIsSub(front, ids);
      assert visible == front + [v];
      LastIdIsNew(visible);
      forall w | w in Selected(front, ids)
        ensures w.id != v.id || v.id.None?
      {
        assert w in front;
      }
    }
  }

  lemma {:induction false} RestIsSub(visible: seq<Video>, consumed: set<VideoId>)
    requires DistinctIds(visible)
    ensures DistinctIds(Rest(visible, consumed))
    ensures forall v :: v in Rest(visible, consumed) <==> v in visible && !(v.id.Some? && v.id.value in consumed)
  {
    if visible != [] {
      var front, v := visible[..|visible| - 1], visible[|visible| - 1];
      RestIsSub(front, consumed);
      assert visible == front + [v];
      LastIdIsNew(visible);
      forall w | w in Rest(front, consumed) && w.id.Some?
        ensures w.id != v.id
      {
        assert w in front;
      }
    }
  }
}
