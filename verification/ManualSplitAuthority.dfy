/**
 The stored selectors are rows seen from two sides, the title's and the video's.  Synchronizing,
 replacing and applying edit them and the memberships in place.
*/
module ManualSplitAuthority {
  import opened Basics
  import opened ManualSplit
  import opened ManualSplitSettles

  function At<K(==), T(==)>(m: map<K, set<T>>, k: K): set<T> {
    if k in m then m[k] else {}
  }

  // What the definitions ask of a title; a later definition of the same title wins.
  function Desired(titles: seq<TitleId>, rules: seq<Rule>, t: TitleId): Option<set<VideoId>>
    requires |titles| == |rules|
  {
    if titles == [] then None
    else if titles[|titles| - 1] == t then Some(rules[|rules| - 1].videoIds)
    else Desired(titles[..|titles| - 1], rules[..|rules| - 1], t)
  }

  // For distinct targets each gets its own definition's videos.
  lemma {:induction false} DesiredAt(titles: seq<TitleId>, rules: seq<Rule>, i: nat)
    requires |titles| == |rules| && i < |titles| && Distinct(titles)
    ensures Desired(titles, rules, titles[i]) == Some(rules[i].videoIds)
  {
    if i < |titles| - 1 {
      DesiredAt(titles[..|titles| - 1], rules[..|rules| - 1], i);
    }
  }

  function Overridden(desired: Option<set<VideoId>>, before: set<VideoId>): set<VideoId> {
    if desired.Some? then desired.value else before
  }

  predicate SelectsUnknown(rules: seq<Rule>, videos: set<VideoId>) {
    exists i :: 0 <= i < |rules| && !(rules[i].videoIds <= videos)
  }

  class Selectors {
    var ofTitle: map<TitleId, set<VideoId>>
    var ofVideo: map<VideoId, set<TitleId>>

    ghost predicate Linked(t: TitleId, v: VideoId)
      reads this
    {
      v in At(ofTitle, t)
    }

    // Both sides hold the same rows.
    ghost predicate Mirrored()
      reads this
    {
      forall t: TitleId, v: VideoId :: v in At(ofTitle, t) <==> t in At(ofVideo, v)
    }

    method Link(t: TitleId, v: VideoId)
      requires Mirrored()
      modifies this
      ensures Mirrored()
      ensures forall x: TitleId :: At(ofTitle, x) == if x == t then old(At(ofTitle, x)) + {v} else old(At(ofTitle, x))
    {
      ofTitle := ofTitle[t := At(ofTitle, t) + {v}];
      ofVideo := ofVideo[v := At(ofVideo, v) + {t}];
      forall x: TitleId, w: VideoId
        ensures w in At(ofTitle, x) <==> x in At(ofVideo, w)
      {
        assert w in old(At(ofTitle, x)) <==> x in old(At(ofVideo, w));
      }
    }

    method Unlink(t: TitleId, v: VideoId)
      requires Mirrored()
      modifies this
      ensures Mirrored()
      ensures forall x: TitleId :: At(ofTitle, x) == if x == t then old(At(ofTitle, x)) - {v} else old(At(ofTitle, x))
    {
      ofTitle := ofTitle[t := At(ofTitle, t) - {v}];
      ofVideo := ofVideo[v := At(ofVideo, v) - {t}];
      forall x: TitleId, w: VideoId
        ensures w in At(ofTitle, x) <==> x in At(ofVideo, w)
      {
        assert w in old(At(ofTitle, x)) <==> x in old(At(ofVideo, w));
      }
    }

    method UnlinkAll(t: TitleId, videos: set<VideoId>)
      requires Mirrored()
      modifies this
      ensures Mirrored()
      ensures forall x: TitleId :: At(ofTitle, x) == if x == t then old(At(ofTitle, x)) - videos else old(At(ofTitle, x))
    {
      var todo, done := videos, {};
      while todo != {}
        invariant Mirrored() && todo + done == videos
        invariant forall x: TitleId :: At(ofTitle, x) == if x == t then old(At(ofTitle, x)) - done else old(At(ofTitle, x))
        decreases |todo|
      {
        var v :| v in todo;
        Unlink(t, v);
        todo, done := todo - {v}, done + {v};
      }
      assert done == videos;
    }

    method LinkAll(t: TitleId, videos: set<VideoId>)
      requires Mirrored()
      modifies this
      ensures Mirrored()
      ensures forall x: TitleId :: At(ofTitle, x) == if x == t then old(At(ofTitle, x)) + videos else old(At(ofTitle, x))
    {
      var todo, done := videos, {};
      while todo != {}
        invariant Mirrored() && todo + done == videos
        invariant forall x: TitleId :: At(ofTitle, x) == if x == t then old(At(ofTitle, x)) + done else old(At(ofTitle, x))
        decreases |todo|
      {
        var v :| v in todo;
        Link(t, v);
        todo, done := todo - {v}, done + {v};
      }
      assert done == videos;
    }

    // One title's rows become exactly the desired videos.
    method SynchronizeTitle(t: TitleId, desired: set<VideoId>)
      requires Mirrored()
      modifies this
      ensures Mirrored()
      ensures forall x: TitleId :: At(ofTitle, x) == if x == t then desired else old(At(ofTitle, x))
    {
      var existing := At(ofTitle, t);
      UnlinkAll(t, existing - desired);
      LinkAll(t, desired - existing);
      assert (existing - (existing - desired)) + (desired - existing) == desired;
    }

    // synchronize_manual_split_authority
    method Synchronize(rules: seq<Rule>, titles: seq<TitleId>, videos: set<VideoId>) returns (r: Result<(), SplitError>)
      requires Mirrored()
      modifies this
      ensures Mirrored()
      ensures r.Err? <==> |titles| != |rules| || SelectsUnknown(rules, videos)
      ensures r.Err? ==> forall x: TitleId :: At(ofTitle, x) == old(At(ofTitle, x))
      ensures r.Ok? ==> |titles| == |rules|
      ensures r.Ok? ==> forall x: TitleId :: At(ofTitle, x) == Overridden(Desired(titles, rules, x), old(At(ofTitle, x)))
    {
      if |titles| != |rules| { return Err(TargetsDiffer); }
      if SelectsUnknown(rules, videos) { return Err(UnknownVideo); }
      for i := 0 to |rules|
        invariant Mirrored()
        invariant forall x: TitleId :: At(ofTitle, x) == Overridden(Desired(titles[..i], rules[..i], x), old(At(ofTitle, x)))
      {
        SynchronizeTitle(titles[i], rules[i].videoIds);
        assert titles[..i + 1][..i] == titles[..i] && rules[..i + 1][..i] == rules[..i];
      }
      assert titles[..|rules|] == titles && rules[..|rules|] == rules;
      r := Ok(());
    }

    // The rows of one video, all but the target's removed.
    method ReleaseVideo(v: VideoId, target: Option<TitleId>) returns (matching: bool)
      requires Mirrored()
      modifies this
      ensures Mirrored()
      ensures matching <==> target.Some? && v in old(At(ofTitle, target.value))
      ensures forall x: TitleId :: At(ofTitle, x) == if Some(x) == target then old(At(ofTitle, x)) else old(At(ofTitle, x)) - {v}
    {
      matching := false;
      var links := At(ofVideo, v);
      var todo := links;
      while todo != {}
        invariant Mirrored() && todo <= links
        invariant matching <==> target.Some? && target.value in links - todo
        invariant forall x: TitleId ::
          At(ofTitle, x) == if Some(x) != target && x in links - todo then old(At(ofTitle, x)) - {v} else old(At(ofTitle, x))
        decreases |todo|
      {
        var t :| t in todo;
        if Some(t) == target {
          matching := true;
        } else {
          Unlink(t, v);
        }
        todo := todo - {t};
      }
      assert forall x: TitleId :: v in old(At(ofTitle, x)) <==> x in links;
    }

    // replace_explicit_video_selector_authority
    method Replace(videos: seq<VideoId>, target: Option<TitleId>)
      requires Mirrored()
      modifies this
      ensures Mirrored()
      ensures forall t: TitleId, v: VideoId :: Linked(t, v) <==> if v in videos then target == Some(t) else old(Linked(t, v))
    {
      for i := 0 to |videos|
        invariant Mirrored()
        invariant forall t: TitleId, v: VideoId :: Linked(t, v) <==> if v in videos[..i] then target == Some(t) else old(Linked(t, v))
      {
        var matching := ReleaseVideo(videos[i], target);
        if target.Some? && !matching {
          Link(target.value, videos[i]);
        }
        assert videos[..i + 1] == videos[..i] + [videos[i]];
      }
      assert videos[..|videos|] == videos;
    }
  }

  // ------------------------------------------------------------------------- memberships

  function IdsOf(videos: seq<SplitVideo>): set<VideoId> {
    set k | 0 <= k < |videos| :: videos[k].id
  }

  ghost predicate DistinctVideos(videos: seq<SplitVideo>) {
    forall i, j :: 0 <= i < j < |videos| ==> videos[i].id != videos[j].id
  }

  class Memberships {
    var title: map<VideoId, Option<TitleId>>
    var collection: map<VideoId, Option<CollectionId>>

    // The video joins the collection; its title follows the decision, if the target accepts it.
    method ApplyOne(
      mode: Mode, accepts: (VideoId, TitleId) -> bool, v: SplitVideo, d: Decision, targets: seq<TitleId>, place: CollectionId)
      returns (r: Result<(), SplitError>)
      modifies this
      ensures collection == old(collection)[v.id := Some(place)]
      ensures r.Ok? <==> AppliedTitle(mode, accepts, targets, v, d).Ok?
      ensures r.Ok? ==> title == old(title)[v.id := AppliedTitle(mode, accepts, targets, v, d).value]
      ensures r.Err? ==> title == old(title)
    {
      collection := collection[v.id := Some(place)];
      var applied := AppliedTitle(mode, accepts, targets, v, d);
      if applied.Err? { return Err(applied.error); }
      title := title[v.id := applied.value];
      r := Ok(());
    }

    // What one decided video has in the end.
    ghost predicate Decided(
      mode: Mode, accepts: (VideoId, TitleId) -> bool, v: SplitVideo, d: Decision, targets: seq<TitleId>, place: CollectionId)
      reads this
    {
      && v.id in title && AppliedTitle(mode, accepts, targets, v, d) == Ok(title[v.id])
      && v.id in collection && collection[v.id] == Some(place)
    }

    // apply_manual_split_decisions
    method Apply(
      mode: Mode, accepts: (VideoId, TitleId) -> bool, videos: seq<SplitVideo>, decisions: seq<Decision>,
      targets: seq<TitleId>, rules: nat, place: CollectionId)
      returns (r: Result<(), SplitError>)
      requires |videos| == |decisions| && DistinctVideos(videos)
      modifies this
      ensures |targets| != rules ==> r == Err(TargetsDiffer) && title == old(title) && collection == old(collection)
      ensures r.Ok? <==>
        |targets| == rules
        && forall i :: 0 <= i < |videos| ==> AppliedTitle(mode, accepts, targets, videos[i], decisions[i]).Ok?
      ensures r.Ok? ==> forall i :: 0 <= i < |videos| ==> Decided(mode, accepts, videos[i], decisions[i], targets, place)
      ensures title - IdsOf(videos) == old(title) - IdsOf(videos)
      ensures collection - IdsOf(videos) == old(collection) - IdsOf(videos)
    {
      if |targets| != rules { return Err(TargetsDiffer); }
      for k := 0 to |videos|
        invariant forall i :: 0 <= i < k ==> Decided(mode, accepts, videos[i], decisions[i], targets, place)
        invariant title - IdsOf(videos) == old(title) - IdsOf(videos)
        invariant collection - IdsOf(videos) == old(collection) - IdsOf(videos)
      {
        assert videos[k].id in IdsOf(videos);
        var applied := ApplyOne(mode, accepts, videos[k], decisions[k], targets, place);
        if applied.Err? { return applied; }
      }
      r := Ok(());
    }
  }
}
