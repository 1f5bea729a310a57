/**
 What the manual-split rules decide, told from numbers, explicit videos and patterns, and where an
 accepted split leaves each video.
*/
module ManualSplitOutcomes {
  import opened Basics
  import opened ManualSplit
  import opened ManualSplitSettles
  import opened ManualSplitConfirm

  // A definition names a video by listing it, by a range that has its number, or by its pattern.
  ghost predicate Names(e: Engine, d: Definition, v: SplitVideo) {
    || v.id in d.rule.videoIds
    || (d.rule.range.Some? && v.number.Some? && d.rule.range.value.0 <= v.number.value && v.number.value <= d.rule.range.value.1)
    || (d.rule.pattern != "" && e.search(d.rule.pattern, v.filename))
  }

  ghost predicate NamedBy(e: Engine, definitions: seq<Definition>, v: SplitVideo, i: int) {
    0 <= i < |definitions| && Names(e, definitions[i], v)
  }

  // Definition i alone names the video; several do.
  ghost predicate NamedOnlyBy(e: Engine, definitions: seq<Definition>, v: SplitVideo, i: int) {
    NamedBy(e, definitions, v, i) && forall j :: NamedBy(e, definitions, v, j) ==> j == i
  }

  ghost predicate NamedTwice(e: Engine, definitions: seq<Definition>, v: SplitVideo) {
    exists i, j :: i != j && NamedBy(e, definitions, v, i) && NamedBy(e, definitions, v, j)
  }

  ghost predicate Unnamed(e: Engine, definitions: seq<Definition>, v: SplitVideo) {
    forall i :: !NamedBy(e, definitions, v, i)
  }

  // Some definition has a range or a pattern, so that every ordinary episode needs a definition.
  ghost predicate CoversAll(definitions: seq<Definition>) {
    exists i :: 0 <= i < |definitions| && (definitions[i].rule.range.Some? || definitions[i].rule.pattern != "")
  }

  lemma NamedIsMatched(e: Engine, definitions: seq<Definition>, v: SplitVideo)
    ensures forall i: nat :: i < |definitions| ==>
      (Matches(e, RulesOf(definitions)[i], v) <==> NamedBy(e, definitions, v, i))
  {
  }

  lemma NamedOnce(e: Engine, definitions: seq<Definition>, v: SplitVideo, i: nat)
    ensures Matching(e, RulesOf(definitions), v) == [i] <==> NamedOnlyBy(e, definitions, v, i)
  {
    NamedIsMatched(e, definitions, v);
    UniqueIff(e, RulesOf(definitions), v, i);
    if NamedOnlyBy(e, definitions, v, i) {
      forall j | 0 <= j < |definitions| && Matches(e, RulesOf(definitions)[j], v)
        ensures j == i
      {
        assert NamedBy(e, definitions, v, j);
      }
    }
  }

  lemma NamedOften(e: Engine, definitions: seq<Definition>, v: SplitVideo)
    ensures |Matching(e, RulesOf(definitions), v)| > 1 <==> NamedTwice(e, definitions, v)
    ensures Matching(e, RulesOf(definitions), v) == [] <==> Unnamed(e, definitions, v)
  {
    var rules := RulesOf(definitions);
    NamedIsMatched(e, definitions, v);
    SeveralIff(e, rules, v);
    NoneIff(e, rules, v);
    if i, j :| i != j && NamedBy(e, definitions, v, i) && NamedBy(e, definitions, v, j) {
      var low, high := if i < j then i else j, if i < j then j else i;
      assert Matches(e, rules[low], v) && Matches(e, rules[high], v);
    }
    if i, j :| 0 <= i < j < |rules| && Matches(e, rules[i], v) && Matches(e, rules[j], v) {
      assert NamedBy(e, definitions, v, i) && NamedBy(e, definitions, v, j);
    }
    if forall j :: 0 <= j < |rules| ==> !Matches(e, rules[j], v) {
      forall i: int
        ensures !NamedBy(e, definitions, v, i)
      {
      }
    }
  }

  lemma SelectorsExist(e: Engine, definitions: seq<Definition>, v: SplitVideo)
    ensures Covers(RulesOf(definitions)) <==> CoversAll(definitions)
    ensures CoversAll(definitions) || !Unnamed(e, definitions, v) ==> AnySelector(RulesOf(definitions))
  {
    var rules := RulesOf(definitions);
    if i :| 0 <= i < |definitions| && (definitions[i].rule.range.Some? || definitions[i].rule.pattern != "") {
      assert CollectionScope(rules[i]) && HasSelector(rules[i]);
    }
    if i :| 0 <= i < |rules| && CollectionScope(rules[i]) {
      assert definitions[i].rule == rules[i];
    }
    if i :| NamedBy(e, definitions, v, i) {
      assert HasSelector(rules[i]);
    }
  }

  /** What a preview decides about a video: the one definition that names it, a conflict when two do,
      and when none does a missing definition exactly for an ordinary episode of a covered collection. */
  lemma PreviewMeans(e: Engine, videos: seq<SplitVideo>, definitions: seq<Definition>, decisions: seq<Decision>, k: nat)
    requires Decides(e, RulesOf(definitions), Preview, videos, decisions) && k < |videos|
    ensures forall i: nat :: NamedOnlyBy(e, definitions, videos[k], i) ==> decisions[k] == Decision(Unique, [i])
    ensures NamedTwice(e, definitions, videos[k]) <==> decisions[k].kind == Conflict
    ensures Unnamed(e, definitions, videos[k]) ==>
      decisions[k] == Decision(
        if CoversAll(definitions) && !videos[k].collapses && !videos[k].supplementary then Unmatched else NotRequired, [])
  {
    var v := videos[k];
    NamedOften(e, definitions, v);
    SelectorsExist(e, definitions, v);
    forall i: nat | NamedOnlyBy(e, definitions, v, i)
      ensures decisions[k] == Decision(Unique, [i])
    {
      NamedOnce(e, definitions, v, i);
    }
  }

  // ------------------------------------------------------------------------- ranges in a row

  ghost predicate HasRange(r: Rule, first: int, last: int) {
    r == Rule(Some((first, last)), "", {})
  }

  // Definition i has the numbers above bounds[i] up to and including bounds[i + 1], and nothing else.
  ghost predicate InARow(definitions: seq<Definition>, bounds: seq<int>) {
    && |bounds| == |definitions| + 1
    && (forall i, j :: 0 <= i <= j < |bounds| ==> bounds[i] <= bounds[j])
    && forall i :: 0 <= i < |definitions| ==> HasRange(definitions[i].rule, bounds[i] + 1, bounds[i + 1])
  }

  lemma InARowNames(e: Engine, definitions: seq<Definition>, bounds: seq<int>, v: SplitVideo, i: nat)
    requires InARow(definitions, bounds) && i < |definitions|
    ensures NamedBy(e, definitions, v, i) <==> v.number.Some? && bounds[i] < v.number.value <= bounds[i + 1]
    ensures NamedBy(e, definitions, v, i) ==> NamedOnlyBy(e, definitions, v, i)
  {
    assert HasRange(definitions[i].rule, bounds[i] + 1, bounds[i + 1]);
    if NamedBy(e, definitions, v, i) {
      forall j | NamedBy(e, definitions, v, j)
        ensures j == i
      {
        assert HasRange(definitions[j].rule, bounds[j] + 1, bounds[j + 1]);
      }
    }
  }

  /** Ranges in a row share out all their numbers, both ends included: a video is decided as the one
      range that has its number, and any other ordinary episode is left without a match. */
  lemma RangesShareOut(
    e: Engine, videos: seq<SplitVideo>, definitions: seq<Definition>, bounds: seq<int>, decisions: seq<Decision>, k: nat)
    requires Decides(e, RulesOf(definitions), Preview, videos, decisions) && k < |videos|
    requires InARow(definitions, bounds) && definitions != []
    ensures var n := videos[k].number;
      && (forall i: nat :: i < |definitions| ==>
            (decisions[k] == Decision(Unique, [i]) <==> n.Some? && bounds[i] + 1 <= n.value <= bounds[i + 1]))
      && (n.None? || n.value <= bounds[0] || n.value > bounds[|definitions|] ==>
            decisions[k].kind == if videos[k].collapses || videos[k].supplementary then NotRequired else Unmatched)
      && (n.Some? && bounds[0] < n.value <= bounds[|definitions|] ==> decisions[k].kind == Unique)
  {
    var v := videos[k];
    PreviewMeans(e, videos, definitions, decisions, k);
    assert HasRange(definitions[0].rule, bounds[0] + 1, bounds[1]);
    forall i: nat | i < |definitions|
      ensures decisions[k] == Decision(Unique, [i]) <==> NamedBy(e, definitions, v, i)
      ensures NamedBy(e, definitions, v, i) <==> v.number.Some? && bounds[i] < v.number.value <= bounds[i + 1]
    {
      InARowNames(e, definitions, bounds, v, i);
      NamedOnce(e, definitions, v, i);
    }
    if v.number.Some? && bounds[0] < v.number.value <= bounds[|definitions|] {
      var i := RangeOf(bounds, v.number.value);
      assert NamedBy(e, definitions, v, i);
    } else {
      forall i
        ensures !NamedBy(e, definitions, v, i)
      {
        if 0 <= i < |definitions| {
          InARowNames(e, definitions, bounds, v, i);
        }
      }
    }
  }

  lemma {:induction false} RangeOf(bounds: seq<int>, n: int) returns (i: nat)
    requires |bounds| >= 2 && bounds[0] < n <= bounds[|bounds| - 1]
    ensures i < |bounds| - 1 && bounds[i] < n <= bounds[i + 1]
  {
    if n <= bounds[1] {
      i := 0;
    } else {
      i := RangeOf(bounds[1..], n);
      i := i + 1;
    }
  }

  // ------------------------------------------------------------- listed videos and patterns

  /** Definitions that only list videos decide exactly those: the one list a video is in, a conflict for
      a video in two, and nothing about any other, however ordinary it is. */
  lemma ListsDecideTheirs(e: Engine, videos: seq<SplitVideo>, definitions: seq<Definition>, decisions: seq<Decision>, k: nat)
    requires Decides(e, RulesOf(definitions), Preview, videos, decisions) && k < |videos|
    requires forall i :: 0 <= i < |definitions| ==> definitions[i].rule.range.None? && definitions[i].rule.pattern == ""
    ensures forall i :: 0 <= i < |definitions| && videos[k].id in definitions[i].rule.videoIds ==>
      if exists j :: 0 <= j < |definitions| && j != i && videos[k].id in definitions[j].rule.videoIds
      then decisions[k].kind == Conflict else decisions[k] == Decision(Unique, [i])
    ensures (forall i :: 0 <= i < |definitions| ==> videos[k].id !in definitions[i].rule.videoIds) ==>
      decisions[k] == Decision(NotRequired, [])
  {
    var v := videos[k];
    PreviewMeans(e, videos, definitions, decisions, k);
    forall i | 0 <= i < |definitions| && v.id in definitions[i].rule.videoIds
      ensures if exists j :: 0 <= j < |definitions| && j != i && v.id in definitions[j].rule.videoIds
        then NamedTwice(e, definitions, v) else NamedOnlyBy(e, definitions, v, i)
    {
      assert NamedBy(e, definitions, v, i);
      if j :| 0 <= j < |definitions| && j != i && v.id in definitions[j].rule.videoIds {
        assert NamedBy(e, definitions, v, j);
      }
    }
  }

  /** A pattern standing alone decides every file it is found in, and leaves every other ordinary
      episode without a match. */
  lemma PatternDecides(
    e: Engine, videos: seq<SplitVideo>, title: Option<TitleId>, pattern: string, decisions: seq<Decision>, k: nat)
    requires pattern != "" && k < |videos|
    requires Decides(e, RulesOf([Definition(title, Rule(None, pattern, {}))]), Preview, videos, decisions)
    ensures decisions[k] ==
      if e.search(pattern, videos[k].filename) then Decision(Unique, [0])
      else Decision(if videos[k].collapses || videos[k].supplementary then NotRequired else Unmatched, [])
  {
    var definitions := [Definition(title, Rule(None, pattern, {}))];
    PreviewMeans(e, videos, definitions, decisions, k);
    assert definitions[0].rule.pattern != "";
    if e.search(pattern, videos[k].filename) {
      assert NamedOnlyBy(e, definitions, videos[k], 0);
    }
  }

  // ------------------------------------------------------------------- stored definitions

  // The video is in the title of a definition that does not name it, nor is it listed anywhere.
  ghost predicate KeptUnnamed(
    e: Engine, definitions: seq<Definition>, titles: seq<Option<TitleId>>, v: SplitVideo)
  {
    && v.title.Some? && !NamedTwice(e, definitions, v) && !Listed(definitions, v)
    && exists i :: FirstOf(titles, v.title, i) && !NamedBy(e, definitions, v, i)
  }

  ghost predicate Listed(definitions: seq<Definition>, v: SplitVideo) {
    exists j :: 0 <= j < |definitions| && v.id in definitions[j].rule.videoIds
  }

  ghost predicate FirstOf(titles: seq<Option<TitleId>>, t: Option<TitleId>, i: int) {
    0 <= i < |titles| && titles[i] == t && forall j :: 0 <= j < i ==> titles[j] != t
  }

  lemma {:induction false} FirstWithIs(titles: seq<Option<TitleId>>, t: Option<TitleId>)
    ensures var i := FirstWith(titles, t);
      && (i.None? ==> t !in titles)
      && (i.Some? ==> forall j :: 0 <= j < i.value ==> titles[j] != t)
  {
    if titles != [] && titles[0] != t {
      FirstWithIs(titles[1..], t);
      assert titles == [titles[0]] + titles[1..];
    }
  }

  lemma CurrentIsFirst(titles: seq<Option<TitleId>>, home: map<TitleId, CollectionId>, v: SplitVideo, i: nat)
    requires v.title.Some?
    ensures CurrentRule(Persisted(titles, home), v) == Some(i) <==> FirstOf(titles, v.title, i)
  {
    FirstWithIs(titles, v.title);
  }

  lemma InMatching(e: Engine, definitions: seq<Definition>, v: SplitVideo, i: nat)
    ensures i in Matching(e, RulesOf(definitions), v) <==> NamedBy(e, definitions, v, i)
    ensures forall k :: 0 <= k < |Matching(e, RulesOf(definitions), v)| ==>
      Matching(e, RulesOf(definitions), v)[k] < |definitions|
  {
    MatchingInBounds(e, RulesOf(definitions), v, |definitions|);
    NamedIsMatched(e, definitions, v);
  }

  lemma ExplicitIsListed(e: Engine, definitions: seq<Definition>, v: SplitVideo)
    ensures var matching := Matching(e, RulesOf(definitions), v);
      && (forall k :: 0 <= k < |matching| ==> matching[k] < |definitions|)
      && (ExplicitIn(RulesOf(definitions), v, matching) <==> Listed(definitions, v))
  {
    var rules := RulesOf(definitions);
    var matching := Matching(e, rules, v);
    InMatching(e, definitions, v, 0);
    if Listed(definitions, v) {
      var j :| 0 <= j < |definitions| && v.id in definitions[j].rule.videoIds;
      InMatching(e, definitions, v, j);
      var k :| 0 <= k < |matching| && matching[k] == j;
    }
    if ExplicitIn(rules, v, matching) {
      var k :| 0 <= k < |matching| && v.id in rules[matching[k]].videoIds;
      assert v.id in definitions[matching[k]].rule.videoIds;
    }
  }

  lemma KeptUnnamedIff(
    e: Engine, definitions: seq<Definition>, titles: seq<Option<TitleId>>, home: map<TitleId, CollectionId>, v: SplitVideo)
    ensures var current := CurrentRule(Persisted(titles, home), v);
      var matching := Matching(e, RulesOf(definitions), v);
      && (forall k :: 0 <= k < |matching| ==> matching[k] < |definitions|)
      && (KeptUnnamed(e, definitions, titles, v) <==>
            current.Some? && current.value !in matching && !ExplicitIn(RulesOf(definitions), v, matching) && |matching| <= 1)
  {
    ExplicitIsListed(e, definitions, v);
    NamedOften(e, definitions, v);
    if v.title.Some? {
      forall i: nat
        ensures CurrentRule(Persisted(titles, home), v) == Some(i) <==> FirstOf(titles, v.title, i)
        ensures i in Matching(e, RulesOf(definitions), v) <==> NamedBy(e, definitions, v, i)
      {
        CurrentIsFirst(titles, home, v, i);
        InMatching(e, definitions, v, i);
      }
    }
  }

  /** A stored membership the rules cannot explain is kept, but never as a match: that of a video in the
      title of a definition that does not name it, listed nowhere and named by at most one other. */
  lemma UnexplainedIsKept(
    e: Engine, videos: seq<SplitVideo>, definitions: seq<Definition>, titles: seq<Option<TitleId>>,
    home: map<TitleId, CollectionId>, decisions: seq<Decision>, k: nat)
    requires Decides(e, RulesOf(definitions), Persisted(titles, home), videos, decisions) && k < |videos|
    requires KeptUnnamed(e, definitions, titles, videos[k])
    ensures decisions[k] == Decision(NotRequired, [])
  {
    KeptUnnamedIff(e, definitions, titles, home, videos[k]);
  }

  // Titles of the collection beside the definitions hold their videos by themselves.
  ghost predicate HeldBeside(titles: seq<Option<TitleId>>, home: map<TitleId, CollectionId>, v: SplitVideo) {
    && v.title.Some? && v.title !in titles
    && if v.title.value in home then
         exists i :: 0 <= i < |titles| && titles[i].Some? && titles[i].value in home && home[titles[i].value] == home[v.title.value]
           && forall j :: 0 <= j < i && titles[j].Some? ==> titles[j].value !in home
       else forall i :: 0 <= i < |titles| && titles[i].Some? ==> titles[i].value !in home
  }

  lemma {:induction false} FirstHomeIs(titles: seq<Option<TitleId>>, home: map<TitleId, CollectionId>)
    ensures match FirstHome(titles, home)
      case None => forall i :: 0 <= i < |titles| && titles[i].Some? ==> titles[i].value !in home
      case Some(c) =>
        exists i :: 0 <= i < |titles| && titles[i].Some? && titles[i].value in home && home[titles[i].value] == c
          && forall j :: 0 <= j < i && titles[j].Some? ==> titles[j].value !in home
  {
    if titles != [] && !(titles[0].Some? && titles[0].value in home) {
      var rest := titles[1..];
      FirstHomeIs(rest, home);
      if FirstHome(rest, home).Some? {
        var i :| 0 <= i < |rest| && rest[i].Some? && rest[i].value in home && home[rest[i].value] == FirstHome(rest, home).value
          && forall j :: 0 <= j < i && rest[j].Some? ==> rest[j].value !in home;
        assert titles[i + 1] == rest[i];
        forall j | 0 <= j < i + 1 && titles[j].Some?
          ensures titles[j].value !in home
        {
          assert j > 0 ==> titles[j] == rest[j - 1];
        }
      }
    }
  }

  lemma HeldBesideIff(titles: seq<Option<TitleId>>, home: map<TitleId, CollectionId>, v: SplitVideo)
    ensures RequiresRule(Persisted(titles, home), v) <==>
      !v.collapses && !v.supplementary && !HeldBeside(titles, home, v)
  {
    FirstHomeIs(titles, home);
  }

  /** Every other video is decided from the stored definitions as a preview decides it, except that a
      video some other title of the same collection holds needs no definition. */
  lemma StoredMeans(
    e: Engine, videos: seq<SplitVideo>, definitions: seq<Definition>, titles: seq<Option<TitleId>>,
    home: map<TitleId, CollectionId>, decisions: seq<Decision>, k: nat)
    requires Decides(e, RulesOf(definitions), Persisted(titles, home), videos, decisions) && k < |videos|
    requires |titles| == |definitions| && !KeptUnnamed(e, definitions, titles, videos[k])
    ensures forall i: nat :: NamedOnlyBy(e, definitions, videos[k], i) ==> decisions[k] == Decision(Unique, [i])
    ensures NamedTwice(e, definitions, videos[k]) <==> decisions[k].kind == Conflict
    ensures Unnamed(e, definitions, videos[k]) ==>
      decisions[k] == Decision(
        if CoversAll(definitions) && !videos[k].collapses && !videos[k].supplementary && !HeldBeside(titles, home, videos[k])
        then Unmatched else NotRequired, [])
  {
    var v := videos[k];
    KeptUnnamedIff(e, definitions, titles, home, v);
    HeldBesideIff(titles, home, v);
    NamedOften(e, definitions, v);
    SelectorsExist(e, definitions, v);
    forall i: nat | NamedOnlyBy(e, definitions, v, i)
      ensures decisions[k] == Decision(Unique, [i])
    {
      NamedOnce(e, definitions, v, i);
    }
  }

  // -------------------------------------------------------------------- after the confirmation

  /** Where a confirmed split leaves a video: in the title of the one definition that names it; without
      a title when two do, or when none does although it needs one; and otherwise in the title it has,
      unless its definition released it and automatic routing took it. */
  lemma ConfirmedPlace(
    e: Engine, accepts: (VideoId, TitleId) -> bool, route: VideoId -> Placement, released: set<VideoId>,
    definitions: seq<Definition>, targets: seq<TitleId>, place: CollectionId, v: SplitVideo, at: Placement)
    requires EndsAt(e, accepts, route, released, definitions, targets, place, v, at) && |targets| == |definitions|
    ensures forall i: nat :: NamedOnlyBy(e, definitions, v, i) ==> at == (Some(targets[i]), Some(place)) && accepts(v.id, targets[i])
    ensures NamedTwice(e, definitions, v) ==> at == (None, Some(place))
    ensures Unnamed(e, definitions, v) && CoversAll(definitions) && !v.collapses && !v.supplementary ==> at == (None, Some(place))
    ensures Unnamed(e, definitions, v) && (!CoversAll(definitions) || v.collapses || v.supplementary) ==>
      at == (v.title, Some(place)) || (v.id in released && at == route(v.id))
  {
    PreviewMeans(e, [v], definitions, [Decide(e, RulesOf(definitions), Preview, v)], 0);
  }

  /** Applying for review never raises: a match its target refuses leaves the video there if it is there
      already, and without a title otherwise; a strict application raises for it. */
  lemma RefusedMatch(accepts: (VideoId, TitleId) -> bool, titles: seq<TitleId>, v: SplitVideo, i: nat)
    requires i < |titles| && !accepts(v.id, titles[i])
    ensures AppliedTitle(Review, accepts, titles, v, Decision(Unique, [i]))
      == Ok(if v.title == Some(titles[i]) then Some(titles[i]) else None)
    ensures AppliedTitle(Strict, accepts, titles, v, Decision(Unique, [i])).Err?
  {
  }
}
