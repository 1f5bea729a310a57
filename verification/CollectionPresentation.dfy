/**
 A collection's presentation: primary parts, the supplementary titles nested under the one primary
 of their season, and everything else at anime level.  Regrouping keeps every title exactly once.
*/
module CollectionPresentation {
  import opened Basics

  type TitleId = nat

  // A title by its effective structure; the id stands for the object.
  datatype Title = Title(id: TitleId, partType: string, season: Option<int>)

  predicate Main(t: Title) {
    t.partType == "season" || t.partType == "part" || t.partType == "cour" || t.partType == "title"
  }

  const SUPPLEMENTARY_PART_TYPES: seq<string> :=
    ["film", "ova", "special", "preview", "recap", "bonus", "other"]

  predicate Supplementary(t: Title) {
    t.partType in SUPPLEMENTARY_PART_TYPES
  }

  datatype Group = Group(partType: string, parts: seq<Title>)
  datatype Primary = Primary(title: Title, groups: seq<Group>)
  datatype Presentation = Presentation(primary: seq<Primary>, animeLevel: seq<Title>)

  // ------------------------------------------------------------------------- the placement rule

  function Primaries(titles: seq<Title>): seq<Title> {
    if titles == [] then []
    else
      var rest, t := Primaries(titles[..|titles| - 1]), titles[|titles| - 1];
      if Main(t) then rest + [t] else rest
  }

  function OfSeason(primaries: seq<Title>, season: int): seq<Title> {
    if primaries == [] then []
    else
      var rest, t := OfSeason(primaries[..|primaries| - 1], season), primaries[|primaries| - 1];
      if t.season == Some(season) then rest + [t] else rest
  }

  // The one primary title a supplementary title is nested under.
  function Owner(titles: seq<Title>, t: Title): Option<Title> {
    if Main(t) || !Supplementary(t) || t.season.None? then None
    else
      var matching := OfSeason(Primaries(titles), t.season.value);
      if |matching| == 1 then Some(matching[0]) else None
  }

  function Attached(titles: seq<Title>, upTo: seq<Title>, p: Title): seq<Title> {
    if upTo == [] then []
    else
      var rest, t := Attached(titles, upTo[..|upTo| - 1], p), upTo[|upTo| - 1];
      if Owner(titles, t) == Some(p) then rest + [t] else rest
  }

  function AnimeLevel(titles: seq<Title>, upTo: seq<Title>): seq<Title> {
    if upTo == [] then []
    else
      var rest, t := AnimeLevel(titles, upTo[..|upTo| - 1]), upTo[|upTo| - 1];
      if !Main(t) && Owner(titles, t).None? then rest + [t] else rest
  }

  lemma {:induction false} PrimariesIff(titles: seq<Title>)
    ensures forall t :: t in Primaries(titles) <==> t in titles && Main(t)
    ensures Distinct(titles) ==> Distinct(Primaries(titles))
  {
    if titles != [] {
      PrimariesIff(titles[..|titles| - 1]);
      assert titles == titles[..|titles| - 1] + [titles[|titles| - 1]];
    }
  }

  lemma {:induction false} OfSeasonIff(primaries: seq<Title>, season: int)
    ensures forall t :: t in OfSeason(primaries, season) <==> t in primaries && t.season == Some(season)
  {
    if primaries != [] {
      OfSeasonIff(primaries[..|primaries| - 1], season);
      assert primaries == primaries[..|primaries| - 1] + [primaries[|primaries| - 1]];
    }
  }

  lemma {:induction false} AttachedIff(titles: seq<Title>, upTo: seq<Title>, p: Title)
    ensures forall t :: t in Attached(titles, upTo, p) <==> t in upTo && Owner(titles, t) == Some(p)
  {
    if upTo != [] {
      AttachedIff(titles, upTo[..|upTo| - 1], p);
      assert upTo == upTo[..|upTo| - 1] + [upTo[|upTo| - 1]];
    }
  }

  // An owner is a primary title of the same season.
  lemma OwnerIsPrimary(titles: seq<Title>, t: Title)
    requires Owner(titles, t).Some?
    ensures var p := Owner(titles, t).value;
      p in Primaries(titles) && p in titles && Main(p) && p.season == t.season && t.season.Some?
  {
    PrimariesIff(titles);
    OfSeasonIff(Primaries(titles), t.season.value);
    assert OfSeason(Primaries(titles), t.season.value)[0] in OfSeason(Primaries(titles), t.season.value);
  }

  // Exactly when a title is nested: it is supplementary, numbered by season, and one primary title
  // alone has that season.
  lemma NestedIff(titles: seq<Title>, t: Title, p: Title)
    requires Distinct(titles)
    ensures Owner(titles, t) == Some(p) <==>
      && Supplementary(t) && !Main(t) && t.season.Some? && p in titles && Main(p) && p.season == t.season
      && forall q :: q in titles && Main(q) && q.season == t.season ==> q == p
  {
    if t.season.Some? {
      var primaries := Primaries(titles);
      var matching := OfSeason(primaries, t.season.value);
      PrimariesIff(titles);
      OfSeasonIff(primaries, t.season.value);
      OfSeasonDistinct(primaries, t.season.value);
      AloneIff(matching, p);
      assert |matching| == 1 ==> matching == [matching[0]];
    }
  }

  lemma AloneIff(xs: seq<Title>, x: Title)
    requires Distinct(xs)
    ensures xs == [x] <==> x in xs && forall y :: y in xs ==> y == x
  {
    assert |xs| <= 1 || xs[0] != xs[1];
    if x in xs && forall y :: y in xs ==> y == x {
      forall i | 0 <= i < |xs|
        ensures xs[i] == x
      {
        assert xs[i] in xs;
      }
    }
  }

  lemma {:induction false} OfSeasonDistinct(primaries: seq<Title>, season: int)
    requires Distinct(primaries)
    ensures Distinct(OfSeason(primaries, season))
  {
    if primaries != [] {
      OfSeasonDistinct(primaries[..|primaries| - 1], season);
      OfSeasonIff(primaries[..|primaries| - 1], season);
    }
  }

  // -------------------------------------------------------------------------- supplementary groups

  function GroupTitles(groups: seq<Group>): multiset<Title> {
    if groups == [] then multiset{} else GroupTitles(groups[..|groups| - 1]) + multiset(groups[|groups| - 1].parts)
  }

  function IndexOfType(groups: seq<Group>, partType: string): (i: Option<nat>)
    ensures i.Some? ==> i.value < |groups| && groups[i.value].partType == partType
    ensures i.None? ==> forall k :: 0 <= k < |groups| ==> groups[k].partType != partType
  {
    if groups == [] then None
    else if groups[|groups| - 1].partType == partType then Some(|groups| - 1)
    else IndexOfType(groups[..|groups| - 1], partType)
  }

  lemma {:induction false} GroupGrows(groups: seq<Group>, i: nat, t: Title)
    requires i < |groups|
    ensures GroupTitles(groups[i := groups[i].(parts := groups[i].parts + [t])]) == GroupTitles(groups) + multiset{t}
  {
    var grown := groups[i := groups[i].(parts := groups[i].parts + [t])];
    var last := |groups| - 1;
    if i == last {
      assert grown[..last] == groups[..last];
      assert multiset(groups[i].parts + [t]) == multiset(groups[i].parts) + multiset{t};
    } else {
      assert grown[..last] == groups[..last][i := groups[i].(parts := groups[i].parts + [t])];
      GroupGrows(groups[..last], i, t);
    }
  }

  ghost predicate Typed(groups: seq<Group>) {
    && (forall i, j :: 0 <= i < j < |groups| ==> groups[i].partType != groups[j].partType)
    && (forall i, k :: 0 <= i < |groups| && 0 <= k < |groups[i].parts| ==> groups[i].parts[k].partType == groups[i].partType)
  }

  function WithTitle(groups: seq<Group>, t: Title): seq<Group> {
    var found := IndexOfType(groups, t.partType);
    if found.Some? then groups[found.value := groups[found.value].(parts := groups[found.value].parts + [t])]
    else groups + [Group(t.partType, [t])]
  }

  lemma WithTitleTyped(groups: seq<Group>, t: Title)
    requires Typed(groups)
    ensures Typed(WithTitle(groups, t))
  {
  }

  lemma WithTitleAdds(groups: seq<Group>, t: Title)
    ensures GroupTitles(WithTitle(groups, t)) == GroupTitles(groups) + multiset{t}
  {
    var found := IndexOfType(groups, t.partType);
    if found.Some? {
      GroupGrows(groups, found.value, t);
    } else {
      assert (groups + [Group(t.partType, [t])])[..|groups|] == groups;
    }
  }

  // _supplementary_groups: one group per part type, in order of first appearance.
  method SupplementaryGroups(titles: seq<Title>) returns (groups: seq<Group>)
    ensures Typed(groups) && GroupTitles(groups) == multiset(titles)
  {
    groups := [];
    for i := 0 to |titles|
      invariant Typed(groups) && GroupTitles(groups) == multiset(titles[..i])
    {
      assert titles[..i + 1] == titles[..i] + [titles[i]];
      WithTitleTyped(groups, titles[i]);
      WithTitleAdds(groups, titles[i]);
      groups := WithTitle(groups, titles[i]);
    }
    assert titles[..|titles|] == titles;
  }

  // --------------------------------------------------------------------------- the presentation

  function PrimaryTitles(primary: seq<Primary>): multiset<Title> {
    if primary == [] then multiset{}
    else
      PrimaryTitles(primary[..|primary| - 1])
      + (multiset{primary[|primary| - 1].title} + GroupTitles(primary[|primary| - 1].groups))
  }

  function AllTitles(p: Presentation): multiset<Title> {
    PrimaryTitles(p.primary) + multiset(p.animeLevel)
  }

  // Each primary part shows a primary title with the titles it owns.
  ghost predicate Presents(titles: seq<Title>, p: Presentation) {
    && |p.primary| == |Primaries(titles)|
    && (forall i :: 0 <= i < |p.primary| ==> PresentsPrimary(titles, Primaries(titles)[i], p.primary[i]))
    && p.animeLevel == AnimeLevel(titles, titles)
  }

  ghost predicate PresentsPrimary(titles: seq<Title>, p: Title, shown: Primary) {
    && shown.title == p && Typed(shown.groups)
    && GroupTitles(shown.groups) == multiset(Attached(titles, titles, p))
  }

  function Under(attached: map<Title, seq<Title>>, p: Title): seq<Title> {
    if p in attached then attached[p] else []
  }

  method BuildPrimary(titles: seq<Title>, attached: map<Title, seq<Title>>, primaries: seq<Title>) returns (primary: seq<Primary>)
    requires forall p :: Under(attached, p) == Attached(titles, titles, p)
    ensures |primary| == |primaries|
    ensures forall i :: 0 <= i < |primary| ==> PresentsPrimary(titles, primaries[i], primary[i])
  {
    primary := [];
    for i := 0 to |primaries|
      invariant |primary| == i
      invariant forall k :: 0 <= k < i ==> PresentsPrimary(titles, primaries[k], primary[k])
    {
      var groups := SupplementaryGroups(Under(attached, primaries[i]));
      primary := primary + [Primary(primaries[i], groups)];
    }
  }

  // build_collection_presentation over the ordered titles
  method Build(titles: seq<Title>) returns (p: Presentation)
    requires Distinct(titles)
    ensures Presents(titles, p)
  {
    var primaries := Primaries(titles);
    var attached: map<Title, seq<Title>> := map[];
    var animeLevel: seq<Title> := [];
    for i := 0 to |titles|
      invariant forall q :: Under(attached, q) == Attached(titles, titles[..i], q)
      invariant animeLevel == AnimeLevel(titles, titles[..i])
    {
      assert titles[..i + 1][..i] == titles[..i];
      var t := titles[i];
      var owner := Owner(titles, t);
      if !Main(t) {
        if owner.Some? {
          attached := attached[owner.value := Under(attached, owner.value) + [t]];
        } else {
          animeLevel := animeLevel + [t];
        }
      }
    }
    assert titles[..|titles|] == titles;
    var primary := BuildPrimary(titles, attached, primaries);
    p := Presentation(primary, animeLevel);
  }

  // ------------------------------------------------------------------------- conservation

  // Everything attached below the given primaries so far.
  function Below(titles: seq<Title>, upTo: seq<Title>, primaries: seq<Title>): multiset<Title> {
    if primaries == [] then multiset{}
    else
      Below(titles, upTo, primaries[..|primaries| - 1])
      + multiset(Attached(titles, upTo, primaries[|primaries| - 1]))
  }

  function One(shown: bool, t: Title): multiset<Title> {
    if shown then multiset{t} else multiset{}
  }

  lemma Appended(xs: seq<Title>, x: Title)
    ensures multiset(xs + [x]) == multiset(xs) + multiset{x}
  {
  }

  lemma {:induction false} NothingBelow(titles: seq<Title>, primaries: seq<Title>)
    ensures Below(titles, [], primaries) == multiset{}
  {
    if primaries != [] {
      NothingBelow(titles, primaries[..|primaries| - 1]);
    }
  }

  lemma AttachedStep(titles: seq<Title>, upTo: seq<Title>, t: Title, p: Title)
    ensures multiset(Attached(titles, upTo + [t], p)) == multiset(Attached(titles, upTo, p)) + One(Owner(titles, t) == Some(p), t)
  {
    assert (upTo + [t])[..|upTo|] == upTo;
    Appended(Attached(titles, upTo, p), t);
  }

  // A title owned by one of the distinct primaries is added below exactly one of them.
  lemma {:induction false} BelowGrows(titles: seq<Title>, upTo: seq<Title>, t: Title, primaries: seq<Title>)
    requires Distinct(primaries)
    ensures Below(titles, upTo + [t], primaries) == Below(titles, upTo, primaries)
      + One(Owner(titles, t).Some? && Owner(titles, t).value in primaries, t)
  {
    if primaries != [] {
      var front, last := primaries[..|primaries| - 1], primaries[|primaries| - 1];
      BelowGrows(titles, upTo, t, front);
      AttachedStep(titles, upTo, t, last);
      assert primaries == front + [last];
      assert last !in front;
    }
  }

  lemma Counted(main: multiset<Title>, below: multiset<Title>, level: multiset<Title>, t: multiset<Title>)
    ensures (main + t) + below + level == (main + below + level) + t
    ensures main + (below + t) + level == (main + below + level) + t
    ensures main + below + (level + t) == (main + below + level) + t
  {
  }

  lemma {:induction false} EveryTitlePlaced(titles: seq<Title>, upTo: seq<Title>)
    requires Distinct(titles)
    ensures multiset(Primaries(upTo)) + Below(titles, upTo, Primaries(titles)) + multiset(AnimeLevel(titles, upTo))
      == multiset(upTo)
  {
    if upTo == [] {
      NothingBelow(titles, Primaries(titles));
    } else {
      var front, t := upTo[..|upTo| - 1], upTo[|upTo| - 1];
      assert upTo == front + [t];
      EveryTitlePlaced(titles, front);
      PrimariesIff(titles);
      BelowGrows(titles, front, t, Primaries(titles));
      if Owner(titles, t).Some? { OwnerIsPrimary(titles, t); }
      Appended(front, t);
      Appended(Primaries(front), t);
      Appended(AnimeLevel(titles, front), t);
      Counted(multiset(Primaries(front)), Below(titles, front, Primaries(titles)), multiset(AnimeLevel(titles, front)), multiset{t});
    }
  }

  lemma Interleaved(main: multiset<Title>, below: multiset<Title>, one: multiset<Title>, attached: multiset<Title>)
    ensures (main + below) + (one + attached) == (main + one) + (below + attached)
  {
  }

  ghost predicate ShowsBelow(titles: seq<Title>, primary: seq<Primary>, primaries: seq<Title>) {
    PrimaryTitles(primary) == multiset(primaries) + Below(titles, titles, primaries)
  }

  lemma PrimaryAdded(titles: seq<Title>, front: seq<Primary>, primaries: seq<Title>, shown: Primary, last: Title)
    requires PresentsPrimary(titles, last, shown) && ShowsBelow(titles, front, primaries)
    ensures ShowsBelow(titles, front + [shown], primaries + [last])
  {
    var attached := multiset(Attached(titles, titles, last));
    assert PrimaryTitles(front + [shown]) == PrimaryTitles(front) + (multiset{last} + attached) by {
      assert (front + [shown])[..|front|] == front;
    }
    assert Below(titles, titles, primaries + [last]) == Below(titles, titles, primaries) + attached by {
      assert (primaries + [last])[..|primaries|] == primaries;
    }
    Appended(primaries, last);
    Interleaved(multiset(primaries), Below(titles, titles, primaries), multiset{last}, attached);
  }

  lemma NothingShown(titles: seq<Title>)
    ensures ShowsBelow(titles, [], [])
  {
  }

  ghost predicate PresentsAll(titles: seq<Title>, primary: seq<Primary>, primaries: seq<Title>) {
    |primary| == |primaries| && forall i :: 0 <= i < |primary| ==> PresentsPrimary(titles, primaries[i], primary[i])
  }

  lemma PresentsFront(titles: seq<Title>, primary: seq<Primary>, primaries: seq<Title>, front: seq<Primary>, fronts: seq<Title>)
    requires PresentsAll(titles, primary, primaries) && primary != []
    requires front == primary[..|primary| - 1] && fronts == primaries[..|primary| - 1]
    ensures PresentsAll(titles, front, fronts) && PresentsPrimary(titles, primaries[|front|], primary[|front|])
    ensures primary == front + [primary[|front|]] && primaries == fronts + [primaries[|front|]]
  {
  }

  lemma {:induction false} PrimaryShowsBelow(titles: seq<Title>, primary: seq<Primary>, primaries: seq<Title>)
    requires PresentsAll(titles, primary, primaries)
    ensures ShowsBelow(titles, primary, primaries)
  {
    if primary == [] {
      NothingShown(titles);
      assert primaries == [];
    } else {
      var front, fronts := primary[..|primary| - 1], primaries[..|primary| - 1];
      PresentsFront(titles, primary, primaries, front, fronts);
      PrimaryShowsBelow(titles, front, fronts);
      PrimaryAdded(titles, front, fronts, primary[|front|], primaries[|front|]);
    }
  }

  // Main result: the presentation contains every title exactly once.
  lemma PresentationKeepsTitles(titles: seq<Title>, p: Presentation)
    requires Distinct(titles) && Presents(titles, p)
    ensures AllTitles(p) == multiset(titles)
  {
    PrimaryShowsBelow(titles, p.primary, Primaries(titles));
    EveryTitlePlaced(titles, titles);
  }

  // ----------------------------------------------------------------------- where a title is shown

  // Title q is the one main title of t's season.
  ghost predicate SoleMain(titles: seq<Title>, q: Title, t: Title) {
    && t.season.Some? && q in titles && q.partType in ["season", "part", "cour", "title"] && q.season == t.season
    && forall r :: r in titles && r.partType in ["season", "part", "cour", "title"] && r.season == t.season ==> r == q
  }

  /** A main title is shown by itself; a supplementary one below the one main title of its season, if
      there is one; every other title at anime level. */
  lemma ShownWhere(titles: seq<Title>, p: Presentation, t: Title)
    requires Distinct(titles) && Presents(titles, p) && t in titles
    ensures if t.partType in ["season", "part", "cour", "title"] then
        exists i :: 0 <= i < |p.primary| && p.primary[i].title == t
      else if t.partType in ["film", "ova", "special", "preview", "recap", "bonus", "other"] && exists q :: SoleMain(titles, q, t) then
        exists i :: 0 <= i < |p.primary| && SoleMain(titles, p.primary[i].title, t) && t in GroupTitles(p.primary[i].groups)
      else t in p.animeLevel
  {
    PrimariesIff(titles);
    if t.partType in ["season", "part", "cour", "title"] {
      var i := PrimaryIsShown(titles, p, t);
    } else if q :| SoleMain(titles, q, t) && Supplementary(t) {
      NestedIsShown(titles, p, t, q);
    } else {
      LooseIsShown(titles, p, t);
    }
  }

  lemma LooseIsShown(titles: seq<Title>, p: Presentation, t: Title)
    requires Distinct(titles) && Presents(titles, p) && t in titles && !Main(t)
    requires !Supplementary(t) || forall q :: !SoleMain(titles, q, t)
    ensures t in p.animeLevel
  {
    if Owner(titles, t).Some? {
      NestedIff(titles, t, Owner(titles, t).value);
      assert SoleMain(titles, Owner(titles, t).value, t);
    }
    AnimeLevelIff(titles, titles, t);
  }

  lemma NestedIsShown(titles: seq<Title>, p: Presentation, t: Title, q: Title)
    requires Distinct(titles) && Presents(titles, p) && t in titles && Supplementary(t) && SoleMain(titles, q, t)
    ensures exists i :: 0 <= i < |p.primary| && p.primary[i].title == q && t in GroupTitles(p.primary[i].groups)
  {
    PrimariesIff(titles);
    NestedIff(titles, t, q);
    var i := PrimaryIsShown(titles, p, q);
    AttachedIff(titles, titles, q);
    assert t in multiset(Attached(titles, titles, q));
  }

  lemma PrimaryIsShown(titles: seq<Title>, p: Presentation, q: Title) returns (i: nat)
    requires Presents(titles, p) && q in Primaries(titles)
    ensures i < |p.primary| && p.primary[i].title == q && PresentsPrimary(titles, q, p.primary[i])
  {
    i :| 0 <= i < |Primaries(titles)| && Primaries(titles)[i] == q;
    assert PresentsPrimary(titles, Primaries(titles)[i], p.primary[i]);
  }

  lemma {:induction false} AnimeLevelIff(titles: seq<Title>, upTo: seq<Title>, t: Title)
    ensures t in AnimeLevel(titles, upTo) <==> t in upTo && !Main(t) && Owner(titles, t).None?
  {
    if upTo != [] {
      AnimeLevelIff(titles, upTo[..|upTo| - 1], t);
      assert upTo == upTo[..|upTo| - 1] + [upTo[|upTo| - 1]];
    }
  }

  // ------------------------------------------------------------------------ structural context

  // structural_context_for_title: the primary part that shows the title itself or below it.
  function ContextOf(primary: seq<Primary>, t: Title): Option<Title> {
    if primary == [] then None
    else if primary[0].title == t || t in GroupTitles(primary[0].groups) then Some(primary[0].title)
    else ContextOf(primary[1..], t)
  }

  // title_has_authoritative_season_context
  predicate HasSeasonContext(p: Presentation, t: Title) {
    ContextOf(p.primary, t).Some? && ContextOf(p.primary, t).value.partType == "season"
  }

  lemma {:induction false} ContextFound(titles: seq<Title>, primary: seq<Primary>, primaries: seq<Title>, t: Title, p: Title)
    requires |primary| == |primaries| && forall i :: 0 <= i < |primary| ==> PresentsPrimary(titles, primaries[i], primary[i])
    requires t in titles && Distinct(titles) && (forall q :: q in primaries ==> Main(q))
    requires if Main(t) then p == t else Owner(titles, t) == Some(p)
    ensures ContextOf(primary, t) == if p in primaries then Some(p) else None
  {
    if primary != [] {
      AttachedIff(titles, titles, primaries[0]);
      assert PresentsPrimary(titles, primaries[0], primary[0]);
      assert t in GroupTitles(primary[0].groups) <==> t in Attached(titles, titles, primaries[0]);
      forall i | 0 <= i < |primary[1..]|
        ensures PresentsPrimary(titles, primaries[1..][i], primary[1..][i])
      {
        assert PresentsPrimary(titles, primaries[i + 1], primary[i + 1]);
      }
      ContextFound(titles, primary[1..], primaries[1..], t, p);
    }
  }

  lemma {:induction false} NoContext(titles: seq<Title>, primary: seq<Primary>, primaries: seq<Title>, t: Title)
    requires |primary| == |primaries| && forall i :: 0 <= i < |primary| ==> PresentsPrimary(titles, primaries[i], primary[i])
    requires (forall q :: q in primaries ==> Main(q)) && !Main(t) && (t in titles ==> Owner(titles, t).None?)
    ensures ContextOf(primary, t).None?
  {
    if primary != [] {
      AttachedIff(titles, titles, primaries[0]);
      assert PresentsPrimary(titles, primaries[0], primary[0]);
      assert t in GroupTitles(primary[0].groups) <==> t in Attached(titles, titles, primaries[0]);
      forall i | 0 <= i < |primary[1..]|
        ensures PresentsPrimary(titles, primaries[1..][i], primary[1..][i])
      {
        assert PresentsPrimary(titles, primaries[i + 1], primary[i + 1]);
      }
      NoContext(titles, primary[1..], primaries[1..], t);
    }
  }

  // Main result: a title of the collection has a season context exactly when it is a season, or is
  // nested under one.
  lemma SeasonContextIff(titles: seq<Title>, p: Presentation, t: Title)
    requires Distinct(titles) && Presents(titles, p) && t in titles
    ensures HasSeasonContext(p, t) <==>
      t.partType == "season" || (Owner(titles, t).Some? && Owner(titles, t).value.partType == "season")
  {
    PrimariesIff(titles);
    if Main(t) {
      ContextFound(titles, p.primary, Primaries(titles), t, t);
    } else if Owner(titles, t).Some? {
      OwnerIsPrimary(titles, t);
      ContextFound(titles, p.primary, Primaries(titles), t, Owner(titles, t).value);
    } else {
      NoContext(titles, p.primary, Primaries(titles), t);
    }
  }
}
