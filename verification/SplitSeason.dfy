/**
 Split seasons: effective structure under manual authority, the ambiguous-split issues, the
 contiguous-range proposals for two sibling titles, and their confirmation.
*/
module SplitSeason {
  import opened Basics

  type TitleId = nat
  type VideoId = nat

  datatype Video = Video(
    id: Option<VideoId>, collapses: bool, duplicateOf: Option<VideoId>, standard: bool, number: Option<int>)

  datatype Snapshot = Snapshot(partType: Option<string>, season: Option<int>, part: Option<int>, note: Option<string>, order: Option<int>)

  datatype Title = Title(
    id: Option<TitleId>, name: string, partType: string, season: Option<int>, part: Option<int>, seasonNote: Option<string>,
    manualOverride: bool, verified: bool, manual: Snapshot, videos: seq<Video>)

  // ------------------------------------------------------------------------- manual authority

  const PART_TYPES: seq<string> := ["season", "part", "film", "ova", "special", "preview", "recap", "bonus", "other", "cour"]

  // structural_hierarchy_issue is None
  predicate Structured(partType: Option<string>, season: Option<int>, part: Option<int>) {
    && partType.Some? && partType.value in PART_TYPES
    && (season.Some? ==> season.value > 0)
    && (part.Some? ==> part.value > 0)
    && (partType.value == "part" ==> part.Some?)
    && (part.Some? ==> partType.value == "season" || partType.value == "part" || partType.value == "cour")
  }

  datatype Authority = Unclaimed | Incomplete | Complete

  function AuthorityOf(t: Title): Authority {
    if !t.manualOverride then (if t.verified then Incomplete else Unclaimed)
    else if Structured(t.manual.partType, t.manual.season, t.manual.part) then Complete
    else Incomplete
  }

  function EffectiveType(t: Title): string {
    if AuthorityOf(t).Complete? then t.manual.partType.value else t.partType
  }

  function EffectiveSeason(t: Title): Option<int> {
    if AuthorityOf(t).Complete? then t.manual.season else t.season
  }

  function EffectivePart(t: Title): Option<int> {
    if AuthorityOf(t).Complete? then t.manual.part
    else if t.partType == "part" || t.partType == "cour" then t.part else None
  }

  function EffectiveNote(t: Title): Option<string> {
    if AuthorityOf(t).Complete? then t.manual.note else t.seasonNote
  }

  predicate SeasonTitle(t: Title, season: int) {
    EffectiveType(t) == "season" && EffectiveSeason(t) == Some(season)
  }

  // activate_manual_hierarchy_snapshot
  function Activated(t: Title, snapshot: Snapshot): Option<Title> {
    if Structured(snapshot.partType, snapshot.season, snapshot.part)
    then Some(t.(manual := snapshot, manualOverride := true, verified := true)) else None
  }

  function Cleared(t: Title): Title {
    t.(manual := Snapshot(None, None, None, None, None), manualOverride := false, verified := false)
  }

  // Activation makes exactly the snapshot effective; clearing restores the automatic structure.
  lemma ActivationIsEffective(t: Title, snapshot: Snapshot)
    requires Activated(t, snapshot).Some?
    ensures var a := Activated(t, snapshot).value;
      && AuthorityOf(a).Complete? && Some(EffectiveType(a)) == snapshot.partType
      && EffectiveSeason(a) == snapshot.season && EffectivePart(a) == snapshot.part && a.videos == t.videos
    ensures AuthorityOf(Cleared(t)).Unclaimed? && EffectiveType(Cleared(t)) == t.partType && EffectiveSeason(Cleared(t)) == t.season
  {
  }

  /** A snapshot is accepted exactly with one of the ten part types, positive numbers, a part number for
      a Part, and a part number for nothing but a Season, a Part or a Cour. */
  lemma AcceptedSnapshot(t: Title, snapshot: Snapshot)
    ensures Activated(t, snapshot).Some? <==>
      && snapshot.partType.Some?
      && snapshot.partType.value in
           ["season", "part", "cour", "film", "ova", "special", "preview", "recap", "bonus", "other"]
      && (forall n :: snapshot.season == Some(n) || snapshot.part == Some(n) ==> n > 0)
      && (snapshot.partType.value == "part" ==> snapshot.part.Some?)
      && (snapshot.part.Some? ==> snapshot.partType.value in ["season", "part", "cour"])
  {
  }

  // ---------------------------------------------------------------------------------- issues

  function Members(titles: seq<Title>, season: int): seq<Title> {
    if titles == [] then []
    else
      var rest, t := Members(titles[..|titles| - 1], season), titles[|titles| - 1];
      if SeasonTitle(t, season) then rest + [t] else rest
  }

  predicate MissingPart(members: seq<Title>) {
    exists i :: 0 <= i < |members| && EffectivePart(members[i]).None?
  }

  function DuplicateParts(members: seq<Title>): set<int> {
    set i, j | 0 <= i < j < |members| && EffectivePart(members[i]).Some? && EffectivePart(members[i]) == EffectivePart(members[j])
      :: EffectivePart(members[i]).value
  }

  datatype Issue = Issue(season: int, titles: seq<Title>, missing: bool, duplicates: set<int>)

  function IssueOf(titles: seq<Title>, season: int): Option<Issue> {
    var members := Members(titles, season);
    if |members| >= 2 && (MissingPart(members) || DuplicateParts(members) != {})
    then Some(Issue(season, members, MissingPart(members), DuplicateParts(members))) else None
  }

  // Two titles of a season have explicit, different part numbers.
  predicate Told(x: Title, y: Title) {
    EffectivePart(x).Some? && EffectivePart(y).Some? && EffectivePart(x) != EffectivePart(y)
  }

  // A season is unambiguous exactly when all its titles have explicit, distinct part numbers.
  lemma NoIssueIff(titles: seq<Title>, season: int)
    ensures var members := Members(titles, season);
      IssueOf(titles, season).None? <==>
      |members| < 2 || forall i, j :: 0 <= i < j < |members| ==> Told(members[i], members[j])
  {
    var members := Members(titles, season);
    if |members| >= 2 {
      if forall i, j :: 0 <= i < j < |members| ==> Told(members[i], members[j]) {
        AllTold(members);
      } else {
        var i, j :| 0 <= i < j < |members| && !Told(members[i], members[j]);
        if EffectivePart(members[i]).Some? && EffectivePart(members[j]).Some? {
          assert EffectivePart(members[i]).value in DuplicateParts(members);
        }
      }
    }
  }

  lemma AllTold(members: seq<Title>)
    requires |members| >= 2 && forall i, j :: 0 <= i < j < |members| ==> Told(members[i], members[j])
    ensures !MissingPart(members) && DuplicateParts(members) == {}
  {
    forall i | 0 <= i < |members|
      ensures EffectivePart(members[i]).Some?
    {
      assert i == 0 ==> Told(members[i], members[1]);
      assert i > 0 ==> Told(members[0], members[i]);
    }
  }

  /** Only manual authority tells the titles of a season apart: as long as one of several is not
      overridden with a part number of its own, the season is reported as incomplete. */
  lemma OnlyAuthorityTellsApart(titles: seq<Title>, season: int, t: Title)
    requires t in Members(titles, season) && |Members(titles, season)| >= 2
    requires !t.manualOverride || t.manual.part.None?
    ensures IssueOf(titles, season).Some? && IssueOf(titles, season).value.missing
  {
    var members := Members(titles, season);
    MembersIff(titles, season);
    var i :| 0 <= i < |members| && members[i] == t;
    assert EffectivePart(members[i]).None?;
  }

  // Season titles by season number, in order.
  method BySeason(titles: seq<Title>) returns (bySeason: map<int, seq<Title>>)
    ensures forall s :: s in bySeason ==> bySeason[s] == Members(titles, s)
    ensures forall s :: s in bySeason <==> Members(titles, s) != []
  {
    bySeason := map[];
    for i := 0 to |titles|
      invariant forall s :: (if s in bySeason then bySeason[s] else []) == Members(titles[..i], s)
      invariant forall s :: s in bySeason ==> bySeason[s] != []
    {
      assert titles[..i + 1][..i] == titles[..i];
      var t := titles[i];
      if EffectiveType(t) == "season" && EffectiveSeason(t).Some? {
        var s := EffectiveSeason(t).value;
        bySeason := bySeason[s := (if s in bySeason then bySeason[s] else []) + [t]];
      }
    }
    assert titles[..|titles|] == titles;
  }

  // split_season_structure_issues
  method FindIssues(titles: seq<Title>) returns (issues: map<int, Issue>)
    ensures forall season :: season in issues <==> IssueOf(titles, season).Some?
    ensures forall season :: season in issues ==> IssueOf(titles, season) == Some(issues[season])
  {
    var bySeason := BySeason(titles);
    issues := map s | s in bySeason && |bySeason[s]| >= 2 && (MissingPart(bySeason[s]) || DuplicateParts(bySeason[s]) != {})
      :: Issue(s, bySeason[s], MissingPart(bySeason[s]), DuplicateParts(bySeason[s]));
  }

  // ---------------------------------------------------------------------- contiguous ranges

  datatype EpisodeRange = EpisodeRange(start: int, end: int)

  function VideoIds(videos: seq<Video>): set<VideoId> {
    set v | v in videos && v.id.Some? :: v.id.value
  }

  // Numbers of the active videos, in order.
  function Numbers(videos: seq<Video>): seq<int>
    requires forall i :: 0 <= i < |videos| && !videos[i].collapses ==> videos[i].number.Some?
  {
    if videos == [] then []
    else
      var rest, v := Numbers(videos[..|videos| - 1]), videos[|videos| - 1];
      if v.collapses then rest else rest + [v.number.value]
  }

  // Copies fold into a video of the title, and every other video is a numbered standard episode.
  predicate Countable(videos: seq<Video>, v: Video) {
    if v.collapses then v.duplicateOf.Some? && v.duplicateOf.value in VideoIds(videos)
    else v.id.Some? && v.standard && v.number.Some?
  }

  ghost predicate AllCountable(videos: seq<Video>) {
    forall i :: 0 <= i < |videos| ==> Countable(videos, videos[i])
  }

  function Least(xs: seq<int>): int
    requires xs != []
  {
    if |xs| == 1 then xs[0]
    else
      var m := Least(xs[..|xs| - 1]);
      if xs[|xs| - 1] < m then xs[|xs| - 1] else m
  }

  function Greatest(xs: seq<int>): int
    requires xs != []
  {
    if |xs| == 1 then xs[0]
    else
      var m := Greatest(xs[..|xs| - 1]);
      if xs[|xs| - 1] > m then xs[|xs| - 1] else m
  }

  lemma {:induction false} Bounds(xs: seq<int>)
    requires xs != []
    ensures forall i :: 0 <= i < |xs| ==> Least(xs) <= xs[i] <= Greatest(xs)
    ensures Least(xs) in xs && Greatest(xs) in xs
  {
    if |xs| > 1 {
      Bounds(xs[..|xs| - 1]);
      assert xs == xs[..|xs| - 1] + [xs[|xs| - 1]];
    }
  }

  // The numbers are exactly start, start + 1, ..., end, once each.
  ghost predicate OneEach(xs: seq<int>, start: int, end: int) {
    && start <= end
    && (forall i :: 0 <= i < |xs| ==> start <= xs[i] <= end)
    && (forall n :: start <= n <= end ==> n in xs)
    && Distinct(xs)
  }

  function Interval(start: int, end: int): (s: set<int>)
    ensures forall n :: n in s <==> start <= n <= end
    decreases end - start + 1
  {
    if start > end then {} else Interval(start, end - 1) + {end}
  }

  lemma {:induction false} IntervalSize(start: int, end: int)
    requires start <= end + 1
    ensures |Interval(start, end)| == end - start + 1
    decreases end - start + 1
  {
    if start <= end {
      IntervalSize(start, end - 1);
    }
  }

  lemma {:induction false} DistinctSize(xs: seq<int>)
    requires Distinct(xs)
    ensures |SeqToSet(xs)| == |xs|
  {
    if xs != [] {
      var front, last := xs[..|xs| - 1], xs[|xs| - 1];
      DistinctSize(front);
      assert xs == front + [last];
      assert SeqToSet(xs) == SeqToSet(front) + {last};
      assert last !in front;
    }
  }

  // Distinct numbers as many as their span are one each; that is what comparing the sorted list
  // with the whole range tests.
  lemma SpanIff(xs: seq<int>)
    requires xs != [] && Distinct(xs)
    ensures |xs| == Greatest(xs) - Least(xs) + 1 <==> OneEach(xs, Least(xs), Greatest(xs))
  {
    Bounds(xs);
    DistinctSize(xs);
    IntervalSize(Least(xs), Greatest(xs));
    var all, mine := Interval(Least(xs), Greatest(xs)), SeqToSet(xs);
    assert mine <= all;
    if |mine| == |all| {
      SameSizeSubset(mine, all);
      forall n | Least(xs) <= n <= Greatest(xs)
        ensures n in xs
      {
        assert n in all;
      }
    }
    if OneEach(xs, Least(xs), Greatest(xs)) {
      assert mine == all;
    }
  }

  lemma SameSizeSubset(a: set<int>, b: set<int>)
    requires a <= b && |a| == |b|
    ensures a == b
  {
    assert |b - a| == |b| - |a|;
  }

  // The i-th video is active with this number.
  ghost predicate ActiveAs(videos: seq<Video>, i: int, n: int) {
    0 <= i < |videos| && !videos[i].collapses && videos[i].number == Some(n)
  }

  ghost predicate HasActive(videos: seq<Video>, n: int) {
    exists i :: ActiveAs(videos, i, n)
  }

  ghost predicate ActiveOnce(videos: seq<Video>) {
    forall i, j, n :: ActiveAs(videos, i, n) && ActiveAs(videos, j, n) ==> i == j
  }

  // Active videos have numbers.
  ghost predicate AllNumbered(videos: seq<Video>) {
    forall i :: 0 <= i < |videos| && !videos[i].collapses ==> videos[i].number.Some?
  }

  lemma {:induction false} NumbersAre(videos: seq<Video>)
    requires AllNumbered(videos)
    ensures forall n :: n in Numbers(videos) <==> HasActive(videos, n)
    ensures Distinct(Numbers(videos)) <==> ActiveOnce(videos)
  {
    if videos != [] {
      var front, v := videos[..|videos| - 1], videos[|videos| - 1];
      NumbersAre(front);
      LastActive(videos, front, v);
      if v.collapses {
        assert Numbers(videos) == Numbers(front);
      } else {
        DistinctAppended(Numbers(front), v.number.value);
      }
    }
  }

  lemma LastActive(videos: seq<Video>, front: seq<Video>, v: Video)
    requires videos == front + [v] && (!v.collapses ==> v.number.Some?)
    ensures forall n :: HasActive(videos, n) <==> HasActive(front, n) || (!v.collapses && v.number == Some(n))
    ensures ActiveOnce(videos) <==> ActiveOnce(front) && (v.collapses || !HasActive(front, v.number.value))
  {
    forall i, n
      ensures ActiveAs(videos, i, n) <==>
        ActiveAs(front, i, n) || (i == |front| && !v.collapses && v.number == Some(n))
    {
    }
    if !v.collapses {
      assert ActiveAs(videos, |front|, v.number.value);
    }
  }

  lemma DistinctAppended(xs: seq<int>, x: int)
    ensures Distinct(xs + [x]) <==> Distinct(xs) && x !in xs
  {
    assert forall k :: 0 <= k < |xs| ==> (xs + [x])[k] == xs[k];
    assert (xs + [x])[|xs|] == x;
    if Distinct(xs + [x]) {
      forall k | 0 <= k < |xs|
        ensures xs[k] != x
      {
        assert (xs + [x])[k] != (xs + [x])[|xs|];
      }
    }
  }

  // _safe_contiguous_episode_range is Some exactly for countable videos with one active video per
  // number of a contiguous range.
  ghost predicate SafeRange(videos: seq<Video>, r: EpisodeRange) {
    AllCountable(videos) && Numbers(videos) != [] && OneEach(Numbers(videos), r.start, r.end)
  }

  method SafeContiguousRange(videos: seq<Video>) returns (r: Option<EpisodeRange>)
    ensures r.Some? ==> SafeRange(videos, r.value)
    ensures r.None? ==> forall x :: !SafeRange(videos, x)
  {
    var numbers: seq<int> := [];
    for i := 0 to |videos|
      invariant forall k :: 0 <= k < i ==> Countable(videos, videos[k])
      invariant numbers == Numbers(videos[..i])
    {
      assert videos[..i + 1][..i] == videos[..i];
      if !Countable(videos, videos[i]) { return None; }
      if !videos[i].collapses {
        numbers := numbers + [videos[i].number.value];
      }
    }
    assert videos[..|videos|] == videos;
    if numbers == [] { return None; }
    var repeated := exists i, j :: 0 <= i < j < |numbers| && numbers[i] == numbers[j];
    if repeated { return None; }
    var start, end := Least(numbers), Greatest(numbers);
    SpanIff(numbers);
    if |numbers| != end - start + 1 {
      forall x: EpisodeRange
        ensures !SafeRange(videos, x)
      {
        RangeIsSpan(numbers, x);
      }
      return None;
    }
    r := Some(EpisodeRange(start, end));
  }

  // A one-each range is the span of its numbers.
  lemma RangeIsSpan(xs: seq<int>, r: EpisodeRange)
    requires xs != []
    ensures OneEach(xs, r.start, r.end) ==> r.start == Least(xs) && r.end == Greatest(xs)
  {
    Bounds(xs);
    if OneEach(xs, r.start, r.end) {
      assert r.start in xs && r.end in xs;
    }
  }

  // Folded videos are copies of one in the title, the others saved standard episodes with a number.
  ghost predicate Countables(videos: seq<Video>) {
    && (forall i :: 0 <= i < |videos| && videos[i].collapses ==>
          exists w :: w in videos && w.id.Some? && videos[i].duplicateOf == w.id)
    && (forall i :: 0 <= i < |videos| && !videos[i].collapses ==>
          videos[i].id.Some? && videos[i].standard && videos[i].number.Some?)
  }

  /** A title has a safe range exactly when every folded video is a copy of one in the title, every
      other is a saved standard episode with a number, and each number of the range belongs to exactly
      one of those, none to any outside it. */
  lemma SafeRangeIff(videos: seq<Video>, r: EpisodeRange)
    ensures SafeRange(videos, r) <==>
      && Countables(videos) && ActiveOnce(videos) && r.start <= r.end
      && forall n :: HasActive(videos, n) <==> r.start <= n <= r.end
  {
    CountableIff(videos);
    if AllCountable(videos) {
      NumbersAre(videos);
      RangeOfNumbers(Numbers(videos), r);
      assert forall n :: n in Numbers(videos) <==> HasActive(videos, n);
    }
  }

  lemma CountableIff(videos: seq<Video>)
    ensures AllCountable(videos) <==> Countables(videos)
    ensures AllCountable(videos) ==> AllNumbered(videos)
  {
    forall i | 0 <= i < |videos| && videos[i].collapses
      ensures Countable(videos, videos[i]) <==> exists w :: w in videos && w.id.Some? && videos[i].duplicateOf == w.id
    {
    }
  }

  lemma RangeOfNumbers(numbers: seq<int>, r: EpisodeRange)
    ensures numbers != [] && OneEach(numbers, r.start, r.end) <==>
      r.start <= r.end && Distinct(numbers) && forall n :: n in numbers <==> r.start <= n <= r.end
  {
    if r.start <= r.end && forall n :: n in numbers <==> r.start <= n <= r.end {
      assert r.start in numbers;
      forall i | 0 <= i < |numbers|
        ensures r.start <= numbers[i] <= r.end
      {
        assert numbers[i] in numbers;
      }
    }
  }

  // --------------------------------------------------------------------------- proposals

  datatype Proposal = Proposal(first: TitleId, second: TitleId, firstRange: EpisodeRange, secondRange: EpisodeRange)

  ghost predicate Proposes(a: Title, b: Title, p: Proposal) {
    && a.id == Some(p.first) && b.id == Some(p.second) && EffectivePart(a).None? && EffectivePart(b).None?
    && SafeRange(a.videos, p.firstRange) && SafeRange(b.videos, p.secondRange)
    && p.firstRange.start == 1 && p.firstRange.end + 1 == p.secondRange.start
  }

  // The season's two titles split E1 to Ek between them, in one order or the other.
  ghost predicate IsProposal(titles: seq<Title>, season: int, p: Proposal) {
    var members := Members(titles, season);
    |members| == 2 && (Proposes(members[0], members[1], p) || Proposes(members[1], members[0], p))
  }

  method ProposePair(a: Title, b: Title, x: EpisodeRange, y: EpisodeRange) returns (p: Option<Proposal>)
    requires SafeRange(a.videos, x) && SafeRange(b.videos, y)
    requires a.id.Some? && b.id.Some? && EffectivePart(a).None? && EffectivePart(b).None?
    ensures p.Some? ==> Proposes(a, b, p.value) || Proposes(b, a, p.value)
    ensures p.None? ==> forall q :: !Proposes(a, b, q) && !Proposes(b, a, q)
  {
    // sorted by start
    if x.start <= y.start {
      p := if x.start == 1 && x.end + 1 == y.start then Some(Proposal(a.id.value, b.id.value, x, y)) else None;
    } else {
      p := if y.start == 1 && y.end + 1 == x.start then Some(Proposal(b.id.value, a.id.value, y, x)) else None;
    }
    forall q
      ensures Proposes(a, b, q) ==> q.firstRange == x && q.secondRange == y
      ensures Proposes(b, a, q) ==> q.firstRange == y && q.secondRange == x
    {
      SafeRangeIsUnique(a.videos, x, q.firstRange);
      SafeRangeIsUnique(a.videos, x, q.secondRange);
      SafeRangeIsUnique(b.videos, y, q.firstRange);
      SafeRangeIsUnique(b.videos, y, q.secondRange);
    }
  }

  lemma SafeRangeIsUnique(videos: seq<Video>, x: EpisodeRange, y: EpisodeRange)
    requires SafeRange(videos, x)
    ensures SafeRange(videos, y) ==> y == x
  {
    RangeIsSpan(Numbers(videos), x);
    if SafeRange(videos, y) { RangeIsSpan(Numbers(videos), y); }
  }

  method ProposeSeason(titles: seq<Title>, season: int, members: seq<Title>) returns (p: Option<Proposal>)
    requires members == Members(titles, season)
    ensures p.Some? ==> IsProposal(titles, season, p.value)
    ensures p.None? ==> forall q :: !IsProposal(titles, season, q)
  {
    if |members| != 2 { return None; }
    var a, b := members[0], members[1];
    if a.id.None? || b.id.None? || EffectivePart(a).Some? || EffectivePart(b).Some? { return None; }
    var x := SafeContiguousRange(a.videos);
    var y := SafeContiguousRange(b.videos);
    if x.None? || y.None? { return None; }
    p := ProposePair(a, b, x.value, y.value);
  }

  // Main result: a proposal splits E1 to Ek into two disjoint contiguous ranges in which every
  // number has exactly one active video, in exactly one of the two titles.
  lemma ProposalSplitsSeason(titles: seq<Title>, season: int, p: Proposal, n: int)
    requires IsProposal(titles, season, p)
    ensures p.firstRange.start == 1 && p.firstRange.end < p.secondRange.start == p.firstRange.end + 1
    ensures 1 <= n <= p.secondRange.end ==>
      var members := Members(titles, season);
      var a, b := if Proposes(members[0], members[1], p) then members[0] else members[1],
                  if Proposes(members[0], members[1], p) then members[1] else members[0];
      && AllCountable(a.videos) && AllCountable(b.videos)
      && (n in Numbers(a.videos) <==> n <= p.firstRange.end) && (n in Numbers(b.videos) <==> n > p.firstRange.end)
      && Distinct(Numbers(a.videos)) && Distinct(Numbers(b.videos))
  {
  }

  // ---------------------------------------------------------------------------- confirmation

  function SnapshotFor(t: Title, season: int, part: int, seasonNote: int -> string): Snapshot {
    Snapshot(
      Some("season"), Some(season), Some(part),
      if EffectiveNote(t).Some? then EffectiveNote(t) else Some(seasonNote(season)), t.manual.order)
  }

  // One title after the confirmation.
  function ConfirmedTitle(t: Title, season: int, p: Proposal, seasonNote: int -> string): Title
    requires season > 0
  {
    if t.id == Some(p.first) then Activated(t, SnapshotFor(t, season, 1, seasonNote)).value
    else if t.id == Some(p.second) then Activated(t, SnapshotFor(t, season, 2, seasonNote)).value
    else t
  }

  function ConfirmedTitles(titles: seq<Title>, season: int, p: Proposal, seasonNote: int -> string): (r: seq<Title>)
    requires season > 0
    ensures |r| == |titles|
  {
    if titles == [] then []
    else
      ConfirmedTitles(titles[..|titles| - 1], season, p, seasonNote)
      + [ConfirmedTitle(titles[|titles| - 1], season, p, seasonNote)]
  }

  ghost predicate DistinctTitleIds(titles: seq<Title>) {
    forall i, j :: 0 <= i < j < |titles| && titles[i].id.Some? ==> titles[i].id != titles[j].id
  }

  lemma {:induction false} MembersIff(titles: seq<Title>, season: int)
    ensures forall t :: t in Members(titles, season) <==> t in titles && SeasonTitle(t, season)
  {
    if titles != [] {
      MembersIff(titles[..|titles| - 1], season);
      assert titles == titles[..|titles| - 1] + [titles[|titles| - 1]];
    }
  }

  // The titles the proposal names are the season's titles.
  ghost predicate NamesMembers(titles: seq<Title>, season: int, p: Proposal) {
    forall i :: 0 <= i < |titles| && (titles[i].id == Some(p.first) || titles[i].id == Some(p.second)) ==> SeasonTitle(titles[i], season)
  }

  lemma ProposalNamesMembers(titles: seq<Title>, season: int, p: Proposal)
    requires IsProposal(titles, season, p) && DistinctTitleIds(titles)
    ensures NamesMembers(titles, season, p) && p.first != p.second
  {
    var members := Members(titles, season);
    MembersIff(titles, season);
    assert members[0] in titles && members[1] in titles;
    MembersDistinct(titles, season);
  }

  lemma {:induction false} MembersDistinct(titles: seq<Title>, season: int)
    requires DistinctTitleIds(titles)
    ensures DistinctTitleIds(Members(titles, season))
  {
    if titles != [] {
      var front := titles[..|titles| - 1];
      MembersDistinct(front, season);
      MembersIff(front, season);
      forall w | w in Members(front, season) && w.id.Some?
        ensures w.id != titles[|titles| - 1].id
      {
        assert w in front;
      }
    }
  }

  lemma ConfirmedKeepsSeason(t: Title, season: int, p: Proposal, seasonNote: int -> string, s: int)
    requires season > 0
    requires t.id == Some(p.first) || t.id == Some(p.second) ==> SeasonTitle(t, season)
    ensures SeasonTitle(ConfirmedTitle(t, season, p, seasonNote), s) <==> SeasonTitle(t, s)
    ensures ConfirmedTitle(t, season, p, seasonNote).id == t.id && ConfirmedTitle(t, season, p, seasonNote).videos == t.videos
    ensures s != season && SeasonTitle(t, s) ==> ConfirmedTitle(t, season, p, seasonNote) == t
  {
    if t.id == Some(p.first) {
      ActivationIsEffective(t, SnapshotFor(t, season, 1, seasonNote));
    } else if t.id == Some(p.second) {
      ActivationIsEffective(t, SnapshotFor(t, season, 2, seasonNote));
    }
  }

  lemma {:induction false} ConfirmedMembers(titles: seq<Title>, season: int, p: Proposal, seasonNote: int -> string, s: int)
    requires season > 0 && NamesMembers(titles, season, p)
    ensures Members(ConfirmedTitles(titles, season, p, seasonNote), s)
      == ConfirmedTitles(Members(titles, s), season, p, seasonNote)
  {
    if titles != [] {
      var front, t := titles[..|titles| - 1], titles[|titles| - 1];
      ConfirmedMembers(front, season, p, seasonNote, s);
      ConfirmedKeepsSeason(t, season, p, seasonNote, s);
      var confirmed := ConfirmedTitles(titles, season, p, seasonNote);
      assert confirmed[..|confirmed| - 1] == ConfirmedTitles(front, season, p, seasonNote);
      if SeasonTitle(t, s) {
        var members := Members(front, s);
        assert (members + [t])[..|members|] == members;
      }
    }
  }

  lemma {:induction false} ForeignUnchanged(members: seq<Title>, season: int, p: Proposal, seasonNote: int -> string, s: int)
    requires season > 0 && s != season && NamesMembers(members, season, p) && forall i :: 0 <= i < |members| ==> SeasonTitle(members[i], s)
    ensures ConfirmedTitles(members, season, p, seasonNote) == members
  {
    if members != [] {
      ForeignUnchanged(members[..|members| - 1], season, p, seasonNote, s);
      ConfirmedKeepsSeason(members[|members| - 1], season, p, seasonNote, s);
    }
  }

  // Main result: confirming removes the season's issue and changes no other season's.
  lemma ConfirmationResolves(titles: seq<Title>, season: int, p: Proposal, seasonNote: int -> string)
    requires IsProposal(titles, season, p) && DistinctTitleIds(titles) && season > 0
    ensures IssueOf(titles, season).Some? && IssueOf(titles, season).value.missing
    ensures IssueOf(ConfirmedTitles(titles, season, p, seasonNote), season).None?
    ensures forall s :: s != season ==> IssueOf(ConfirmedTitles(titles, season, p, seasonNote), s) == IssueOf(titles, s)
  {
    var members := Members(titles, season);
    ProposalNamesMembers(titles, season, p);
    ConfirmedMembers(titles, season, p, seasonNote, season);
    PairIsTold(members, season, p, seasonNote);
    NoIssueIff(ConfirmedTitles(titles, season, p, seasonNote), season);
    assert EffectivePart(members[0]).None?;
    forall s | s != season
      ensures IssueOf(ConfirmedTitles(titles, season, p, seasonNote), s) == IssueOf(titles, s)
    {
      OtherSeasonKept(titles, season, p, seasonNote, s);
    }
  }

  lemma OtherSeasonKept(titles: seq<Title>, season: int, p: Proposal, seasonNote: int -> string, s: int)
    requires season > 0 && s != season && NamesMembers(titles, season, p)
    ensures IssueOf(ConfirmedTitles(titles, season, p, seasonNote), s) == IssueOf(titles, s)
  {
    MembersIff(titles, s);
    var members := Members(titles, s);
    forall i | 0 <= i < |members|
      ensures SeasonTitle(members[i], s) && members[i] in titles
    {
      assert members[i] in members;
    }
    ConfirmedMembers(titles, season, p, seasonNote, s);
    ForeignUnchanged(members, season, p, seasonNote, s);
  }

  lemma PairIsTold(members: seq<Title>, season: int, p: Proposal, seasonNote: int -> string)
    requires season > 0 && |members| == 2 && p.first != p.second
    requires Proposes(members[0], members[1], p) || Proposes(members[1], members[0], p)
    ensures var c := ConfirmedTitles(members, season, p, seasonNote); Told(c[0], c[1])
  {
    var a, b := members[0], members[1];
    assert members[..1] == [a] && [a][..0] == [];
    assert ConfirmedTitles(members, season, p, seasonNote)
      == ConfirmedTitles([a], season, p, seasonNote) + [ConfirmedTitle(b, season, p, seasonNote)];
    ActivationIsEffective(a, SnapshotFor(a, season, 1, seasonNote));
    ActivationIsEffective(a, SnapshotFor(a, season, 2, seasonNote));
    ActivationIsEffective(b, SnapshotFor(b, season, 1, seasonNote));
    ActivationIsEffective(b, SnapshotFor(b, season, 2, seasonNote));
  }

  // ------------------------------------------------------------------- what a confirmation means

  // Every active video of one title is numbered below every active video of the other.
  ghost predicate AllBelow(xs: seq<Video>, ys: seq<Video>) {
    forall x, y :: x in xs && y in ys && !x.collapses && !y.collapses ==>
      x.number.Some? && y.number.Some? && x.number.value < y.number.value
  }

  // The title is now, by complete manual authority, this part of the season, and otherwise as before:
  // its sort order, its videos, and any season label it had.
  ghost predicate BecamePart(t: Title, t': Title, season: int, part: int, seasonNote: int -> string) {
    && t'.manualOverride && t'.verified && AuthorityOf(t').Complete?
    && EffectiveType(t') == "season" && EffectiveSeason(t') == Some(season) && EffectivePart(t') == Some(part)
    && (EffectiveNote(t).Some? ==> EffectiveNote(t') == EffectiveNote(t))
    && (EffectiveNote(t).None? ==> EffectiveNote(t') == Some(seasonNote(season)))
    && t'.manual.order == t.manual.order
    && t' == t.(manual := t'.manual, manualOverride := true, verified := true)
  }

  // The season's two titles became Part 1, with the lower numbers, and Part 2; no other changed.
  ghost predicate Halved(before: seq<Title>, after: seq<Title>, season: int, seasonNote: int -> string, i: nat, j: nat) {
    && |after| == |before| && i < |before| && j < |before| && i != j
    && BecamePart(before[i], after[i], season, 1, seasonNote) && BecamePart(before[j], after[j], season, 2, seasonNote)
    && AllBelow(before[i].videos, before[j].videos)
    && (forall k :: 0 <= k < |before| ==> (SeasonTitle(before[k], season) <==> k == i || k == j))
    && forall k :: 0 <= k < |before| && k != i && k != j ==> after[k] == before[k]
  }

  lemma {:induction false} ConfirmedAt(titles: seq<Title>, season: int, p: Proposal, seasonNote: int -> string, i: nat)
    requires season > 0 && i < |titles|
    ensures ConfirmedTitles(titles, season, p, seasonNote)[i] == ConfirmedTitle(titles[i], season, p, seasonNote)
  {
    if i < |titles| - 1 {
      ConfirmedAt(titles[..|titles| - 1], season, p, seasonNote, i);
    }
  }

  lemma {:induction false} ActiveIsNumbered(videos: seq<Video>)
    requires forall i :: 0 <= i < |videos| && !videos[i].collapses ==> videos[i].number.Some?
    ensures forall v :: v in videos && !v.collapses ==> v.number.Some? && v.number.value in Numbers(videos)
  {
    if videos != [] {
      ActiveIsNumbered(videos[..|videos| - 1]);
      assert videos == videos[..|videos| - 1] + [videos[|videos| - 1]];
    }
  }

  lemma RangesAreBelow(a: Title, b: Title, p: Proposal)
    requires Proposes(a, b, p)
    ensures AllBelow(a.videos, b.videos)
  {
    ActiveIsNumbered(a.videos);
    ActiveIsNumbered(b.videos);
    forall x, y | x in a.videos && y in b.videos && !x.collapses && !y.collapses
      ensures x.number.Some? && y.number.Some? && x.number.value < y.number.value
    {
      var i :| 0 <= i < |Numbers(a.videos)| && Numbers(a.videos)[i] == x.number.value;
      var j :| 0 <= j < |Numbers(b.videos)| && Numbers(b.videos)[j] == y.number.value;
    }
  }

  lemma ConfirmedBecamePart(t: Title, season: int, p: Proposal, seasonNote: int -> string)
    requires season > 0 && p.first != p.second
    ensures t.id == Some(p.first) ==> BecamePart(t, ConfirmedTitle(t, season, p, seasonNote), season, 1, seasonNote)
    ensures t.id == Some(p.second) ==> BecamePart(t, ConfirmedTitle(t, season, p, seasonNote), season, 2, seasonNote)
    ensures t.id != Some(p.first) && t.id != Some(p.second) ==> ConfirmedTitle(t, season, p, seasonNote) == t
  {
    ActivationIsEffective(t, SnapshotFor(t, season, 1, seasonNote));
    ActivationIsEffective(t, SnapshotFor(t, season, 2, seasonNote));
  }

  // The season's titles and where they stand.
  lemma MembersStand(titles: seq<Title>, season: int, a: Title, b: Title) returns (i: nat, j: nat)
    requires DistinctTitleIds(titles) && (Members(titles, season) == [a, b] || Members(titles, season) == [b, a])
    requires a.id.Some? && b.id.Some? && a.id != b.id
    ensures i < |titles| && j < |titles| && i != j && titles[i] == a && titles[j] == b
    ensures forall k :: 0 <= k < |titles| ==> (SeasonTitle(titles[k], season) <==> k == i || k == j)
    ensures forall k :: 0 <= k < |titles| && (titles[k].id == a.id || titles[k].id == b.id) ==> k == i || k == j
  {
    MembersIff(titles, season);
    var members := Members(titles, season);
    assert members[0] in members && members[1] in members;
    assert a in titles && b in titles;
    i :| 0 <= i < |titles| && titles[i] == a;
    j :| 0 <= j < |titles| && titles[j] == b;
    forall k | 0 <= k < |titles| && SeasonTitle(titles[k], season)
      ensures k == i || k == j
    {
      assert titles[k] in members;
    }
  }

  /** A confirmed split numbers the halves by their episodes: the title with the lower numbers is Part 1. */
  lemma ConfirmationHalves(titles: seq<Title>, season: int, p: Proposal, seasonNote: int -> string)
    requires IsProposal(titles, season, p) && DistinctTitleIds(titles) && season > 0
    ensures exists i, j :: Halved(titles, ConfirmedTitles(titles, season, p, seasonNote), season, seasonNote, i, j)
  {
    var members := Members(titles, season);
    ProposalNamesMembers(titles, season, p);
    var swap := !Proposes(members[0], members[1], p);
    var a, b := members[if swap then 1 else 0], members[if swap then 0 else 1];
    assert members == [members[0], members[1]];
    RangesAreBelow(a, b, p);
    var i, j := MembersStand(titles, season, a, b);
    forall k: nat | k < |titles|
      ensures ConfirmedTitles(titles, season, p, seasonNote)[k] == ConfirmedTitle(titles[k], season, p, seasonNote)
      ensures k != i && k != j ==> ConfirmedTitle(titles[k], season, p, seasonNote) == titles[k]
    {
      ConfirmedAt(titles, season, p, seasonNote, k);
    }
    ConfirmedBecamePart(a, season, p, seasonNote);
    ConfirmedBecamePart(b, season, p, seasonNote);
    assert Halved(titles, ConfirmedTitles(titles, season, p, seasonNote), season, seasonNote, i, j);
  }

  datatype ConfirmError = StaleProposal | InvalidStructure | AmbiguousSeason

  ghost predicate Requested(titles: seq<Title>, season: int, first: TitleId, second: TitleId, p: Proposal) {
    IsProposal(titles, season, p) && p.first == first && p.second == second
  }

  ghost predicate OthersClear(titles: seq<Title>, season: int) {
    forall s :: s != season ==> IssueOf(titles, s).None?
  }

  lemma RequestedIsUnique(titles: seq<Title>, season: int, p: Proposal, q: Proposal)
    requires IsProposal(titles, season, p) && IsProposal(titles, season, q)
    ensures p == q
  {
    var members := Members(titles, season);
    var a, b := members[0], members[1];
    if Proposes(a, b, p) {
      SafeRangeIsUnique(a.videos, p.firstRange, q.firstRange);
      SafeRangeIsUnique(a.videos, p.firstRange, q.secondRange);
      SafeRangeIsUnique(b.videos, p.secondRange, q.firstRange);
      SafeRangeIsUnique(b.videos, p.secondRange, q.secondRange);
    } else {
      SafeRangeIsUnique(b.videos, p.firstRange, q.firstRange);
      SafeRangeIsUnique(b.videos, p.firstRange, q.secondRange);
      SafeRangeIsUnique(a.videos, p.secondRange, q.firstRange);
      SafeRangeIsUnique(a.videos, p.secondRange, q.secondRange);
    }
  }

  // A collection whose titles the confirmation edits in place.
  class Collection {
    var titles: seq<Title>

    // The proposal items, each activated as a complete manual snapshot.
    method ActivateItems(season: int, p: Proposal, seasonNote: int -> string) returns (ok: bool)
      requires DistinctTitleIds(titles) && p.first != p.second
      modifies this
      ensures ok <==> season > 0 || forall i :: 0 <= i < |titles| ==> titles[i].id != Some(p.first) && titles[i].id != Some(p.second)
      ensures ok && season > 0 ==> titles == ConfirmedTitles(old(titles), season, p, seasonNote)
      ensures |titles| == |old(titles)| && forall i :: 0 <= i < |titles| ==> titles[i].id == old(titles)[i].id
    {
      ok := true;
      ghost var before := titles;
      for i := 0 to |titles|
        invariant |titles| == |before| && forall k :: 0 <= k < |titles| ==> titles[k].id == before[k].id
        invariant titles[i..] == before[i..]
        invariant season > 0 ==> titles[..i] == ConfirmedTitles(before[..i], season, p, seasonNote)
        invariant season <= 0 ==> forall k :: 0 <= k < i ==> titles[k].id != Some(p.first) && titles[k].id != Some(p.second)
      {
        var t := titles[i];
        var part := if t.id == Some(p.first) then Some(1) else if t.id == Some(p.second) then Some(2) else None;
        assert before[..i + 1][..i] == before[..i];
        if part.Some? {
          var activated := Activated(t, SnapshotFor(t, season, part.value, seasonNote));
          if activated.None? { return false; }
          titles := titles[i := activated.value];
        }
      }
      assert before[..|before|] == before;
    }

    // confirm_existing_split_season_parts: accepted exactly for a fresh proposal of a positive season
    // in a collection where no other season is ambiguous.
    method Confirm(season: int, first: TitleId, second: TitleId, seasonNote: int -> string) returns (r: Result<Proposal, ConfirmError>)
      requires DistinctTitleIds(titles)
      modifies this
      ensures r.Ok? <==>
        (exists p :: Requested(old(titles), season, first, second, p)) && season > 0 && OthersClear(old(titles), season)
      ensures r.Ok? ==>
        && Requested(old(titles), season, first, second, r.value)
        && titles == ConfirmedTitles(old(titles), season, r.value, seasonNote)
        && (forall s :: IssueOf(titles, s).None?)
        && exists i, j :: Halved(old(titles), titles, season, seasonNote, i, j)
      ensures r.Err? ==> titles == old(titles)
    {
      var bySeason := BySeason(titles);
      if season !in bySeason { return Err(StaleProposal); }
      var proposal := ProposeSeason(titles, season, bySeason[season]);
      if proposal.None? { return Err(StaleProposal); }
      var p := proposal.value;
      if p.first != first || p.second != second {
        forall q | IsProposal(titles, season, q)
          ensures q == p
        {
          RequestedIsUnique(titles, season, p, q);
        }
        return Err(StaleProposal);
      }
      var saved := titles;
      assert Requested(saved, season, first, second, p);
      ProposalNamesMembers(titles, season, p);
      var ok := ActivateItems(season, p, seasonNote);
      if !ok {
        titles := saved;
        return Err(InvalidStructure);
      }
      NamedIsPresent(saved, season, p);
      ConfirmationHalves(saved, season, p, seasonNote);
      IssuesLeft(saved, season, p, seasonNote);
      var issues := FindIssues(titles);
      if exists s :: s in issues {
        titles := saved;
        return Err(AmbiguousSeason);
      }
      r := Ok(p);
    }
  }

  // After the confirmation the issues left are those of the other seasons.
  lemma IssuesLeft(titles: seq<Title>, season: int, p: Proposal, seasonNote: int -> string)
    requires IsProposal(titles, season, p) && DistinctTitleIds(titles) && season > 0
    ensures OthersClear(titles, season) <==> forall s :: IssueOf(ConfirmedTitles(titles, season, p, seasonNote), s).None?
  {
    ConfirmationResolves(titles, season, p, seasonNote);
  }

  lemma NamedIsPresent(titles: seq<Title>, season: int, p: Proposal)
    requires IsProposal(titles, season, p)
    ensures exists i :: 0 <= i < |titles| && titles[i].id == Some(p.first)
  {
    var members := Members(titles, season);
    MembersIff(titles, season);
    assert members[0] in titles && members[1] in titles;
  }
}
