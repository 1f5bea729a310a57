/**
 The manual-split rule engine: every rule is evaluated for every video before any assignment.
 Pattern compilation and search enter as an engine; the number a video is matched by and whether
 it is supplementary or a folded duplicate are properties of the video.
*/
module ManualSplit {
  import opened Basics

  type VideoId = nat
  type TitleId = nat
  type CollectionId = nat

  datatype Engine = Engine(compiles: string -> bool, search: (string, string) -> bool)

  // The selectors of one definition: a range, a filename pattern ("" is none), explicit videos.
  datatype Rule = Rule(range: Option<(int, int)>, pattern: string, videoIds: set<VideoId>)

  datatype Definition = Definition(title: Option<TitleId>, rule: Rule)

  datatype SplitVideo = SplitVideo(
    id: VideoId, number: Option<int>, filename: string, collapses: bool, supplementary: bool, title: Option<TitleId>)

  datatype Kind = Unique | Conflict | Unmatched | NotRequired

  datatype Decision = Decision(kind: Kind, matching: seq<nat>)

  datatype SplitError =
    | RepeatedTitle | UnknownVideo | TargetsDiffer | InvalidPattern | AssignmentRefused
    | ForeignTitle         // a definition refers to no title of the collection
    | OmittedTitle         // a title with a selector is left out of the definitions
    | AmbiguousStructure
    | UnconfirmedConflict
    | RecapContext

  predicate CollectionScope(r: Rule) {
    r.range.Some? || r.pattern != ""
  }

  predicate HasSelector(r: Rule) {
    CollectionScope(r) || r.videoIds != {}
  }

  predicate InRange(r: Rule, v: SplitVideo) {
    r.range.Some? && v.number.Some? && r.range.value.0 <= v.number.value <= r.range.value.1
  }

  predicate Matches(e: Engine, r: Rule, v: SplitVideo) {
    v.id in r.videoIds || InRange(r, v) || (r.pattern != "" && e.search(r.pattern, v.filename))
  }

  // The matching rules in rule order.
  function MatchingUpTo(e: Engine, rules: seq<Rule>, v: SplitVideo, n: nat): seq<nat>
    requires n <= |rules|
  {
    if n == 0 then []
    else MatchingUpTo(e, rules, v, n - 1) + (if Matches(e, rules[n - 1], v) then [n - 1] else [])
  }

  function Matching(e: Engine, rules: seq<Rule>, v: SplitVideo): seq<nat> {
    MatchingUpTo(e, rules, v, |rules|)
  }

  predicate Covers(rules: seq<Rule>) {
    exists i :: 0 <= i < |rules| && CollectionScope(rules[i])
  }

  predicate AnySelector(rules: seq<Rule>) {
    exists i :: 0 <= i < |rules| && HasSelector(rules[i])
  }

  predicate ExplicitIn(rules: seq<Rule>, v: SplitVideo, matching: seq<nat>)
    requires forall k :: 0 <= k < |matching| ==> matching[k] < |rules|
  {
    exists k :: 0 <= k < |matching| && v.id in rules[matching[k]].videoIds
  }

  // Persisted targets and where titles live; a preview has neither.
  datatype Targets =
    | Preview
    | Persisted(titles: seq<Option<TitleId>>, home: map<TitleId, CollectionId>)

  function FirstWith(titles: seq<Option<TitleId>>, t: Option<TitleId>): (i: Option<nat>)
    ensures i.Some? ==> i.value < |titles| && titles[i.value] == t
  {
    if titles == [] then None
    else if titles[0] == t then Some(0)
    else
      var rest := FirstWith(titles[1..], t);
      if rest.Some? then Some(rest.value + 1) else None
  }

  function FirstHome(titles: seq<Option<TitleId>>, home: map<TitleId, CollectionId>): Option<CollectionId> {
    if titles == [] then None
    else if titles[0].Some? && titles[0].value in home then Some(home[titles[0].value])
    else FirstHome(titles[1..], home)
  }

  function HomeOf(home: map<TitleId, CollectionId>, t: TitleId): Option<CollectionId> {
    if t in home then Some(home[t]) else None
  }

  // The rule that targets the video's current title.
  function CurrentRule(targets: Targets, v: SplitVideo): Option<nat> {
    if targets.Persisted? && v.title.Some? then FirstWith(targets.titles, v.title) else None
  }

  // Content the rules need not cover.
  predicate RequiresRule(targets: Targets, v: SplitVideo) {
    && !v.collapses && !v.supplementary
    && (targets.Persisted? && v.title.Some? ==>
          v.title in targets.titles || HomeOf(targets.home, v.title.value) != FirstHome(targets.titles, targets.home))
  }

  function Decide(e: Engine, rules: seq<Rule>, targets: Targets, v: SplitVideo): Decision {
    var matching := Matching(e, rules, v);
    var current := CurrentRule(targets, v);
    MatchingInBounds(e, rules, v, |rules|);
    if current.Some? && current.value !in matching && !ExplicitIn(rules, v, matching) && |matching| <= 1
    then Decision(NotRequired, [])
    else if !AnySelector(rules) then Decision(NotRequired, matching)
    else if |matching| == 1 then Decision(Unique, matching)
    else if |matching| > 1 then Decision(Conflict, matching)
    else if rules != [] && Covers(rules) && RequiresRule(targets, v) then Decision(Unmatched, matching)
    else Decision(NotRequired, matching)
  }

  lemma {:induction false} MatchingInBounds(e: Engine, rules: seq<Rule>, v: SplitVideo, n: nat)
    requires n <= |rules|
    ensures forall i: nat :: i in MatchingUpTo(e, rules, v, n) <==> i < n && Matches(e, rules[i], v)
    ensures forall k :: 0 <= k < |MatchingUpTo(e, rules, v, n)| ==> MatchingUpTo(e, rules, v, n)[k] < n
    ensures forall j, k :: 0 <= j < k < |MatchingUpTo(e, rules, v, n)| ==>
      MatchingUpTo(e, rules, v, n)[j] < MatchingUpTo(e, rules, v, n)[k]
  {
    if n > 0 {
      MatchingInBounds(e, rules, v, n - 1);
      var before, here := MatchingUpTo(e, rules, v, n - 1), if Matches(e, rules[n - 1], v) then [n - 1] else [];
      forall i: nat
        ensures i in before + here <==> i in before || i in here
      {
      }
    }
  }

  // --------------------------------------------------------------------- what a decision means

  lemma UniqueIff(e: Engine, rules: seq<Rule>, v: SplitVideo, i: nat)
    ensures Matching(e, rules, v) == [i] <==>
      i < |rules| && Matches(e, rules[i], v) && forall j :: 0 <= j < |rules| && Matches(e, rules[j], v) ==> j == i
  {
    if Matching(e, rules, v) == [i] {
      UniqueMeans(e, rules, v, i);
    }
    if i < |rules| && Matches(e, rules[i], v) && forall j :: 0 <= j < |rules| && Matches(e, rules[j], v) ==> j == i {
      OnlyMatch(e, rules, v, i);
    }
  }

  lemma UniqueMeans(e: Engine, rules: seq<Rule>, v: SplitVideo, i: nat)
    requires Matching(e, rules, v) == [i]
    ensures i < |rules| && Matches(e, rules[i], v) && forall j :: 0 <= j < |rules| && Matches(e, rules[j], v) ==> j == i
  {
    MatchingInBounds(e, rules, v, |rules|);
    assert i in Matching(e, rules, v);
    forall j: nat | j < |rules| && Matches(e, rules[j], v)
      ensures j == i
    {
      assert j in Matching(e, rules, v);
    }
  }

  lemma OnlyMatch(e: Engine, rules: seq<Rule>, v: SplitVideo, i: nat)
    requires i < |rules| && Matches(e, rules[i], v)
    requires forall j :: 0 <= j < |rules| && Matches(e, rules[j], v) ==> j == i
    ensures Matching(e, rules, v) == [i]
  {
    var matching := Matching(e, rules, v);
    MatchingInBounds(e, rules, v, |rules|);
    assert |matching| <= 1 || matching[0] < matching[1];
    assert i in matching;
    forall k | 0 <= k < |matching|
      ensures matching[k] == i
    {
      assert matching[k] in matching;
    }
  }

  lemma NoneIff(e: Engine, rules: seq<Rule>, v: SplitVideo)
    ensures Matching(e, rules, v) == [] <==> forall j :: 0 <= j < |rules| ==> !Matches(e, rules[j], v)
  {
    MatchingInBounds(e, rules, v, |rules|);
    if Matching(e, rules, v) != [] {
      assert Matching(e, rules, v)[0] in Matching(e, rules, v);
    }
    if j :| 0 <= j < |rules| && Matches(e, rules[j], v) {
      assert j in Matching(e, rules, v);
    }
  }

  lemma SeveralIff(e: Engine, rules: seq<Rule>, v: SplitVideo)
    ensures |Matching(e, rules, v)| > 1 <==>
      exists i, j :: 0 <= i < j < |rules| && Matches(e, rules[i], v) && Matches(e, rules[j], v)
  {
    var matching := Matching(e, rules, v);
    MatchingInBounds(e, rules, v, |rules|);
    if |matching| > 1 {
      assert matching[0] in matching && matching[1] in matching && matching[0] < matching[1];
    }
    if i, j :| 0 <= i < j < |rules| && Matches(e, rules[i], v) && Matches(e, rules[j], v) {
      assert i in matching && j in matching;
    }
  }

  // -------------------------------------------------------------------------------- evaluation

  predicate RepeatedTitles(definitions: seq<Definition>) {
    exists i, j :: 0 <= i < j < |definitions| && definitions[i].title.Some? && definitions[i].title == definitions[j].title
  }

  function RulesOf(definitions: seq<Definition>): seq<Rule> {
    seq(|definitions|, i requires 0 <= i < |definitions| => definitions[i].rule)
  }

  predicate UnknownSelected(videos: seq<SplitVideo>, definitions: seq<Definition>) {
    exists i :: 0 <= i < |definitions|
      && exists x :: x in definitions[i].rule.videoIds && forall k :: 0 <= k < |videos| ==> videos[k].id != x
  }

  predicate BadPattern(e: Engine, definitions: seq<Definition>) {
    exists i :: 0 <= i < |definitions| && definitions[i].rule.pattern != "" && !e.compiles(definitions[i].rule.pattern)
  }

  // The checks before the loop, in their order.
  function Rejection(e: Engine, videos: seq<SplitVideo>, definitions: seq<Definition>, targets: Targets): Option<SplitError> {
    if RepeatedTitles(definitions) then Some(RepeatedTitle)
    else if targets.Preview? && UnknownSelected(videos, definitions) then Some(UnknownVideo)
    else if targets.Persisted? && |targets.titles| != |definitions| then Some(TargetsDiffer)
    else if BadPattern(e, definitions) then Some(InvalidPattern)
    else None
  }

  ghost predicate Decides(
    e: Engine, rules: seq<Rule>, targets: Targets, videos: seq<SplitVideo>, decisions: seq<Decision>)
  {
    |decisions| == |videos| && forall k :: 0 <= k < |videos| ==> decisions[k] == Decide(e, rules, targets, videos[k])
  }

  method DecideAll(e: Engine, rules: seq<Rule>, targets: Targets, videos: seq<SplitVideo>) returns (decisions: seq<Decision>)
    ensures Decides(e, rules, targets, videos, decisions)
  {
    decisions := [];
    for k := 0 to |videos|
      invariant |decisions| == k && forall i :: 0 <= i < k ==> decisions[i] == Decide(e, rules, targets, videos[i])
    {
      decisions := decisions + [Decide(e, rules, targets, videos[k])];
    }
  }

  // evaluate_manual_split_assignment
  method Evaluate(e: Engine, videos: seq<SplitVideo>, definitions: seq<Definition>, targets: Targets)
    returns (r: Result<seq<Decision>, SplitError>)
    ensures r.Ok? <==> Rejection(e, videos, definitions, targets).None?
    ensures r.Err? ==> Rejection(e, videos, definitions, targets) == Some(r.error)
    ensures r.Ok? ==> Decides(e, RulesOf(definitions), targets, videos, r.value)
  {
    var rejection := Rejection(e, videos, definitions, targets);
    if rejection.Some? { return Err(rejection.value); }
    var decisions := DecideAll(e, RulesOf(definitions), targets, videos);
    r := Ok(decisions);
  }
}
