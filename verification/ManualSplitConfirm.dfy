/**
 Confirming a manual split: the guard on the submitted definitions, the preview, the stored
 selectors and the applied decisions in one operation.  Whatever it accepts settles: evaluating the
 stored selectors again gives every video the decision the preview showed, and applying that
 decision again changes nothing.
*/
module ManualSplitConfirm {
  import opened Basics
  import opened ManualSplit
  import opened ManualSplitAuthority
  import opened ManualSplitSettles

  // ------------------------------------------------------------------------------- the guard

  ghost predicate ReferencesForeign(stored: map<TitleId, Rule>, definitions: seq<Definition>) {
    exists i :: 0 <= i < |definitions| && definitions[i].title.Some? && definitions[i].title.value !in stored
  }

  predicate Referenced(definitions: seq<Definition>, t: TitleId) {
    exists i :: 0 <= i < |definitions| && definitions[i].title == Some(t)
  }

  ghost predicate OmitsSelector(stored: map<TitleId, Rule>, definitions: seq<Definition>) {
    exists t :: t in stored && HasSelector(stored[t]) && !Referenced(definitions, t)
  }

  // _validate_manual_split_definition_targets
  method ValidateTargets(stored: map<TitleId, Rule>, definitions: seq<Definition>) returns (r: Result<(), SplitError>)
    ensures r.Ok? <==> !ReferencesForeign(stored, definitions) && !OmitsSelector(stored, definitions)
    ensures r.Err? ==> r.error == if ReferencesForeign(stored, definitions) then ForeignTitle else OmittedTitle
  {
    var referenced := set i | 0 <= i < |definitions| && definitions[i].title.Some? :: definitions[i].title.value;
    var foreign := referenced - stored.Keys;
    assert foreign != {} <==> ReferencesForeign(stored, definitions) by {
      if ReferencesForeign(stored, definitions) {
        var i :| 0 <= i < |definitions| && definitions[i].title.Some? && definitions[i].title.value !in stored;
        assert definitions[i].title.value in foreign;
      }
    }
    if foreign != {} { return Err(ForeignTitle); }
    var omitted := set t | t in stored && HasSelector(stored[t]) && t !in referenced;
    assert omitted != {} <==> OmitsSelector(stored, definitions) by {
      if OmitsSelector(stored, definitions) {
        var t :| t in stored && HasSelector(stored[t]) && !Referenced(definitions, t);
        assert t in omitted;
      }
      if omitted != {} {
        var t :| t in omitted;
        assert !Referenced(definitions, t);
      }
    }
    r := if omitted != {} then Err(OmittedTitle) else Ok(());
  }

  // Why the guard is there.  Without it these definitions would select video 7 for title 0 while
  // title 1, left out of them, keeps selecting it: the preview is unique, the stored rules conflict.
  lemma GuardIsNeeded(e: Engine, v: SplitVideo)
    requires v.id == 7
    ensures var rule := Rule(None, "", {7});
      var before := map[0 := Rule(None, "", {}), 1 := rule];
      && OmitsSelector(before, [Definition(Some(0), rule)])
      && Reread(Stored(before, [0], [rule]), [0, 1])
      && Decide(e, [rule], Preview, v).kind.Unique?
      && Decide(e, RereadRules(Stored(before, [0], [rule]), [0, 1]), Persisted(Somes([0, 1]), map[]), v.(title := Some(0))).kind.Conflict?
  {
    var rule := Rule(None, "", {7});
    var before := map[0 := Rule(None, "", {}), 1 := rule];
    var stored := Stored(before, [0], [rule]);
    assert stored == map[0 := rule, 1 := rule] by {
      assert Stored(before, [], []) == before;
    }
    assert !Referenced([Definition(Some(0), rule)], 1);
    var again := RereadRules(stored, [0, 1]);
    assert again == [rule, rule];
    OnlyMatch(e, [rule], v, 0);
    assert HasSelector([rule][0]);
    var v' := v.(title := Some(0));
    assert Matches(e, again[0], v') && Matches(e, again[1], v');
    SeveralIff(e, again, v');
    ConflictAgain(e, again, [0, 1], map[], v');
  }

  // ----------------------------------------------------------------------------- the settling

  // Evaluated over the stored rules the video v' is decided as the preview decided v, and applying
  // that decision, strictly or for review, leaves v' where it is.
  ghost predicate SettledIn(
    e: Engine, accepts: (VideoId, TitleId) -> bool, rules: seq<Rule>, targets: seq<TitleId>,
    stored: map<TitleId, Rule>, order: seq<TitleId>, home: map<TitleId, CollectionId>, v: SplitVideo, v': SplitVideo)
    requires Reread(stored, order)
  {
    var d := Decide(e, RereadRules(stored, order), Persisted(Somes(order), home), v');
    && SameDecision(Decide(e, rules, Preview, v), targets, d, order)
    && AppliedTitle(Strict, accepts, order, v', d) == Ok(v'.title)
    && AppliedTitle(Review, accepts, order, v', d) == Ok(v'.title)
  }

  // ... in whatever order the titles are read.
  ghost predicate Settled(
    e: Engine, accepts: (VideoId, TitleId) -> bool, rules: seq<Rule>, targets: seq<TitleId>,
    stored: map<TitleId, Rule>, v: SplitVideo, v': SplitVideo)
  {
    forall order: seq<TitleId>, home: map<TitleId, CollectionId> ::
      Reread(stored, order) ==> SettledIn(e, accepts, rules, targets, stored, order, home, v, v')
  }

  lemma AppliedSettles(
    e: Engine, accepts: (VideoId, TitleId) -> bool, rules: seq<Rule>, targets: seq<TitleId>,
    stored: map<TitleId, Rule>, v: SplitVideo, v': SplitVideo)
    requires Mirrors(stored, targets, rules) && v' == v.(title := v'.title)
    requires AppliedTitle(Strict, accepts, targets, v, Decide(e, rules, Preview, v)) == Ok(v'.title)
    ensures Settled(e, accepts, rules, targets, stored, v, v')
  {
    forall order: seq<TitleId>, home: map<TitleId, CollectionId> | Reread(stored, order)
      ensures SettledIn(e, accepts, rules, targets, stored, order, home, v, v')
    {
      MirrorsUndisturbed(e, rules, targets, stored, order, home, v);
      PreviewSettlesIff(e, Strict, accepts, rules, targets, stored, order, home, v);
    }
  }

  // A video the preview leaves alone settles wherever it is put.
  lemma ReleasedSettles(
    e: Engine, accepts: (VideoId, TitleId) -> bool, rules: seq<Rule>, targets: seq<TitleId>,
    stored: map<TitleId, Rule>, v: SplitVideo, v': SplitVideo)
    requires Mirrors(stored, targets, rules) && v' == v.(title := v'.title)
    requires Decide(e, rules, Preview, v).kind.NotRequired?
    ensures Settled(e, accepts, rules, targets, stored, v, v')
  {
    forall order: seq<TitleId>, home: map<TitleId, CollectionId> | Reread(stored, order)
      ensures SettledIn(e, accepts, rules, targets, stored, order, home, v, v')
    {
      PreviewLeavesUncovered(e, rules, v);
      MirrorsOutside(e, rules, targets, stored, v);
      NoMatchStays(e, stored, targets, rules, order, v);
      CoverageIff(stored, targets, rules, order);
      MatchingIgnoresTitle(e, RereadRules(stored, order), v, v'.title, |order|);
      UncoveredAgain(e, RereadRules(stored, order), order, home, v');
    }
  }

  lemma MirrorsOutside(e: Engine, rules: seq<Rule>, targets: seq<TitleId>, stored: map<TitleId, Rule>, v: SplitVideo)
    requires Mirrors(stored, targets, rules)
    ensures !OutsideMatch(e, stored, targets, v) && !OutsideScope(stored, targets)
  {
    if t :| t in stored && t !in targets && Matches(e, stored[t], v) {
      assert HasSelector(stored[t]);
    }
    if t :| t in stored && t !in targets && CollectionScope(stored[t]) {
      assert HasSelector(stored[t]);
    }
  }

  // Main result, on values: definitions the guard accepts settle for every video, whatever the
  // collection's titles held before.
  lemma AcceptedSplitSettles(
    e: Engine, accepts: (VideoId, TitleId) -> bool, definitions: seq<Definition>, targets: seq<TitleId>,
    before: map<TitleId, Rule>, v: SplitVideo, v': SplitVideo)
    requires |targets| == |definitions| && Distinct(targets)
    requires forall i :: 0 <= i < |definitions| && definitions[i].title.Some? ==> targets[i] == definitions[i].title.value
    requires !OmitsSelector(before, definitions) && v' == v.(title := v'.title)
    requires AppliedTitle(Strict, accepts, targets, v, Decide(e, RulesOf(definitions), Preview, v)) == Ok(v'.title)
    ensures Mirrors(Stored(before, targets, RulesOf(definitions)), targets, RulesOf(definitions))
    ensures Settled(e, accepts, RulesOf(definitions), targets, Stored(before, targets, RulesOf(definitions)), v, v')
  {
    NothingOmitted(before, definitions, targets);
    StoringMirrors(before, targets, RulesOf(definitions));
    AppliedSettles(e, accepts, RulesOf(definitions), targets, Stored(before, targets, RulesOf(definitions)), v, v');
  }

  lemma NothingOmitted(before: map<TitleId, Rule>, definitions: seq<Definition>, targets: seq<TitleId>)
    requires |targets| == |definitions| && !OmitsSelector(before, definitions)
    requires forall i :: 0 <= i < |definitions| && definitions[i].title.Some? ==> targets[i] == definitions[i].title.value
    ensures forall t :: t in before && HasSelector(before[t]) ==> t in targets
  {
    forall t | t in before && HasSelector(before[t])
      ensures t in targets
    {
      assert Referenced(definitions, t);
    }
  }

  // --------------------------------------------------------------------------- target titles

  // Existing titles keep their id, new definitions get new ones in order; and the next unused id.
  function Resolved(definitions: seq<Definition>, next: TitleId): (r: (seq<TitleId>, TitleId))
    ensures |r.0| == |definitions|
  {
    if definitions == [] then ([], next)
    else
      var (targets, n) := Resolved(definitions[..|definitions| - 1], next);
      var d := definitions[|definitions| - 1];
      if d.title.Some? then (targets + [d.title.value], n) else (targets + [n], n + 1)
  }

  ghost predicate TargetsOk(definitions: seq<Definition>, next: TitleId, targets: seq<TitleId>, n: TitleId) {
    && |targets| == |definitions| && next <= n && Distinct(targets)
    && forall i :: 0 <= i < |definitions| ==>
         if definitions[i].title.Some? then targets[i] == definitions[i].title.value else next <= targets[i] < n
  }

  lemma {:induction false} ResolvedIsOk(definitions: seq<Definition>, next: TitleId)
    requires !RepeatedTitles(definitions)
    requires forall i :: 0 <= i < |definitions| && definitions[i].title.Some? ==> definitions[i].title.value < next
    ensures TargetsOk(definitions, next, Resolved(definitions, next).0, Resolved(definitions, next).1)
  {
    if definitions != [] {
      var front := definitions[..|definitions| - 1];
      ResolvedIsOk(front, next);
      var (targets, n) := Resolved(front, next);
      var d := definitions[|definitions| - 1];
      forall i | 0 <= i < |targets|
        ensures targets[i] != (if d.title.Some? then d.title.value else n)
      {
        assert front[i] == definitions[i];
      }
    }
  }

  // ---------------------------------------------------------------------------- the collection

  // The collection-wide selectors a title stores: a range and a pattern.
  datatype Scope = Scope(range: Option<(int, int)>, pattern: string)

  // The ranges and patterns once the definitions are written to their titles.
  function Written(scopes: map<TitleId, Scope>, targets: seq<TitleId>, definitions: seq<Definition>): map<TitleId, Scope> {
    if targets == [] || |targets| != |definitions| then scopes
    else
      var rule := definitions[|definitions| - 1].rule;
      Written(scopes, targets[..|targets| - 1], definitions[..|definitions| - 1])
        [targets[|targets| - 1] := Scope(rule.range, rule.pattern)]
  }

  function WithVideos(s: Scope, videoIds: set<VideoId>): Rule {
    Rule(s.range, s.pattern, videoIds)
  }

  function RulesAt(scopes: map<TitleId, Scope>, links: map<TitleId, set<VideoId>>): map<TitleId, Rule> {
    map t | t in scopes :: WithVideos(scopes[t], At(links, t))
  }

  lemma {:induction false} WrittenAt(scopes: map<TitleId, Scope>, targets: seq<TitleId>, definitions: seq<Definition>, i: nat)
    requires |targets| == |definitions| && i < |targets| && Distinct(targets)
    ensures var rule := definitions[i].rule;
      targets[i] in Written(scopes, targets, definitions)
      && Written(scopes, targets, definitions)[targets[i]] == Scope(rule.range, rule.pattern)
  {
    if i < |targets| - 1 {
      WrittenAt(scopes, targets[..|targets| - 1], definitions[..|definitions| - 1], i);
    }
  }

  lemma {:induction false} WrittenElsewhere(
    scopes: map<TitleId, Scope>, links: map<TitleId, set<VideoId>>, targets: seq<TitleId>, definitions: seq<Definition>,
    rules: seq<Rule>, t: TitleId)
    requires |targets| == |definitions| == |rules| && t !in targets
    ensures t in Written(scopes, targets, definitions) <==> t in scopes
    ensures t in scopes ==> Written(scopes, targets, definitions)[t] == scopes[t]
    ensures Desired(targets, rules, t).None?
  {
    if targets != [] {
      assert t !in targets[..|targets| - 1] && t != targets[|targets| - 1];
      WrittenElsewhere(
        scopes, links, targets[..|targets| - 1], definitions[..|definitions| - 1], rules[..|rules| - 1], t);
    }
  }

  // Writing the scopes and synchronizing the links stores the definitions' rules.
  lemma WrittenIsStored(
    scopes: map<TitleId, Scope>, links: map<TitleId, set<VideoId>>, targets: seq<TitleId>, definitions: seq<Definition>,
    scopes': map<TitleId, Scope>, links': map<TitleId, set<VideoId>>)
    requires |targets| == |definitions| && Distinct(targets) && scopes' == Written(scopes, targets, definitions)
    requires forall t: TitleId :: At(links', t) == Overridden(Desired(targets, RulesOf(definitions), t), At(links, t))
    ensures RulesAt(scopes', links') == Stored(RulesAt(scopes, links), targets, RulesOf(definitions))
  {
    var rules, before := RulesOf(definitions), RulesAt(scopes, links);
    forall t: TitleId
      ensures t in scopes' <==> t in Stored(before, targets, rules)
      ensures t in scopes' ==> RulesAt(scopes', links')[t] == Stored(before, targets, rules)[t]
    {
      if t in targets {
        var i :| 0 <= i < |targets| && targets[i] == t;
        WrittenAt(scopes, targets, definitions, i);
        DesiredAt(targets, rules, i);
        StoredAt(before, targets, rules, i);
      } else {
        WrittenElsewhere(scopes, links, targets, definitions, rules, t);
        StoredElsewhere(before, targets, rules, t);
      }
    }
  }

  // The remaining checks of the workflow, and whether the user confirmed conflicts.
  datatype Checks = Checks(structure: bool, confirmed: bool, recap: bool, seasons: bool)

  predicate Conflicts(decisions: seq<Decision>) {
    exists k :: 0 <= k < |decisions| && decisions[k].kind.Conflict?
  }

  // Some ordering of the titles that carry selectors.
  ghost predicate Sorts(sort: set<TitleId> -> seq<TitleId>) {
    forall s :: Distinct(sort(s)) && forall t :: t in sort(s) <==> t in s
  }

  // Videos a definition no longer selects although its title did.
  function ReleasedBy(links: map<TitleId, set<VideoId>>, definitions: seq<Definition>): set<VideoId> {
    set i, v | 0 <= i < |definitions| && definitions[i].title.Some? && v in At(links, definitions[i].title.value)
      && v !in definitions[i].rule.videoIds :: v
  }

  function Selecting(stored: map<TitleId, Rule>): set<TitleId> {
    set t | t in stored && HasSelector(stored[t])
  }

  function PersistedDefinitions(stored: map<TitleId, Rule>, order: seq<TitleId>): seq<Definition>
    requires forall t :: t in order ==> t in stored
  {
    seq(|order|, i requires 0 <= i < |order| => Definition(Some(order[i]), stored[order[i]]))
  }

  ghost predicate Compile(e: Engine, stored: map<TitleId, Rule>) {
    forall t :: t in stored && HasSelector(stored[t]) && stored[t].pattern != "" ==> e.compiles(stored[t].pattern)
  }

  // Stored selectors that compile are evaluated without an error.
  lemma PersistedIsAccepted(
    e: Engine, stored: map<TitleId, Rule>, order: seq<TitleId>, home: map<TitleId, CollectionId>, videos: seq<SplitVideo>)
    requires Reread(stored, order) && Compile(e, stored)
    ensures Rejection(e, videos, PersistedDefinitions(stored, order), Persisted(Somes(order), home)).None?
    ensures RulesOf(PersistedDefinitions(stored, order)) == RereadRules(stored, order)
  {
    forall i | 0 <= i < |order|
      ensures order[i] in stored && HasSelector(stored[order[i]])
    {
      assert order[i] in order;
    }
  }

  // Definitions whose patterns compiled leave stored patterns that compile.
  lemma MirrorsCompile(e: Engine, stored: map<TitleId, Rule>, targets: seq<TitleId>, definitions: seq<Definition>)
    requires Mirrors(stored, targets, RulesOf(definitions)) && !BadPattern(e, definitions)
    ensures Compile(e, stored)
  {
    forall t | t in stored && HasSelector(stored[t]) && stored[t].pattern != ""
      ensures e.compiles(stored[t].pattern)
    {
      var i :| 0 <= i < |targets| && targets[i] == t;
      assert RulesOf(definitions)[i] == definitions[i].rule;
    }
  }

  // The workflow accepts the definitions: the guard, the evaluation, the remaining checks, and every
  // target that a unique match assigns.
  ghost predicate Accepted(
    e: Engine, accepts: (VideoId, TitleId) -> bool, videos: seq<SplitVideo>, definitions: seq<Definition>, checks: Checks,
    stored: map<TitleId, Rule>, next: TitleId)
  {
    && !ReferencesForeign(stored, definitions) && !OmitsSelector(stored, definitions)
    && Rejection(e, videos, definitions, Preview).None?
    && checks.structure && checks.recap && checks.seasons
    && (checks.confirmed || forall k :: 0 <= k < |videos| ==> !Decide(e, RulesOf(definitions), Preview, videos[k]).kind.Conflict?)
    && forall k :: 0 <= k < |videos| ==>
         AppliedTitle(Strict, accepts, Resolved(definitions, next).0, videos[k], Decide(e, RulesOf(definitions), Preview, videos[k])).Ok?
  }

  // The titles' order in a re-evaluation.
  function OrderOf(sort: set<TitleId> -> seq<TitleId>, stored: map<TitleId, Rule>): seq<TitleId> {
    sort(Selecting(stored))
  }

  ghost function Redecided(
    e: Engine, sort: set<TitleId> -> seq<TitleId>, stored: map<TitleId, Rule>, home: map<TitleId, CollectionId>, v: SplitVideo)
    : Decision
    requires Sorts(sort)
  {
    var order := OrderOf(sort, stored);
    Decide(e, RereadRules(stored, order), Persisted(Somes(order), home), v)
  }

  // A released video that nothing selects any more and no stored rule decides.
  ghost predicate Freed(
    e: Engine, sort: set<TitleId> -> seq<TitleId>, stored: map<TitleId, Rule>, home: map<TitleId, CollectionId>,
    ofVideo: map<VideoId, set<TitleId>>, released: set<VideoId>, v: SplitVideo)
    requires Sorts(sort)
  {
    v.id in released && At(ofVideo, v.id) == {} && Redecided(e, sort, stored, home, v).kind.NotRequired?
  }

  type Placement = (Option<TitleId>, Option<CollectionId>)

  // Where one video ends: at what the preview decided, or, released and undecided, where automatic
  // routing puts it.
  ghost predicate EndsAt(
    e: Engine, accepts: (VideoId, TitleId) -> bool, route: VideoId -> Placement, released: set<VideoId>,
    definitions: seq<Definition>, targets: seq<TitleId>, place: CollectionId, v: SplitVideo, at: Placement)
  {
    var d := Decide(e, RulesOf(definitions), Preview, v);
    || (AppliedTitle(Strict, accepts, targets, v, d) == Ok(at.0) && at.1 == Some(place))
    || (v.id in released && d.kind.NotRequired? && at == route(v.id))
  }

  // The listed videos that are still in the collection, with their current titles.
  function Remaining(
    videos: seq<SplitVideo>, title: map<VideoId, Option<TitleId>>, collection: map<VideoId, Option<CollectionId>>,
    place: CollectionId): seq<SplitVideo>
  {
    if videos == [] then []
    else
      var rest := Remaining(videos[..|videos| - 1], title, collection, place);
      var v := videos[|videos| - 1];
      if v.id in title && v.id in collection && collection[v.id] == Some(place) then rest + [v.(title := title[v.id])] else rest
  }

  ghost predicate RemainsAs(
    title: map<VideoId, Option<TitleId>>, collection: map<VideoId, Option<CollectionId>>, place: CollectionId,
    v: SplitVideo, x: SplitVideo)
  {
    v.id in title && v.id in collection && collection[v.id] == Some(place) && x == v.(title := title[v.id])
  }

  lemma {:induction false} RemainingFrom(
    videos: seq<SplitVideo>, title: map<VideoId, Option<TitleId>>, collection: map<VideoId, Option<CollectionId>>,
    place: CollectionId)
    requires DistinctVideos(videos)
    ensures var rest := Remaining(videos, title, collection, place);
      && DistinctVideos(rest)
      && forall x :: x in rest ==> exists k :: 0 <= k < |videos| && RemainsAs(title, collection, place, videos[k], x)
  {
    if videos != [] {
      var front := videos[..|videos| - 1];
      RemainingFrom(front, title, collection, place);
      var before, rest := Remaining(front, title, collection, place), Remaining(videos, title, collection, place);
      forall x | x in rest
        ensures exists k :: 0 <= k < |videos| && RemainsAs(title, collection, place, videos[k], x)
      {
        if x in before {
          var k :| 0 <= k < |front| && RemainsAs(title, collection, place, front[k], x);
          assert videos[k] == front[k];
        } else {
          assert RemainsAs(title, collection, place, videos[|videos| - 1], x);
        }
      }
      forall i, j | 0 <= i < j < |rest|
        ensures rest[i].id != rest[j].id
      {
        assert before == rest || rest[..|rest| - 1] == before;
        if j == |before| {
          assert before[i] in before;
          var k :| 0 <= k < |front| && RemainsAs(title, collection, place, front[k], before[i]);
          assert videos[k].id != videos[|videos| - 1].id;
        }
      }
    }
  }

  class CollectionSplit {
    const place: CollectionId
    const selectors: Selectors
    const memberships: Memberships
    var scopes: map<TitleId, Scope>
    var home: map<TitleId, CollectionId>
    var nextTitle: TitleId

    constructor (place: CollectionId, selectors: Selectors, memberships: Memberships, scopes: map<TitleId, Scope>,
                 home: map<TitleId, CollectionId>, nextTitle: TitleId)
      requires selectors.Mirrored() && forall t :: t in scopes <==> t in home && home[t] == place
      requires forall t :: t in home ==> t < nextTitle
      ensures Valid() && this.place == place && this.selectors == selectors && this.memberships == memberships
      ensures this.scopes == scopes && this.home == home && this.nextTitle == nextTitle
    {
      this.place, this.selectors, this.memberships := place, selectors, memberships;
      this.scopes, this.home, this.nextTitle := scopes, home, nextTitle;
    }

    // The collection's titles are those at home in it; ids above the last are unused.
    ghost predicate Valid()
      reads this, selectors
    {
      && selectors.Mirrored()
      && (forall t :: t in scopes <==> t in home && home[t] == place)
      && (forall t :: t in home ==> t < nextTitle)
    }

    function StoredRules(): map<TitleId, Rule>
      reads this, selectors
    {
      RulesAt(scopes, selectors.ofTitle)
    }

    // The collection's videos with their current titles.
    ghost predicate Listed(videos: seq<SplitVideo>)
      reads memberships
    {
      && DistinctVideos(videos)
      && forall k :: 0 <= k < |videos| ==>
           && videos[k].id in memberships.title && memberships.title[videos[k].id] == videos[k].title
           && videos[k].id in memberships.collection && memberships.collection[videos[k].id] == Some(place)
    }

    // One definition's title, created if it has none, with the definition's range and pattern.
    method ResolveTitle(d: Definition) returns (r: Result<TitleId, SplitError>)
      requires Valid()
      modifies this
      ensures Valid()
      ensures r.Err? <==> d.title.Some? && d.title.value !in old(scopes)
      ensures r.Ok? ==>
        && r.value == (if d.title.Some? then d.title.value else old(nextTitle))
        && nextTitle == (if d.title.Some? then old(nextTitle) else old(nextTitle) + 1)
        && scopes == old(scopes)[r.value := Scope(d.rule.range, d.rule.pattern)]
    {
      if d.title.Some? && d.title.value !in scopes { return Err(ForeignTitle); }
      var id := if d.title.Some? then d.title.value else nextTitle;
      if d.title.None? {
        home, nextTitle := home[id := place], nextTitle + 1;
      }
      scopes := scopes[id := Scope(d.rule.range, d.rule.pattern)];
      r := Ok(id);
    }

    // Existing titles are looked up and new definitions become new titles of the collection.
    method ResolveTitles(definitions: seq<Definition>) returns (r: Result<seq<TitleId>, SplitError>)
      requires Valid()
      requires forall i :: 0 <= i < |definitions| && definitions[i].title.Some? ==> definitions[i].title.value in scopes
      modifies this
      ensures Valid() && r.Ok? && (r.value, nextTitle) == Resolved(definitions, old(nextTitle))
      ensures scopes == Written(old(scopes), r.value, definitions)
    {
      var targets: seq<TitleId> := [];
      for k := 0 to |definitions|
        invariant Valid() && (targets, nextTitle) == Resolved(definitions[..k], old(nextTitle))
        invariant old(scopes).Keys <= scopes.Keys && scopes == Written(old(scopes), targets, definitions[..k])
      {
        var resolved := ResolveTitle(definitions[k]);
        assert definitions[..k + 1][..k] == definitions[..k];
        targets := targets + [resolved.value];
        assert targets[..|targets| - 1] + [resolved.value] == targets;
      }
      assert definitions[..|definitions|] == definitions;
      r := Ok(targets);
    }

    // The titles are resolved and their explicit selectors synchronized: the definitions are stored.
    method Store(definitions: seq<Definition>, videos: seq<SplitVideo>) returns (r: Result<seq<TitleId>, SplitError>)
      requires Valid() && !RepeatedTitles(definitions) && !UnknownSelected(videos, definitions)
      requires !ReferencesForeign(StoredRules(), definitions)
      modifies this, selectors
      ensures Valid() && r.Ok? && (r.value, nextTitle) == Resolved(definitions, old(nextTitle))
      ensures TargetsOk(definitions, old(nextTitle), r.value, nextTitle)
      ensures StoredRules() == Stored(old(StoredRules()), r.value, RulesOf(definitions))
      ensures forall t: TitleId :: t !in r.value ==> At(selectors.ofTitle, t) == old(At(selectors.ofTitle, t))
    {
      forall i | 0 <= i < |definitions| && definitions[i].title.Some?
        ensures definitions[i].title.value in scopes && definitions[i].title.value < nextTitle
      {
        assert definitions[i].title.value in StoredRules();
      }
      ResolvedIsOk(definitions, nextTitle);
      ghost var links := selectors.ofTitle;
      r := ResolveTitles(definitions);
      var rules := RulesOf(definitions);
      assert !SelectsUnknown(rules, IdsOf(videos)) by {
        AllKnown(videos, definitions);
      }
      var synchronized := selectors.Synchronize(rules, r.value, IdsOf(videos));
      if synchronized.Err? { return Err(UnknownVideo); }
      WrittenIsStored(old(scopes), links, r.value, definitions, scopes, selectors.ofTitle);
      forall t: TitleId | t !in r.value
        ensures At(selectors.ofTitle, t) == old(At(selectors.ofTitle, t))
      {
        WrittenElsewhere(old(scopes), links, r.value, definitions, rules, t);
      }
    }

    // Applying the stored selectors' decision for v leaves its title.
    ghost predicate Unmoved(
      e: Engine, mode: Mode, accepts: (VideoId, TitleId) -> bool, sort: set<TitleId> -> seq<TitleId>, v: SplitVideo,
      title: Option<TitleId>)
      requires Sorts(sort)
      reads this, selectors
    {
      var stored := StoredRules();
      AppliedTitle(mode, accepts, OrderOf(sort, stored), v, Redecided(e, sort, stored, home, v)) == Ok(title)
    }

    // finalize_hierarchy_write on this collection: the stored selectors are evaluated and applied.
    method Reapply(
      e: Engine, mode: Mode, accepts: (VideoId, TitleId) -> bool, sort: set<TitleId> -> seq<TitleId>, videos: seq<SplitVideo>)
      returns (r: Result<(), SplitError>)
      requires Valid() && Listed(videos) && Sorts(sort)
      modifies memberships
      ensures var still := Compile(e, StoredRules())
        && forall k :: 0 <= k < |videos| ==> Unmoved(e, mode, accepts, sort, videos[k], videos[k].title);
        still ==> r.Ok? && memberships.title == old(memberships.title) && memberships.collection == old(memberships.collection)
      ensures r.Ok? && Selecting(StoredRules()) != {} ==> forall k :: 0 <= k < |videos| ==>
        && videos[k].id in memberships.title
        && Unmoved(e, mode, accepts, sort, videos[k], memberships.title[videos[k].id])
    {
      var stored := StoredRules();
      var order := OrderOf(sort, stored);
      if Selecting(stored) == {} { return Ok(()); }
      var evaluated := Evaluate(e, videos, PersistedDefinitions(stored, order), Persisted(Somes(order), home));
      if evaluated.Err? {
        if Compile(e, stored) {
          PersistedIsAccepted(e, stored, order, home, videos);
        }
        return Err(evaluated.error);
      }
      assert RulesOf(PersistedDefinitions(stored, order)) == RereadRules(stored, order);
      ghost var title, collection := memberships.title, memberships.collection;
      r := memberships.Apply(mode, accepts, videos, evaluated.value, order, |order|, place);
      if r.Ok? && forall k :: 0 <= k < |videos| ==> Unmoved(e, mode, accepts, sort, videos[k], videos[k].title) {
        forall k | 0 <= k < |videos|
          ensures videos[k].id in memberships.title && memberships.title[videos[k].id] == title[videos[k].id]
          ensures videos[k].id in memberships.collection && memberships.collection[videos[k].id] == collection[videos[k].id]
        {
          assert memberships.Decided(mode, accepts, videos[k], evaluated.value[k], order, place);
          assert Unmoved(e, mode, accepts, sort, videos[k], videos[k].title);
        }
        SameEverywhere(videos, title, memberships.title);
        SameEverywhere(videos, collection, memberships.collection);
      }
    }

    // _reconcile_released_manual_split_assignments: released videos that the stored selectors leave
    // undecided go where automatic routing puts them.
    method Release(
      e: Engine, sort: set<TitleId> -> seq<TitleId>, route: VideoId -> Placement, videos: seq<SplitVideo>,
      released: set<VideoId>)
      returns (r: Result<(), SplitError>)
      requires Valid() && Listed(videos) && Sorts(sort) && Compile(e, StoredRules())
      modifies memberships
      ensures r.Ok?
      ensures forall k :: 0 <= k < |videos| ==>
        && videos[k].id in memberships.title && videos[k].id in memberships.collection
        && (memberships.title[videos[k].id], memberships.collection[videos[k].id]) ==
           if Freed(e, sort, StoredRules(), home, selectors.ofVideo, released, videos[k]) then route(videos[k].id)
           else (videos[k].title, Some(place))
      ensures memberships.title - IdsOf(videos) == old(memberships.title) - IdsOf(videos)
      ensures memberships.collection - IdsOf(videos) == old(memberships.collection) - IdsOf(videos)
    {
      var stored := StoredRules();
      var order := OrderOf(sort, stored);
      PersistedIsAccepted(e, stored, order, home, videos);
      var evaluated := Evaluate(e, videos, PersistedDefinitions(stored, order), Persisted(Somes(order), home));
      for k := 0 to |videos|
        invariant forall i :: 0 <= i < |videos| ==>
          && videos[i].id in memberships.title && videos[i].id in memberships.collection
          && (memberships.title[videos[i].id], memberships.collection[videos[i].id]) ==
             if i < k && Freed(e, sort, stored, home, selectors.ofVideo, released, videos[i]) then route(videos[i].id)
             else (videos[i].title, Some(place))
        invariant memberships.title - IdsOf(videos) == old(memberships.title) - IdsOf(videos)
        invariant memberships.collection - IdsOf(videos) == old(memberships.collection) - IdsOf(videos)
      {
        var id := videos[k].id;
        assert id in IdsOf(videos);
        if id in released && At(selectors.ofVideo, id) == {} && evaluated.value[k].kind.NotRequired? {
          memberships.title := memberships.title[id := route(id).0];
          memberships.collection := memberships.collection[id := route(id).1];
        }
      }
      r := Ok(());
    }

    // Every listed video ends where the preview or its release puts it, and settles there.
    ghost predicate Ended(
      e: Engine, accepts: (VideoId, TitleId) -> bool, route: VideoId -> Placement, released: set<VideoId>,
      videos: seq<SplitVideo>, definitions: seq<Definition>, targets: seq<TitleId>)
      reads this, selectors, memberships
    {
      && Valid() && Mirrors(StoredRules(), targets, RulesOf(definitions))
      && forall k :: 0 <= k < |videos| ==>
           && videos[k].id in memberships.title && videos[k].id in memberships.collection
           && EndsAt(e, accepts, route, released, definitions, targets, place, videos[k],
                     (memberships.title[videos[k].id], memberships.collection[videos[k].id]))
           && Settled(e, accepts, RulesOf(definitions), targets, StoredRules(), videos[k],
                      videos[k].(title := memberships.title[videos[k].id]))
    }

    // After the decisions are applied: the released videos, and the shared finalization, which
    // evaluates the stored selectors again and finds nothing to change.
    method Finish(
      e: Engine, accepts: (VideoId, TitleId) -> bool, sort: set<TitleId> -> seq<TitleId>, route: VideoId -> Placement,
      videos: seq<SplitVideo>, released: set<VideoId>, definitions: seq<Definition>, targets: seq<TitleId>)
      returns (r: Result<(), SplitError>)
      requires Valid() && Sorts(sort) && DistinctVideos(videos) && !BadPattern(e, definitions)
      requires Mirrors(StoredRules(), targets, RulesOf(definitions))
      requires forall k :: 0 <= k < |videos| ==>
        && videos[k].id in memberships.title
        && videos[k].id in memberships.collection && memberships.collection[videos[k].id] == Some(place)
        && AppliedTitle(Strict, accepts, targets, videos[k], Decide(e, RulesOf(definitions), Preview, videos[k]))
           == Ok(memberships.title[videos[k].id])
      modifies memberships
      ensures r.Ok? && Ended(e, accepts, route, released, videos, definitions, targets)
      ensures memberships.title - IdsOf(videos) == old(memberships.title) - IdsOf(videos)
      ensures memberships.collection - IdsOf(videos) == old(memberships.collection) - IdsOf(videos)
    {
      ghost var rules, stored := RulesOf(definitions), StoredRules();
      MirrorsCompile(e, stored, targets, definitions);
      var current := seq(|videos|, k requires 0 <= k < |videos| && videos[k].id in memberships.title
        reads memberships => videos[k].(title := memberships.title[videos[k].id]));
      forall k | 0 <= k < |videos|
        ensures Settled(e, accepts, rules, targets, stored, videos[k], current[k])
        ensures Freed(e, sort, stored, home, selectors.ofVideo, released, current[k]) ==>
          Decide(e, rules, Preview, videos[k]).kind.NotRequired?
      {
        AppliedSettles(e, accepts, rules, targets, stored, videos[k], current[k]);
        SettlesInOrder(e, accepts, sort, rules, targets, stored, home, videos[k], current[k]);
      }
      SameIds(videos, current);
      r := Release(e, sort, route, current, released);
      forall k | 0 <= k < |videos|
        ensures Settled(e, accepts, rules, targets, stored, videos[k], videos[k].(title := memberships.title[videos[k].id]))
      {
        if Decide(e, rules, Preview, videos[k]).kind.NotRequired? {
          ReleasedSettles(e, accepts, rules, targets, stored, videos[k], videos[k].(title := memberships.title[videos[k].id]));
        } else {
          assert videos[k].(title := memberships.title[videos[k].id]) == current[k];
        }
      }
      var remaining := Remaining(videos, memberships.title, memberships.collection, place);
      RemainingFrom(videos, memberships.title, memberships.collection, place);
      forall j | 0 <= j < |remaining|
        ensures remaining[j].id in memberships.title && memberships.title[remaining[j].id] == remaining[j].title
        ensures remaining[j].id in memberships.collection && memberships.collection[remaining[j].id] == Some(place)
        ensures Unmoved(e, Review, accepts, sort, remaining[j], remaining[j].title)
      {
        assert remaining[j] in remaining;
        var k :| 0 <= k < |videos| && RemainsAs(memberships.title, memberships.collection, place, videos[k], remaining[j]);
        SettlesInOrder(e, accepts, sort, rules, targets, stored, home, videos[k], remaining[j]);
      }
      r := Reapply(e, Review, accepts, sort, remaining);
    }

    // The writes of the workflow, inside its savepoint.
    method Write(
      e: Engine, accepts: (VideoId, TitleId) -> bool, sort: set<TitleId> -> seq<TitleId>, route: VideoId -> Placement,
      videos: seq<SplitVideo>, released: set<VideoId>, definitions: seq<Definition>, decisions: seq<Decision>, checks: Checks)
      returns (r: Result<seq<TitleId>, SplitError>)
      requires Valid() && Listed(videos) && Sorts(sort)
      requires !ReferencesForeign(StoredRules(), definitions) && !OmitsSelector(StoredRules(), definitions)
      requires Rejection(e, videos, definitions, Preview).None?
      requires Decides(e, RulesOf(definitions), Preview, videos, decisions)
      modifies this, selectors, memberships
      ensures r.Ok? <==> checks.seasons && forall k :: 0 <= k < |videos| ==>
        AppliedTitle(Strict, accepts, Resolved(definitions, old(nextTitle)).0, videos[k], decisions[k]).Ok?
      ensures r.Ok? ==> r.value == Resolved(definitions, old(nextTitle)).0
      ensures r.Ok? ==> Ended(e, accepts, route, released, videos, definitions, r.value)
      ensures r.Ok? ==> StoredRules() == Stored(old(StoredRules()), r.value, RulesOf(definitions))
      ensures r.Ok? ==> forall t: TitleId :: t !in r.value ==> At(selectors.ofTitle, t) == old(At(selectors.ofTitle, t))
      ensures memberships.title - IdsOf(videos) == old(memberships.title) - IdsOf(videos)
      ensures memberships.collection - IdsOf(videos) == old(memberships.collection) - IdsOf(videos)
    {
      ghost var before := StoredRules();
      r := Store(definitions, videos);
      NothingOmitted(before, definitions, r.value);
      StoringMirrors(before, r.value, RulesOf(definitions));
      if !checks.seasons { return Err(AmbiguousStructure); }
      var applied := memberships.Apply(Strict, accepts, videos, decisions, r.value, |definitions|, place);
      if applied.Err? { return Err(applied.error); }
      var finished := Finish(e, accepts, sort, route, videos, released, definitions, r.value);
    }

    // apply_manual_split.  Main result: it accepts exactly the definitions the guard and the checks
    // accept, anything else leaves the state as it was, and after an accepted split every video has
    // settled.
    method Confirm(
      e: Engine, accepts: (VideoId, TitleId) -> bool, sort: set<TitleId> -> seq<TitleId>, route: VideoId -> Placement,
      videos: seq<SplitVideo>, definitions: seq<Definition>, checks: Checks)
      returns (r: Result<seq<TitleId>, SplitError>)
      requires Valid() && Listed(videos) && Sorts(sort)
      modifies this, selectors, memberships
      ensures Valid()
      ensures r.Ok? <==> Accepted(e, accepts, videos, definitions, checks, old(StoredRules()), old(nextTitle))
      ensures r.Err? ==>
        && scopes == old(scopes) && home == old(home) && nextTitle == old(nextTitle)
        && selectors.ofTitle == old(selectors.ofTitle) && selectors.ofVideo == old(selectors.ofVideo)
        && memberships.title == old(memberships.title) && memberships.collection == old(memberships.collection)
      ensures r.Ok? ==> r.value == Resolved(definitions, old(nextTitle)).0
      ensures r.Ok? ==>
        Ended(e, accepts, route, ReleasedBy(old(selectors.ofTitle), definitions), videos, definitions, r.value)
      ensures r.Ok? ==> StoredRules() == Stored(old(StoredRules()), r.value, RulesOf(definitions))
      ensures r.Ok? ==> forall t: TitleId :: t !in r.value ==> At(selectors.ofTitle, t) == old(At(selectors.ofTitle, t))
      ensures memberships.title - IdsOf(videos) == old(memberships.title) - IdsOf(videos)
      ensures memberships.collection - IdsOf(videos) == old(memberships.collection) - IdsOf(videos)
    {
      var valid := ValidateTargets(StoredRules(), definitions);
      if valid.Err? { return Err(valid.error); }
      var preview := Evaluate(e, videos, definitions, Preview);
      if preview.Err? { return Err(preview.error); }
      if !checks.structure { return Err(AmbiguousStructure); }
      if Conflicts(preview.value) && !checks.confirmed { return Err(UnconfirmedConflict); }
      if !checks.recap { return Err(RecapContext); }
      var released := ReleasedBy(selectors.ofTitle, definitions);
      var savedScopes, savedHome, savedNext := scopes, home, nextTitle;
      var savedOfTitle, savedOfVideo := selectors.ofTitle, selectors.ofVideo;
      var savedTitle, savedCollection := memberships.title, memberships.collection;
      r := Write(e, accepts, sort, route, videos, released, definitions, preview.value, checks);
      if r.Err? {
        scopes, home, nextTitle := savedScopes, savedHome, savedNext;
        selectors.ofTitle, selectors.ofVideo := savedOfTitle, savedOfVideo;
        memberships.title, memberships.collection := savedTitle, savedCollection;
      }
    }
  }

  // What settling means in the order the collection is read.
  lemma SettlesInOrder(
    e: Engine, accepts: (VideoId, TitleId) -> bool, sort: set<TitleId> -> seq<TitleId>, rules: seq<Rule>,
    targets: seq<TitleId>, stored: map<TitleId, Rule>, home: map<TitleId, CollectionId>, v: SplitVideo, v': SplitVideo)
    requires Sorts(sort) && Settled(e, accepts, rules, targets, stored, v, v')
    ensures Redecided(e, sort, stored, home, v').kind == Decide(e, rules, Preview, v).kind
    ensures AppliedTitle(Review, accepts, OrderOf(sort, stored), v', Redecided(e, sort, stored, home, v')) == Ok(v'.title)
  {
    assert SettledIn(e, accepts, rules, targets, stored, OrderOf(sort, stored), home, v, v');
  }

  lemma SameEverywhere<V>(videos: seq<SplitVideo>, a: map<VideoId, V>, b: map<VideoId, V>)
    requires a - IdsOf(videos) == b - IdsOf(videos)
    requires forall k :: 0 <= k < |videos| ==>
      videos[k].id in a && videos[k].id in b && b[videos[k].id] == a[videos[k].id]
    ensures a == b
  {
    forall x
      ensures x in a <==> x in b
      ensures x in a ==> a[x] == b[x]
    {
      assert x in a - IdsOf(videos) <==> x in b - IdsOf(videos);
      if x in a && x in b && x !in IdsOf(videos) {
        assert (a - IdsOf(videos))[x] == (b - IdsOf(videos))[x];
      }
    }
  }

  lemma SameIds(videos: seq<SplitVideo>, current: seq<SplitVideo>)
    requires |current| == |videos| && forall k :: 0 <= k < |videos| ==> current[k].id == videos[k].id
    ensures IdsOf(current) == IdsOf(videos)
  {
    forall x
      ensures x in IdsOf(current) <==> x in IdsOf(videos)
    {
      if x in IdsOf(current) {
        var k :| 0 <= k < |current| && current[k].id == x;
        assert videos[k].id == x;
      }
      if x in IdsOf(videos) {
        var k :| 0 <= k < |videos| && videos[k].id == x;
        assert current[k].id == x;
      }
    }
  }

  lemma AllKnown(videos: seq<SplitVideo>, definitions: seq<Definition>)
    requires !UnknownSelected(videos, definitions)
    ensures !SelectsUnknown(RulesOf(definitions), IdsOf(videos))
  {
    forall i, x | 0 <= i < |definitions| && x in definitions[i].rule.videoIds
      ensures x in IdsOf(videos)
    {
    }
  }
}
