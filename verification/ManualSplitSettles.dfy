/**
 Manual split settles: once the selectors are stored and the decisions applied, evaluating the
 stored selectors decides every video the same way, and applying again changes nothing.
*/
module ManualSplitSettles {
  import opened Basics
  import opened ManualSplit

  // ------------------------------------------------------------------------ applying a decision

  // assign (strict) raises for a target that refuses the video; reconcile leaves it for review.
  datatype Mode = Strict | Review

  function AppliedTitle(
    mode: Mode, accepts: (VideoId, TitleId) -> bool, titles: seq<TitleId>, v: SplitVideo, d: Decision)
    : Result<Option<TitleId>, SplitError>
  {
    match d.kind
    case Unique =>
      if d.matching == [] || d.matching[0] >= |titles| then Err(TargetsDiffer)
      else if accepts(v.id, titles[d.matching[0]]) then Ok(Some(titles[d.matching[0]]))
      else if mode.Strict? then Err(AssignmentRefused)
      else Ok(if v.title == Some(titles[d.matching[0]]) then v.title else None)
    case Conflict => Ok(None)
    case Unmatched => Ok(None)
    case NotRequired => Ok(v.title)
  }

  // --------------------------------------------------------------- the persisted rules afterwards

  // Stored rules by title; the definitions' rules are written to their targets.
  function Stored(before: map<TitleId, Rule>, targets: seq<TitleId>, rules: seq<Rule>): map<TitleId, Rule>
    requires |targets| == |rules|
  {
    if targets == [] then before
    else Stored(before, targets[..|targets| - 1], rules[..|rules| - 1])[targets[|targets| - 1] := rules[|rules| - 1]]
  }

  lemma {:induction false} StoredAt(before: map<TitleId, Rule>, targets: seq<TitleId>, rules: seq<Rule>, i: nat)
    requires |targets| == |rules| && i < |targets| && Distinct(targets)
    ensures targets[i] in Stored(before, targets, rules) && Stored(before, targets, rules)[targets[i]] == rules[i]
  {
    if i < |targets| - 1 {
      StoredAt(before, targets[..|targets| - 1], rules[..|rules| - 1], i);
    }
  }

  lemma {:induction false} StoredElsewhere(before: map<TitleId, Rule>, targets: seq<TitleId>, rules: seq<Rule>, t: TitleId)
    requires |targets| == |rules| && t !in targets
    ensures t in Stored(before, targets, rules) <==> t in before
    ensures t in before ==> Stored(before, targets, rules)[t] == before[t]
  {
    if targets != [] {
      assert t !in targets[..|targets| - 1] && t != targets[|targets| - 1];
      StoredElsewhere(before, targets[..|targets| - 1], rules[..|rules| - 1], t);
    }
  }

  // The titles a re-evaluation reads: all of the collection that carry a selector, in some order.
  ghost predicate Reread(stored: map<TitleId, Rule>, order: seq<TitleId>) {
    Distinct(order) && forall t :: t in order <==> t in stored && HasSelector(stored[t])
  }

  function RereadRules(stored: map<TitleId, Rule>, order: seq<TitleId>): seq<Rule>
    requires forall t :: t in order ==> t in stored
  {
    seq(|order|, i requires 0 <= i < |order| => stored[order[i]])
  }

  function Somes(order: seq<TitleId>): seq<Option<TitleId>> {
    seq(|order|, i requires 0 <= i < |order| => Some(order[i]))
  }

  // The definitions are stored; other titles of the collection may carry selectors as well.
  ghost predicate Defines(stored: map<TitleId, Rule>, targets: seq<TitleId>, rules: seq<Rule>) {
    && |targets| == |rules| && Distinct(targets)
    && forall i :: 0 <= i < |targets| ==> targets[i] in stored && stored[targets[i]] == rules[i]
  }

  // The stored rules are the definitions', and no other title of the collection has a selector.
  ghost predicate Mirrors(stored: map<TitleId, Rule>, targets: seq<TitleId>, rules: seq<Rule>) {
    Defines(stored, targets, rules) && forall t :: t in stored && HasSelector(stored[t]) ==> t in targets
  }

  ghost predicate OutsideMatch(e: Engine, stored: map<TitleId, Rule>, targets: seq<TitleId>, v: SplitVideo) {
    exists t :: t in stored && t !in targets && Matches(e, stored[t], v)
  }

  ghost predicate OutsideScope(stored: map<TitleId, Rule>, targets: seq<TitleId>) {
    exists t :: t in stored && t !in targets && CollectionScope(stored[t])
  }

  // Storing the definitions mirrors them exactly when no selector-bearing title is left out of them.
  lemma StoringMirrors(before: map<TitleId, Rule>, targets: seq<TitleId>, rules: seq<Rule>)
    requires |targets| == |rules| && Distinct(targets)
    ensures Defines(Stored(before, targets, rules), targets, rules)
    ensures Mirrors(Stored(before, targets, rules), targets, rules) <==>
      forall t :: t in before && HasSelector(before[t]) ==> t in targets
  {
    forall i | 0 <= i < |targets|
      ensures targets[i] in Stored(before, targets, rules) && Stored(before, targets, rules)[targets[i]] == rules[i]
    {
      StoredAt(before, targets, rules, i);
    }
    forall t | t !in targets
      ensures t in Stored(before, targets, rules) <==> t in before
      ensures t in before ==> Stored(before, targets, rules)[t] == before[t]
    {
      StoredElsewhere(before, targets, rules, t);
    }
  }

  // --------------------------------------------------------- the same rules in another order

  // Rule i of the definitions and rule k of the re-read are one title's rule.
  ghost predicate SameRule(stored: map<TitleId, Rule>, targets: seq<TitleId>, order: seq<TitleId>, i: nat, k: nat) {
    i < |targets| && k < |order| && targets[i] == order[k]
  }

  lemma RereadAs(e: Engine, stored: map<TitleId, Rule>, targets: seq<TitleId>, rules: seq<Rule>, order: seq<TitleId>, i: nat, v: SplitVideo)
    returns (k: nat)
    requires Defines(stored, targets, rules) && Reread(stored, order) && i < |rules| && Matches(e, rules[i], v)
    ensures SameRule(stored, targets, order, i, k) && Matches(e, RereadRules(stored, order)[k], v)
  {
    assert HasSelector(stored[targets[i]]);
    k :| 0 <= k < |order| && order[k] == targets[i];
  }

  lemma DefinedAs(e: Engine, stored: map<TitleId, Rule>, targets: seq<TitleId>, rules: seq<Rule>, order: seq<TitleId>, k: nat,
    v: SplitVideo)
    returns (i: nat)
    requires Defines(stored, targets, rules) && Reread(stored, order) && !OutsideMatch(e, stored, targets, v)
    requires k < |order| && Matches(e, RereadRules(stored, order)[k], v)
    ensures SameRule(stored, targets, order, i, k) && rules[i] == RereadRules(stored, order)[k]
  {
    assert order[k] in order;
    i :| 0 <= i < |targets| && targets[i] == order[k];
  }

  lemma NoMatchStays(e: Engine, stored: map<TitleId, Rule>, targets: seq<TitleId>, rules: seq<Rule>, order: seq<TitleId>, v: SplitVideo)
    requires Defines(stored, targets, rules) && Reread(stored, order) && !OutsideMatch(e, stored, targets, v)
    ensures Matching(e, rules, v) == [] <==> Matching(e, RereadRules(stored, order), v) == []
  {
    var again := RereadRules(stored, order);
    NoneIff(e, rules, v);
    NoneIff(e, again, v);
    if i :| 0 <= i < |rules| && Matches(e, rules[i], v) {
      var k := RereadAs(e, stored, targets, rules, order, i, v);
    }
    if k :| 0 <= k < |again| && Matches(e, again[k], v) {
      var i := DefinedAs(e, stored, targets, rules, order, k, v);
    }
  }

  lemma OneMatchStays(
    e: Engine, stored: map<TitleId, Rule>, targets: seq<TitleId>, rules: seq<Rule>, order: seq<TitleId>, v: SplitVideo, i: nat)
    returns (k: nat)
    requires Defines(stored, targets, rules) && Reread(stored, order) && !OutsideMatch(e, stored, targets, v) && Matching(e, rules, v) == [i]
    ensures i < |targets| && Matching(e, RereadRules(stored, order), v) == [k] && SameRule(stored, targets, order, i, k)
  {
    var again := RereadRules(stored, order);
    UniqueIff(e, rules, v, i);
    k := RereadAs(e, stored, targets, rules, order, i, v);
    forall l | 0 <= l < |again| && Matches(e, again[l], v)
      ensures l == k
    {
      var j := DefinedAs(e, stored, targets, rules, order, l, v);
      assert j == i;
    }
    UniqueIff(e, again, v, k);
  }

  lemma OneMatchWas(
    e: Engine, stored: map<TitleId, Rule>, targets: seq<TitleId>, rules: seq<Rule>, order: seq<TitleId>, v: SplitVideo, k: nat)
    returns (i: nat)
    requires Defines(stored, targets, rules) && Reread(stored, order) && !OutsideMatch(e, stored, targets, v) && Matching(e, RereadRules(stored, order), v) == [k]
    ensures Matching(e, rules, v) == [i]
  {
    var again := RereadRules(stored, order);
    UniqueIff(e, again, v, k);
    i := DefinedAs(e, stored, targets, rules, order, k, v);
    forall j | 0 <= j < |rules| && Matches(e, rules[j], v)
      ensures j == i
    {
      var l := RereadAs(e, stored, targets, rules, order, j, v);
      assert l == k;
    }
    UniqueIff(e, rules, v, i);
  }

  // Re-reading changes neither whether none, one or several rules match.
  lemma MatchCountStays(
    e: Engine, stored: map<TitleId, Rule>, targets: seq<TitleId>, rules: seq<Rule>, order: seq<TitleId>, v: SplitVideo)
    requires Defines(stored, targets, rules) && Reread(stored, order) && !OutsideMatch(e, stored, targets, v)
    ensures var m, n := |Matching(e, rules, v)|, |Matching(e, RereadRules(stored, order), v)|;
      (m == 0 <==> n == 0) && (m == 1 <==> n == 1)
  {
    var again := RereadRules(stored, order);
    NoMatchStays(e, stored, targets, rules, order, v);
    if |Matching(e, rules, v)| == 1 {
      assert Matching(e, rules, v) == [Matching(e, rules, v)[0]];
      var k := OneMatchStays(e, stored, targets, rules, order, v, Matching(e, rules, v)[0]);
    }
    if |Matching(e, again, v)| == 1 {
      assert Matching(e, again, v) == [Matching(e, again, v)[0]];
      var i := OneMatchWas(e, stored, targets, rules, order, v, Matching(e, again, v)[0]);
    }
  }

  // A re-evaluation covers the collection also for the scope of a title outside the definitions.
  lemma CoverageIff(stored: map<TitleId, Rule>, targets: seq<TitleId>, rules: seq<Rule>, order: seq<TitleId>)
    requires Defines(stored, targets, rules) && Reread(stored, order)
    ensures Covers(RereadRules(stored, order)) <==> Covers(rules) || OutsideScope(stored, targets)
  {
    var again := RereadRules(stored, order);
    if i :| 0 <= i < |rules| && CollectionScope(rules[i]) {
      var k :| 0 <= k < |order| && order[k] == targets[i];
      assert CollectionScope(again[k]);
    }
    if t :| t in stored && t !in targets && CollectionScope(stored[t]) {
      var k :| 0 <= k < |order| && order[k] == t;
      assert CollectionScope(again[k]);
    }
    if k :| 0 <= k < |again| && CollectionScope(again[k]) {
      assert order[k] in order;
      if i :| 0 <= i < |targets| && targets[i] == order[k] {
        assert CollectionScope(rules[i]);
      }
    }
  }

  // ------------------------------------------------------------------------------ settling

  // Kind and target titles of two decisions over differently ordered rules agree.
  ghost predicate SameDecision(d: Decision, titles: seq<TitleId>, d': Decision, titles': seq<TitleId>) {
    && d.kind == d'.kind
    && (d.kind.Unique? ==>
          && |d.matching| == 1 && |d'.matching| == 1 && d.matching[0] < |titles| && d'.matching[0] < |titles'|
          && titles[d.matching[0]] == titles'[d'.matching[0]])
    && (d.kind.Conflict? ==> SameTitles(d.matching, titles, d'.matching, titles'))
  }

  ghost predicate SameTitles(m: seq<nat>, titles: seq<TitleId>, m': seq<nat>, titles': seq<TitleId>) {
    && (forall i :: i in m ==> i < |titles| && exists k :: k in m' && k < |titles'| && titles'[k] == titles[i])
    && (forall k :: k in m' ==> k < |titles'| && exists i :: i in m && i < |titles| && titles[i] == titles'[k])
  }

  lemma ConflictTitlesStay(
    e: Engine, stored: map<TitleId, Rule>, targets: seq<TitleId>, rules: seq<Rule>, order: seq<TitleId>, v: SplitVideo)
    requires Defines(stored, targets, rules) && Reread(stored, order) && !OutsideMatch(e, stored, targets, v)
    ensures SameTitles(Matching(e, rules, v), targets, Matching(e, RereadRules(stored, order), v), order)
  {
    var again := RereadRules(stored, order);
    MatchingInBounds(e, rules, v, |rules|);
    MatchingInBounds(e, again, v, |again|);
    forall i | i in Matching(e, rules, v)
      ensures i < |targets| && exists k :: k in Matching(e, again, v) && k < |order| && order[k] == targets[i]
    {
      var k := RereadAs(e, stored, targets, rules, order, i, v);
      assert k in Matching(e, again, v);
    }
    forall k | k in Matching(e, again, v)
      ensures k < |order| && exists i :: i in Matching(e, rules, v) && i < |targets| && targets[i] == order[k]
    {
      var i := DefinedAs(e, stored, targets, rules, order, k, v);
      assert i in Matching(e, rules, v);
    }
  }

  lemma FirstOfDistinct(order: seq<TitleId>, k: nat)
    requires Distinct(order) && k < |order|
    ensures FirstWith(Somes(order), Some(order[k])) == Some(k)
  {
    FirstFound(Somes(order), k);
    var i := FirstWith(Somes(order), Some(order[k])).value;
    assert Somes(order)[i] == Some(order[i]);
  }

  lemma {:induction false} FirstFound(titles: seq<Option<TitleId>>, k: nat)
    requires k < |titles|
    ensures FirstWith(titles, titles[k]).Some?
  {
    if titles[0] != titles[k] {
      FirstFound(titles[1..], k - 1);
    }
  }

  // A stored unique match wins over the conservative reading of the current title.
  lemma UniqueAgain(e: Engine, again: seq<Rule>, order: seq<TitleId>, home: map<TitleId, CollectionId>, v: SplitVideo, k: nat)
    requires Distinct(order) && |again| == |order| && Matching(e, again, v) == [k] && k < |order|
    requires v.title == Some(order[k]) || v.title.None?
    ensures Decide(e, again, Persisted(Somes(order), home), v) == Decision(Unique, [k])
  {
    FirstOfDistinct(order, k);
    MatchingInBounds(e, again, v, |again|);
    assert k in Matching(e, again, v);
    assert HasSelector(again[k]);
  }

  lemma ConflictAgain(e: Engine, again: seq<Rule>, order: seq<TitleId>, home: map<TitleId, CollectionId>, v: SplitVideo)
    requires |Matching(e, again, v)| > 1
    ensures Decide(e, again, Persisted(Somes(order), home), v) == Decision(Conflict, Matching(e, again, v))
  {
    MatchingInBounds(e, again, v, |again|);
    var k := Matching(e, again, v)[0];
    assert k in Matching(e, again, v);
    assert HasSelector(again[k]);
  }

  lemma UncoveredAgain(e: Engine, again: seq<Rule>, order: seq<TitleId>, home: map<TitleId, CollectionId>, v: SplitVideo)
    requires Matching(e, again, v) == []
    ensures v.title.None? && Covers(again) && !v.collapses && !v.supplementary ==>
      Decide(e, again, Persisted(Somes(order), home), v) == Decision(Unmatched, [])
    ensures !Covers(again) || v.collapses || v.supplementary ==>
      Decide(e, again, Persisted(Somes(order), home), v) == Decision(NotRequired, [])
  {
    if i :| 0 <= i < |again| && CollectionScope(again[i]) {
      assert HasSelector(again[i]);
    }
  }

  lemma MatchingIgnoresTitle(e: Engine, rules: seq<Rule>, v: SplitVideo, t: Option<TitleId>, n: nat)
    requires n <= |rules|
    ensures MatchingUpTo(e, rules, v.(title := t), n) == MatchingUpTo(e, rules, v, n)
  {
    if n > 0 {
      MatchingIgnoresTitle(e, rules, v, t, n - 1);
    }
  }

  // A preview leaves a video alone only if nothing matches it and coverage does not reach it.
  lemma PreviewLeavesUncovered(e: Engine, rules: seq<Rule>, v: SplitVideo)
    requires Decide(e, rules, Preview, v).kind.NotRequired?
    ensures Matching(e, rules, v) == [] && (!Covers(rules) || v.collapses || v.supplementary)
  {
    NoneIff(e, rules, v);
    if i :| 0 <= i < |rules| && Matches(e, rules[i], v) {
      assert HasSelector(rules[i]);
    }
    if i :| 0 <= i < |rules| && CollectionScope(rules[i]) {
      assert HasSelector(rules[i]);
    }
  }

  // The video's current title carries a selector that does not match it.
  predicate AgainstSelector(e: Engine, stored: map<TitleId, Rule>, v: SplitVideo) {
    v.title.Some? && v.title.value in stored && HasSelector(stored[v.title.value]) && !Matches(e, stored[v.title.value], v)
  }

  // ... and at most one stored rule matches it, by its number or name alone: the assignment is kept.
  ghost predicate Sheltered(e: Engine, stored: map<TitleId, Rule>, v: SplitVideo) {
    && AgainstSelector(e, stored, v)
    && (forall t :: t in stored ==> v.id !in stored[t].videoIds)
    && (forall t, u :: t in stored && u in stored && Matches(e, stored[t], v) && Matches(e, stored[u], v) ==> t == u)
  }

  // Titles outside the definitions do not touch what the preview showed for the video.
  ghost predicate Undisturbed(
    e: Engine, rules: seq<Rule>, targets: seq<TitleId>, stored: map<TitleId, Rule>, order: seq<TitleId>,
    home: map<TitleId, CollectionId>, v: SplitVideo)
  {
    if !Decide(e, rules, Preview, v).kind.NotRequired? then !OutsideMatch(e, stored, targets, v)
    else if OutsideMatch(e, stored, targets, v) then Sheltered(e, stored, v)
    else
      || !OutsideScope(stored, targets) || v.collapses || v.supplementary || AgainstSelector(e, stored, v)
      || (v.title.Some? && HomeOf(home, v.title.value) == FirstHome(Somes(order), home))
  }

  lemma StoredMatchIff(e: Engine, stored: map<TitleId, Rule>, order: seq<TitleId>, v: SplitVideo)
    requires Reread(stored, order)
    ensures forall k: nat :: k in Matching(e, RereadRules(stored, order), v) <==> k < |order| && Matches(e, stored[order[k]], v)
  {
    MatchingInBounds(e, RereadRules(stored, order), v, |order|);
  }

  // A match outside the definitions is one more rule that matches in the re-evaluation.
  lemma OutsideIsReread(e: Engine, stored: map<TitleId, Rule>, targets: seq<TitleId>, order: seq<TitleId>, v: SplitVideo)
    returns (k: nat)
    requires Reread(stored, order) && OutsideMatch(e, stored, targets, v)
    ensures k < |order| && order[k] !in targets && k in Matching(e, RereadRules(stored, order), v)
    ensures AnySelector(RereadRules(stored, order))
  {
    var t :| t in stored && t !in targets && Matches(e, stored[t], v);
    assert HasSelector(stored[t]);
    k :| 0 <= k < |order| && order[k] == t;
    StoredMatchIff(e, stored, order, v);
    assert HasSelector(RereadRules(stored, order)[k]);
  }

  // A decision shown for some rule, or for none where one is required, cannot survive an outside match.
  lemma OutsideMatchUnsettles(
    e: Engine, rules: seq<Rule>, targets: seq<TitleId>, stored: map<TitleId, Rule>, order: seq<TitleId>,
    home: map<TitleId, CollectionId>, v: SplitVideo, v': SplitVideo)
    requires Defines(stored, targets, rules) && Reread(stored, order) && OutsideMatch(e, stored, targets, v)
    requires v' == v.(title := v'.title)
    requires var kind := Decide(e, rules, Preview, v).kind; !kind.NotRequired? && (kind.Unmatched? ==> v'.title.None?)
    ensures !SameDecision(
      Decide(e, rules, Preview, v), targets, Decide(e, RereadRules(stored, order), Persisted(Somes(order), home), v'), order)
  {
    var k := OutsideIsReread(e, stored, targets, order, v);
    MatchingIgnoresTitle(e, RereadRules(stored, order), v, v'.title, |order|);
  }

  // A video the preview leaves alone stays alone beside an outside match only if it is sheltered.
  lemma ShelteredIff(
    e: Engine, targets: seq<TitleId>, stored: map<TitleId, Rule>, order: seq<TitleId>, home: map<TitleId, CollectionId>,
    v: SplitVideo)
    requires Reread(stored, order) && OutsideMatch(e, stored, targets, v)
    ensures Decide(e, RereadRules(stored, order), Persisted(Somes(order), home), v).kind.NotRequired? <==>
      Sheltered(e, stored, v)
  {
    var again := RereadRules(stored, order);
    var matching := Matching(e, again, v);
    var k := OutsideIsReread(e, stored, targets, order, v);
    StoredMatchIff(e, stored, order, v);
    MatchingInBounds(e, again, v, |again|);
    CurrentIff(e, stored, order, home, v);
    if Sheltered(e, stored, v) {
      forall i: nat, j: nat | i in matching && j in matching
        ensures i == j
      {
        assert order[i] == order[j];
      }
      SeveralDiffer(matching);
    }
    if AgainstSelector(e, stored, v) && |matching| <= 1 {
      assert matching == [k];
      if t :| t in stored && v.id in stored[t].videoIds {
        var l := RereadOf(e, stored, order, v, t);
        assert v.id in again[matching[0]].videoIds;
      } else {
        forall t | t in stored && Matches(e, stored[t], v)
          ensures t == order[k]
        {
          var l := RereadOf(e, stored, order, v, t);
        }
      }
    }
  }

  lemma SeveralDiffer(matching: seq<nat>)
    requires forall j, k :: 0 <= j < k < |matching| ==> matching[j] < matching[k]
    ensures |matching| > 1 ==> exists i, j :: i in matching && j in matching && i != j
  {
    if |matching| > 1 {
      assert matching[0] in matching && matching[1] in matching && matching[0] < matching[1];
    }
  }

  lemma RereadOf(e: Engine, stored: map<TitleId, Rule>, order: seq<TitleId>, v: SplitVideo, t: TitleId) returns (k: nat)
    requires Reread(stored, order) && t in stored && Matches(e, stored[t], v)
    ensures k < |order| && order[k] == t && k in Matching(e, RereadRules(stored, order), v)
  {
    assert HasSelector(stored[t]);
    k :| 0 <= k < |order| && order[k] == t;
    StoredMatchIff(e, stored, order, v);
  }

  // The re-evaluation finds the current title's rule and sees it not match.
  lemma CurrentIff(
    e: Engine, stored: map<TitleId, Rule>, order: seq<TitleId>, home: map<TitleId, CollectionId>, v: SplitVideo)
    requires Reread(stored, order)
    ensures var current := CurrentRule(Persisted(Somes(order), home), v);
      && (current.Some? <==> v.title.Some? && v.title.value in order)
      && (current.Some? ==> current.value < |order| && order[current.value] == v.title.value)
      && (AgainstSelector(e, stored, v) <==>
            current.Some? && current.value !in Matching(e, RereadRules(stored, order), v))
      && (current.Some? <==> v.title in Somes(order))
  {
    StoredMatchIff(e, stored, order, v);
    if v.title.Some? && v.title.value in order {
      var k :| 0 <= k < |order| && order[k] == v.title.value;
      FirstOfDistinct(order, k);
      assert Somes(order)[k] == v.title;
    }
  }

  // ... and where nothing matches it, only if no outside scope reaches it.
  lemma UncoveredIff(
    e: Engine, rules: seq<Rule>, targets: seq<TitleId>, stored: map<TitleId, Rule>, order: seq<TitleId>,
    home: map<TitleId, CollectionId>, v: SplitVideo)
    requires Defines(stored, targets, rules) && Reread(stored, order) && Decide(e, rules, Preview, v).kind.NotRequired?
    requires !OutsideMatch(e, stored, targets, v)
    ensures Decide(e, RereadRules(stored, order), Persisted(Somes(order), home), v).kind.NotRequired? <==>
      Undisturbed(e, rules, targets, stored, order, home, v)
  {
    PreviewLeavesUncovered(e, rules, v);
    NoMatchStays(e, stored, targets, rules, order, v);
    CoverageIff(stored, targets, rules, order);
    CurrentIff(e, stored, order, home, v);
    var again := RereadRules(stored, order);
    if k :| 0 <= k < |again| && CollectionScope(again[k]) {
      assert HasSelector(again[k]);
    }
  }

  // The same decision, applied once more, changes nothing.
  lemma SameDecisionApplies(
    mode: Mode, accepts: (VideoId, TitleId) -> bool, targets: seq<TitleId>, v: SplitVideo, d: Decision,
    order: seq<TitleId>, v': SplitVideo, d': Decision)
    requires SameDecision(d, targets, d', order) && AppliedTitle(mode, accepts, targets, v, d) == Ok(v'.title)
    requires v' == v.(title := v'.title)
    ensures AppliedTitle(mode, accepts, order, v', d') == Ok(v'.title)
  {
  }

  // Without an outside match a video some rule decides is decided the same way again.
  lemma UniqueDecidedAgain(
    e: Engine, rules: seq<Rule>, targets: seq<TitleId>, stored: map<TitleId, Rule>, order: seq<TitleId>,
    home: map<TitleId, CollectionId>, v: SplitVideo, i: nat)
    requires Defines(stored, targets, rules) && Reread(stored, order) && !OutsideMatch(e, stored, targets, v)
    requires Matching(e, rules, v) == [i] && i < |targets| && (v.title.None? || v.title == Some(targets[i]))
    ensures SameDecision(
      Decision(Unique, [i]), targets, Decide(e, RereadRules(stored, order), Persisted(Somes(order), home), v), order)
  {
    var k := OneMatchStays(e, stored, targets, rules, order, v, i);
    UniqueAgain(e, RereadRules(stored, order), order, home, v, k);
  }

  lemma ConflictDecidedAgain(
    e: Engine, rules: seq<Rule>, targets: seq<TitleId>, stored: map<TitleId, Rule>, order: seq<TitleId>,
    home: map<TitleId, CollectionId>, v: SplitVideo)
    requires Defines(stored, targets, rules) && Reread(stored, order) && !OutsideMatch(e, stored, targets, v)
    requires |Matching(e, rules, v)| > 1
    ensures SameDecision(
      Decision(Conflict, Matching(e, rules, v)), targets,
      Decide(e, RereadRules(stored, order), Persisted(Somes(order), home), v), order)
  {
    MatchCountStays(e, stored, targets, rules, order, v);
    ConflictAgain(e, RereadRules(stored, order), order, home, v);
    ConflictTitlesStay(e, stored, targets, rules, order, v);
  }

  lemma UnmatchedDecidedAgain(
    e: Engine, rules: seq<Rule>, targets: seq<TitleId>, stored: map<TitleId, Rule>, order: seq<TitleId>,
    home: map<TitleId, CollectionId>, v: SplitVideo)
    requires Defines(stored, targets, rules) && Reread(stored, order) && !OutsideMatch(e, stored, targets, v)
    requires Matching(e, rules, v) == [] && Covers(rules) && !v.collapses && !v.supplementary && v.title.None?
    ensures Decide(e, RereadRules(stored, order), Persisted(Somes(order), home), v) == Decision(Unmatched, [])
  {
    NoMatchStays(e, stored, targets, rules, order, v);
    CoverageIff(stored, targets, rules, order);
    UncoveredAgain(e, RereadRules(stored, order), order, home, v);
  }

  // What a preview decides, from the matches alone.
  lemma PreviewDecides(e: Engine, rules: seq<Rule>, v: SplitVideo)
    ensures var d := Decide(e, rules, Preview, v);
      && (d.kind.Unique? ==> |d.matching| == 1 && d.matching == Matching(e, rules, v) && d.matching[0] < |rules|)
      && (d.kind.Conflict? ==> |d.matching| > 1 && d.matching == Matching(e, rules, v))
      && (d.kind.Unmatched? ==> Matching(e, rules, v) == [] && Covers(rules) && !v.collapses && !v.supplementary)
  {
    MatchingInBounds(e, rules, v, |rules|);
  }

  lemma DecidedAgain(
    e: Engine, mode: Mode, accepts: (VideoId, TitleId) -> bool, rules: seq<Rule>, targets: seq<TitleId>,
    stored: map<TitleId, Rule>, order: seq<TitleId>, home: map<TitleId, CollectionId>, v: SplitVideo, v': SplitVideo)
    requires Defines(stored, targets, rules) && Reread(stored, order) && !OutsideMatch(e, stored, targets, v)
    requires !Decide(e, rules, Preview, v).kind.NotRequired? && v' == v.(title := v'.title)
    requires AppliedTitle(mode, accepts, targets, v, Decide(e, rules, Preview, v)) == Ok(v'.title)
    ensures SameDecision(
      Decide(e, rules, Preview, v), targets, Decide(e, RereadRules(stored, order), Persisted(Somes(order), home), v'), order)
  {
    var d := Decide(e, rules, Preview, v);
    MatchingIgnoresTitle(e, rules, v, v'.title, |rules|);
    PreviewDecides(e, rules, v);
    SameOutside(e, stored, targets, v, v');
    match d.kind
    case Unique => UniqueDecidedAgain(e, rules, targets, stored, order, home, v', d.matching[0]);
    case Conflict => ConflictDecidedAgain(e, rules, targets, stored, order, home, v');
    case Unmatched => UnmatchedDecidedAgain(e, rules, targets, stored, order, home, v');
  }

  lemma SameOutside(e: Engine, stored: map<TitleId, Rule>, targets: seq<TitleId>, v: SplitVideo, v': SplitVideo)
    requires v' == v.(title := v'.title) && !OutsideMatch(e, stored, targets, v)
    ensures !OutsideMatch(e, stored, targets, v')
  {
    if t :| t in stored && t !in targets && Matches(e, stored[t], v') {
      assert Matches(e, stored[t], v);
    }
  }

  // Main result: exactly when a confirmed preview settles.  The stored rules decide a video as the
  // preview did, and applying that decision once more leaves it where it is, if and only if no
  // selector outside the definitions disturbs it.
  lemma PreviewSettlesIff(
    e: Engine, mode: Mode, accepts: (VideoId, TitleId) -> bool, rules: seq<Rule>, targets: seq<TitleId>,
    stored: map<TitleId, Rule>, order: seq<TitleId>, home: map<TitleId, CollectionId>, v: SplitVideo)
    requires Defines(stored, targets, rules) && Reread(stored, order)
    requires AppliedTitle(mode, accepts, targets, v, Decide(e, rules, Preview, v)).Ok?
    ensures var d := Decide(e, rules, Preview, v);
      var v' := v.(title := AppliedTitle(mode, accepts, targets, v, d).value);
      var d' := Decide(e, RereadRules(stored, order), Persisted(Somes(order), home), v');
      && (SameDecision(d, targets, d', order) <==> Undisturbed(e, rules, targets, stored, order, home, v))
      && (SameDecision(d, targets, d', order) ==> AppliedTitle(mode, accepts, order, v', d') == Ok(v'.title))
  {
    var d := Decide(e, rules, Preview, v);
    var v' := v.(title := AppliedTitle(mode, accepts, targets, v, d).value);
    var d' := Decide(e, RereadRules(stored, order), Persisted(Somes(order), home), v');
    if !d.kind.NotRequired? {
      if OutsideMatch(e, stored, targets, v) {
        OutsideMatchUnsettles(e, rules, targets, stored, order, home, v, v');
      } else {
        DecidedAgain(e, mode, accepts, rules, targets, stored, order, home, v, v');
      }
    } else {
      assert v' == v;
      if OutsideMatch(e, stored, targets, v) {
        ShelteredIff(e, targets, stored, order, home, v);
      } else {
        UncoveredIff(e, rules, targets, stored, order, home, v);
      }
    }
    if SameDecision(d, targets, d', order) {
      SameDecisionApplies(mode, accepts, targets, v, d, order, v', d');
    }
  }

  // Definitions that name every selector-bearing title of the collection settle for every video.
  lemma MirrorsUndisturbed(
    e: Engine, rules: seq<Rule>, targets: seq<TitleId>, stored: map<TitleId, Rule>, order: seq<TitleId>,
    home: map<TitleId, CollectionId>, v: SplitVideo)
    requires Mirrors(stored, targets, rules)
    ensures Undisturbed(e, rules, targets, stored, order, home, v)
  {
    if t :| t in stored && t !in targets && Matches(e, stored[t], v) {
      assert HasSelector(stored[t]);
    }
    if t :| t in stored && t !in targets && CollectionScope(stored[t]) {
      assert HasSelector(stored[t]);
    }
  }

  // Main result: reconciliation settles.  Re-evaluating stored selectors after one application
  // gives the same decisions, whatever the first evaluation found in place.
  lemma StoredSettles(
    e: Engine, mode: Mode, accepts: (VideoId, TitleId) -> bool, rules: seq<Rule>, order: seq<TitleId>,
    home: map<TitleId, CollectionId>, v: SplitVideo)
    requires Distinct(order) && |rules| == |order|
    requires AppliedTitle(mode, accepts, order, v, Decide(e, rules, Persisted(Somes(order), home), v)).Ok?
    ensures var d := Decide(e, rules, Persisted(Somes(order), home), v);
      var v' := v.(title := AppliedTitle(mode, accepts, order, v, d).value);
      Decide(e, rules, Persisted(Somes(order), home), v') == d && AppliedTitle(mode, accepts, order, v', d) == Ok(v'.title)
  {
    var d := Decide(e, rules, Persisted(Somes(order), home), v);
    var v' := v.(title := AppliedTitle(mode, accepts, order, v, d).value);
    MatchingIgnoresTitle(e, rules, v, v'.title, |rules|);
    match d.kind
    case Unique =>
      assert d.matching == [d.matching[0]];
      UniqueAgain(e, rules, order, home, v', d.matching[0]);
    case Conflict => ConflictAgain(e, rules, order, home, v');
    case Unmatched => UncoveredAgain(e, rules, order, home, v');
    case NotRequired =>
  }
}
