/**
 Nested guarded writes: savepoints as a stack of snapshots over the caller's transaction, and the
 guard that rolls a write back when it introduces a Recap outside any season.
*/
module WriteGuard {
  import opened Basics
  import opened CollectionPresentation

  type VideoId = nat
  type CollectionId = nat

  // A stored title and video; `recap` is the effective type against a prospective title.
  datatype StoredTitle = StoredTitle(collection: Option<CollectionId>, title: Title)
  datatype StoredVideo = StoredVideo(collection: Option<CollectionId>, title: Option<TitleId>, contentType: Option<string>)

  datatype Hierarchy = Hierarchy(titles: map<TitleId, StoredTitle>, videos: map<VideoId, StoredVideo>)

  // How titles are ordered, and a video's effective content type under a title.
  datatype Rules = Rules(order: set<Title> -> seq<Title>, recap: (StoredVideo, Option<Title>) -> bool)

  ghost predicate RulesOk(rules: Rules) {
    forall ts :: Distinct(rules.order(ts)) && forall t :: t in rules.order(ts) <==> t in ts
  }

  // ------------------------------------------------------------------------------ violations

  function TitlesOf(s: Hierarchy, c: CollectionId): set<Title> {
    set t | t in s.titles && s.titles[t].collection == Some(c) :: s.titles[t].title
  }

  // A video belongs to the collection directly or through one of its titles.
  predicate VideoOf(s: Hierarchy, c: CollectionId, v: VideoId)
    requires v in s.videos
  {
    || s.videos[v].collection == Some(c)
    || (s.videos[v].title.Some? && s.videos[v].title.value in s.titles && s.titles[s.videos[v].title.value].collection == Some(c))
  }

  function TitleOfVideo(s: Hierarchy, v: VideoId): Option<Title>
    requires v in s.videos
  {
    if s.videos[v].title.Some? && s.videos[v].title.value in s.titles
    then Some(s.titles[s.videos[v].title.value].title) else None
  }

  // The context in one collection: a season, or nested under the only primary of its season.
  predicate SeasonContext(titles: seq<Title>, t: Title) {
    && t in titles
    && (t.partType == "season" || (Owner(titles, t).Some? && Owner(titles, t).value.partType == "season"))
  }

  predicate Violates(rules: Rules, s: Hierarchy, c: CollectionId, v: VideoId)
    requires v in s.videos
  {
    var t := TitleOfVideo(s, v);
    rules.recap(s.videos[v], t) && !(t.Some? && SeasonContext(rules.order(TitlesOf(s, c)), t.value))
  }

  // _recap_season_context_violations
  function Violations(rules: Rules, s: Hierarchy, affected: set<CollectionId>): set<VideoId> {
    set v, c | v in s.videos && c in affected && VideoOf(s, c, v) && Violates(rules, s, c, v) :: v
  }

  // The loops over collections and their videos, reading the built presentation.
  method FindViolations(rules: Rules, s: Hierarchy, affected: set<CollectionId>) returns (found: set<VideoId>)
    requires RulesOk(rules)
    ensures found == Violations(rules, s, affected)
  {
    found := {};
    var todo, done := affected, {};
    while todo != {}
      invariant todo + done == affected && found == Violations(rules, s, done)
      decreases |todo|
    {
      var c :| c in todo;
      var titles := rules.order(TitlesOf(s, c));
      var presentation := CollectionPresentation.Build(titles);
      var more := CollectionViolations(rules, s, c, titles, presentation);
      found, todo, done := found + more, todo - {c}, done + {c};
    }
    assert done == affected;
  }

  method CollectionViolations(rules: Rules, s: Hierarchy, c: CollectionId, ghost titles: seq<Title>, p: Presentation)
    returns (found: set<VideoId>)
    requires Distinct(titles) && titles == rules.order(TitlesOf(s, c)) && Presents(titles, p)
    ensures found == set v | v in s.videos && VideoOf(s, c, v) && Violates(rules, s, c, v)
  {
    found := {};
    var todo, done := s.videos.Keys, {};
    while todo != {}
      invariant todo + done == s.videos.Keys
      invariant found == set v | v in done && v in s.videos && VideoOf(s, c, v) && Violates(rules, s, c, v)
      decreases |todo|
    {
      var v :| v in todo;
      if VideoOf(s, c, v) {
        var t := TitleOfVideo(s, v);
        if t.Some? {
          ContextIsSeason(titles, p, t.value);
        }
        if rules.recap(s.videos[v], t) && !(t.Some? && HasSeasonContext(p, t.value)) {
          found := found + {v};
        }
      }
      todo, done := todo - {v}, done + {v};
    }
  }

  lemma ContextIsSeason(titles: seq<Title>, p: Presentation, t: Title)
    requires Distinct(titles) && Presents(titles, p)
    ensures HasSeasonContext(p, t) <==> SeasonContext(titles, t)
  {
    if t in titles {
      SeasonContextIff(titles, p, t);
    } else {
      PrimariesIff(titles);
      ForeignHasNoContext(titles, p.primary, Primaries(titles), t);
    }
  }

  lemma {:induction false} ForeignHasNoContext(titles: seq<Title>, primary: seq<Primary>, primaries: seq<Title>, t: Title)
    requires |primary| == |primaries| && forall i :: 0 <= i < |primary| ==> PresentsPrimary(titles, primaries[i], primary[i])
    requires t !in titles && forall q :: q in primaries ==> q in titles
    ensures ContextOf(primary, t).None?
  {
    if primary != [] {
      AttachedIff(titles, titles, primaries[0]);
      assert PresentsPrimary(titles, primaries[0], primary[0]);
      assert t in GroupTitles(primary[0].groups) <==> t in Attached(titles, titles, primaries[0]);
      assert primaries[0] in titles;
      forall i | 0 <= i < |primary[1..]|
        ensures PresentsPrimary(titles, primaries[1..][i], primary[1..][i])
      {
        assert PresentsPrimary(titles, primaries[i + 1], primary[i + 1]);
      }
      ForeignHasNoContext(titles, primary[1..], primaries[1..], t);
    }
  }

  // ------------------------------------------------------------------- violations by their fields

  ghost predicate TitleIn(s: Hierarchy, c: CollectionId, t: Title) {
    exists i :: i in s.titles && s.titles[i].collection == Some(c) && s.titles[i].title == t
  }

  // A season of the collection, or supplementary content of a season that is the only main title with
  // that season number.
  ghost predicate InSeason(s: Hierarchy, c: CollectionId, t: Title) {
    && TitleIn(s, c, t)
    && (t.partType == "season"
        || (&& t.partType in ["film", "ova", "special", "preview", "recap", "bonus", "other"] && t.season.Some?
            && exists q :: TitleIn(s, c, q) && q.partType == "season" && q.season == t.season
                 && forall r :: TitleIn(s, c, r) && r.partType in ["season", "part", "cour", "title"] && r.season == t.season ==>
                      r == q))
  }

  // A Recap of the collection, its own or one of its titles', that lies in no season of it.
  ghost predicate RecapOutside(rules: Rules, s: Hierarchy, c: CollectionId, v: VideoId) {
    && v in s.videos
    && var video := s.videos[v];
       if video.title.Some? && video.title.value in s.titles then
         var stored := s.titles[video.title.value];
         && (video.collection == Some(c) || stored.collection == Some(c))
         && rules.recap(video, Some(stored.title)) && !InSeason(s, c, stored.title)
       else video.collection == Some(c) && rules.recap(video, None)
  }

  lemma ContextIsInSeason(rules: Rules, s: Hierarchy, c: CollectionId, t: Title)
    requires RulesOk(rules)
    ensures SeasonContext(rules.order(TitlesOf(s, c)), t) <==> InSeason(s, c, t)
  {
    var titles := rules.order(TitlesOf(s, c));
    forall q
      ensures q in titles <==> TitleIn(s, c, q)
    {
    }
    if Owner(titles, t).Some? {
      NestedIff(titles, t, Owner(titles, t).value);
    }
    if t.partType != "season" && InSeason(s, c, t) {
      var q :| TitleIn(s, c, q) && q.partType == "season" && q.season == t.season
        && forall r :: TitleIn(s, c, r) && r.partType in ["season", "part", "cour", "title"] && r.season == t.season ==> r == q;
      NestedIff(titles, t, q);
    }
  }

  lemma ViolationsIff(rules: Rules, s: Hierarchy, affected: set<CollectionId>, v: VideoId)
    requires RulesOk(rules)
    ensures v in Violations(rules, s, affected) <==> exists c :: c in affected && RecapOutside(rules, s, c, v)
  {
    if v in s.videos && TitleOfVideo(s, v).Some? {
      forall c
        ensures SeasonContext(rules.order(TitlesOf(s, c)), TitleOfVideo(s, v).value) <==> InSeason(s, c, TitleOfVideo(s, v).value)
      {
        ContextIsInSeason(rules, s, c, TitleOfVideo(s, v).value);
      }
    }
  }

  // ------------------------------------------------------------------- transactions and savepoints

  // A savepoint; outermost when the driver had begun no transaction.
  datatype Frame = Frame(saved: Hierarchy, outermost: bool)

  datatype Transaction = Transaction(durable: Hierarchy, current: Hierarchy, frames: seq<Frame>, begun: bool)

  // With the begin listener SQLAlchemy's begin emits BEGIN before anything else; without it the
  // driver begins only before a data change outside any savepoint.
  datatype Driver = Listening | Implicit

  function Touched(t: Transaction): Transaction {
    t.(begun := true)
  }

  function Opened(driver: Driver, t: Transaction): Transaction {
    var begun := t.begun || driver.Listening?;
    t.(frames := t.frames + [Frame(t.current, !begun)], begun := true)
  }

  function Popped(t: Transaction): Transaction
    requires t.frames != []
  {
    t.(frames := t.frames[..|t.frames| - 1])
  }

  // RELEASE: an outermost savepoint commits.
  function Released(t: Transaction): Transaction
    requires t.frames != []
  {
    if t.frames[|t.frames| - 1].outermost then Popped(t).(durable := t.current, begun := false) else Popped(t)
  }

  // ROLLBACK TO, and the savepoint is gone.
  function RolledBack(t: Transaction): Transaction
    requires t.frames != []
  {
    var frame := t.frames[|t.frames| - 1];
    if frame.outermost then Popped(t).(current := frame.saved, durable := frame.saved, begun := false)
    else Popped(t).(current := frame.saved)
  }

  function Committed(t: Transaction): Transaction {
    t.(durable := t.current, begun := false)
  }

  function Abandoned(t: Transaction): Transaction {
    t.(current := t.durable, frames := [], begun := false)
  }

  // ------------------------------------------------------------------------------- workflows

  // A workflow over the session.  Raise is an Exception, Interrupt one that is not.
  datatype Workflow =
    | Write(change: Hierarchy -> Hierarchy)
    | Raise
    | Interrupt
    | Then(first: Workflow, second: Workflow)
    | Branch(test: Hierarchy -> bool, yes: Workflow, no: Workflow)
    | Catch(body: Workflow, handler: Workflow)
    | Guarded(affected: Hierarchy -> set<CollectionId>, body: Workflow)

  datatype Outcome = Finished | Failed | Interrupted

  function Exec(rules: Rules, driver: Driver, w: Workflow, t: Transaction): (r: (Transaction, Outcome))
    ensures |r.0.frames| >= |t.frames|
    ensures !r.1.Interrupted? ==> r.0.frames == t.frames
    decreases w
  {
    match w
    case Write(change) => (Touched(t).(current := change(t.current)), Finished)
    case Raise => (t, Failed)
    case Interrupt => (t, Interrupted)
    case Then(first, second) =>
      var (t1, o) := Exec(rules, driver, first, t);
      if o.Finished? then Exec(rules, driver, second, t1) else (t1, o)
    case Branch(test, yes, no) => Exec(rules, driver, if test(t.current) then yes else no, t)
    case Catch(body, handler) =>
      var (t1, o) := Exec(rules, driver, body, t);
      if o.Failed? then Exec(rules, driver, handler, t1) else (t1, o)
    case Guarded(affected, body) =>
      var collections := affected(t.current);
      var before := Violations(rules, t.current, collections);
      var (t1, o) := Exec(rules, driver, body, Opened(driver, t));
      if o.Interrupted? then (t1, o)
      else if o.Finished? && Violations(rules, t1.current, collections) - before == {} then (Released(t1), Finished)
      else (RolledBack(t1), Failed)
  }

  // Main result: with the begin listener nothing a workflow does is durable before the commit.
  lemma {:induction false} NothingDurableBeforeCommit(rules: Rules, w: Workflow, t: Transaction)
    requires forall k :: 0 <= k < |t.frames| ==> !t.frames[k].outermost
    ensures Exec(rules, Listening, w, t).0.durable == t.durable
    ensures forall k :: 0 <= k < |Exec(rules, Listening, w, t).0.frames| ==> !Exec(rules, Listening, w, t).0.frames[k].outermost
    decreases w
  {
    match w
    case Write(_) =>
    case Raise =>
    case Interrupt =>
    case Then(first, second) =>
      NothingDurableBeforeCommit(rules, first, t);
      NothingDurableBeforeCommit(rules, second, Exec(rules, Listening, first, t).0);
    case Branch(test, yes, no) => NothingDurableBeforeCommit(rules, if test(t.current) then yes else no, t);
    case Catch(body, handler) =>
      NothingDurableBeforeCommit(rules, body, t);
      NothingDurableBeforeCommit(rules, handler, Exec(rules, Listening, body, t).0);
    case Guarded(affected, body) =>
      NothingDurableBeforeCommit(rules, body, Opened(Listening, t));
  }

  // A failed or abandoned workflow leaves the database as it was.
  lemma FailedWorkflowLeavesNothing(rules: Rules, w: Workflow, s: Hierarchy)
    ensures var t := Transaction(s, s, [], false);
      Abandoned(Exec(rules, Listening, w, t).0) == t
  {
    NothingDurableBeforeCommit(rules, w, Transaction(s, s, [], false));
  }

  // ... and the commit of one that was not interrupted publishes exactly its result.
  lemma CommitPublishes(rules: Rules, w: Workflow, s: Hierarchy)
    ensures var (t, o) := Exec(rules, Listening, w, Transaction(s, s, [], false));
      && t.durable == s
      && (!o.Interrupted? ==> Committed(t) == Transaction(t.current, t.current, [], false))
  {
    NothingDurableBeforeCommit(rules, w, Transaction(s, s, [], false));
  }

  // Main result: a guard that exits normally leaves no violation that was absent at its entry,
  // whatever is nested in it.
  lemma GuardIntroducesNothing(rules: Rules, driver: Driver, affected: Hierarchy -> set<CollectionId>, body: Workflow, t: Transaction)
    ensures var (t1, o) := Exec(rules, driver, Guarded(affected, body), t);
      o.Finished? ==>
        Violations(rules, t1.current, affected(t.current)) <= Violations(rules, t.current, affected(t.current))
  {
    var (t1, o) := Exec(rules, driver, body, Opened(driver, t));
    if o.Finished? {
      var now, before := Violations(rules, t1.current, affected(t.current)), Violations(rules, t.current, affected(t.current));
      assert now - before == {} ==> now <= before by {
        if now - before == {} {
          forall v | v in now
            ensures v in before
          {
            assert v !in now - before;
          }
        }
      }
    }
  }

  /** After a guard that exits normally, a Recap of an affected collection outside its seasons, whether
      it belongs there directly or through its title, was such a Recap before. */
  lemma RecapWasThere(
    rules: Rules, driver: Driver, affected: Hierarchy -> set<CollectionId>, body: Workflow, t: Transaction, c: CollectionId,
    v: VideoId)
    requires RulesOk(rules) && Exec(rules, driver, Guarded(affected, body), t).1.Finished?
    requires c in affected(t.current) && RecapOutside(rules, Exec(rules, driver, Guarded(affected, body), t).0.current, c, v)
    ensures exists d :: d in affected(t.current) && RecapOutside(rules, t.current, d, v)
  {
    GuardIntroducesNothing(rules, driver, affected, body, t);
    ViolationsIff(rules, Exec(rules, driver, Guarded(affected, body), t).0.current, affected(t.current), v);
    ViolationsIff(rules, t.current, affected(t.current), v);
  }

  // Main result: a guard that fails restores its entry state, with everything inner guards had
  // already released, and leaves the caller's savepoints alone.
  lemma FailingGuardRestores(rules: Rules, affected: Hierarchy -> set<CollectionId>, body: Workflow, t: Transaction)
    requires forall k :: 0 <= k < |t.frames| ==> !t.frames[k].outermost
    ensures var (t1, o) := Exec(rules, Listening, Guarded(affected, body), t);
      o.Failed? ==> t1.current == t.current && t1.frames == t.frames && t1.durable == t.durable
  {
    NothingDurableBeforeCommit(rules, Guarded(affected, body), t);
    var (t1, o) := Exec(rules, Listening, body, Opened(Listening, t));
    if !o.Interrupted? {
      assert t1.frames[|t1.frames| - 1] == Frame(t.current, false);
    }
  }

  // A guard fails exactly when its body raises or finishes with a new violation.
  lemma GuardFailsIff(rules: Rules, driver: Driver, affected: Hierarchy -> set<CollectionId>, body: Workflow, t: Transaction)
    ensures var (t1, o1) := Exec(rules, driver, body, Opened(driver, t));
      Exec(rules, driver, Guarded(affected, body), t).1.Failed? <==>
        || o1.Failed?
        || (o1.Finished? && exists v ::
              v in Violations(rules, t1.current, affected(t.current)) && v !in Violations(rules, t.current, affected(t.current)))
  {
    var (t1, o1) := Exec(rules, driver, body, Opened(driver, t));
    var now, before := Violations(rules, t1.current, affected(t.current)), Violations(rules, t.current, affected(t.current));
    if v :| v in now && v !in before {
      assert v in now - before;
    }
    if now - before != {} {
      var v :| v in now - before;
    }
  }

  lemma {:induction false} FramesStay(rules: Rules, driver: Driver, w: Workflow, t: Transaction)
    ensures t.frames <= Exec(rules, driver, w, t).0.frames
    decreases w
  {
    match w
    case Write(_) =>
    case Raise =>
    case Interrupt =>
    case Then(first, second) =>
      FramesStay(rules, driver, first, t);
      FramesStay(rules, driver, second, Exec(rules, driver, first, t).0);
    case Branch(test, yes, no) => FramesStay(rules, driver, if test(t.current) then yes else no, t);
    case Catch(body, handler) =>
      FramesStay(rules, driver, body, t);
      FramesStay(rules, driver, handler, Exec(rules, driver, body, t).0);
    case Guarded(affected, body) => FramesStay(rules, driver, body, Opened(driver, t));
  }

  /** An interruption is neither validated nor undone by a guard: its savepoint stays open above the
      caller's, with the guard's entry state, for whoever abandons the transaction. */
  lemma InterruptionStaysOpen(rules: Rules, driver: Driver, affected: Hierarchy -> set<CollectionId>, body: Workflow, t: Transaction)
    ensures var (t1, o) := Exec(rules, driver, Guarded(affected, body), t);
      o.Interrupted? ==>
        && |t.frames| < |t1.frames| && t1.frames[..|t.frames|] == t.frames && t1.frames[|t.frames|].saved == t.current
        && (t1, o) == Exec(rules, driver, body, Opened(driver, t))
  {
    FramesStay(rules, driver, body, Opened(driver, t));
    assert Opened(driver, t).frames[..|t.frames|] == t.frames;
  }

  // Why the listener is there: without it the outermost guard publishes its write at release.
  lemma ImplicitDriverPublishes(rules: Rules, affected: Hierarchy -> set<CollectionId>, change: Hierarchy -> Hierarchy, t: Transaction)
    requires !t.begun && t.frames == []
    requires Violations(rules, change(t.current), affected(t.current)) <= Violations(rules, t.current, affected(t.current))
    ensures Exec(rules, Implicit, Guarded(affected, Write(change)), t).0.durable == change(t.current)
  {
    var now, before := Violations(rules, change(t.current), affected(t.current)), Violations(rules, t.current, affected(t.current));
    assert now - before == {};
    assert Exec(rules, Implicit, Write(change), Opened(Implicit, t)).1.Finished?;
  }

  // -------------------------------------------------------------------------------- the session

  class Session {
    const driver: Driver
    var durable: Hierarchy
    var current: Hierarchy
    var frames: seq<Frame>
    var begun: bool

    constructor (driver: Driver, stored: Hierarchy)
      ensures State() == Transaction(stored, stored, [], false) && this.driver == driver
    {
      this.driver := driver;
      durable, current, frames, begun := stored, stored, [], false;
    }

    function State(): Transaction
      reads this
    {
      Transaction(durable, current, frames, begun)
    }

    method BeginNested()
      modifies this
      ensures State() == Opened(driver, old(State()))
    {
      if driver.Listening? { begun := true; }
      frames := frames + [Frame(current, !begun)];
      begun := true;
    }

    method Release()
      requires frames != []
      modifies this
      ensures State() == Released(old(State()))
    {
      if frames[|frames| - 1].outermost {
        durable, begun := current, false;
      }
      frames := frames[..|frames| - 1];
    }

    method Rollback()
      requires frames != []
      modifies this
      ensures State() == RolledBack(old(State()))
    {
      var frame := frames[|frames| - 1];
      current := frame.saved;
      if frame.outermost {
        durable, begun := frame.saved, false;
      }
      frames := frames[..|frames| - 1];
    }

    // strict_hierarchy_write_guard around a body
    method Guard(rules: Rules, affected: Hierarchy -> set<CollectionId>, body: Workflow) returns (o: Outcome)
      requires RulesOk(rules)
      modifies this
      ensures (State(), o) == Exec(rules, driver, Guarded(affected, body), old(State()))
      decreases body, 1
    {
      var collections := affected(current);
      var before := FindViolations(rules, current, collections);
      BeginNested();
      o := Execute(rules, body);
      if o.Finished? {
        var after := FindViolations(rules, current, collections);
        if after - before != {} {
          o := Failed;
        }
      }
      if o.Failed? {
        Rollback();
      } else if o.Finished? {
        Release();
      }
    }

    method Execute(rules: Rules, w: Workflow) returns (o: Outcome)
      requires RulesOk(rules)
      modifies this
      ensures (State(), o) == Exec(rules, driver, w, old(State()))
      decreases w, 0
    {
      match w
      case Write(change) =>
        current, begun := change(current), true;
        o := Finished;
      case Raise => o := Failed;
      case Interrupt => o := Interrupted;
      case Then(first, second) =>
        o := Execute(rules, first);
        if o.Finished? { o := Execute(rules, second); }
      case Branch(test, yes, no) =>
        if test(current) { o := Execute(rules, yes); } else { o := Execute(rules, no); }
      case Catch(body, handler) =>
        o := Execute(rules, body);
        if o.Failed? { o := Execute(rules, handler); }
      case Guarded(affected, body) => o := Guard(rules, affected, body);
    }

    method Commit()
      modifies this
      ensures State() == Committed(old(State()))
    {
      durable, begun := current, false;
    }
  }
}
