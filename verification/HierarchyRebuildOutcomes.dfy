/**
 What a rebuild does with each video, title and collection, told from the fields of the stored rows
 and the inferred identities: which title a video goes to and where, what blocks it, and what becomes
 of every stored title and collection.
*/
module HierarchyRebuildOutcomes {
  import opened Basics
  import opened HierarchyRebuild
  import opened HierarchyRebuildPlanning

  // ---------------------------------------------------------------------- the stored evidence

  // Title t is the one stored title with this locator.
  ghost predicate SoleTitleAt(s: Library, t: TitleId, locator: string) {
    && t in s.titles && s.titles[t].locator == locator
    && forall u :: u in s.titles && s.titles[u].locator == locator ==> u == t
  }

  // The k-th identity is the one inferred with this title path.
  ghost predicate SoleIdentityAt(m: Inputs, k: nat, path: string) {
    && k < |m.inferred| && m.inferred[k].title.path == path
    && forall j :: 0 <= j < |m.inferred| && m.inferred[j].title.path == path ==> j == k
  }

  // Some title of collection c names the video.
  ghost predicate SelectedIn(s: Library, v: VideoId, c: string) {
    exists t :: t in s.titles && v in s.titles[t].selectors && s.titles[t].collection == Some(c)
  }

  ghost predicate SelectedOnlyIn(s: Library, v: VideoId, c: string) {
    SelectedIn(s, v, c) && forall d :: SelectedIn(s, v, d) ==> d == c
  }

  // A stored membership that is a decision: its title is overridden or verified, and has a collection.
  ghost predicate KeptMembership(s: Library, video: Video)
    requires video.title.Some? ==> video.title.value in s.titles
  {
    video.title.Some? && var t := s.titles[video.title.value]; t.collection.Some? && (t.manualOverride || t.verified)
  }

  ghost predicate Undecided(m: Inputs, v: VideoId)
    requires v in m.library.videos && InputsOk(m)
  {
    DecisionOf(m, v).None? || DecisionOf(m, v).value.NotRequired?
  }

  lemma SoleTitleIsFound(m: Inputs, t: TitleId, locator: string)
    requires SoleTitleAt(m.library, t, locator)
    ensures Locators(m, locator) == {t}
  {
  }

  lemma SoleIdentityIsFound(m: Inputs, k: nat, path: string)
    requires SoleIdentityAt(m, k, path)
    ensures InferredAt(m, path) == {k}
  {
  }

  lemma OneLocatorIsSole(m: Inputs, locator: string)
    ensures |Locators(m, locator)| == 1 ==> exists t :: SoleTitleAt(m.library, t, locator)
  {
    if |Locators(m, locator)| == 1 {
      var t := Only(Locators(m, locator));
      assert t in Locators(m, locator);
      forall u | u in m.library.titles && m.library.titles[u].locator == locator
        ensures u == t
      {
        assert u in Locators(m, locator);
      }
      assert SoleTitleAt(m.library, t, locator);
    }
  }

  lemma OneIdentityIsSole(m: Inputs, path: string)
    ensures |InferredAt(m, path)| == 1 ==> exists k :: SoleIdentityAt(m, k, path)
  {
    if |InferredAt(m, path)| == 1 {
      var k := Only(InferredAt(m, path));
      assert k in InferredAt(m, path);
      forall j | 0 <= j < |m.inferred| && m.inferred[j].title.path == path
        ensures j == k
      {
        assert j in InferredAt(m, path);
      }
      assert SoleIdentityAt(m, k, path);
    }
  }

  // ----------------------------------------------------------------------- a video's own title

  lemma KeptCandidate(m: Inputs, v: VideoId)
    requires v in m.library.videos && InputsOk(m) && !m.library.videos[v].root
    requires KeptMembership(m.library, m.library.videos[v])
    ensures var t := m.library.videos[v].title.value;
      Candidate(m, m.library.videos[v]) == Some((t, m.library.titles[t].collection.value))
  {
  }

  lemma PathCandidate(m: Inputs, v: VideoId, t: TitleId)
    requires v in m.library.videos && InputsOk(m) && !m.library.videos[v].root
    requires !KeptMembership(m.library, m.library.videos[v])
    requires SoleTitleAt(m.library, t, m.hierarchy[m.library.videos[v].path].title.path)
    ensures var title := m.library.titles[t];
      Candidate(m, m.library.videos[v]) == Some((t,
        if title.collection.Some? && (title.manualOverride || title.verified) then title.collection.value
        else m.hierarchy[m.library.videos[v].path].collection.path))
  {
    SoleTitleIsFound(m, t, m.hierarchy[m.library.videos[v].path].title.path);
  }

  lemma NoCandidate(m: Inputs, v: VideoId)
    requires v in m.library.videos && InputsOk(m) && !m.library.videos[v].root
    requires !KeptMembership(m.library, m.library.videos[v])
    requires forall t :: !SoleTitleAt(m.library, t, m.hierarchy[m.library.videos[v].path].title.path)
    ensures Candidate(m, m.library.videos[v]) == None
  {
    OneLocatorIsSole(m, m.hierarchy[m.library.videos[v].path].title.path);
  }

  // ---------------------------------------------------------------------- undecided videos

  /** An overridden or verified stored membership wins over the path: the video stays in exactly that
      title and its collection. */
  lemma KeptMembershipStays(m: Inputs, v: VideoId)
    requires InputsOk(m) && v in m.library.videos && !Blocked(m, v) && Undecided(m, v) && !m.library.videos[v].root
    requires KeptMembership(m.library, m.library.videos[v])
    ensures var t := m.library.videos[v].title;
      IntentOf(m, v) == Ok(Intent(m.library.titles[t.value].collection, Some(Existing(t.value)), AutomaticPath))
  {
    KeptCandidate(m, v);
    PathChoice(m.library, m.library.videos[v], EvidenceOf(m, v));
  }

  /** Otherwise the one stored title at the inferred path takes the video: in its own collection when
      it is overridden or verified and has one, in the inferred collection when not. */
  lemma PathTitleIsTaken(m: Inputs, v: VideoId, t: TitleId)
    requires InputsOk(m) && v in m.library.videos && !Blocked(m, v) && Undecided(m, v) && !m.library.videos[v].root
    requires !KeptMembership(m.library, m.library.videos[v])
    requires SoleTitleAt(m.library, t, m.hierarchy[m.library.videos[v].path].title.path)
    ensures var title := m.library.titles[t];
      IntentOf(m, v) == Ok(Intent(
        if title.collection.Some? && (title.manualOverride || title.verified) then title.collection
        else Some(m.hierarchy[m.library.videos[v].path].collection.path),
        Some(Existing(t)), AutomaticPath))
  {
    PathCandidate(m, v, t);
    PathChoice(m.library, m.library.videos[v], EvidenceOf(m, v));
  }

  // Where an unblocked, undecided video of a directory goes when a stored title takes it: the title of
  // its kept membership, else the one at its path.
  ghost predicate GoesByRows(m: Inputs, v: VideoId, place: Option<string>, title: Option<TitleRef>)
    requires InputsOk(m) && v in m.library.videos
  {
    var s, video := m.library, m.library.videos[v];
    !Blocked(m, v) && Undecided(m, v) && !video.root ==>
      var path, inferred := m.hierarchy[video.path].title.path, m.hierarchy[video.path].collection.path;
      && (KeptMembership(s, video) ==>
            title == Some(Existing(video.title.value)) && place == s.titles[video.title.value].collection)
      && (!KeptMembership(s, video) ==> forall t :: SoleTitleAt(s, t, path) ==>
            && title == Some(Existing(t))
            && place == if s.titles[t].collection.Some? && (s.titles[t].manualOverride || s.titles[t].verified)
                        then s.titles[t].collection else Some(inferred))
  }

  lemma IntentGoesByRows(m: Inputs, v: VideoId)
    requires InputsOk(m) && v in m.library.videos && IntentOf(m, v).Ok?
    ensures GoesByRows(m, v, IntentOf(m, v).value.place, IntentOf(m, v).value.title)
  {
    var video := m.library.videos[v];
    if !Blocked(m, v) && Undecided(m, v) && !video.root {
      if KeptMembership(m.library, video) {
        KeptMembershipStays(m, v);
      } else {
        forall t | SoleTitleAt(m.library, t, m.hierarchy[video.path].title.path)
          ensures var title := m.library.titles[t];
            IntentOf(m, v) == Ok(Intent(
              if title.collection.Some? && (title.manualOverride || title.verified) then title.collection
              else Some(m.hierarchy[video.path].collection.path),
              Some(Existing(t)), AutomaticPath))
        {
          PathTitleIsTaken(m, v, t);
        }
      }
    }
  }

  lemma IntentsGoByRows(m: Inputs)
    requires InputsOk(m) && AllRouted(m)
    ensures forall v :: v in IntentsOf(m) ==> GoesByRows(m, v, IntentsOf(m)[v].place, IntentsOf(m)[v].title)
  {
    forall v | v in IntentsOf(m)
      ensures GoesByRows(m, v, IntentsOf(m)[v].place, IntentsOf(m)[v].title)
    {
      IntentGoesByRows(m, v);
    }
  }

  // Stays where it is although nothing decides it: a folded or supplementary video of a split collection.
  ghost predicate StaysPut(m: Inputs, v: VideoId)
    requires v in m.library.videos && InputsOk(m)
  {
    DecisionOf(m, v).Some? && (m.library.videos[v].collapses || m.library.videos[v].supplementary)
  }

  /** A path no stored title has gets a new title in the inferred collection: the planned reference
      names exactly the video's identity. */
  lemma FreePathIsPlanned(m: Inputs, v: VideoId)
    requires InputsOk(m) && v in m.library.videos && !Blocked(m, v) && Undecided(m, v) && !m.library.videos[v].root
    requires !KeptMembership(m.library, m.library.videos[v]) && !StaysPut(m, v)
    requires var path := m.hierarchy[m.library.videos[v].path].title.path;
      forall t :: t in m.library.titles ==> m.library.titles[t].locator != path
    ensures var identity := m.hierarchy[m.library.videos[v].path];
      exists k :: 1 <= k <= |m.inferred| && m.inferred[k - 1] == identity
        && IntentOf(m, v) == Ok(Intent(Some(identity.collection.path), Some(Planned(k)), AutomaticPath))
  {
    var identity := m.hierarchy[m.library.videos[v].path];
    NoCandidate(m, v);
    PathChoice(m.library, m.library.videos[v], EvidenceOf(m, v));
    assert Locators(m, identity.title.path) == {};
    var k := Token(m.inferred, identity);
    assert AutomaticRef(m, identity) == Ok(Planned(k));
    assert 1 <= k <= |m.inferred| && m.inferred[k - 1] == identity
      && IntentOf(m, v) == Ok(Intent(Some(identity.collection.path), Some(Planned(k)), AutomaticPath));
  }

  /** An undecided path that several stored titles have, or several identities with no title of its
      own, is evidence against itself: it is reported and blocks the apply. */
  lemma SharedPathIsReported(m: Inputs, preview: Preview, v: VideoId)
    requires InputsOk(m) && v in m.library.videos && Undecided(m, v) && !m.library.videos[v].root
    requires !KeptMembership(m.library, m.library.videos[v])
    requires var path := m.hierarchy[m.library.videos[v].path].title.path;
      && (forall t :: !SoleTitleAt(m.library, t, path))
      && ((exists t :: t in m.library.titles && m.library.titles[t].locator == path)
          || forall k :: !SoleIdentityAt(m, k, path))
    ensures Blocked(m, v) && LocatorCollision(v) in HardBlockers(m, preview)
  {
    var path := m.hierarchy[m.library.videos[v].path].title.path;
    NoCandidate(m, v);
    OneLocatorIsSole(m, path);
    if exists t :: t in m.library.titles && m.library.titles[t].locator == path {
      var t :| t in m.library.titles && m.library.titles[t].locator == path;
      assert t in Locators(m, path);
    } else {
      OneIdentityIsSole(m, path);
      var identity := m.hierarchy[m.library.videos[v].path];
      assert m.inferred[IndexOf(m.inferred, identity)] == identity;
      assert IndexOf(m.inferred, identity) in InferredAt(m, path);
    }
  }

  /** A folded or supplementary video of a split collection without any title of its own keeps its
      title only when that title lies in the collection it is grouped with. */
  lemma SupplementaryStays(m: Inputs, v: VideoId)
    requires InputsOk(m) && v in m.library.videos && !Blocked(m, v) && Undecided(m, v) && !m.library.videos[v].root
    requires !KeptMembership(m.library, m.library.videos[v]) && StaysPut(m, v)
    requires var path := m.hierarchy[m.library.videos[v].path].title.path; forall t :: !SoleTitleAt(m.library, t, path)
    ensures var video, place := m.library.videos[v], Preliminary(m, v);
      IntentOf(m, v) == Ok(Intent(place,
        if place.Some? && video.title.Some? && m.library.titles[video.title.value].collection == place
        then Some(Existing(video.title.value)) else None, Current))
  {
    NoCandidate(m, v);
    PathChoice(m.library, m.library.videos[v], EvidenceOf(m, v));
  }

  // ----------------------------------------------------------------------------- root videos

  // Where a video at the library's root belongs: its title's collection, else its own, the root aside.
  ghost predicate RootPlace(s: Library, video: Video, place: Option<string>)
    requires video.title.Some? ==> video.title.value in s.titles
  {
    var titled := if video.title.Some? then s.titles[video.title.value].collection else None;
    && (titled.Some? && titled.value != "." ==> place == titled)
    && (!(titled.Some? && titled.value != ".") && video.collection.Some? && video.collection.value != "." ==>
          place == video.collection)
    && (!(titled.Some? && titled.value != ".") && !(video.collection.Some? && video.collection.value != ".") ==> place == None)
  }

  /** An undecided root video stays in its title's collection, or else its own, and keeps its title
      exactly when the title lies there; one in no collection loses a title that has a collection. */
  lemma RootStays(m: Inputs, v: VideoId, place: Option<string>)
    requires InputsOk(m) && v in m.library.videos && !Blocked(m, v) && Undecided(m, v) && m.library.videos[v].root
    requires RootPlace(m.library, m.library.videos[v], place)
    ensures var video := m.library.videos[v];
      && IntentOf(m, v).Ok? && IntentOf(m, v).value.place == place
      && (place.Some? ==>
            IntentOf(m, v).value.title ==
            (if video.title.Some? && m.library.titles[video.title.value].collection == place
             then Some(Existing(video.title.value)) else None))
      && (place.None? && DecisionOf(m, v).None? ==> IntentOf(m, v).value.title == None)
      && IntentOf(m, v).value.reason == if place.Some? then RootPreserved else RootUnassigned
  {
    RootChoice(m.library, m.library.videos[v], EvidenceOf(m, v));
  }

  // -------------------------------------------------------------------------- decided videos

  /** A decision of the split rules overrides every path: a unique match sends the video to the matched
      title in the collection the rules were evaluated for; a conflict or no match leaves it there
      without a title. */
  lemma DecisionIsFollowed(m: Inputs, v: VideoId)
    requires InputsOk(m) && v in m.library.videos && !Blocked(m, v) && !Undecided(m, v)
    ensures var intent := IntentOf(m, v);
      && intent.Ok? && intent.value.place == Preliminary(m, v) && Preliminary(m, v).Some?
      && match DecisionOf(m, v).value
         case Unique(t) => intent.value.title == Some(Existing(t)) && intent.value.reason == ManualSplitUnique
         case Conflict => intent.value.title == None && intent.value.reason == ManualSplitConflict
         case Unmatched => intent.value.title == None && intent.value.reason == ManualSplitUnmatched
         case NotRequired => true
  {
    SplitTargetKnown(m, v);
  }

  /** Rules decide exactly the collections that have some: a video grouped with a stored collection in
      which a title has selectors or a split rule gets what evaluating its group says, and any other
      video is undecided. */
  lemma RulesDecide(m: Inputs, v: VideoId)
    requires InputsOk(m) && v in m.library.videos && !Blocked(m, v)
    ensures var place := Preliminary(m, v);
      if place.Some? && place.value in m.library.collections
         && exists t :: t in m.library.titles && m.library.titles[t].collection == place
              && (m.library.titles[t].selectors != {} || m.library.titles[t].splitRule)
      then
        var found := m.splitter.evaluate(place.value, set w | w in m.library.videos && Preliminary(m, w) == place);
        DecisionOf(m, v) == if v in found then Some(found[v]) else None
      else DecisionOf(m, v) == None
  {
    var place := Preliminary(m, v);
    if place.Some? {
      assert Group(m, place.value) == set w | w in m.library.videos && Preliminary(m, w) == place;
      assert v in Group(m, place.value);
      assert SplitTitles(m, place.value) != {} <==>
        exists t :: t in m.library.titles && m.library.titles[t].collection == place
          && (m.library.titles[t].selectors != {} || m.library.titles[t].splitRule) by {
        if t :| t in SplitTitles(m, place.value) {
          assert m.library.titles[t].collection == place && HasSelector(m.library.titles[t]);
        }
        if t :| t in m.library.titles && m.library.titles[t].collection == place
               && (m.library.titles[t].selectors != {} || m.library.titles[t].splitRule) {
          assert t in SplitTitles(m, place.value);
        }
      }
      DecidedInGroup(m, v, place.value);
    }
  }

  lemma DecidedInGroup(m: Inputs, v: VideoId, c: string)
    requires InputsOk(m) && v in m.library.videos && !Blocked(m, v) && Preliminary(m, v) == Some(c) && v in Group(m, c)
    ensures var found := m.splitter.evaluate(c, Group(m, c));
      DecisionOf(m, v) ==
        if c in m.library.collections && SplitTitles(m, c) != {} && v in found then Some(found[v]) else None
  {
    assert !BlockedPath(m, c);
    assert ReachesSplit(m, c) <==> c in m.library.collections && SplitTitles(m, c) != {};
    if ReachesSplit(m, c) {
      assert !MalformedSplit(m, c) && m.splitter.historical(c, Group(m, c)) == {};
    }
  }

  // ---------------------------------------------------------------------- preliminary places

  lemma SelectedPaths(m: Inputs, v: VideoId)
    ensures forall c :: c in ExplicitPaths(m, v) <==> SelectedIn(m.library, v, c)
  {
    forall c
      ensures c in ExplicitPaths(m, v) <==> SelectedIn(m.library, v, c)
    {
      if SelectedIn(m.library, v, c) {
        var t :| t in m.library.titles && v in m.library.titles[t].selectors && m.library.titles[t].collection == Some(c);
        assert t in ExplicitTargets(m, v);
      }
    }
  }

  lemma SelectedOnce(m: Inputs, v: VideoId)
    ensures |ExplicitPaths(m, v)| == 1 <==> exists c :: SelectedOnlyIn(m.library, v, c)
    ensures forall c :: SelectedOnlyIn(m.library, v, c) ==> ExplicitPaths(m, v) == {c}
  {
    SelectedPaths(m, v);
    forall c | SelectedOnlyIn(m.library, v, c)
      ensures ExplicitPaths(m, v) == {c}
    {
    }
    if |ExplicitPaths(m, v)| == 1 {
      var c := Only(ExplicitPaths(m, v));
      assert c in ExplicitPaths(m, v);
      assert SelectedOnlyIn(m.library, v, c);
    }
  }

  /** A video that titles of one collection select is grouped there, whatever its path says. */
  lemma SelectedPlace(m: Inputs, v: VideoId, c: string)
    requires InputsOk(m) && v in m.library.videos && SelectedOnlyIn(m.library, v, c)
    ensures Preliminary(m, v) == Some(c)
  {
    SelectedOnce(m, v);
  }

  /** Any other root video is grouped where it belongs. */
  lemma RootVideoPlace(m: Inputs, v: VideoId, place: Option<string>)
    requires InputsOk(m) && v in m.library.videos && m.library.videos[v].root
    requires (forall c :: !SelectedOnlyIn(m.library, v, c)) && RootPlace(m.library, m.library.videos[v], place)
    ensures Preliminary(m, v) == place
  {
    SelectedOnce(m, v);
  }

  // A video without a title in a stored collection whose split is in conflict.
  ghost predicate InConflict(s: Library, video: Video, c: string) {
    && video.title.None? && video.collection == Some(c) && c in s.collections && s.collections[c].hierarchy.status == "conflict"
    && exists t :: t in s.titles && s.titles[t].collection == Some(c) && (s.titles[t].selectors != {} || s.titles[t].splitRule)
  }

  lemma InConflictIff(m: Inputs, v: VideoId)
    requires InputsOk(m) && v in m.library.videos
    ensures var video := m.library.videos[v];
      LegacyConflict(m, video) == if video.collection.Some? && InConflict(m.library, video, video.collection.value)
        then video.collection else None
  {
    var s, video := m.library, m.library.videos[v];
    if video.title.None? && video.collection.Some? {
      var c := video.collection.value;
      if t :| t in s.titles && s.titles[t].collection == Some(c) && (s.titles[t].selectors != {} || s.titles[t].splitRule) {
        assert t in SplitTitles(m, c);
      }
      if t :| t in SplitTitles(m, c) {
        assert s.titles[t].collection == Some(c) && HasSelector(s.titles[t]);
      }
    }
  }

  /** Any other video is grouped, in this order, with its kept membership's collection, with the place of
      the one title at its path, with its collection when that is in conflict, or as inferred. */
  lemma PathVideoPlace(m: Inputs, v: VideoId)
    requires InputsOk(m) && v in m.library.videos && !m.library.videos[v].root
    requires forall c :: !SelectedOnlyIn(m.library, v, c)
    ensures var s, video := m.library, m.library.videos[v]; var identity := m.hierarchy[video.path];
      && (KeptMembership(s, video) ==> Preliminary(m, v) == s.titles[video.title.value].collection)
      && (!KeptMembership(s, video) ==> forall t :: SoleTitleAt(s, t, identity.title.path) ==>
            Preliminary(m, v) == if s.titles[t].collection.Some? && (s.titles[t].manualOverride || s.titles[t].verified)
              then s.titles[t].collection else Some(identity.collection.path))
      && (!KeptMembership(s, video) && (forall t :: !SoleTitleAt(s, t, identity.title.path)) ==>
            && (forall c :: InConflict(s, video, c) ==> Preliminary(m, v) == Some(c))
            && ((forall c :: !InConflict(s, video, c)) ==> Preliminary(m, v) == Some(identity.collection.path)))
  {
    var s, video := m.library, m.library.videos[v];
    var identity := m.hierarchy[video.path];
    SelectedOnce(m, v);
    InConflictIff(m, v);
    if KeptMembership(s, video) {
      KeptCandidate(m, v);
    } else if t :| SoleTitleAt(s, t, identity.title.path) {
      PathCandidate(m, v, t);
    } else {
      NoCandidate(m, v);
    }
  }

  // -------------------------------------------------------------------------- blocked videos

  /** A blocked video keeps the membership it has: its title and the title's collection, else its own
      collection, else the place it would be grouped with. */
  lemma BlockedStays(m: Inputs, v: VideoId)
    requires InputsOk(m) && v in m.library.videos && Blocked(m, v)
    ensures var video := m.library.videos[v];
      && IntentOf(m, v).Ok? && IntentOf(m, v).value.reason == Current
      && (video.title.Some? ==>
            && IntentOf(m, v).value.title == Some(Existing(video.title.value))
            && (m.library.titles[video.title.value].collection.Some? ==>
                  IntentOf(m, v).value.place == m.library.titles[video.title.value].collection))
      && (video.title.None? ==>
            && IntentOf(m, v).value.title == None
            && (video.collection.Some? ==> IntentOf(m, v).value.place == video.collection)
            && (video.collection.None? ==> IntentOf(m, v).value.place == Preliminary(m, v)))
  {
  }

  // The selectors of collection c contradict the library: one names no video, or one of its videos is
  // selected in another collection as well.
  ghost predicate ContradictedIn(s: Library, c: string) {
    || (exists t, v :: t in s.titles && v in s.titles[t].selectors && v !in s.videos && s.titles[t].collection == Some(c))
    || (exists v, d :: v in s.videos && SelectedIn(s, v, c) && SelectedIn(s, v, d) && d != c)
  }

  lemma ContradictedIff(m: Inputs, c: string)
    ensures BlockedByAuthority(m, c) <==> ContradictedIn(m.library, c)
  {
    var s := m.library;
    if v :| v in s.videos && AcrossCollections(m, v) && c in ExplicitPaths(m, v) {
      SelectedPaths(m, v);
      OtherPath(ExplicitPaths(m, v), c);
      var d :| d in ExplicitPaths(m, v) && d != c;
      assert SelectedIn(s, v, c) && SelectedIn(s, v, d);
    }
    if v, d :| v in s.videos && SelectedIn(s, v, c) && SelectedIn(s, v, d) && d != c {
      SelectedPaths(m, v);
      SeveralPaths(ExplicitPaths(m, v), c, d);
      assert AcrossCollections(m, v) && c in ExplicitPaths(m, v);
    }
  }

  lemma OtherPath<T>(s: set<T>, x: T)
    requires |s| > 1 && x in s
    ensures exists y :: y in s && y != x
  {
    assert |s - {x}| > 0;
    var y :| y in s - {x};
    assert y in s && y != x;
  }

  lemma SeveralPaths<T>(s: set<T>, x: T, y: T)
    requires x in s && y in s && x != y
    ensures |s| > 1
  {
    assert y in s - {x} && |s - {x}| == |s| - 1;
  }

  /** A video is selected across collections, which blocks it, exactly when two titles of different
      collections name it; a title without a collection that names it blocks it as well. */
  lemma SelectionBlocks(m: Inputs, v: VideoId)
    ensures AcrossCollections(m, v) <==> exists c, d :: SelectedIn(m.library, v, c) && SelectedIn(m.library, v, d) && c != d
    ensures Orphaned(m, v) <==>
      exists t :: t in m.library.titles && v in m.library.titles[t].selectors && m.library.titles[t].collection == None
  {
    SelectedPaths(m, v);
    var paths := ExplicitPaths(m, v);
    if |paths| > 1 {
      var c :| c in paths;
      OtherPath(paths, c);
      var d :| d in paths && d != c;
      assert SelectedIn(m.library, v, c) && SelectedIn(m.library, v, d);
    }
    if c, d :| SelectedIn(m.library, v, c) && SelectedIn(m.library, v, d) && c != d {
      SeveralPaths(paths, c, d);
    }
    if t :| t in m.library.titles && v in m.library.titles[t].selectors && m.library.titles[t].collection == None {
      assert t in ExplicitTargets(m, v);
    }
  }

  /** Contradicting selectors block every video grouped with their collection and are reported, each as
      what it is. */
  lemma ContradictionBlocks(m: Inputs, preview: Preview, v: VideoId, c: string)
    requires InputsOk(m) && v in m.library.videos && Preliminary(m, v) == Some(c) && ContradictedIn(m.library, c)
    ensures Blocked(m, v)
    ensures (exists t :: DanglingAuthority(t) in HardBlockers(m, preview))
      || exists w :: CrossCollectionAuthority(w) in HardBlockers(m, preview)
  {
    ContradictedIff(m, c);
    var s := m.library;
    if t, w :| t in s.titles && w in s.titles[t].selectors && w !in s.videos && s.titles[t].collection == Some(c) {
      assert DanglingAuthority(t) in AuthorityBlockers(m);
    } else {
      var w :| w in s.videos && AcrossCollections(m, w) && c in ExplicitPaths(m, w);
      assert CrossCollectionAuthority(w) in AuthorityBlockers(m);
    }
  }

  /** A video that two collections' titles select, or one without a collection does, is blocked, and the
      very reason is reported; so is every Recap the evaluation leaves outside a season. */
  lemma SelectionIsReported(m: Inputs, preview: Preview, v: VideoId)
    requires InputsOk(m) && v in m.library.videos
    ensures (exists c, d :: SelectedIn(m.library, v, c) && SelectedIn(m.library, v, d) && c != d) ==>
      Blocked(m, v) && CrossCollectionAuthority(v) in HardBlockers(m, preview)
    ensures (exists t :: t in m.library.titles && v in m.library.titles[t].selectors && m.library.titles[t].collection == None) ==>
      Blocked(m, v) && OrphanAuthority(v) in HardBlockers(m, preview)
    ensures v in preview.recaps ==> RecapOutsideSeason(v) in HardBlockers(m, preview)
  {
    SelectionBlocks(m, v);
  }

  // A title of collection c that carries selectors or a split rule.
  ghost predicate RuleTitle(s: Library, t: TitleId, c: string) {
    && t in s.titles && s.titles[t].collection == Some(c) && (s.titles[t].selectors != {} || s.titles[t].splitRule)
  }

  lemma RuleTitlesAre(m: Inputs, c: string)
    ensures forall t :: t in SplitTitles(m, c) <==> RuleTitle(m.library, t, c)
  {
  }

  /** A malformed rule of a stored collection blocks every video grouped there and is reported ... */
  lemma MalformedBlocks(m: Inputs, preview: Preview, v: VideoId, c: string, t: TitleId)
    requires InputsOk(m) && v in m.library.videos && Preliminary(m, v) == Some(c) && c in m.library.collections
    requires !ContradictedIn(m.library, c) && RuleTitle(m.library, t, c) && m.library.titles[t].malformedRule
    ensures Blocked(m, v) && MalformedRule(t) in HardBlockers(m, preview)
  {
    ContradictedIff(m, c);
    RuleTitlesAre(m, c);
    assert v in Group(m, c);
    assert ReachesSplit(m, c) && MalformedSplit(m, c);
    assert MalformedRule(t) in SplitBlockers(m);
  }

  /** ... and without one, a video that an old conflict left in the group blocks it and is reported. */
  lemma HistoricalBlocks(m: Inputs, preview: Preview, v: VideoId, c: string, t: TitleId, w: VideoId)
    requires InputsOk(m) && v in m.library.videos && Preliminary(m, v) == Some(c) && c in m.library.collections
    requires !ContradictedIn(m.library, c) && RuleTitle(m.library, t, c)
    requires forall u :: RuleTitle(m.library, u, c) ==> !m.library.titles[u].malformedRule
    requires w in m.splitter.historical(c, set x | x in m.library.videos && Preliminary(m, x) == Some(c))
    ensures Blocked(m, v) && HistoricalConflict(w) in HardBlockers(m, preview)
  {
    ContradictedIff(m, c);
    RuleTitlesAre(m, c);
    assert Group(m, c) == set x | x in m.library.videos && Preliminary(m, x) == Some(c);
    assert v in Group(m, c);
    assert ReachesSplit(m, c) && !MalformedSplit(m, c);
    assert HistoricalConflict(w) in SplitBlockers(m);
  }

  // ------------------------------------------------------------------------------- the plan

  /** The plan assigns every video of the library, and no other, as its intent says. */
  lemma PlanFollowsIntents(m: Inputs, preview: Preview, p: Plan, v: VideoId)
    requires InputsOk(m) && AllRouted(m) && IsPlan(m, preview, p)
    ensures v in p.assignments <==> v in m.library.videos
    ensures v in p.assignments ==> p.assignments[v] == Assignment(IntentOf(m, v).value.place, IntentOf(m, v).value.title)
  {
  }

  // No rule names the video, and no title of collection c has rules.
  ghost predicate NoRules(s: Library, v: VideoId, c: string) {
    && (forall t :: t in s.titles ==> v !in s.titles[t].selectors)
    && (forall t :: t in s.titles && s.titles[t].collection == Some(c) ==>
          s.titles[t].selectors == {} && !s.titles[t].splitRule)
  }

  lemma NoRulesNoDecision(m: Inputs, v: VideoId, c: string)
    requires InputsOk(m) && v in m.library.videos && Preliminary(m, v) == Some(c) && NoRules(m.library, v, c)
    ensures Undecided(m, v)
  {
    if t :| t in SplitTitles(m, c) {
      assert false;
    }
    assert !ReachesSplit(m, c);
  }

  /** In a plan that may be applied, an overridden or verified membership in a collection without rules
      is the membership the video gets, whatever its path says. */
  lemma PlanKeepsMembership(m: Inputs, preview: Preview, p: Plan, v: VideoId)
    requires InputsOk(m) && AllRouted(m) && IsPlan(m, preview, p) && p.hardBlockers == {}
    requires v in m.library.videos && !m.library.videos[v].root && KeptMembership(m.library, m.library.videos[v])
    requires NoRules(m.library, v, m.library.titles[m.library.videos[v].title.value].collection.value)
    ensures var t := m.library.videos[v].title.value;
      v in p.assignments && p.assignments[v] == Assignment(m.library.titles[t].collection, Some(Existing(t)))
  {
    forall c
      ensures !SelectedOnlyIn(m.library, v, c)
    {
    }
    PathVideoPlace(m, v);
    NoRulesNoDecision(m, v, m.library.titles[m.library.videos[v].title.value].collection.value);
    if Blocked(m, v) {
      BlockedMembershipBlocksApply(m, preview, v);
    }
    KeptMembershipStays(m, v);
    PlanFollowsIntents(m, preview, p, v);
  }

  /** ... and without such a membership the one stored title at the inferred path is what it gets. */
  lemma PlanFollowsPath(m: Inputs, preview: Preview, p: Plan, v: VideoId, t: TitleId)
    requires InputsOk(m) && AllRouted(m) && IsPlan(m, preview, p) && p.hardBlockers == {}
    requires v in m.library.videos && !m.library.videos[v].root && !KeptMembership(m.library, m.library.videos[v])
    requires SoleTitleAt(m.library, t, m.hierarchy[m.library.videos[v].path].title.path)
    requires forall c :: NoRules(m.library, v, c)
    ensures var title := m.library.titles[t];
      v in p.assignments && p.assignments[v] == Assignment(
        if title.collection.Some? && (title.manualOverride || title.verified) then title.collection
        else Some(m.hierarchy[m.library.videos[v].path].collection.path),
        Some(Existing(t)))
  {
    assert NoRules(m.library, v, "");
    forall c
      ensures !SelectedOnlyIn(m.library, v, c)
    {
    }
    PathVideoPlace(m, v);
    NoRulesNoDecision(m, v, Preliminary(m, v).value);
    if Blocked(m, v) {
      BlockedMembershipBlocksApply(m, preview, v);
    }
    PathTitleIsTaken(m, v, t);
    PlanFollowsIntents(m, preview, p, v);
  }

  // A title that is more than what its path says about it, or that some video is assigned to.
  ghost predicate MustStay(p: Plan, t: TitleId)
    requires t in p.source.titles
  {
    var title := p.source.titles[t];
    || title.manualOverride || title.verified || title.selectors != {} || title.variantGroups != {} || title.userData != {}
    || exists v :: v in p.assignments && p.assignments[v].title == Some(Existing(t))
  }

  lemma ItemOfTitle(m: Inputs, preview: Preview, p: Plan, t: TitleId)
    requires InputsOk(m) && AllRouted(m) && IsPlan(m, preview, p) && t in p.source.titles
    ensures Existing(t) in p.titles
    ensures p.titles[Existing(t)].desired.Some? <==> MustStay(p, t)
    ensures MustStay(p, t) ==>
      p.titles[Existing(t)].desired == Some(DesiredTitle(m, Existing(t), ExistingSpec(m, m.library.titles[t])))
    ensures p.titles[Existing(t)].action ==
      ActionFor(Some(SnapshotOfTitle(m.library.titles[t])), p.titles[Existing(t)].desired)
  {
    var intents := IntentsOf(m);
    SpecRefsExist(m, intents);
    SpecifiedIff(m, intents, t);
    RequiredIff(intents, p, Existing(t));
    TitleItemCovers(m, TitleSpecs(m, intents), Existing(t));
  }

  lemma SpecOfSole(m: Inputs, t: TitleId, k: nat)
    requires t in m.library.titles
    requires SoleTitleAt(m.library, t, m.library.titles[t].locator) && SoleIdentityAt(m, k, m.library.titles[t].locator)
    ensures var title := m.library.titles[t];
      ExistingSpec(m, title) ==
        if title.manualOverride || title.verified then
          TitleSpec(None, if title.collection.Some? then title.collection else Some(m.inferred[k].collection.path))
        else TitleSpec(Some(m.inferred[k].title), Some(m.inferred[k].collection.path))
  {
    SoleTitleIsFound(m, t, m.library.titles[t].locator);
    SoleIdentityIsFound(m, k, m.library.titles[t].locator);
  }

  lemma SpecOfOther(m: Inputs, t: TitleId)
    requires t in m.library.titles
    requires var path := m.library.titles[t].locator;
      (forall u :: !SoleTitleAt(m.library, u, path)) || forall k :: !SoleIdentityAt(m, k, path)
    ensures ExistingSpec(m, m.library.titles[t]) == TitleSpec(None, m.library.titles[t].collection)
  {
    OneLocatorIsSole(m, m.library.titles[t].locator);
    OneIdentityIsSole(m, m.library.titles[t].locator);
  }

  function AsStored(title: Title): TitleSnapshot {
    TitleSnapshot(title.locator, title.collection, title.facts)
  }

  /** A stored title is removed exactly when it has no authority or user data and no video is assigned
      to it; one that stays is updated exactly when something about it changes. */
  lemma TitleStaysIff(m: Inputs, preview: Preview, p: Plan, t: TitleId)
    requires InputsOk(m) && AllRouted(m) && IsPlan(m, preview, p) && t in p.source.titles
    ensures Existing(t) in p.titles
    ensures !MustStay(p, t) ==> p.titles[Existing(t)] == TitleItem(Remove, None)
    ensures MustStay(p, t) ==>
      && p.titles[Existing(t)].desired.Some?
      && p.titles[Existing(t)].action ==
         if p.titles[Existing(t)].desired.value == AsStored(p.source.titles[t]) then Preserve else Update
  {
    ItemOfTitle(m, preview, p, t);
  }

  /** A title whose locator belongs to it and to one identity alone is rewritten from that identity,
      unless it is overridden or verified: then only a missing collection is filled in. */
  lemma SoleTitleOutcome(m: Inputs, preview: Preview, p: Plan, t: TitleId, k: nat)
    requires InputsOk(m) && AllRouted(m) && IsPlan(m, preview, p) && t in m.library.titles && t in p.source.titles && MustStay(p, t)
    requires SoleTitleAt(m.library, t, m.library.titles[t].locator) && SoleIdentityAt(m, k, m.library.titles[t].locator)
    ensures Existing(t) in p.titles
    ensures var title := m.library.titles[t];
      p.titles[Existing(t)].desired == Some(
        if title.manualOverride || title.verified then
          if title.collection.Some? then AsStored(title)
          else AsStored(title).(collection := Some(m.inferred[k].collection.path))
        else TitleSnapshot(title.locator, Some(m.inferred[k].collection.path), m.inferred[k].title.facts))
  {
    ItemOfTitle(m, preview, p, t);
    SpecOfSole(m, t, k);
  }

  /** A title that shares its locator, or whose locator no identity or several have, keeps all it has. */
  lemma OtherTitleOutcome(m: Inputs, preview: Preview, p: Plan, t: TitleId)
    requires InputsOk(m) && AllRouted(m) && IsPlan(m, preview, p) && t in m.library.titles && t in p.source.titles && MustStay(p, t)
    requires var path := m.library.titles[t].locator;
      (forall u :: !SoleTitleAt(m.library, u, path)) || forall k :: !SoleIdentityAt(m, k, path)
    ensures Existing(t) in p.titles
    ensures p.titles[Existing(t)].desired == Some(AsStored(m.library.titles[t]))
  {
    ItemOfTitle(m, preview, p, t);
    SpecOfOther(m, t);
  }

  lemma PlannedItem(m: Inputs, specs: map<TitleRef, TitleSpec>, k: nat)
    requires SpecsOk(m, specs) && (Planned(k) in specs ==> 1 <= k <= |m.inferred| && specs[Planned(k)] == SpecOf(m, Planned(k)))
    ensures Planned(k) in TitleItems(m, specs) <==> Planned(k) in specs
    ensures Planned(k) in specs ==> var identity := m.inferred[k - 1];
      TitleItems(m, specs)[Planned(k)] ==
        TitleItem(Create, Some(TitleSnapshot(identity.title.path, Some(identity.collection.path), identity.title.facts)))
  {
  }

  lemma PlannedSpec(m: Inputs, intents: Intents, k: nat)
    requires RequiredTitles(intents) <= TitleSpecs(m, intents).Keys
    ensures Planned(k) in TitleSpecs(m, intents) <==> Planned(k) in RequiredTitles(intents)
    ensures Planned(k) in TitleSpecs(m, intents) ==>
      1 <= k <= |m.inferred| && TitleSpecs(m, intents)[Planned(k)] == SpecOf(m, Planned(k))
  {
  }

  /** A new title is planned exactly for the references some video is assigned to, and it is created
      with the path, the facts and the collection of the identity its number names. */
  lemma PlannedTitleOutcome(m: Inputs, preview: Preview, p: Plan, k: nat)
    requires InputsOk(m) && AllRouted(m) && IsPlan(m, preview, p)
    ensures Planned(k) in p.titles <==> exists v :: v in p.assignments && p.assignments[v].title == Some(Planned(k))
    ensures Planned(k) in p.titles ==> 1 <= k <= |m.inferred| && var identity := m.inferred[k - 1];
      p.titles[Planned(k)] ==
        TitleItem(Create, Some(TitleSnapshot(identity.title.path, Some(identity.collection.path), identity.title.facts)))
  {
    var intents := IntentsOf(m);
    RequiredTitlesAreSpecified(m);
    PlannedSpec(m, intents, k);
    PlannedItem(m, TitleSpecs(m, intents), k);
    RequiredIff(intents, p, Planned(k));
  }

  // A collection that somebody decided something about, or that the plan puts something in.
  ghost predicate MustRemain(p: Plan, c: string) {
    || (c in p.source.collections && var stored := p.source.collections[c];
          || stored.displayTitle.Some? || stored.namingChoice || stored.hierarchy.verified
          || stored.hierarchy.status != "automatic" || stored.hierarchy.note.Some?)
    || (exists v :: v in p.assignments && p.assignments[v].place == Some(c))
    || (exists r :: r in p.titles && p.titles[r].desired.Some? && p.titles[r].desired.value.collection == Some(c))
  }

  lemma RemainsIff(m: Inputs, preview: Preview, p: Plan, c: string)
    requires InputsOk(m) && AllRouted(m) && IsPlan(m, preview, p)
    ensures var intents := IntentsOf(m);
      c in KeptPlaces(m, intents, TitleSpecs(m, intents)) <==> MustRemain(p, c)
  {
    var intents := IntentsOf(m);
    var specs := TitleSpecs(m, intents);
    SpecRefsExist(m, intents);
    PlacesAreKept(m);
    RemainsLocally(m, intents, specs, p, c);
  }

  lemma RemainsLocally(m: Inputs, intents: Intents, specs: map<TitleRef, TitleSpec>, p: Plan, c: string)
    requires SpecsOk(m, specs) && RefsExist(m, specs) && p.titles == TitleItems(m, specs)
    requires p.assignments == Assignments(intents) && p.source == m.library
    requires forall v :: v in intents && intents[v].place.Some? ==> intents[v].place.value in KeptPlaces(m, intents, specs)
    requires forall r :: r in specs && specs[r].collection.Some? ==> specs[r].collection.value in KeptPlaces(m, intents, specs)
    ensures c in KeptPlaces(m, intents, specs) <==> MustRemain(p, c)
  {
    PlaceUsedIff(intents, p, c);
    PlaceHeldIff(m, specs, p, c);
    if c in KeptPlaces(m, intents, specs) && (c !in m.library.collections || !HasUserState(m.library.collections[c])) {
      assert (exists v :: v in intents && intents[v].place == Some(c)) || exists r :: r in specs && specs[r].collection == Some(c);
    }
  }

  /** What becomes of a collection: it remains exactly when somebody decided something about it or the
      plan puts a video or a title in it; then it takes the inferred facts, when there are some, and the
      evaluated hierarchy state, when there is one, and keeps what it has otherwise. */
  lemma CollectionOutcome(m: Inputs, preview: Preview, p: Plan, c: string)
    requires InputsOk(m) && AllRouted(m) && IsPlan(m, preview, p)
    ensures c in p.collections <==> c in m.library.collections || MustRemain(p, c)
    ensures c in p.collections && !MustRemain(p, c) ==> p.collections[c] == CollectionItem(Remove, None)
    ensures MustRemain(p, c) && c in m.library.collections ==>
      && p.collections[c].desired.Some?
      && var stored, item := m.library.collections[c], p.collections[c];
         && item.desired.value.facts == (if c in m.parsed then m.parsed[c].facts else stored.facts)
         && item.desired.value.hierarchy == (if c in preview.hierarchy then preview.hierarchy[c] else stored.hierarchy)
         && (item.action == Preserve <==> item.desired.value == CollectionSnapshot(stored.facts, stored.hierarchy))
         && (item.action != Preserve ==> item.action == Update)
    ensures MustRemain(p, c) && c !in m.library.collections ==>
      && c in m.parsed && p.collections[c].action == Create && p.collections[c].desired.Some?
      && p.collections[c].desired.value.facts == m.parsed[c].facts
      && p.collections[c].desired.value.hierarchy ==
         if c in preview.hierarchy then preview.hierarchy[c] else HierarchyState("automatic", None, false)
  {
    RemainsIff(m, preview, p, c);
  }

  /** Numbering is planned exactly for the videos whose evaluation differs from what is stored. */
  lemma NumberingOutcome(m: Inputs, preview: Preview, p: Plan, v: VideoId)
    requires InputsOk(m) && AllRouted(m) && IsPlan(m, preview, p)
    ensures v in p.numbering <==>
      v in m.library.videos && v in preview.numbering && preview.numbering[v] != m.library.videos[v].numbering
    ensures v in p.numbering ==> p.numbering[v] == preview.numbering[v]
  {
  }
}
