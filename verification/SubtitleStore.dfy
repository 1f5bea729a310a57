/**
 The consolidation loops over the stored assets: group by path, choose each keeper, move or merge
 the duplicates' rows, delete the duplicates and count them.
*/
module SubtitleStore {
  import opened Basics
  import opened SubtitleCompatibility
  import opened SubtitleConsolidation

  // ------------------------------------------------------------------------------- grouping

  // The assets in the query's order.
  ghost predicate Listing(s: Legacy, order: seq<AssetId>) {
    Distinct(order) && forall a :: a in order <==> a in s.assets
  }

  function OnPath(s: Legacy, order: seq<AssetId>, p: string): seq<AssetId>
    requires forall i :: 0 <= i < |order| ==> order[i] in s.assets
  {
    if order == [] then []
    else
      var rest := OnPath(s, order[..|order| - 1], p);
      if s.assets[order[|order| - 1]].path == p then rest + [order[|order| - 1]] else rest
  }

  lemma {:induction false} OnPathIff(s: Legacy, order: seq<AssetId>, p: string)
    requires Distinct(order) && forall i :: 0 <= i < |order| ==> order[i] in s.assets
    ensures Distinct(OnPath(s, order, p))
    ensures forall a :: a in OnPath(s, order, p) <==> a in order && s.assets[a].path == p
  {
    if order != [] {
      var front, last := order[..|order| - 1], order[|order| - 1];
      OnPathIff(s, front, p);
      assert order == front + [last];
    }
  }

  function Paths(s: Legacy): set<string> {
    set a | a in s.assets :: s.assets[a].path
  }

  method GroupByPath(s: Legacy, order: seq<AssetId>) returns (groups: map<string, seq<AssetId>>)
    requires Listing(s, order)
    ensures groups.Keys == Paths(s)
    ensures forall p :: p in groups ==> groups[p] == OnPath(s, order, p) && groups[p] != []
  {
    groups := map[];
    for i := 0 to |order|
      invariant forall p :: p in groups <==> OnPath(s, order[..i], p) != []
      invariant forall p :: p in groups ==> groups[p] == OnPath(s, order[..i], p)
    {
      assert order[..i + 1][..i] == order[..i];
      var p := s.assets[order[i]].path;
      groups := groups[p := (if p in groups then groups[p] else []) + [order[i]]];
    }
    assert order[..|order|] == order;
    forall p
      ensures p in groups <==> p in Paths(s)
    {
      OnPathIff(s, order, p);
      if p in groups {
        assert OnPath(s, order, p)[0] in OnPath(s, order, p);
      }
    }
  }

  // ---------------------------------------------------------------------------- local changes

  // The group's entries are the same in both states.
  ghost predicate SameOn(s: Legacy, t: Legacy, ids: seq<AssetId>)
    requires LegacyOk(s) && LegacyOk(t) && Known(s, ids)
  {
    forall i :: 0 <= i < |ids| ==>
      ids[i] in t.assets && t.assets[ids[i]] == s.assets[ids[i]] && t.judgements[ids[i]] == s.judgements[ids[i]]
  }

  lemma {:induction false} SameKeeper(s: Legacy, t: Legacy, ids: seq<AssetId>)
    requires LegacyOk(s) && LegacyOk(t) && Known(s, ids) && SameOn(s, t, ids) && ids != []
    ensures Known(t, ids) && Keeper(t, ids) == Keeper(s, ids)
  {
    if |ids| > 1 {
      SameKeeper(s, t, ids[..|ids| - 1]);
    }
  }

  lemma {:induction false} SameMerge(s: Legacy, t: Legacy, keeper: AssetId, ids: seq<AssetId>)
    requires LegacyOk(s) && LegacyOk(t) && Known(s, ids) && SameOn(s, t, ids) && keeper in s.assets && keeper in t.assets
    requires t.assets[keeper] == s.assets[keeper] && t.judgements[keeper] == s.judgements[keeper]
    ensures Known(t, ids) && MergeAll(t, keeper, ids) == MergeAll(s, keeper, ids)
  {
    if ids != [] {
      SameMerge(s, t, keeper, ids[..|ids| - 1]);
    }
  }

  // The rows after the videos outside `todo` are moved or merged.
  ghost predicate RowsMerged(kept: Judgements, added: Judgements, todo: set<VideoId>, existing: Judgements) {
    && existing.Keys == kept.Keys + (added.Keys - todo)
    && (forall v :: v in existing ==> existing[v] == if v in todo then kept[v] else MergedJudgements(kept, added)[v])
    && (forall v :: v in added && v !in todo && v in kept ==> !Opposite(kept[v], added[v]))
  }

  lemma RowStep(kept: Judgements, added: Judgements, todo: set<VideoId>, existing: Judgements, v: VideoId)
    requires RowsMerged(kept, added, todo, existing) && v in todo && v in added
    ensures v in existing <==> v in kept
    ensures v in kept ==> existing[v] == kept[v]
    ensures v !in kept ==> RowsMerged(kept, added, todo - {v}, existing[v := added[v]])
    ensures v in kept && !Opposite(kept[v], added[v]) ==>
      RowsMerged(kept, added, todo - {v},
                 if Human(added[v].status) && !Human(kept[v].status) then existing[v := added[v]] else existing)
  {
  }

  // Move one row of the duplicate, merge it with the keeper's, or find the decisions opposite.
  method MergeRow(kept: Judgements, added: Judgements, ghost todo: set<VideoId>, existing: Judgements, v: VideoId)
    returns (clash: bool, existing': Judgements)
    requires RowsMerged(kept, added, todo, existing) && v in todo && v in added
    ensures clash <==> v in kept && Opposite(kept[v], added[v])
    ensures !clash ==> RowsMerged(kept, added, todo - {v}, existing')
  {
    RowStep(kept, added, todo, existing, v);
    clash, existing' := false, existing;
    if v !in existing {
      existing' := existing[v := added[v]];
    } else if Opposite(existing[v], added[v]) {
      clash := true;
    } else if Human(added[v].status) && !Human(existing[v].status) {
      existing' := existing[v := added[v]];
    }
  }

  lemma ClashWitness(kept: Judgements, added: Judgements, v: VideoId)
    requires v in kept && v in added && Opposite(kept[v], added[v])
    ensures Clash(kept, added)
  {
  }

  lemma AllRowsMerged(kept: Judgements, added: Judgements, existing: Judgements)
    requires RowsMerged(kept, added, {}, existing)
    ensures existing == MergedJudgements(kept, added) && !Clash(kept, added)
  {
  }

  method MergeRows(kept: Judgements, added: Judgements) returns (r: Result<Judgements, ConsolidationError>)
    ensures r.Ok? <==> !Clash(kept, added)
    ensures r.Ok? ==> r.value == MergedJudgements(kept, added)
    ensures r.Err? ==> r.error == OppositeDecisions
  {
    var existing := kept;
    var todo := added.Keys;
    while todo != {}
      invariant todo <= added.Keys && RowsMerged(kept, added, todo, existing)
      decreases |todo|
    {
      var v :| v in todo;
      var clash;
      clash, existing := MergeRow(kept, added, todo, existing, v);
      if clash {
        ClashWitness(kept, added, v);
        return Err(OppositeDecisions);
      }
      todo := todo - {v};
    }
    AllRowsMerged(kept, added, existing);
    r := Ok(existing);
  }

  // --------------------------------------------------------------------------- whole states

  // The state once the first n assets of a group are merged into its keeper.
  ghost predicate GroupMerged(s: Legacy, keeper: AssetId, ids: seq<AssetId>, t: Legacy)
    requires LegacyOk(s) && keeper in s.assets && Known(s, ids)
  {
    && LegacyOk(t)
    && (forall a :: a in t.assets <==> a in s.assets && (a in ids ==> a == keeper))
    && (forall a :: a in t.assets && a != keeper ==> t.assets[a] == s.assets[a] && t.judgements[a] == s.judgements[a])
    && MergeAll(s, keeper, ids).Ok?
    && t.assets[keeper] == s.assets[keeper].(manualLanguage := MergeAll(s, keeper, ids).value.language)
    && t.judgements[keeper] == MergeAll(s, keeper, ids).value.judgements
  }

  // The state once the paths outside `todo` are consolidated.
  ghost predicate PathSettled(s: Legacy, order: seq<AssetId>, p: string, t: Legacy)
    requires LegacyOk(s) && Listing(s, order) && LegacyOk(t)
  {
    var ids := OnPath(s, order, p);
    && ids != [] && PathKnown(s, order, p)
    && var keeper := Keeper(s, ids);
    && MergeAll(s, keeper, ids).Ok?
    && keeper in t.assets
    && t.assets[keeper] == s.assets[keeper].(manualLanguage := MergeAll(s, keeper, ids).value.language)
    && t.judgements[keeper] == MergeAll(s, keeper, ids).value.judgements
    && forall a :: a in ids && a in t.assets ==> a == keeper
  }

  ghost predicate PathKnown(s: Legacy, order: seq<AssetId>, p: string)
    requires Listing(s, order)
  {
    Known(s, OnPath(s, order, p))
  }

  lemma PathIsKnown(s: Legacy, order: seq<AssetId>, p: string)
    requires Listing(s, order)
    ensures PathKnown(s, order, p)
  {
    OnPathIff(s, order, p);
    forall i | 0 <= i < |OnPath(s, order, p)|
      ensures OnPath(s, order, p)[i] in s.assets
    {
      assert OnPath(s, order, p)[i] in OnPath(s, order, p);
    }
  }

  ghost predicate PathAsBefore(s: Legacy, order: seq<AssetId>, p: string, t: Legacy)
    requires LegacyOk(s) && Listing(s, order) && LegacyOk(t)
  {
    PathKnown(s, order, p) && SameOn(s, t, OnPath(s, order, p))
  }

  ghost predicate Partway(s: Legacy, order: seq<AssetId>, todo: set<string>, t: Legacy)
    requires LegacyOk(s) && Listing(s, order)
  {
    && LegacyOk(t) && t.assets.Keys <= s.assets.Keys
    && (forall p :: p in Paths(s) && p !in todo ==> PathSettled(s, order, p, t))
    && (forall p :: p in Paths(s) && p in todo ==> PathAsBefore(s, order, p, t))
  }

  // No path has opposite decisions for one video or two manual languages.
  ghost predicate Mergeable(s: Legacy, a: AssetId, b: AssetId)
    requires LegacyOk(s) && a in s.assets && b in s.assets
  {
    s.assets[a].path == s.assets[b].path ==> Agree(s, a, b)
  }

  ghost predicate NoConflict(s: Legacy)
    requires LegacyOk(s)
  {
    forall a, b :: a in s.assets && b in s.assets ==> Mergeable(s, a, b)
  }

  ghost predicate PathCanMerge(s: Legacy, order: seq<AssetId>, p: string)
    requires LegacyOk(s) && Listing(s, order)
  {
    && PathKnown(s, order, p) && OnPath(s, order, p) != []
    && MergeAll(s, Keeper(s, OnPath(s, order, p)), OnPath(s, order, p)).Ok?
  }

  lemma PathMerges(s: Legacy, order: seq<AssetId>, p: string)
    requires LegacyOk(s) && Listing(s, order) && NoConflict(s) && OnPath(s, order, p) != []
    ensures PathCanMerge(s, order, p)
  {
    var ids := OnPath(s, order, p);
    PathIsKnown(s, order, p);
    OnPathIff(s, order, p);
    var keeper := Keeper(s, ids);
    MergeAllIff(s, keeper, ids);
    forall a, b | Among(keeper, ids, a) && Among(keeper, ids, b) && a in s.assets && b in s.assets
      ensures Agree(s, a, b)
    {
      assert Mergeable(s, a, b);
    }
  }

  lemma MergedPathsAgree(s: Legacy, order: seq<AssetId>)
    requires LegacyOk(s) && Listing(s, order)
    requires forall p :: p in Paths(s) ==> PathCanMerge(s, order, p)
    ensures NoConflict(s)
  {
    forall a, b | a in s.assets && b in s.assets
      ensures Mergeable(s, a, b)
    {
      var p := s.assets[a].path;
      if s.assets[b].path == p {
        assert p in Paths(s);
        var ids := OnPath(s, order, p);
        OnPathIff(s, order, p);
        MergeAllIff(s, Keeper(s, ids), ids);
        assert Among(Keeper(s, ids), ids, a) && Among(Keeper(s, ids), ids, b);
      }
    }
  }

  // ------------------------------------------------------------------------------- the steps

  lemma KeeperStep(s: Legacy, keeper: AssetId, ids: seq<AssetId>, t: Legacy)
    requires LegacyOk(s) && keeper in s.assets && Known(s, ids) && ids != [] && ids[|ids| - 1] == keeper
    requires GroupMerged(s, keeper, ids[..|ids| - 1], t)
    ensures GroupMerged(s, keeper, ids, t)
  {
    assert ids == ids[..|ids| - 1] + [keeper];
  }

  function DuplicateMerge(t: Legacy, keeper: AssetId, d: AssetId): Result<Merge, ConsolidationError>
    requires LegacyOk(t) && keeper in t.assets && d in t.assets
  {
    MergeOne(Own(t, keeper), t.judgements[d], t.assets[d].manualLanguage)
  }

  function WithoutDuplicate(t: Legacy, keeper: AssetId, d: AssetId, m: Merge): Legacy
    requires LegacyOk(t) && keeper in t.assets
  {
    Legacy(
      (t.assets - {d})[keeper := t.assets[keeper].(manualLanguage := m.language)],
      (t.judgements - {d})[keeper := m.judgements])
  }

  lemma DuplicateIsNext(s: Legacy, keeper: AssetId, front: seq<AssetId>, d: AssetId, t: Legacy)
    requires LegacyOk(s) && keeper in s.assets && Known(s, front) && d in s.assets && d !in front && d != keeper
    requires GroupMerged(s, keeper, front, t)
    ensures keeper in t.assets && d in t.assets
    ensures t.judgements[d] == s.judgements[d] && t.assets[d] == s.assets[d]
    ensures Own(t, keeper) == MergeAll(s, keeper, front).value
  {
  }

  lemma DuplicateMerged(s: Legacy, keeper: AssetId, ids: seq<AssetId>, t: Legacy, m: Merge)
    requires LegacyOk(s) && keeper in s.assets && Known(s, ids) && ids != [] && ids[|ids| - 1] != keeper
    requires GroupMerged(s, keeper, ids[..|ids| - 1], t) && MergeAll(s, keeper, ids) == Ok(m)
    ensures GroupMerged(s, keeper, ids, WithoutDuplicate(t, keeper, ids[|ids| - 1], m))
  {
    InWithLast(ids);
  }

  lemma InWithLast(ids: seq<AssetId>)
    requires ids != []
    ensures forall a :: a in ids <==> a in ids[..|ids| - 1] || a == ids[|ids| - 1]
  {
    assert ids == ids[..|ids| - 1] + [ids[|ids| - 1]];
  }

  lemma DuplicateStep(s: Legacy, keeper: AssetId, ids: seq<AssetId>, t: Legacy)
    requires LegacyOk(s) && keeper in s.assets && Known(s, ids) && Distinct(ids) && ids != [] && ids[|ids| - 1] != keeper
    requires GroupMerged(s, keeper, ids[..|ids| - 1], t)
    ensures keeper in t.assets && ids[|ids| - 1] in t.assets
    ensures DuplicateMerge(t, keeper, ids[|ids| - 1]) == MergeAll(s, keeper, ids)
  {
    DuplicateIsNext(s, keeper, ids[..|ids| - 1], ids[|ids| - 1], t);
  }

  lemma {:induction false} MergeStopsAtFirst(s: Legacy, keeper: AssetId, ids: seq<AssetId>, i: nat)
    requires LegacyOk(s) && keeper in s.assets && Known(s, ids) && i <= |ids|
    requires MergeAll(s, keeper, ids[..i]).Err?
    ensures MergeAll(s, keeper, ids).Err?
    decreases |ids|
  {
    if i < |ids| {
      assert ids[..|ids| - 1][..i] == ids[..i];
      MergeStopsAtFirst(s, keeper, ids[..|ids| - 1], i);
    } else {
      assert ids[..i] == ids;
    }
  }

  lemma OtherPathsDisjoint(s: Legacy, order: seq<AssetId>, p: string, q: string, a: AssetId)
    requires Listing(s, order) && p != q && a in OnPath(s, order, p)
    ensures a !in OnPath(s, order, q)
  {
    OnPathIff(s, order, p);
    OnPathIff(s, order, q);
  }

  lemma PathFinished(s: Legacy, order: seq<AssetId>, p: string, t: Legacy, t': Legacy)
    requires LegacyOk(s) && Listing(s, order) && LegacyOk(t) && OnPath(s, order, p) != [] && PathAsBefore(s, order, p, t)
    requires Known(t, OnPath(s, order, p)) && GroupMerged(t, Keeper(t, OnPath(s, order, p)), OnPath(s, order, p), t')
    ensures PathSettled(s, order, p, t')
  {
    var ids := OnPath(s, order, p);
    SameKeeper(s, t, ids);
    SameMerge(s, t, Keeper(s, ids), ids);
  }

  lemma OtherPathKept(s: Legacy, order: seq<AssetId>, p: string, q: string, t: Legacy, t': Legacy)
    requires LegacyOk(s) && Listing(s, order) && LegacyOk(t) && OnPath(s, order, p) != [] && p != q
    requires Known(t, OnPath(s, order, p)) && GroupMerged(t, Keeper(t, OnPath(s, order, p)), OnPath(s, order, p), t')
    ensures PathSettled(s, order, q, t) ==> PathSettled(s, order, q, t')
    ensures PathAsBefore(s, order, q, t) ==> PathAsBefore(s, order, q, t')
  {
    var ids, others := OnPath(s, order, p), OnPath(s, order, q);
    forall a | a in others
      ensures a !in ids
    {
      OtherPathsDisjoint(s, order, q, p, a);
    }
    forall i | 0 <= i < |others|
      ensures others[i] !in ids
    {
      assert others[i] in others;
    }
  }

  lemma PathStep(s: Legacy, order: seq<AssetId>, todo: set<string>, p: string, t: Legacy, t': Legacy)
    requires LegacyOk(s) && Listing(s, order) && Partway(s, order, todo, t)
    requires p in todo && p in Paths(s) && OnPath(s, order, p) != []
    requires Known(t, OnPath(s, order, p)) && GroupMerged(t, Keeper(t, OnPath(s, order, p)), OnPath(s, order, p), t')
    ensures Partway(s, order, todo - {p}, t')
  {
    PathFinished(s, order, p, t, t');
    forall q | q in Paths(s) && q != p
      ensures PathSettled(s, order, q, t) ==> PathSettled(s, order, q, t')
      ensures PathAsBefore(s, order, q, t) ==> PathAsBefore(s, order, q, t')
    {
      OtherPathKept(s, order, p, q, t, t');
    }
  }

  // ------------------------------------------------------------------------------- counting

  ghost predicate OneToOne(ids: set<AssetId>, path: map<AssetId, string>) {
    && ids <= path.Keys
    && forall a, b :: a in ids && b in ids && a != b ==> path[a] != path[b]
  }

  ghost predicate Onto(ids: set<AssetId>, paths: set<string>, path: map<AssetId, string>)
    requires ids <= path.Keys
  {
    paths == set a | a in ids :: path[a]
  }

  lemma {:induction false} SameSize(ids: set<AssetId>, paths: set<string>, path: map<AssetId, string>)
    requires OneToOne(ids, path) && Onto(ids, paths, path)
    ensures |ids| == |paths|
    decreases |ids|
  {
    if ids != {} {
      var a :| a in ids;
      assert Onto(ids - {a}, paths - {path[a]}, path);
      SameSize(ids - {a}, paths - {path[a]}, path);
    }
  }

  // The consolidated state: one asset per path, its keeper, with everything the path had.
  ghost predicate Consolidated(s: Legacy, order: seq<AssetId>, t: Legacy)
    requires LegacyOk(s) && Listing(s, order)
  {
    && LegacyOk(t) && t.assets.Keys <= s.assets.Keys
    && forall p :: p in Paths(s) ==> PathSettled(s, order, p, t)
  }

  lemma SettledAsset(s: Legacy, order: seq<AssetId>, t: Legacy, a: AssetId)
    requires LegacyOk(s) && Listing(s, order) && Consolidated(s, order, t) && a in t.assets
    ensures var ids := OnPath(s, order, s.assets[a].path); ids != [] && Known(s, ids) && a == Keeper(s, ids)
  {
    OnPathIff(s, order, s.assets[a].path);
    assert s.assets[a].path in Paths(s);
  }

  lemma KeepersDiffer(s: Legacy, order: seq<AssetId>, t: Legacy, a: AssetId, b: AssetId)
    requires LegacyOk(s) && Listing(s, order) && Consolidated(s, order, t) && a in t.assets && b in t.assets && a != b
    ensures a in s.assets && b in s.assets && s.assets[a].path != s.assets[b].path
  {
    SettledAsset(s, order, t, a);
    SettledAsset(s, order, t, b);
  }

  lemma PathHasKeeper(s: Legacy, order: seq<AssetId>, t: Legacy, p: string) returns (a: AssetId)
    requires LegacyOk(s) && Listing(s, order) && Consolidated(s, order, t) && p in Paths(s)
    ensures a in t.assets && a in s.assets && s.assets[a].path == p
  {
    assert PathSettled(s, order, p, t);
    OnPathIff(s, order, p);
    a := Keeper(s, OnPath(s, order, p));
  }

  function PathMap(s: Legacy): map<AssetId, string> {
    map a | a in s.assets :: s.assets[a].path
  }

  lemma KeepersOneToOne(s: Legacy, order: seq<AssetId>, t: Legacy)
    requires LegacyOk(s) && Listing(s, order) && Consolidated(s, order, t)
    ensures OneToOne(t.assets.Keys, PathMap(s))
  {
    forall a, b | a in t.assets && b in t.assets && a != b
      ensures a in s.assets && b in s.assets && s.assets[a].path != s.assets[b].path
    {
      KeepersDiffer(s, order, t, a, b);
    }
  }

  lemma KeepersOnto(s: Legacy, order: seq<AssetId>, t: Legacy)
    requires LegacyOk(s) && Listing(s, order) && Consolidated(s, order, t)
    ensures Onto(t.assets.Keys, Paths(s), PathMap(s))
  {
    forall p | p in Paths(s)
      ensures exists a :: a in t.assets && PathMap(s)[a] == p
    {
      var a := PathHasKeeper(s, order, t, p);
      assert PathMap(s)[a] == p;
    }
  }

  // As many assets remain as there are paths.
  lemma OnePerPath(s: Legacy, order: seq<AssetId>, t: Legacy)
    requires LegacyOk(s) && Listing(s, order) && Consolidated(s, order, t)
    ensures |t.assets| == |Paths(s)|
  {
    KeepersOneToOne(s, order, t);
    KeepersOnto(s, order, t);
    SameSize(t.assets.Keys, Paths(s), PathMap(s));
  }

  // Main result: the asset left on a path has every relationship the path's assets had, with a
  // confirmed status wherever one of them had it, and their manual language.
  lemma RelationshipsKept(s: Legacy, order: seq<AssetId>, t: Legacy, a: AssetId)
    requires LegacyOk(s) && Listing(s, order) && Consolidated(s, order, t) && a in s.assets
    ensures var ids := OnPath(s, order, s.assets[a].path);
      && ids != [] && Known(s, ids) && a in ids
      && var keeper := Keeper(s, ids);
      && keeper in t.assets && Collects(s, keeper, ids, Own(t, keeper))
      && (forall v :: v in s.judgements[a] ==>
            && v in t.judgements[keeper]
            && (Human(s.judgements[a][v].status) ==> t.judgements[keeper][v].status == s.judgements[a][v].status))
  {
    var p := s.assets[a].path;
    var ids := OnPath(s, order, p);
    assert p in Paths(s);
    OnPathIff(s, order, p);
    var keeper := Keeper(s, ids);
    MergeAllIff(s, keeper, ids);
    assert Own(t, keeper) == MergeAll(s, keeper, ids).value;
    forall v | v in s.judgements[a]
      ensures HasJudgement(s, keeper, ids, v, s.judgements[a][v])
    {
    }
  }

  class Store {
    var assets: map<AssetId, Asset>
    var judgements: map<AssetId, Judgements>

    function State(): Legacy
      reads this
    {
      Legacy(assets, judgements)
    }

    // Merge one duplicate into the keeper and delete it.
    method MergeDuplicate(keeper: AssetId, d: AssetId) returns (r: Result<(), ConsolidationError>)
      requires LegacyOk(State()) && keeper in assets && d in assets && d != keeper
      modifies this
      ensures var m := DuplicateMerge(old(State()), keeper, d);
        && (r.Ok? <==> m.Ok?)
        && (r.Ok? ==> State() == WithoutDuplicate(old(State()), keeper, d, m.value))
        && (r.Err? ==> m.Err? && r.error == m.error)
    {
      var merged := MergeRows(judgements[keeper], judgements[d]);
      if merged.Err? { return Err(merged.error); }
      var language := assets[d].manualLanguage;
      if LanguagesDiffer(assets[keeper].manualLanguage, language) { return Err(DifferentLanguages); }
      var kept := if language.Some? then language else assets[keeper].manualLanguage;
      judgements := (judgements - {d})[keeper := merged.value];
      assets := (assets - {d})[keeper := assets[keeper].(manualLanguage := kept)];
      r := Ok(());
    }

    // min over (not manual match, no manual language, id)
    method ChooseKeeper(group: seq<AssetId>) returns (keeper: AssetId)
      requires group != [] && Known(State(), group)
      ensures keeper == Keeper(State(), group)
    {
      keeper := group[0];
      for i := 1 to |group|
        invariant keeper == Keeper(State(), group[..i])
      {
        assert group[..i + 1][..i] == group[..i];
        if Before(State(), group[i], keeper) {
          keeper := group[i];
        }
      }
      assert group[..|group|] == group;
    }

    // The last asset of a group's prefix: the keeper stays, a duplicate is merged and deleted.
    method MergeLast(ghost s: Legacy, keeper: AssetId, ghost ids: seq<AssetId>, d: AssetId) returns (r: Result<nat, ConsolidationError>)
      requires LegacyOk(s) && keeper in s.assets && Known(s, ids) && Distinct(ids) && ids != [] && ids[|ids| - 1] == d
      requires GroupMerged(s, keeper, ids[..|ids| - 1], State())
      modifies this
      ensures r.Ok? ==> GroupMerged(s, keeper, ids, State()) && |old(assets)| == |assets| + r.value
      ensures r.Err? ==> MergeAll(s, keeper, ids).Err?
    {
      if d == keeper {
        KeeperStep(s, keeper, ids, State());
        return Ok(0);
      }
      DuplicateStep(s, keeper, ids, State());
      ghost var t := State();
      var merged := MergeDuplicate(keeper, d);
      if merged.Err? { return Err(merged.error); }
      DuplicateMerged(s, keeper, ids, t, MergeAll(s, keeper, ids).value);
      OneFewer(t.assets, d, assets);
      r := Ok(1);
    }

    method MergeNext(ghost s: Legacy, keeper: AssetId, group: seq<AssetId>, i: nat) returns (r: Result<nat, ConsolidationError>)
      requires LegacyOk(s) && keeper in s.assets && Known(s, group) && Distinct(group) && i < |group|
      requires GroupMerged(s, keeper, group[..i], State())
      modifies this
      ensures r.Ok? ==> GroupMerged(s, keeper, group[..i + 1], State()) && |old(assets)| == |assets| + r.value
      ensures r.Err? ==> MergeAll(s, keeper, group).Err?
    {
      ghost var ids := group[..i + 1];
      assert ids[..|ids| - 1] == group[..i];
      r := MergeLast(s, keeper, ids, group[i]);
      if r.Err? {
        MergeStopsAtFirst(s, keeper, group, i + 1);
      }
    }

    // The duplicates of one path, merged and deleted one after the other.
    method MergePath(group: seq<AssetId>) returns (r: Result<nat, ConsolidationError>)
      requires LegacyOk(State()) && group != [] && Known(State(), group) && Distinct(group)
      modifies this
      ensures r.Ok? <==> MergeAll(old(State()), Keeper(old(State()), group), group).Ok?
      ensures r.Ok? ==> GroupMerged(old(State()), Keeper(old(State()), group), group, State())
      ensures r.Ok? ==> |old(assets)| == |assets| + r.value
    {
      var keeper := ChooseKeeper(group);
      var removed := 0;
      ghost var s := State();
      for i := 0 to |group|
        invariant GroupMerged(s, keeper, group[..i], State())
        invariant |s.assets| == |assets| + removed
      {
        var next := MergeNext(s, keeper, group, i);
        if next.Err? { return Err(next.error); }
        removed := removed + next.value;
      }
      assert group[..|group|] == group;
      r := Ok(removed);
    }

    // consolidate_legacy_external_subtitle_assets
    method Consolidate(order: seq<AssetId>) returns (r: Result<nat, ConsolidationError>)
      requires LegacyOk(State()) && Listing(State(), order)
      modifies this
      ensures r.Ok? <==> NoConflict(old(State()))
      ensures r.Ok? ==> Consolidated(old(State()), order, State())
      ensures r.Ok? ==> r.value == |old(assets)| - |Paths(old(State()))|
    {
      var groups := GroupByPath(Legacy(assets, judgements), order);
      var removed := 0;
      ghost var s := State();
      forall p | p in Paths(s)
        ensures PathAsBefore(s, order, p, s)
      {
        PathIsKnown(s, order, p);
      }
      var todo := groups.Keys;
      while todo != {}
        invariant todo <= groups.Keys && Partway(s, order, todo, State())
        invariant |s.assets| == |assets| + removed
        decreases |todo|
      {
        var p :| p in todo;
        var merged := ConsolidatePath(s, order, todo, p, groups[p]);
        if merged.Err? { return Err(merged.error); }
        removed := removed + merged.value;
        todo := todo - {p};
      }
      OnePerPath(s, order, State());
      MergedPathsAgree(s, order);
      r := Ok(removed);
    }

    method ConsolidatePath(ghost s: Legacy, ghost order: seq<AssetId>, ghost todo: set<string>, p: string, group: seq<AssetId>)
      returns (r: Result<nat, ConsolidationError>)
      requires LegacyOk(s) && Listing(s, order) && Partway(s, order, todo, State())
      requires p in todo && p in Paths(s) && group == OnPath(s, order, p) && group != []
      modifies this
      ensures r.Ok? ==> Partway(s, order, todo - {p}, State()) && |old(assets)| == |assets| + r.value
      ensures r.Err? ==> !NoConflict(s)
    {
      ghost var t := State();
      OnPathIff(s, order, p);
      assert PathAsBefore(s, order, p, t);
      SameKeeper(s, t, group);
      SameMerge(s, t, Keeper(s, group), group);
      if |group| < 2 {
        AloneIsMerged(t, group[0]);
        assert group == [group[0]];
        PathStep(s, order, todo, p, t, t);
        return Ok(0);
      }
      r := MergePath(group);
      if r.Ok? {
        PathStep(s, order, todo, p, t, State());
      } else {
        ConflictingPath(s, order, p);
      }
    }
  }

  lemma OneFewer(before: map<AssetId, Asset>, d: AssetId, after: map<AssetId, Asset>)
    requires d in before && after.Keys == before.Keys - {d}
    ensures |before| == |after| + 1
  {
    assert |before.Keys| == |after.Keys| + 1;
  }

  lemma AloneIsMerged(t: Legacy, a: AssetId)
    requires LegacyOk(t) && a in t.assets
    ensures GroupMerged(t, a, [a], t)
  {
    assert [a][..0] == [];
  }

  lemma ConflictingPath(s: Legacy, order: seq<AssetId>, p: string)
    requires LegacyOk(s) && Listing(s, order) && OnPath(s, order, p) != [] && PathKnown(s, order, p)
    requires MergeAll(s, Keeper(s, OnPath(s, order, p)), OnPath(s, order, p)).Err?
    ensures !NoConflict(s)
  {
    if NoConflict(s) { PathMerges(s, order, p); }
  }
}
