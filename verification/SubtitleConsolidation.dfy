/**
 Consolidation of legacy subtitle assets: historical per-video rows of one physical path become one
 asset that keeps every relationship.  It succeeds exactly when no path carries opposite confirmed
 decisions for one video or two different manual languages.
*/
module SubtitleConsolidation {
  import opened Basics
  import opened SubtitleCompatibility

  // What a compatibility row says about its pair.
  datatype Judgement = Judgement(status: Status, via: Method, verifiedAt: Option<int>, note: Option<string>)

  datatype Asset = Asset(path: string, manualMatch: bool, manualLanguage: Option<string>)

  datatype ConsolidationError = OppositeDecisions | DifferentLanguages

  type Judgements = map<VideoId, Judgement>

  datatype Legacy = Legacy(assets: map<AssetId, Asset>, judgements: map<AssetId, Judgements>)

  ghost predicate LegacyOk(s: Legacy) {
    s.judgements.Keys == s.assets.Keys
  }

  // ------------------------------------------------------------------------------- keepers

  // (not manual match, no manual language, id)
  predicate Before(s: Legacy, a: AssetId, b: AssetId)
    requires a in s.assets && b in s.assets
  {
    var x, y := s.assets[a], s.assets[b];
    if x.manualMatch != y.manualMatch then x.manualMatch
    else if x.manualLanguage.Some? != y.manualLanguage.Some? then x.manualLanguage.Some?
    else a < b
  }

  ghost predicate Known(s: Legacy, ids: seq<AssetId>) {
    forall i :: 0 <= i < |ids| ==> ids[i] in s.assets
  }

  function Keeper(s: Legacy, ids: seq<AssetId>): (k: AssetId)
    requires ids != [] && Known(s, ids)
    ensures k in ids
  {
    if |ids| == 1 then ids[0]
    else
      var k := Keeper(s, ids[..|ids| - 1]);
      if Before(s, ids[|ids| - 1], k) then ids[|ids| - 1] else k
  }

  lemma {:induction false} KeeperIsLeast(s: Legacy, ids: seq<AssetId>, i: nat)
    requires ids != [] && Known(s, ids) && i < |ids|
    ensures !Before(s, ids[i], Keeper(s, ids))
  {
    if i < |ids| - 1 {
      KeeperIsLeast(s, ids[..|ids| - 1], i);
    }
  }

  // ------------------------------------------------------------------------------- merging

  datatype Merge = Merge(judgements: Judgements, language: Option<string>)

  predicate Opposite(x: Judgement, y: Judgement) {
    Human(x.status) && Human(y.status) && x.status != y.status
  }

  predicate Clash(kept: Judgements, added: Judgements) {
    exists v :: v in kept && v in added && Opposite(kept[v], added[v])
  }

  // A pair keeps its row unless a human row meets an automatic one.
  function MergedJudgements(kept: Judgements, added: Judgements): Judgements {
    map v | v in kept.Keys + added.Keys ::
      if v !in kept then added[v]
      else if v in added && Human(added[v].status) && !Human(kept[v].status) then added[v]
      else kept[v]
  }

  predicate LanguagesDiffer(x: Option<string>, y: Option<string>) {
    x.Some? && y.Some? && x != y
  }

  function MergeOne(m: Merge, added: Judgements, language: Option<string>): Result<Merge, ConsolidationError> {
    if Clash(m.judgements, added) then Err(OppositeDecisions)
    else if LanguagesDiffer(m.language, language) then Err(DifferentLanguages)
    else Ok(Merge(MergedJudgements(m.judgements, added), if language.Some? then language else m.language))
  }

  function Own(s: Legacy, a: AssetId): Merge
    requires LegacyOk(s) && a in s.assets
  {
    Merge(s.judgements[a], s.assets[a].manualLanguage)
  }

  // The keeper, then the other assets in order.
  function MergeAll(s: Legacy, keeper: AssetId, ids: seq<AssetId>): Result<Merge, ConsolidationError>
    requires LegacyOk(s) && keeper in s.assets && Known(s, ids)
  {
    if ids == [] then Ok(Own(s, keeper))
    else
      match MergeAll(s, keeper, ids[..|ids| - 1])
      case Err(e) => Err(e)
      case Ok(m) =>
        var last := ids[|ids| - 1];
        if last == keeper then Ok(m) else MergeOne(m, s.judgements[last], s.assets[last].manualLanguage)
  }

  // ------------------------------------------------------------------------- when it succeeds

  ghost predicate Agree(s: Legacy, a: AssetId, b: AssetId)
    requires LegacyOk(s) && a in s.assets && b in s.assets
  {
    && !Clash(s.judgements[a], s.judgements[b])
    && !LanguagesDiffer(s.assets[a].manualLanguage, s.assets[b].manualLanguage)
  }

  // All assets among the keeper and ids agree pairwise.
  ghost predicate AllAgree(s: Legacy, keeper: AssetId, ids: seq<AssetId>)
    requires LegacyOk(s) && keeper in s.assets && Known(s, ids)
  {
    forall a, b :: Among(keeper, ids, a) && Among(keeper, ids, b) && a in s.assets && b in s.assets ==> Agree(s, a, b)
  }

  ghost predicate Among(keeper: AssetId, ids: seq<AssetId>, a: AssetId) {
    a == keeper || a in ids
  }

  // m holds the relationships of the keeper and ids, each with one of their rows, a human one if
  // there is any, and their common language.
  ghost predicate HasJudgement(s: Legacy, keeper: AssetId, ids: seq<AssetId>, v: VideoId, j: Judgement)
    requires LegacyOk(s)
  {
    exists a :: a in s.judgements && Among(keeper, ids, a) && v in s.judgements[a] && s.judgements[a][v] == j
  }

  ghost predicate HasLanguage(s: Legacy, keeper: AssetId, ids: seq<AssetId>, l: string) {
    exists a :: a in s.assets && Among(keeper, ids, a) && s.assets[a].manualLanguage == Some(l)
  }

  ghost predicate Collects(s: Legacy, keeper: AssetId, ids: seq<AssetId>, m: Merge)
    requires LegacyOk(s)
  {
    && (forall v, j :: HasJudgement(s, keeper, ids, v, j) ==> v in m.judgements && (Human(j.status) ==> m.judgements[v].status == j.status))
    && (forall v :: v in m.judgements ==> HasJudgement(s, keeper, ids, v, m.judgements[v]))
    && (forall l :: HasLanguage(s, keeper, ids, l) ==> m.language == Some(l))
    && (m.language.Some? ==> HasLanguage(s, keeper, ids, m.language.value))
  }

  lemma OwnCollects(s: Legacy, keeper: AssetId)
    requires LegacyOk(s) && keeper in s.assets
    ensures Collects(s, keeper, [], Own(s, keeper))
  {
    forall v | v in s.judgements[keeper]
      ensures HasJudgement(s, keeper, [], v, s.judgements[keeper][v])
    {
    }
    if s.assets[keeper].manualLanguage.Some? {
      assert HasLanguage(s, keeper, [], s.assets[keeper].manualLanguage.value);
    }
  }

  lemma AmongLast(keeper: AssetId, ids: seq<AssetId>, a: AssetId)
    requires ids != []
    ensures Among(keeper, ids, a) <==> Among(keeper, ids[..|ids| - 1], a) || a == ids[|ids| - 1]
  {
    assert ids == ids[..|ids| - 1] + [ids[|ids| - 1]];
  }

  lemma JudgedLast(s: Legacy, keeper: AssetId, ids: seq<AssetId>, v: VideoId, j: Judgement)
    requires LegacyOk(s) && Known(s, ids) && ids != []
    ensures HasJudgement(s, keeper, ids, v, j) <==>
      || HasJudgement(s, keeper, ids[..|ids| - 1], v, j)
      || (v in s.judgements[ids[|ids| - 1]] && s.judgements[ids[|ids| - 1]][v] == j)
  {
    forall a
      ensures Among(keeper, ids, a) <==> Among(keeper, ids[..|ids| - 1], a) || a == ids[|ids| - 1]
    {
      AmongLast(keeper, ids, a);
    }
  }

  lemma SpokenLast(s: Legacy, keeper: AssetId, ids: seq<AssetId>, l: string)
    requires LegacyOk(s) && Known(s, ids) && ids != []
    ensures HasLanguage(s, keeper, ids, l) <==>
      HasLanguage(s, keeper, ids[..|ids| - 1], l) || s.assets[ids[|ids| - 1]].manualLanguage == Some(l)
  {
    forall a
      ensures Among(keeper, ids, a) <==> Among(keeper, ids[..|ids| - 1], a) || a == ids[|ids| - 1]
    {
      AmongLast(keeper, ids, a);
    }
  }

  lemma ClashIff(s: Legacy, keeper: AssetId, ids: seq<AssetId>, m: Merge, added: Judgements)
    requires LegacyOk(s) && Collects(s, keeper, ids, m)
    ensures Clash(m.judgements, added) <==>
      exists a :: a in s.judgements && Among(keeper, ids, a) && Clash(s.judgements[a], added)
  {
    if v :| v in m.judgements && v in added && Opposite(m.judgements[v], added[v]) {
      assert HasJudgement(s, keeper, ids, v, m.judgements[v]);
      var a :| a in s.judgements && Among(keeper, ids, a) && v in s.judgements[a] && s.judgements[a][v] == m.judgements[v];
      assert Clash(s.judgements[a], added);
    }
    if a :| a in s.judgements && Among(keeper, ids, a) && Clash(s.judgements[a], added) {
      var v :| v in s.judgements[a] && v in added && Opposite(s.judgements[a][v], added[v]);
      assert HasJudgement(s, keeper, ids, v, s.judgements[a][v]);
      assert Opposite(m.judgements[v], added[v]);
    }
  }

  lemma DifferIff(s: Legacy, keeper: AssetId, ids: seq<AssetId>, m: Merge, language: Option<string>)
    requires LegacyOk(s) && Collects(s, keeper, ids, m)
    ensures LanguagesDiffer(m.language, language) <==>
      exists a :: a in s.assets && Among(keeper, ids, a) && LanguagesDiffer(s.assets[a].manualLanguage, language)
  {
    if LanguagesDiffer(m.language, language) {
      assert HasLanguage(s, keeper, ids, m.language.value);
    }
    if a :| a in s.assets && Among(keeper, ids, a) && LanguagesDiffer(s.assets[a].manualLanguage, language) {
      assert HasLanguage(s, keeper, ids, s.assets[a].manualLanguage.value);
    }
  }

  lemma AgreeIsSymmetric(s: Legacy, a: AssetId, b: AssetId)
    requires LegacyOk(s) && a in s.assets && b in s.assets
    ensures Agree(s, a, b) <==> Agree(s, b, a)
    ensures Agree(s, a, a)
  {
  }

  ghost predicate AgreeWith(s: Legacy, keeper: AssetId, ids: seq<AssetId>, b: AssetId)
    requires LegacyOk(s) && b in s.assets
  {
    forall a :: a in s.assets && Among(keeper, ids, a) ==> Agree(s, a, b)
  }

  lemma AllAgreeLast(s: Legacy, keeper: AssetId, ids: seq<AssetId>)
    requires LegacyOk(s) && keeper in s.assets && Known(s, ids) && ids != []
    ensures Known(s, ids[..|ids| - 1]) && ids[|ids| - 1] in s.assets
    ensures AllAgree(s, keeper, ids) <==>
      AllAgree(s, keeper, ids[..|ids| - 1]) && AgreeWith(s, keeper, ids[..|ids| - 1], ids[|ids| - 1])
  {
    var front, last := ids[..|ids| - 1], ids[|ids| - 1];
    forall a
      ensures Among(keeper, ids, a) <==> Among(keeper, front, a) || a == last
    {
      AmongLast(keeper, ids, a);
    }
    if AllAgree(s, keeper, front) && AgreeWith(s, keeper, front, last) {
      forall a, b | Among(keeper, ids, a) && Among(keeper, ids, b) && a in s.assets && b in s.assets
        ensures Agree(s, a, b)
      {
        AgreeIsSymmetric(s, a, b);
      }
    }
  }

  lemma CollectsLast(s: Legacy, keeper: AssetId, ids: seq<AssetId>, m: Merge)
    requires LegacyOk(s) && keeper in s.assets && Known(s, ids) && ids != []
    requires Collects(s, keeper, ids[..|ids| - 1], m)
    requires MergeOne(m, s.judgements[ids[|ids| - 1]], s.assets[ids[|ids| - 1]].manualLanguage).Ok?
    ensures Collects(s, keeper, ids, MergeOne(m, s.judgements[ids[|ids| - 1]], s.assets[ids[|ids| - 1]].manualLanguage).value)
  {
    var front, last := ids[..|ids| - 1], ids[|ids| - 1];
    var m' := MergeOne(m, s.judgements[last], s.assets[last].manualLanguage).value;
    forall v, j | HasJudgement(s, keeper, ids, v, j)
      ensures v in m'.judgements && (Human(j.status) ==> m'.judgements[v].status == j.status)
    {
      JudgedLast(s, keeper, ids, v, j);
    }
    forall v | v in m'.judgements
      ensures HasJudgement(s, keeper, ids, v, m'.judgements[v])
    {
      JudgedLast(s, keeper, ids, v, m'.judgements[v]);
    }
    forall l
      ensures HasLanguage(s, keeper, ids, l) <==> m'.language == Some(l)
    {
      SpokenLast(s, keeper, ids, l);
    }
  }

  lemma SameAmong(s: Legacy, keeper: AssetId, ids: seq<AssetId>, m: Merge)
    requires LegacyOk(s) && keeper in s.assets && Known(s, ids) && ids != [] && ids[|ids| - 1] == keeper
    requires Collects(s, keeper, ids[..|ids| - 1], m) && AllAgree(s, keeper, ids[..|ids| - 1])
    ensures Collects(s, keeper, ids, m) && AllAgree(s, keeper, ids)
  {
    forall a
      ensures Among(keeper, ids, a) <==> Among(keeper, ids[..|ids| - 1], a)
    {
      AmongLast(keeper, ids, a);
    }
    assert forall v, j :: HasJudgement(s, keeper, ids, v, j) <==> HasJudgement(s, keeper, ids[..|ids| - 1], v, j);
    assert forall l :: HasLanguage(s, keeper, ids, l) <==> HasLanguage(s, keeper, ids[..|ids| - 1], l);
  }

  // Main result for one path: merging succeeds exactly when its assets agree, and then collects
  // every relationship.
  lemma {:induction false} MergeAllIff(s: Legacy, keeper: AssetId, ids: seq<AssetId>)
    requires LegacyOk(s) && keeper in s.assets && Known(s, ids)
    ensures MergeAll(s, keeper, ids).Ok? <==> AllAgree(s, keeper, ids)
    ensures MergeAll(s, keeper, ids).Ok? ==> Collects(s, keeper, ids, MergeAll(s, keeper, ids).value)
  {
    if ids == [] {
      OwnCollects(s, keeper);
      AgreeIsSymmetric(s, keeper, keeper);
    } else {
      var front, last := ids[..|ids| - 1], ids[|ids| - 1];
      MergeAllIff(s, keeper, front);
      AllAgreeLast(s, keeper, ids);
      if MergeAll(s, keeper, front).Ok? {
        var m := MergeAll(s, keeper, front).value;
        if last == keeper {
          SameAmong(s, keeper, ids, m);
        } else {
          ClashIff(s, keeper, front, m, s.judgements[last]);
          DifferIff(s, keeper, front, m, s.assets[last].manualLanguage);
          if MergeOne(m, s.judgements[last], s.assets[last].manualLanguage).Ok? {
            CollectsLast(s, keeper, ids, m);
          }
        }
      }
    }
  }
}
