/**
 What the subtitle operations leave in the rows, told from the rows' fields: where every row comes
 from over a run, why one is gone, and which asset of a path survives a consolidation.
*/
module SubtitleOutcomes {
  import opened Basics
  import opened SubtitleCompatibility
  import opened SubtitleConsolidation
  import opened SubtitleStore

  // -------------------------------------------------------------------------- provenance of rows

  // The legacy link says which video a known asset belonged to, and whether a person had matched it.
  ghost predicate LinkWrites(
    link: (AssetId, Option<VideoId>, bool), assets: set<AssetId>, videos: set<VideoId>, at: int, p: Pair, row: Row)
  {
    && link.0 == p.0 && link.1 == Some(p.1) && p.0 in assets && p.1 in videos
    && row == if link.2 then Row(p.0, p.1, ConfirmedCompatible, Manual, Some(at), None)
       else Row(p.0, p.1, AutomaticMatch, LegacyBackfill, None, None)
  }

  // The step writes this row for the pair.
  ghost predicate Writes(step: Step, p: Pair, row: Row) {
    match step
    case SyncMatch(a, v) => p == (a, v) && row.status.AutomaticMatch? && row.via.Filename? && row.verifiedAt.None?
    case DropMatches(_) => false
    case Confirm(a, v, status, note, at) =>
      p == (a, v) && !status.AutomaticMatch? && row == Row(a, v, status, Manual, Some(at), note)
    case Clear(a, v, evidence) => p == (a, v) && evidence == Some(v) && row == Row(a, v, AutomaticMatch, Filename, None, None)
    case Backfill(assets, videos, links, at) =>
      exists k :: 0 <= k < |links| && LinkWrites(links[k], assets, videos, at, p, row)
  }

  lemma {:induction false} BackfilledFrom(
    t: Relation, assets: set<AssetId>, videos: set<VideoId>, links: seq<(AssetId, Option<VideoId>, bool)>, at: int, p: Pair)
    requires p in Backfilled(t, assets, videos, links, at)
    ensures var row := Backfilled(t, assets, videos, links, at)[p];
      if p in t then row == t[p] else exists k :: 0 <= k < |links| && LinkWrites(links[k], assets, videos, at, p, row)
  {
    if links != [] {
      var front, last := links[..|links| - 1], links[|links| - 1];
      if p in Backfilled(t, assets, videos, front, at) {
        BackfilledFrom(t, assets, videos, front, at, p);
        if p !in t {
          var k :| 0 <= k < |front| && LinkWrites(front[k], assets, videos, at, p, Backfilled(t, assets, videos, front, at)[p]);
          assert links[k] == front[k];
        }
      } else {
        BackfillKeepsRows(t, assets, videos, front, at, p);
        assert LinkWrites(links[|links| - 1], assets, videos, at, p, Backfilled(t, assets, videos, links, at)[p]);
      }
    }
  }

  lemma {:induction false} BackfillKeepsRows(
    t: Relation, assets: set<AssetId>, videos: set<VideoId>, links: seq<(AssetId, Option<VideoId>, bool)>, at: int, p: Pair)
    ensures p in t ==> p in Backfilled(t, assets, videos, links, at)
  {
    if links != [] {
      BackfillKeepsRows(t, assets, videos, links[..|links| - 1], at, p);
    }
  }

  lemma StepWrites(t: Relation, step: Step, p: Pair)
    requires p in After(t, step)
    ensures (p in t && After(t, step)[p] == t[p]) || Writes(step, p, After(t, step)[p])
  {
    if step.Backfill? {
      BackfilledFrom(t, step.assets, step.videos, step.links, step.at, p);
    }
  }

  /** Every row after a run is as it was before or as one step wrote it: a decision was confirmed with
      this status, note and date, or carried over, as compatible and dated, from a legacy link a person
      had made; an automatic row is a current match or carried over from any other legacy link. */
  lemma {:induction false} RowHasOrigin(t: Relation, steps: seq<Step>, p: Pair)
    requires p in Run(t, steps)
    ensures (p in t && Run(t, steps)[p] == t[p]) || exists k :: 0 <= k < |steps| && Writes(steps[k], p, Run(t, steps)[p])
  {
    if steps != [] {
      var front, last := steps[..|steps| - 1], steps[|steps| - 1];
      StepWrites(Run(t, front), last, p);
      if p in Run(t, front) && Run(t, steps)[p] == Run(t, front)[p] {
        RowHasOrigin(t, front, p);
        if k :| 0 <= k < |front| && Writes(front[k], p, Run(t, front)[p]) {
          assert steps[k] == front[k];
        }
      } else {
        assert Writes(steps[|steps| - 1], p, Run(t, steps)[p]);
      }
    }
  }

  // The step removes this row of the pair.
  ghost predicate Removes(step: Step, p: Pair, row: Row) {
    match step
    case SyncMatch(a, v) => p.0 == a && p.1 != v && row.status.AutomaticMatch?
    case DropMatches(a) => p.0 == a && row.status.AutomaticMatch?
    case Confirm(_, _, _, _, _) => false
    case Clear(a, v, evidence) => p == (a, v) && evidence != Some(v)
    case Backfill(_, _, _, _) => false
  }

  /** A step removes exactly the rows it names: matches of the asset with other videos, all its matches,
      or the pair that is cleared without evidence. */
  lemma StepRemoves(t: Relation, step: Step, p: Pair)
    requires p in t
    ensures p !in After(t, step) <==> Removes(step, p, t[p])
  {
    if step.Backfill? {
      BackfillKeepsRows(t, step.assets, step.videos, step.links, step.at, p);
    }
  }

  /** A legacy link is carried over exactly when its asset and its video are known and the pair has no
      row; of several links of one pair the first is. */
  lemma BackfillCarriesOver(
    t: Relation, assets: set<AssetId>, videos: set<VideoId>, links: seq<(AssetId, Option<VideoId>, bool)>, at: int, k: nat)
    requires k < |links| && links[k].1.Some? && (links[k].0, links[k].1.value) !in t
    requires links[k].0 in assets && links[k].1.value in videos
    requires forall j :: 0 <= j < k ==> (links[j].0, links[j].1) != (links[k].0, links[k].1)
    ensures var p := (links[k].0, links[k].1.value);
      p in Backfilled(t, assets, videos, links, at)
      && LinkWrites(links[k], assets, videos, at, p, Backfilled(t, assets, videos, links, at)[p])
  {
    var p := (links[k].0, links[k].1.value);
    if p in Backfilled(t, assets, videos, links[..k], at) {
      BackfilledFrom(t, assets, videos, links[..k], at, p);
      assert false;
    }
    assert links[..k + 1][..k] == links[..k];
    FirstLinkStays(t, assets, videos, links, at, k, p);
  }

  lemma {:induction false} FirstLinkStays(
    t: Relation, assets: set<AssetId>, videos: set<VideoId>, links: seq<(AssetId, Option<VideoId>, bool)>, at: int, k: nat, p: Pair)
    requires k < |links| && p in Backfilled(t, assets, videos, links[..k + 1], at)
    ensures p in Backfilled(t, assets, videos, links, at)
      && Backfilled(t, assets, videos, links, at)[p] == Backfilled(t, assets, videos, links[..k + 1], at)[p]
  {
    if k + 1 < |links| {
      var front := links[..|links| - 1];
      assert front[..k + 1] == links[..k + 1];
      FirstLinkStays(t, assets, videos, front, at, k, p);
    } else {
      assert links[..k + 1] == links;
    }
  }

  /** Confirming the same decision again keeps its date; a different status or note is dated anew. */
  lemma ConfirmedAgain(
    t: Relation, a: AssetId, v: VideoId, status: Status, note: Option<string>, at: int, status': Status,
    note': Option<string>, at': int)
    requires Human(status) && Human(status') && Sound(t)
    ensures var once := Confirmed(t, a, v, status, note, at);
      var twice := Confirmed(once, a, v, status', note', at');
      && (a, v) in once && (a, v) in twice && twice[(a, v)].status == status' && twice[(a, v)].note == note'
      && (if status' == status && note' == note then twice == once else twice[(a, v)].verifiedAt == Some(at'))
  {
  }

  // ------------------------------------------------------------------------- surviving assets

  // Asset a is kept rather than b.
  ghost predicate KeptRather(x: Asset, a: AssetId, y: Asset, b: AssetId) {
    && (y.manualMatch ==> x.manualMatch)
    && (x.manualMatch == y.manualMatch && y.manualLanguage.Some? ==> x.manualLanguage.Some?)
    && (x.manualMatch == y.manualMatch && x.manualLanguage.Some? == y.manualLanguage.Some? ==> a <= b)
  }

  lemma KeptIsFirst(s: Legacy, ids: seq<AssetId>, i: nat)
    requires ids != [] && Known(s, ids) && i < |ids|
    ensures KeptRather(s.assets[Keeper(s, ids)], Keeper(s, ids), s.assets[ids[i]], ids[i])
  {
    KeeperIsLeast(s, ids, i);
  }

  /** The asset that survives on a path is one a person matched, if there is any; among those one with a
      language a person chose, if there is any; and among equals the one with the smallest id. */
  lemma SurvivorIsFirst(s: Legacy, order: seq<AssetId>, t: Legacy, a: AssetId, b: AssetId)
    requires LegacyOk(s) && Listing(s, order) && Consolidated(s, order, t)
    requires a in t.assets && b in s.assets && s.assets[b].path == t.assets[a].path
    ensures a in s.assets && KeptRather(s.assets[a], a, s.assets[b], b)
  {
    SettledAsset(s, order, t, a);
    assert PathSettled(s, order, s.assets[a].path, t) by {
      assert s.assets[a].path in Paths(s);
    }
    var ids := OnPath(s, order, s.assets[a].path);
    OnPathIff(s, order, s.assets[a].path);
    assert b in ids;
    var i :| 0 <= i < |ids| && ids[i] == b;
    KeptIsFirst(s, ids, i);
  }

  // A person confirmed the row.
  predicate Decided(j: Judgement) {
    j.status.ConfirmedCompatible? || j.status.ConfirmedIncompatible?
  }

  /** The survivor's own row of a video stays, date and note included, unless it is a mere match and
      another asset of the path has a decision about that video. */
  lemma {:induction false} OwnRowStays(s: Legacy, keeper: AssetId, ids: seq<AssetId>, v: VideoId)
    requires LegacyOk(s) && keeper in s.assets && Known(s, ids) && MergeAll(s, keeper, ids).Ok? && v in s.judgements[keeper]
    requires Decided(s.judgements[keeper][v])
      || forall i :: 0 <= i < |ids| && ids[i] != keeper && v in s.judgements[ids[i]] ==> !Decided(s.judgements[ids[i]][v])
    ensures v in MergeAll(s, keeper, ids).value.judgements
      && MergeAll(s, keeper, ids).value.judgements[v] == s.judgements[keeper][v]
  {
    if ids != [] {
      OwnRowStays(s, keeper, ids[..|ids| - 1], v);
    }
  }
}
