/**
 The compatibility relation between subtitle assets and videos: scanner-owned and human-owned rows,
 the operations that change them, and what every run of operations keeps.
*/
module SubtitleCompatibility {
  import opened Basics

  type AssetId = nat
  type VideoId = nat
  type Pair = (AssetId, VideoId)

  datatype Status = AutomaticMatch | ConfirmedCompatible | ConfirmedIncompatible
  datatype Method = Filename | Manual | LegacyBackfill

  datatype Row = Row(
    asset: AssetId, video: VideoId, status: Status, via: Method, verifiedAt: Option<int>, note: Option<string>)

  predicate Human(s: Status) {
    !s.AutomaticMatch?
  }

  // The row constraints: automatic rows carry no verification, confirmed ones are manual and dated.
  ghost predicate RowOk(r: Row) {
    if Human(r.status) then r.via.Manual? && r.verifiedAt.Some?
    else !r.via.Manual? && r.verifiedAt.None?
  }

  datatype CompatibilityError = InvalidStatus | NoteTooLong

  // ------------------------------------------------------------------- the relation as a map

  type Relation = map<Pair, Row>

  ghost predicate Keyed(t: Relation) {
    forall p :: p in t ==> (t[p].asset, t[p].video) == p
  }

  ghost predicate Sound(t: Relation) {
    Keyed(t) && forall p :: p in t ==> RowOk(t[p])
  }

  function Automatic(a: AssetId, v: VideoId): Row {
    Row(a, v, AutomaticMatch, Filename, None, None)
  }

  // synchronize_automatic_match
  function Synchronized(t: Relation, a: AssetId, v: VideoId): Relation {
    var matched :=
      if (a, v) !in t then t[(a, v) := Automatic(a, v)]
      else if t[(a, v)].status.AutomaticMatch? then t[(a, v) := t[(a, v)].(via := Filename, verifiedAt := None)]
      else t;
    map p | p in matched && !(p.0 == a && p.1 != v && matched[p].status.AutomaticMatch?) :: matched[p]
  }

  // remove_automatic_matches
  function Unmatched(t: Relation, a: AssetId): Relation {
    map p | p in t && !(p.0 == a && t[p].status.AutomaticMatch?) :: t[p]
  }

  // _normalize_note over an abstract strip
  function Normalized(strip: string -> string, note: Option<string>): Result<Option<string>, CompatibilityError> {
    var text := strip(if note.Some? then note.value else "");
    if |text| > 1000 then Err(NoteTooLong) else Ok(if text == "" then None else Some(text))
  }

  // _confirm with the note already normalized: an unchanged decision keeps its date.
  function Confirmed(t: Relation, a: AssetId, v: VideoId, status: Status, note: Option<string>, at: int): Relation {
    if (a, v) in t && t[(a, v)].status == status && t[(a, v)].via.Manual? && t[(a, v)].note == note && t[(a, v)].verifiedAt.Some?
    then t
    else t[(a, v) := Row(a, v, status, Manual, Some(at), note)]
  }

  // clear_manual_decision: back to the current filename evidence, or to no row.
  function ClearedDecision(t: Relation, a: AssetId, v: VideoId, evidence: Option<VideoId>): Relation {
    if (a, v) !in t then t
    else if evidence == Some(v) then t[(a, v) := Automatic(a, v)]
    else t - {(a, v)}
  }

  // One captured legacy owner: existing rows win.
  function BackfilledOne(
    t: Relation, assets: set<AssetId>, videos: set<VideoId>, link: (AssetId, Option<VideoId>, bool), at: int): Relation
  {
    if link.0 !in assets || link.1.None? || link.1.value !in videos || (link.0, link.1.value) in t then t
    else
      t[(link.0, link.1.value) :=
        if link.2 then Row(link.0, link.1.value, ConfirmedCompatible, Manual, Some(at), None)
        else Row(link.0, link.1.value, AutomaticMatch, LegacyBackfill, None, None)]
  }

  function Backfilled(
    t: Relation, assets: set<AssetId>, videos: set<VideoId>, links: seq<(AssetId, Option<VideoId>, bool)>, at: int): Relation
  {
    if links == [] then t
    else BackfilledOne(Backfilled(t, assets, videos, links[..|links| - 1], at), assets, videos, links[|links| - 1], at)
  }

  // ----------------------------------------------------------------------------------- runs

  datatype Step =
    | SyncMatch(asset: AssetId, video: VideoId)
    | DropMatches(asset: AssetId)
    | Confirm(asset: AssetId, video: VideoId, status: Status, note: Option<string>, at: int)
    | Clear(asset: AssetId, video: VideoId, evidence: Option<VideoId>)
    | Backfill(assets: set<AssetId>, videos: set<VideoId>, links: seq<(AssetId, Option<VideoId>, bool)>, at: int)

  // A confirm with a status that is no human decision raises and changes nothing.
  function After(t: Relation, step: Step): Relation {
    match step
    case SyncMatch(a, v) => Synchronized(t, a, v)
    case DropMatches(a) => Unmatched(t, a)
    case Confirm(a, v, status, note, at) => if Human(status) then Confirmed(t, a, v, status, note, at) else t
    case Clear(a, v, evidence) => ClearedDecision(t, a, v, evidence)
    case Backfill(assets, videos, links, at) => Backfilled(t, assets, videos, links, at)
  }

  function Run(t: Relation, steps: seq<Step>): Relation {
    if steps == [] then t else After(Run(t, steps[..|steps| - 1]), steps[|steps| - 1])
  }

  predicate ScannerStep(step: Step) {
    step.SyncMatch? || step.DropMatches? || step.Backfill?
  }

  lemma {:induction false} BackfillKeepsSound(
    t: Relation, assets: set<AssetId>, videos: set<VideoId>, links: seq<(AssetId, Option<VideoId>, bool)>, at: int)
    requires Sound(t)
    ensures Sound(Backfilled(t, assets, videos, links, at))
    ensures forall p :: p in t ==> p in Backfilled(t, assets, videos, links, at) && Backfilled(t, assets, videos, links, at)[p] == t[p]
  {
    if links != [] {
      BackfillKeepsSound(t, assets, videos, links[..|links| - 1], at);
    }
  }

  lemma StepKeepsSound(t: Relation, step: Step)
    requires Sound(t)
    ensures Sound(After(t, step))
  {
    if step.Backfill? {
      BackfillKeepsSound(t, step.assets, step.videos, step.links, step.at);
    }
  }

  // Every run keeps the row constraints.
  lemma {:induction false} RunKeepsSound(t: Relation, steps: seq<Step>)
    requires Sound(t)
    ensures Sound(Run(t, steps))
  {
    if steps != [] {
      RunKeepsSound(t, steps[..|steps| - 1]);
      StepKeepsSound(Run(t, steps[..|steps| - 1]), steps[|steps| - 1]);
    }
  }

  // Scanner steps leave every confirmed row untouched, over any number of steps.
  lemma {:induction false} ScannerKeepsDecisions(t: Relation, steps: seq<Step>, p: Pair)
    requires Sound(t) && p in t && Human(t[p].status)
    requires forall k :: 0 <= k < |steps| ==> ScannerStep(steps[k])
    ensures p in Run(t, steps) && Run(t, steps)[p] == t[p]
  {
    if steps != [] {
      var before, last := steps[..|steps| - 1], steps[|steps| - 1];
      ScannerKeepsDecisions(t, before, p);
      RunKeepsSound(t, before);
      assert ScannerStep(last);
      if last.Backfill? {
        BackfillKeepsSound(Run(t, before), last.assets, last.videos, last.links, last.at);
      }
    }
  }

  // Matching makes no decision: a row confirmed after any matches and drops was confirmed before.
  lemma {:induction false} MatchingMakesNoDecision(t: Relation, steps: seq<Step>, p: Pair)
    requires Sound(t) && forall k :: 0 <= k < |steps| ==> steps[k].SyncMatch? || steps[k].DropMatches?
    requires p in Run(t, steps) && Human(Run(t, steps)[p].status)
    ensures p in t && t[p] == Run(t, steps)[p]
  {
    if steps != [] {
      var before, last := steps[..|steps| - 1], steps[|steps| - 1];
      assert last.SyncMatch? || last.DropMatches?;
      MatchingMakesNoDecision(t, before, p);
    }
  }

  // After a match is synchronized the asset's only automatic row is the matched video's, and the
  // matched video has a row.
  lemma SyncLeavesOneMatch(t: Relation, a: AssetId, v: VideoId, w: VideoId)
    ensures (a, v) in Synchronized(t, a, v)
    ensures (a, w) in Synchronized(t, a, v) && Synchronized(t, a, v)[(a, w)].status.AutomaticMatch? ==> w == v
  {
  }

  // A step touches no other asset's rows.
  lemma StepIsLocal(t: Relation, step: Step, p: Pair)
    requires !step.Backfill? && p.0 != step.asset
    ensures p in After(t, step) <==> p in t
    ensures p in t ==> After(t, step)[p] == t[p]
  {
  }

  // After a match sync, whatever steps follow for other assets, the asset's only automatic row is the
  // matched video's.
  lemma {:induction false} OneMatchUntilNextStep(t: Relation, a: AssetId, v: VideoId, steps: seq<Step>, w: VideoId)
    requires forall k :: 0 <= k < |steps| ==> !steps[k].Backfill? && steps[k].asset != a
    ensures var t' := Run(Synchronized(t, a, v), steps);
      && (a, v) in t'
      && ((a, w) in t' && t'[(a, w)].status.AutomaticMatch? ==> w == v)
      && ((a, w) in t' <==> (a, w) in Synchronized(t, a, v))
      && ((a, w) in t' ==> t'[(a, w)] == Synchronized(t, a, v)[(a, w)])
  {
    if steps == [] {
      SyncLeavesOneMatch(t, a, v, w);
    } else {
      var front := steps[..|steps| - 1];
      OneMatchUntilNextStep(t, a, v, front, w);
      StepIsLocal(Run(Synchronized(t, a, v), front), steps[|steps| - 1], (a, w));
      StepIsLocal(Run(Synchronized(t, a, v), front), steps[|steps| - 1], (a, v));
    }
  }

  // A human decision is what the relation then holds, and clearing it undoes the row.
  lemma ConfirmThenClear(t: Relation, a: AssetId, v: VideoId, status: Status, note: Option<string>, at: int, evidence: Option<VideoId>)
    requires Human(status) && Sound(t)
    ensures var confirmed := Confirmed(t, a, v, status, note, at);
      && (a, v) in confirmed && confirmed[(a, v)].status == status && confirmed[(a, v)].note == note
      && confirmed[(a, v)].verifiedAt.Some?
      && var cleared := ClearedDecision(confirmed, a, v, evidence);
      ((a, v) in cleared <==> evidence == Some(v))
      && (evidence == Some(v) ==> cleared[(a, v)] == Automatic(a, v))
      && forall p :: p != (a, v) ==> (p in cleared <==> p in t) && (p in t ==> cleared[p] == t[p])
  {
  }
}
