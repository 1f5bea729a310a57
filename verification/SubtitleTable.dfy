/**
 The compatibility table as stored rows edited in place.  It keeps one row per pair, and every
 operation is the relation's.
*/
module SubtitleTable {
  import opened Basics
  import opened SubtitleCompatibility

  function PairOf(r: Row): Pair {
    (r.asset, r.video)
  }

  // The relation the rows stand for.
  function View(rows: seq<Row>): Relation {
    if rows == [] then map[] else View(rows[..|rows| - 1])[PairOf(rows[|rows| - 1]) := rows[|rows| - 1]]
  }

  // The unique constraint on (asset, video).
  ghost predicate OnePerPair(rows: seq<Row>) {
    forall i, j :: 0 <= i < j < |rows| ==> PairOf(rows[i]) != PairOf(rows[j])
  }

  lemma {:induction false} ViewHolds(rows: seq<Row>, i: nat)
    requires OnePerPair(rows) && i < |rows|
    ensures PairOf(rows[i]) in View(rows) && View(rows)[PairOf(rows[i])] == rows[i]
  {
    if i < |rows| - 1 {
      ViewHolds(rows[..|rows| - 1], i);
      assert rows[..|rows| - 1][i] == rows[i];
    }
  }

  lemma {:induction false} ViewIsStored(rows: seq<Row>, p: Pair) returns (i: nat)
    requires p in View(rows)
    ensures i < |rows| && PairOf(rows[i]) == p
  {
    if PairOf(rows[|rows| - 1]) == p {
      i := |rows| - 1;
    } else {
      i := ViewIsStored(rows[..|rows| - 1], p);
    }
  }

  lemma ViewAppended(rows: seq<Row>, r: Row)
    requires OnePerPair(rows) && PairOf(r) !in View(rows)
    ensures OnePerPair(rows + [r]) && View(rows + [r]) == View(rows)[PairOf(r) := r]
  {
    assert (rows + [r])[..|rows|] == rows;
    forall i | 0 <= i < |rows|
      ensures PairOf(rows[i]) != PairOf(r)
    {
      ViewHolds(rows, i);
    }
  }

  lemma {:induction false} ViewUpdated(rows: seq<Row>, i: nat, r: Row)
    requires OnePerPair(rows) && i < |rows| && PairOf(rows[i]) == PairOf(r)
    ensures OnePerPair(rows[i := r]) && View(rows[i := r]) == View(rows)[PairOf(r) := r]
  {
    var last := |rows| - 1;
    if i < last {
      ViewUpdated(rows[..last], i, r);
      assert rows[i := r][..last] == rows[..last][i := r];
      assert PairOf(rows[last]) != PairOf(r);
    } else {
      assert rows[i := r][..last] == rows[..last];
    }
  }

  // The rows a removal loop leaves.
  function Kept(rows: seq<Row>, keep: Row -> bool): seq<Row> {
    if rows == [] then []
    else
      var rest := Kept(rows[..|rows| - 1], keep);
      if keep(rows[|rows| - 1]) then rest + [rows[|rows| - 1]] else rest
  }

  function Filtered(t: Relation, keep: Row -> bool): Relation {
    map p | p in t && keep(t[p]) :: t[p]
  }

  lemma LastIsNew(rows: seq<Row>)
    requires OnePerPair(rows) && rows != []
    ensures PairOf(rows[|rows| - 1]) !in View(rows[..|rows| - 1])
  {
    var front := rows[..|rows| - 1];
    if PairOf(rows[|rows| - 1]) in View(front) {
      var i := ViewIsStored(front, PairOf(rows[|rows| - 1]));
      assert false;
    }
  }

  lemma FilteredAdded(t: Relation, keep: Row -> bool, r: Row)
    requires PairOf(r) !in t
    ensures Filtered(t[PairOf(r) := r], keep) == if keep(r) then Filtered(t, keep)[PairOf(r) := r] else Filtered(t, keep)
  {
  }

  lemma {:induction false} ViewKept(rows: seq<Row>, keep: Row -> bool)
    requires OnePerPair(rows)
    ensures OnePerPair(Kept(rows, keep)) && View(Kept(rows, keep)) == Filtered(View(rows), keep)
  {
    if rows != [] {
      var front, last := rows[..|rows| - 1], rows[|rows| - 1];
      LastIsNew(rows);
      ViewKept(front, keep);
      FilteredAdded(View(front), keep, last);
      if keep(last) {
        ViewAppended(Kept(front, keep), last);
      }
    }
  }

  class Table {
    var rows: seq<Row>

    ghost predicate Valid()
      reads this
    {
      OnePerPair(rows)
    }

    constructor ()
      ensures Valid() && View(rows) == map[]
    {
      rows := [];
    }

    // get_compatibility
    method Find(a: AssetId, v: VideoId) returns (found: Option<nat>)
      requires Valid()
      ensures found.Some? <==> (a, v) in View(rows)
      ensures found.Some? ==> found.value < |rows| && PairOf(rows[found.value]) == (a, v)
      ensures found.Some? ==> View(rows)[(a, v)] == rows[found.value]
    {
      for i := 0 to |rows|
        invariant forall k :: 0 <= k < i ==> PairOf(rows[k]) != (a, v)
      {
        if PairOf(rows[i]) == (a, v) {
          ViewHolds(rows, i);
          return Some(i);
        }
      }
      found := None;
      if (a, v) in View(rows) {
        var i := ViewIsStored(rows, (a, v));
      }
    }

    // Delete every row that is not kept.
    method Remove(keep: Row -> bool)
      requires Valid()
      modifies this
      ensures Valid()
      ensures View(rows) == Filtered(old(View(rows)), keep)
    {
      var left: seq<Row> := [];
      for i := 0 to |rows|
        invariant rows == old(rows) && left == Kept(rows[..i], keep)
      {
        assert rows[..i + 1][..i] == rows[..i];
        if keep(rows[i]) {
          left := left + [rows[i]];
        }
      }
      assert rows[..|rows|] == rows;
      ViewKept(rows, keep);
      rows := left;
    }

    method Put(found: Option<nat>, r: Row)
      requires Valid() && (found.Some? <==> PairOf(r) in View(rows))
      requires found.Some? ==> found.value < |rows| && PairOf(rows[found.value]) == PairOf(r)
      modifies this
      ensures Valid() && View(rows) == old(View(rows))[PairOf(r) := r]
      ensures |rows| == |old(rows)| + if found.Some? then 0 else 1
    {
      if found.Some? {
        ViewUpdated(rows, found.value, r);
        rows := rows[found.value := r];
      } else {
        ViewAppended(rows, r);
        rows := rows + [r];
      }
    }

    // synchronize_automatic_match
    method SyncMatch(a: AssetId, v: VideoId)
      requires Valid()
      modifies this
      ensures Valid() && View(rows) == Synchronized(old(View(rows)), a, v)
    {
      var found := Find(a, v);
      if found.None? {
        Put(found, Automatic(a, v));
      } else if rows[found.value].status.AutomaticMatch? {
        Put(found, rows[found.value].(via := Filename, verifiedAt := None));
      }
      ghost var matched := View(rows);
      assert forall p :: p in matched ==> PairOf(matched[p]) == p by { ViewIsKeyed(rows); }
      Remove((r: Row) => !(r.asset == a && r.video != v && r.status.AutomaticMatch?));
    }

    // remove_automatic_matches
    method DropMatches(a: AssetId)
      requires Valid()
      modifies this
      ensures Valid() && View(rows) == Unmatched(old(View(rows)), a)
    {
      ViewIsKeyed(rows);
      Remove((r: Row) => !(r.asset == a && r.status.AutomaticMatch?));
    }

    // confirm_compatible and confirm_incompatible
    method Confirm(strip: string -> string, a: AssetId, v: VideoId, status: Status, note: Option<string>, at: int)
      returns (r: Result<(), CompatibilityError>)
      requires Valid()
      modifies this
      ensures Valid()
      ensures var text := strip(if note.Some? then note.value else "");
        && (r.Err? <==> status == AutomaticMatch || |text| > 1000)
        && (r.Ok? ==> View(rows) == Confirmed(old(View(rows)), a, v, status, if text == "" then None else Some(text), at))
      ensures r.Err? ==> rows == old(rows)
    {
      if !Human(status) { return Err(InvalidStatus); }
      var normalized := Normalized(strip, note);
      if normalized.Err? { return Err(normalized.error); }
      var found := Find(a, v);
      if found.Some? {
        var row := rows[found.value];
        if row.status == status && row.via.Manual? && row.note == normalized.value && row.verifiedAt.Some? {
          return Ok(());
        }
      }
      Put(found, Row(a, v, status, Manual, Some(at), normalized.value));
      r := Ok(());
    }

    // clear_manual_decision
    method Clear(a: AssetId, v: VideoId, evidence: Option<VideoId>)
      requires Valid()
      modifies this
      ensures Valid() && View(rows) == ClearedDecision(old(View(rows)), a, v, evidence)
    {
      var found := Find(a, v);
      if found.Some? {
        if evidence == Some(v) {
          Put(found, Automatic(a, v));
        } else {
          ViewIsKeyed(rows);
          Remove((r: Row) => PairOf(r) != (a, v));
        }
      }
    }

    // backfill_legacy_external_subtitle_compatibilities
    method Backfill(assets: set<AssetId>, videos: set<VideoId>, links: seq<(AssetId, Option<VideoId>, bool)>, at: int)
      returns (created: nat)
      requires Valid()
      modifies this
      ensures Valid() && View(rows) == Backfilled(old(View(rows)), assets, videos, links, at)
      ensures |rows| == |old(rows)| + created
    {
      created := 0;
      for i := 0 to |links|
        invariant Valid() && View(rows) == Backfilled(old(View(rows)), assets, videos, links[..i], at)
        invariant |rows| == |old(rows)| + created
      {
        assert links[..i + 1][..i] == links[..i];
        var (a, owner, manual) := links[i];
        if a in assets && owner.Some? && owner.value in videos {
          var found := Find(a, owner.value);
          if found.None? {
            Put(found,
                if manual then Row(a, owner.value, ConfirmedCompatible, Manual, Some(at), None)
                else Row(a, owner.value, AutomaticMatch, LegacyBackfill, None, None));
            created := created + 1;
          }
        }
      }
      assert links[..|links|] == links;
    }
  }

  lemma {:induction false} ViewIsKeyed(rows: seq<Row>)
    ensures forall p :: p in View(rows) ==> PairOf(View(rows)[p]) == p
  {
    if rows != [] {
      ViewIsKeyed(rows[..|rows| - 1]);
    }
  }
}
