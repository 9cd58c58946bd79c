/**
 The batch assignment of scripts/seed_tables.py, as a fold over the unassigned rows.

 The script takes those rows in the order of their stored time strings, which may mix
 offsets; nothing below depends on which order that is.
 */
module Backfill {
  import opened Prelude
  import opened Ordering
  import opened Booking
  import opened Safety

  predicate Waiting(r: Reservation) {
    r.status == Confirmed && r.table == None
  }

  function Unassigned(f: Floor): set<int> {
    set i | i in f.reservations && Waiting(f.reservations[i])
  }

  function AssignTo(f: Floor, id: int, t: int): Floor
    requires id in f.reservations
  {
    f.(reservations := f.reservations[id := f.reservations[id].(table := Some(t))])
  }

  /** One row: it gets the table that auto-assignment would give it now, or is skipped. */
  ghost function BackfillRow(f: Floor, id: int): Floor {
    if id !in f.reservations then f
    else
      match Best(f, f.reservations[id].party, f.reservations[id].at, None)
      case None => f
      case Some(t) => AssignTo(f, id, t)
  }

  ghost function BackfillAll(f: Floor, ids: seq<int>): Floor {
    if ids == [] then f
    else BackfillRow(BackfillAll(f, ids[..|ids| - 1]), ids[|ids| - 1])
  }

  ghost predicate SkipsRow(f: Floor, id: int) {
    id in f.reservations && Best(f, f.reservations[id].party, f.reservations[id].at, None) == None
  }

  /** How many rows the backfill skips. */
  ghost function Skipped(f: Floor, ids: seq<int>): nat {
    if ids == [] then 0
    else Skipped(f, ids[..|ids| - 1])
         + if SkipsRow(BackfillAll(f, ids[..|ids| - 1]), ids[|ids| - 1]) then 1 else 0
  }

  /** What backfilling leaves alone. */
  lemma {:induction false} BackfillTouchesOnly(f: Floor, ids: seq<int>)
    ensures var g := BackfillAll(f, ids);
      && g == f.(reservations := g.reservations)
      && g.reservations.Keys == f.reservations.Keys
      && (forall i | i in f.reservations && i !in ids :: g.reservations[i] == f.reservations[i])
      && (forall i | i in f.reservations ::
            g.reservations[i] == f.reservations[i].(table := g.reservations[i].table))
  {
    if ids != [] {
      var init, last := ids[..|ids| - 1], ids[|ids| - 1];
      BackfillTouchesOnly(f, init);
      assert ids == init + [last];
    }
  }

  /** A row that is not the last keeps the table it got. */
  lemma {:induction false} BackfillKeepsTable(f: Floor, ids: seq<int>, k: nat)
    requires forall i, j | 0 <= i < j < |ids| :: ids[i] != ids[j]
    requires forall i | 0 <= i < |ids| :: ids[i] in Unassigned(f)
    requires k + 1 < |ids|
    ensures var g, h := BackfillAll(f, ids[..|ids| - 1]), BackfillAll(f, ids);
      && ids[k] in g.reservations && ids[k] in h.reservations
      && h.reservations[ids[k]] == g.reservations[ids[k]]
  {
    assert ids[k] in f.reservations && ids[|ids| - 1] in f.reservations;
    BackfillTouchesOnly(f, ids[..|ids| - 1]);
  }

  /** Every row gets the table that automatic assignment gives it when its turn comes, or none if that has none. */
  lemma {:induction false} BackfillGivesBest(f: Floor, ids: seq<int>, k: nat)
    requires forall i, j | 0 <= i < j < |ids| :: ids[i] != ids[j]
    requires forall i | 0 <= i < |ids| :: ids[i] in Unassigned(f)
    requires k < |ids|
    ensures ids[k] in f.reservations && ids[k] in BackfillAll(f, ids).reservations
    ensures var r := f.reservations[ids[k]];
      BackfillAll(f, ids).reservations[ids[k]].table == Best(BackfillAll(f, ids[..k]), r.party, r.at, None)
  {
    assert ids[k] in f.reservations;
    BackfillTouchesOnly(f, ids);
    if k + 1 == |ids| {
      BackfillTouchesOnly(f, ids[..k]);
      assert ids[k] !in ids[..k];
      assert ids[..|ids| - 1] == ids[..k];
    } else {
      var init := ids[..|ids| - 1];
      BackfillGivesBest(f, init, k);
      BackfillKeepsTable(f, ids, k);
      assert init[..k] == ids[..k];
    }
  }

  lemma {:induction false} AssigningKeepsInv(f: Floor, id: int)
    requires Inv(f)
    requires id in f.reservations && Waiting(f.reservations[id])
    ensures Inv(BackfillRow(f, id))
  {
    var r, g := f.reservations[id], BackfillRow(f, id);
    var best := Best(f, r.party, r.at, None);
    if best.Some? {
      assert Seated(f, r);
      assert !HasConflict(f, best.value, r.at, Some(id)) by {
        forall i | i in f.reservations ensures !Clashes(f.reservations[i], best.value, r.at) {
          assert None != Some(i);
        }
      }
      PlacingKeepsApart(f, g, id, g.reservations[id]);
    }
  }

  /** The backfill keeps the allocator's promise. */
  lemma {:induction false} BackfillKeepsInv(f: Floor, ids: seq<int>)
    requires Inv(f)
    requires forall i, j | 0 <= i < j < |ids| :: ids[i] != ids[j]
    requires forall k | 0 <= k < |ids| :: ids[k] in Unassigned(f)
    ensures Inv(BackfillAll(f, ids))
  {
    if ids != [] {
      var init, last := ids[..|ids| - 1], ids[|ids| - 1];
      BackfillKeepsInv(f, init);
      BackfillTouchesOnly(f, init);
      assert last !in init;
      assert last in Unassigned(f);
      AssigningKeepsInv(BackfillAll(f, init), last);
    }
  }

  /** Assigning one more row can only close tables. */
  lemma {:induction false} RowOnlyClosesTables(f: Floor, id: int, party: int, at: int, t: int)
    requires id in f.reservations ==> Waiting(f.reservations[id])
    requires Open(BackfillRow(f, id), party, at, None, t)
    ensures Open(f, party, at, None, t)
  {
    var g := BackfillRow(f, id);
    forall i | i in f.reservations ensures !Clashes(f.reservations[i], t, at) {
      assert None != Some(i);
      assert !Clashes(g.reservations[i], t, at);
    }
  }

  lemma {:induction false} RowLeavesUnassigned(f: Floor, id: int)
    requires id in Unassigned(f)
    ensures Unassigned(BackfillRow(f, id)) == if SkipsRow(f, id) then Unassigned(f) else Unassigned(f) - {id}
  {
  }

  /** Every row is either assigned or counted as skipped. */
  lemma {:induction false} SkippedAreLeft(f: Floor, ids: seq<int>)
    requires forall i, j | 0 <= i < j < |ids| :: ids[i] != ids[j]
    requires forall k | 0 <= k < |ids| :: ids[k] in Unassigned(f)
    ensures |Unassigned(BackfillAll(f, ids))| == |Unassigned(f)| - |ids| + Skipped(f, ids)
  {
    if ids != [] {
      var init, last := ids[..|ids| - 1], ids[|ids| - 1];
      SkippedAreLeft(f, init);
      BackfillTouchesOnly(f, init);
      assert last !in init;
      assert last in Unassigned(f);
      RowLeavesUnassigned(BackfillAll(f, init), last);
    }
  }

  /** No skipped row fits any free table in the final state. */
  lemma {:induction false} BackfillIsMaximal(f: Floor, ids: seq<int>, i: int, t: int)
    requires forall i, j | 0 <= i < j < |ids| :: ids[i] != ids[j]
    requires forall k | 0 <= k < |ids| :: ids[k] in Unassigned(f)
    requires i in ids
    ensures var g := BackfillAll(f, ids);
      && i in g.reservations
      && (i in Unassigned(g) ==> !Open(g, g.reservations[i].party, g.reservations[i].at, None, t))
  {
    var init, last := ids[..|ids| - 1], ids[|ids| - 1];
    var before, g := BackfillAll(f, init), BackfillAll(f, ids);
    BackfillTouchesOnly(f, init);
    BackfillTouchesOnly(f, ids);
    assert last !in init;
    assert last in Unassigned(f);
    var r := before.reservations[i];
    if i in Unassigned(g) && Open(g, r.party, r.at, None, t) {
      RowOnlyClosesTables(before, last, r.party, r.at, t);
      if i == last {
        BestIsLeastOpen(before, r.party, r.at, None);
        assert false;
      } else {
        var k :| 0 <= k < |ids| && ids[k] == i;
        assert init[k] == i;
        BackfillIsMaximal(f, init, i, t);
        assert false;
      }
    }
  }

  /** A second backfill, in whatever order, changes nothing. */
  lemma {:induction false} BackfillIsIdempotent(f: Floor, ids: seq<int>, again: seq<int>)
    requires forall i, j | 0 <= i < j < |ids| :: ids[i] != ids[j]
    requires Elements(ids) == Unassigned(f)
    requires forall k | 0 <= k < |again| :: again[k] in Unassigned(BackfillAll(f, ids))
    ensures BackfillAll(BackfillAll(f, ids), again) == BackfillAll(f, ids)
  {
    if again != [] {
      var g := BackfillAll(f, ids);
      var init, last := again[..|again| - 1], again[|again| - 1];
      BackfillIsIdempotent(f, ids, init);
      BackfillTouchesOnly(f, ids);
      assert last in Unassigned(g);
      assert last in Elements(ids) by {
        assert last in Unassigned(f);
      }
      forall k | 0 <= k < |ids| ensures ids[k] in Unassigned(f) {
        assert ids[k] in Elements(ids);
      }
      var r := g.reservations[last];
      forall t ensures !Open(g, r.party, r.at, None, t) {
        BackfillIsMaximal(f, ids, last, t);
      }
      BestIsLeastOpen(g, r.party, r.at, None);
    }
  }
}
