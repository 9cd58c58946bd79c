/**
 What availability, booking, patching and cancelling say about each other.
 */
module Assignment {
  import opened Prelude
  import opened Ordering
  import opened Booking
  import opened Safety
  import Codes

  // ----- find_all_available_tables

  predicate Listed(f: Floor, at: int, party: Option<int>, room: Option<int>, t: int) {
    && t in f.tables
    && (party.Some? ==> f.tables[t].capacity >= party.value)
    && (room.Some? ==> f.tables[t].room == room)
    && !HasConflict(f, t, at, None)
  }

  /** The sort key of every table that the availability query returns. */
  function ListingKeys(f: Floor, at: int, party: Option<int>, room: Option<int>): Keys {
    map t | t in f.tables && Listed(f, at, party, room, t) :: (f.tables[t].capacity, 0)
  }

  /** `ids` is the answer of the availability query: smallest capacity first, then id. */
  predicate IsListing(f: Floor, at: int, party: Option<int>, room: Option<int>, ids: seq<int>) {
    var keys := ListingKeys(f, at, party, room);
    Sorted(keys, ids) && Elements(ids) == keys.Keys
  }

  /** A table is listed exactly when a reservation pinned to it would be taken. */
  lemma {:induction false} ListedIffBookable(f: Floor, data: NewReservation, draws: seq<string>, ids: seq<int>, t: int)
    requires IsListing(f, data.at, Some(data.party), None, ids)
    requires data.party > 0 && FirstFree(draws, CodesInUse(f)).Some?
    ensures t in ids <==> Create(f, data.(table := Some(t)), draws).Ok?
  {
    assert t in ids <==> t in Elements(ids);
  }

  /** Auto-assignment succeeds exactly when the list is non-empty, and takes the head's capacity. */
  lemma {:induction false} AutoBookingTakesHeadCapacity(f: Floor, data: NewReservation,
        draws: seq<string>, ids: seq<int>)
    requires IsListing(f, data.at, Some(data.party), None, ids)
    requires data.party > 0 && FirstFree(draws, CodesInUse(f)).Some? && data.table == None
    ensures var r := Create(f, data, draws);
      && (r.Ok? <==> ids != [])
      && (r.Ok? ==>
            var t := r.value.reservations[f.nextReservation].table;
            && t.Some? && t.value in ids
            && f.tables[t.value].capacity == f.tables[ids[0]].capacity)
  {
    BestIsLeastOpen(f, data.party, data.at, None);
    forall t ensures Open(f, data.party, data.at, None, t) <==> t in ids {
      assert t in ids <==> t in Elements(ids);
    }
    var best := Best(f, data.party, data.at, None);
    if ids != [] {
      assert Open(f, data.party, data.at, None, ids[0]);
      assert IsBest(f, data.party, data.at, None, best.value);
      assert Prefers(f, best.value, ids[0]);
      var k :| 0 <= k < |ids| && ids[k] == best.value;
    }
  }

  /** Booking table `t` blocks it at every time strictly within two hours, and changes nothing else. */
  lemma {:induction false} BookingBlocksExactly(f: Floor, data: NewReservation, draws: seq<string>, u: int, at: int)
    requires Inv(f)
    requires Create(f, data, draws).Ok?
    ensures var g := Create(f, data, draws).value;
      var t := g.reservations[f.nextReservation].table.value;
      HasConflict(g, u, at, None)
      <==> (HasConflict(f, u, at, None) || (u == t && Abs(data.at - at) < CONFLICT_WINDOW))
  {
    var g := Create(f, data, draws).value;
    var row := g.reservations[f.nextReservation];
    assert f.nextReservation !in f.reservations;
    if HasConflict(f, u, at, None) {
      var i :| i in f.reservations && None != Some(i) && Clashes(f.reservations[i], u, at);
      assert i in g.reservations && Clashes(g.reservations[i], u, at);
    }
    if u == row.table.value && Abs(data.at - at) < CONFLICT_WINDOW {
      assert Clashes(g.reservations[f.nextReservation], u, at);
    }
    if HasConflict(g, u, at, None) {
      var i :| i in g.reservations && None != Some(i) && Clashes(g.reservations[i], u, at);
      if i != f.nextReservation {
        assert Clashes(f.reservations[i], u, at);
      }
    }
  }

  // ----- cancel_reservation

  /** Cancelling undoes a booking's effect on every table's availability. */
  lemma {:induction false} CancelUndoesBooking(f: Floor, data: NewReservation, draws: seq<string>, u: int, at: int)
    requires Inv(f)
    requires Create(f, data, draws).Ok?
    ensures var g := Cancel(Create(f, data, draws).value, f.nextReservation);
      HasConflict(g, u, at, None) <==> HasConflict(f, u, at, None)
  {
    var g := Cancel(Create(f, data, draws).value, f.nextReservation);
    assert f.nextReservation !in f.reservations;
    forall i | i in f.reservations ensures g.reservations[i] == f.reservations[i] {
    }
    if HasConflict(f, u, at, None) {
      var i :| i in f.reservations && None != Some(i) && Clashes(f.reservations[i], u, at);
      assert Clashes(g.reservations[i], u, at);
    }
  }

  /** The slot of a cancelled reservation is free again, for its own party. */
  lemma {:induction false} CancelFreesTheSlot(f: Floor, id: int)
    requires Inv(f) && id in f.reservations
    requires f.reservations[id].status == Confirmed && f.reservations[id].table.Some?
    ensures var r := f.reservations[id];
      Open(Cancel(f, id), r.party, r.at, None, r.table.value)
  {
    var r, g := f.reservations[id], Cancel(f, id);
    StaysApart(f, id);
    assert Seated(f, r);
    forall i | i in g.reservations ensures !Clashes(g.reservations[i], r.table.value, r.at) {
      if i != id {
        assert Some(id) != Some(i);
        assert !Clashes(f.reservations[i], r.table.value, r.at);
      }
    }
  }

  // ----- update_reservation

  /** A patch that names a table moves there if it is open, and otherwise fails. */
  lemma {:induction false} PatchPinned(f: Floor, id: int, patch: ReservationPatch, t: int)
    requires id in f.reservations && patch.table == Set(Some(t))
    ensures var r := f.reservations[id];
      var to := Reassign(f, id, patch);
      && (to.Ok? <==> Open(f, patch.party.Or(r.party), patch.at.Or(r.at), Some(id), t))
      && (to.Ok? ==> to.value == Some(t))
  {
  }

  /**
   A patch of time or size that names no table keeps the table while it still fits and is
   free of everybody else, takes the preferred open table otherwise, and fails only
   when no table at all is open.
   */
  lemma {:induction false} PatchKeepsTableOrTakesBest(f: Floor, id: int, patch: ReservationPatch)
    requires id in f.reservations && patch.table.Keep? && (patch.party.Set? || patch.at.Set?)
    ensures var r := f.reservations[id];
      var party, at := patch.party.Or(r.party), patch.at.Or(r.at);
      var to := Reassign(f, id, patch);
      && (to.Ok? <==> exists t :: Open(f, party, at, Some(id), t))
      && (to.Ok? ==> to.value.Some?)
      && (to.Ok? && r.table.Some? && Open(f, party, at, Some(id), r.table.value) ==> to.value == r.table)
      && (to.Ok? && !(r.table.Some? && Open(f, party, at, Some(id), r.table.value)) ==>
            IsBest(f, party, at, Some(id), to.value.value))
  {
    var r := f.reservations[id];
    var party, at := patch.party.Or(r.party), patch.at.Or(r.at);
    BestIsLeastOpen(f, party, at, Some(id));
    ResolvedIsOpen(f, r.table, party, at, Some(id));
    ResolvedIsOpen(f, None, party, at, Some(id));
    if t :| Open(f, party, at, Some(id), t) {
      assert Best(f, party, at, Some(id)) != None;
    }
  }

  /** A confirmed, seated reservation does not move when its time is sent unchanged and its party still fits. */
  lemma {:induction false} UnchangedTimeNeverMoves(f: Floor, id: int, patch: ReservationPatch)
    requires Inv(f) && id in f.reservations
    requires f.reservations[id].status == Confirmed && f.reservations[id].table.Some?
    requires patch.table.Keep? && patch.at.Or(f.reservations[id].at) == f.reservations[id].at
    requires patch.party.Or(f.reservations[id].party) <= f.tables[f.reservations[id].table.value].capacity
    ensures Reassign(f, id, patch) == Ok(f.reservations[id].table)
  {
    StaysApart(f, id);
    assert Seated(f, f.reservations[id]);
  }

  /** Re-sending just the stored time leaves the whole floor as it was. */
  lemma {:induction false} ResendingTimeChangesNothing(f: Floor, id: int)
    requires Inv(f) && id in f.reservations
    requires f.reservations[id].status == Confirmed && f.reservations[id].table.Some?
    ensures var r := f.reservations[id];
      Update(f, id, ReservationPatch(Keep, Keep, Keep, Keep, Set(r.at), Keep)) == Ok(f)
  {
    var r := f.reservations[id];
    assert Seated(f, r);
    UnchangedTimeNeverMoves(f, id, ReservationPatch(Keep, Keep, Keep, Keep, Set(r.at), Keep));
    assert f.reservations[id := r] == f.reservations;
  }

  /** A successful patch writes the fields it was sent and leaves everything else on the floor alone. */
  lemma {:induction false} PatchWritesWhatIsSent(f: Floor, id: int, patch: ReservationPatch)
    requires id in f.reservations && Update(f, id, patch).Ok?
    ensures var g := Update(f, id, patch).value;
      && g == f.(reservations := g.reservations) && g.reservations.Keys == f.reservations.Keys
      && (forall i :: i in f.reservations && i != id ==> g.reservations[i] == f.reservations[i])
      && var r, r' := f.reservations[id], g.reservations[id];
         && r'.status == r.status && r'.code == r.code
         && (patch.party.Keep? && patch.at.Keep? && patch.table.Keep? ==> r'.table == r.table)
         && (if patch.phone.Set? then patch.phone.value == Some(r'.phone) else r'.phone == r.phone)
         && (if patch.name.Set? then patch.name.value == Some(r'.name) else r'.name == r.name)
         && (if patch.notes.Set? then patch.notes.value == r'.notes else r'.notes == r.notes)
         && (if patch.party.Set? then patch.party.value == r'.party else r'.party == r.party)
         && (if patch.at.Set? then patch.at.value == r'.at else r'.at == r.at)
  {
  }

  lemma {:induction false} OwnRowDoesNotConflict(f: Floor, id: int, r: Reservation, t: int, at: int)
    ensures HasConflict(f.(reservations := f.reservations[id := r]), t, at, Some(id))
      <==> HasConflict(f, t, at, Some(id))
  {
    var g := f.(reservations := f.reservations[id := r]);
    if i :| i in f.reservations && Some(id) != Some(i) && Clashes(f.reservations[i], t, at) {
      assert i in g.reservations && Clashes(g.reservations[i], t, at);
    }
    if i :| i in g.reservations && Some(id) != Some(i) && Clashes(g.reservations[i], t, at) {
      assert i in f.reservations && Clashes(f.reservations[i], t, at);
    }
  }

  /** The load of a table, reservation `id` left out. */
  function OthersOn(f: Floor, id: int, t: int): nat {
    |set i | i in f.reservations && i != id && OnTable(f.reservations[i], t)|
  }

  lemma {:induction false} LoadWithOwn(f: Floor, id: int, t: int)
    requires id in f.reservations
    ensures Load(f, t) == OthersOn(f, id, t) + if OnTable(f.reservations[id], t) then 1 else 0
  {
    var all := set i | i in f.reservations && OnTable(f.reservations[i], t);
    var others := set i | i in f.reservations && i != id && OnTable(f.reservations[i], t);
    assert all == others + if OnTable(f.reservations[id], t) then {id} else {};
    assert |others + {id}| == |others| + 1;
  }

  lemma {:induction false} OthersStay(f: Floor, id: int, r: Reservation, t: int)
    ensures OthersOn(f.(reservations := f.reservations[id := r]), id, t) == OthersOn(f, id, t)
  {
    var g := f.(reservations := f.reservations[id := r]);
    assert (set i | i in g.reservations && i != id && OnTable(g.reservations[i], t))
        == (set i | i in f.reservations && i != id && OnTable(f.reservations[i], t));
  }

  /** Table `u` would be preferred to table `t` of the same capacity by a reservation that sits on `t`. */
  predicate Tempts(f: Floor, id: int, party: int, at: int, t: int, u: int)
    requires t in f.tables
  {
    && Open(f, party, at, Some(id), u) && u != t && f.tables[u].capacity == f.tables[t].capacity
    && (OthersOn(f, id, u) < OthersOn(f, id, t) + 1 || (OthersOn(f, id, u) == OthersOn(f, id, t) + 1 && u < t))
  }

  /** An open table is automatic assignment's choice exactly if none is smaller or, of its size, preferred. */
  lemma {:induction false} BestOrTempted(f: Floor, id: int, party: int, at: int, t: int)
    requires id in f.reservations && OnTable(f.reservations[id], t)
    requires Open(f, party, at, Some(id), t)
    requires forall u :: Open(f, party, at, Some(id), u) ==> f.tables[t].capacity <= f.tables[u].capacity
    ensures Best(f, party, at, Some(id)) == Some(t) <==> forall u :: !Tempts(f, id, party, at, t, u)
  {
    BestIsLeastOpen(f, party, at, Some(id));
    LoadWithOwn(f, id, t);
    forall u | Open(f, party, at, Some(id), u) ensures Prefers(f, t, u) <==> !Tempts(f, id, party, at, t, u) {
      LoadWithOwn(f, id, u);
    }
  }

  /** Automatic assignment does not look at the load of a cancelled reservation. */
  lemma {:induction false} CancelledWeighsNothing(f: Floor, id: int, r: Reservation, party: int, at: int)
    requires id in f.reservations && f.reservations[id].status == Cancelled && r.status == Cancelled
    ensures Best(f.(reservations := f.reservations[id := r]), party, at, Some(id)) == Best(f, party, at, Some(id))
  {
    var g := f.(reservations := f.reservations[id := r]);
    BestIsLeastOpen(f, party, at, Some(id));
    BestIsLeastOpen(g, party, at, Some(id));
    forall t ensures Open(g, party, at, Some(id), t) <==> Open(f, party, at, Some(id), t) {
      OwnRowDoesNotConflict(f, id, r, t, at);
    }
    forall t ensures Load(g, t) == Load(f, t) {
      LoadWithOwn(f, id, t);
      LoadWithOwn(g, id, t);
      OthersStay(f, id, r, t);
    }
    forall t, u | t in f.tables && u in f.tables ensures Prefers(g, t, u) <==> Prefers(f, t, u) {
    }
    if t :| IsBest(f, party, at, Some(id), t) {
      assert IsBest(g, party, at, Some(id), t);
    }
    if t :| IsBest(g, party, at, Some(id), t) {
      assert IsBest(f, party, at, Some(id), t);
    }
  }

  /** The same patch sent again: it asks for the same table, and is refused, kept or moved accordingly. */
  lemma {:induction false} SecondPatch(f: Floor, id: int, patch: ReservationPatch)
    requires id in f.reservations && Update(f, id, patch).Ok?
    ensures var g := Update(f, id, patch).value;
      var r' := g.reservations[id];
      && (patch.table != Set(None) ==> Reassign(g, id, patch) == Ok(r'.table))
      && (patch.table == Set(None) ==> (Reassign(g, id, patch) == Ok(r'.table)
            <==> Best(g, r'.party, r'.at, Some(id)) == r'.table))
      && (Update(g, id, patch) == Ok(g) <==> Reassign(g, id, patch) == Ok(r'.table))
  {
    var g := Update(f, id, patch).value;
    var r' := g.reservations[id];
    if patch.Moves() {
      ReassignedIsOpen(f, id, patch);
      OwnRowDoesNotConflict(f, id, r', r'.table.value, r'.at);
      assert Resolve(g, r'.table, r'.party, r'.at, Some(id)) == Ok(r'.table.value);
    }
    assert Patched(r', patch, r'.table) == r';
    assert g.reservations[id := r'] == g.reservations;
  }

  /** A floor whose confirmed reservation `id` automatic assignment has just put on `t`. */
  lemma {:induction false} ChosenIsSmallest(f: Floor, id: int, r: Reservation)
    requires id in f.reservations && r.table.Some?
    requires Best(f, r.party, r.at, Some(id)) == r.table
    ensures var g := f.(reservations := f.reservations[id := r]);
      && Open(g, r.party, r.at, Some(id), r.table.value)
      && (forall u :: Open(g, r.party, r.at, Some(id), u) <==> Open(f, r.party, r.at, Some(id), u))
      && (forall u :: Open(g, r.party, r.at, Some(id), u) ==>
            g.tables[r.table.value].capacity <= g.tables[u].capacity)
  {
    var g := f.(reservations := f.reservations[id := r]);
    forall u ensures Open(g, r.party, r.at, Some(id), u) <==> Open(f, r.party, r.at, Some(id), u) {
      OwnRowDoesNotConflict(f, id, r, u, r.at);
    }
  }

  /**
   Sending a patch a second time changes nothing, except that a confirmed reservation sent "any
   table" leaves the table it was given for an open one of the same capacity that carries no more
   reservations besides its own, or one more and has the smaller id.
   */
  lemma {:induction false} ResendingPatch(f: Floor, id: int, patch: ReservationPatch)
    requires id in f.reservations && Update(f, id, patch).Ok?
    ensures var g, r := Update(f, id, patch).value, f.reservations[id];
      var t := g.reservations[id].table;
      && (patch.table == Set(None) ==> t.Some? && t.value in f.tables)
      && (Update(g, id, patch) == Ok(g) <==>
            !(&& patch.table == Set(None) && r.status == Confirmed
              && exists u :: Tempts(f, id, patch.party.Or(r.party), patch.at.Or(r.at), t.value, u)))
  {
    var g, r := Update(f, id, patch).value, f.reservations[id];
    var r' := g.reservations[id];
    SecondPatch(f, id, patch);
    ReassignedIsOpen(f, id, patch);
    if patch.table == Set(None) {
      assert Best(f, r'.party, r'.at, Some(id)) == r'.table;
      if r.status == Confirmed {
        ChosenIsSmallest(f, id, r');
        BestOrTempted(g, id, r'.party, r'.at, r'.table.value);
        forall u ensures Tempts(g, id, r'.party, r'.at, r'.table.value, u)
                    <==> Tempts(f, id, r'.party, r'.at, r'.table.value, u) {
          OthersStay(f, id, r', u);
          OthersStay(f, id, r', r'.table.value);
        }
      } else {
        CancelledWeighsNothing(f, id, r', r'.party, r'.at);
      }
    }
  }

  /** Two tables for two, and one party of two on table `t`. */
  function TwoTables(t: int): Floor {
    Floor(map[], map[1 := Table("T01", 2, None), 2 := Table("T02", 2, None)],
          map[1 := Reservation("+34911234567", "Ana", None, 2, 0, Confirmed, Some(t), "ACDEFG")], 1, 3, 2)
  }

  lemma {:induction false} TwoAlike(t: int, u: int)
    requires (t == 1 && u == 2) || (t == 2 && u == 1)
    ensures Best(TwoTables(t), 2, 0, Some(1)) == Some(u)
  {
    var f := TwoTables(t);
    LoadWithOwn(f, 1, t);
    LoadWithOwn(f, 1, u);
    assert (set i | i in f.reservations && i != 1 && OnTable(f.reservations[i], t)) == {};
    assert (set i | i in f.reservations && i != 1 && OnTable(f.reservations[i], u)) == {};
    BestIsLeastOpen(f, 2, 0, Some(1));
    assert IsBest(f, 2, 0, Some(1), u);
  }

  /** A concrete case: asked for "any table" twice, a reservation goes to the other table and back. */
  lemma {:induction false} AnyTableMovesOn()
    ensures exists f: Floor, patch: ReservationPatch ::
      && Inv(f) && 1 in f.reservations && patch.table == Set(None) && f.reservations[1].table == Some(1)
      && Update(f, 1, patch).Ok?
      && var g := Update(f, 1, patch).value;
         && g.reservations[1].table == Some(2)
         && Update(g, 1, patch) == Ok(f)
  {
    var f, g, patch := TwoTables(1), TwoTables(2), ReservationPatch(Keep, Keep, Keep, Keep, Keep, Set(None));
    TwoAlike(1, 2);
    TwoAlike(2, 1);
    assert Inv(f) by {
      assert Seated(f, f.reservations[1]);
      assert Codes.IsCode(f.reservations[1].code);
    }
    assert Update(f, 1, patch).value.reservations == g.reservations;
    assert Update(g, 1, patch).value.reservations == f.reservations;
  }

  // ----- get_reservation_by_code

  /** Looking up any typed variant of a reservation's code finds that reservation and no other. */
  lemma {:induction false} LookupFindsExactlyVariants(f: Floor, raw: string, i: int)
    requires Inv(f)
    ensures ByCode(f, raw) == Some(i)
      <==> i in f.reservations && Codes.Variant(raw, f.reservations[i].code)
  {
    if i in f.reservations {
      Codes.NormalizeFindsVariants(raw, f.reservations[i].code);
      if Codes.Variant(raw, f.reservations[i].code) {
        assert FoundBy(f, raw, i);
        var j := ByCode(f, raw).value;
        assert f.reservations[i].code == f.reservations[j].code;
      }
    }
    if ByCode(f, raw) == Some(i) {
      assert FoundBy(f, raw, i);
    }
  }

  /** The code as messages print it finds its reservation. */
  lemma {:induction false} LookupFindsPrinted(f: Floor, i: int)
    requires Inv(f) && i in f.reservations
    ensures ByCode(f, Codes.Printed(f.reservations[i].code)) == Some(i)
  {
    Codes.PrintedIsVariant(f.reservations[i].code);
    LookupFindsExactlyVariants(f, Codes.Printed(f.reservations[i].code), i);
  }
}
