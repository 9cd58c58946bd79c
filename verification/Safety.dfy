/**
 The promise of the allocator: no table is double-booked, every party fits, and
 every reference exists. Each operation keeps it.
 */
module Safety {
  import opened Prelude
  import opened Booking
  import Codes

  predicate SameTable(r: Reservation, q: Reservation) {
    r.status == Confirmed && q.status == Confirmed && r.table.Some? && r.table == q.table
  }

  /** Two confirmed reservations on one table are at least two hours apart. */
  ghost predicate Apart(f: Floor) {
    forall i, j :: i in f.reservations && j in f.reservations && i != j
      && SameTable(f.reservations[i], f.reservations[j])
      ==> Abs(f.reservations[i].at - f.reservations[j].at) >= CONFLICT_WINDOW
  }

  predicate Seated(f: Floor, r: Reservation) {
    && r.party > 0
    && (r.table.Some? ==> r.table.value in f.tables)
    && (r.table.Some? && r.status == Confirmed ==> r.party <= f.tables[r.table.value].capacity)
  }

  /** Every reservation's table exists and seats a confirmed party. */
  ghost predicate AllSeated(f: Floor) {
    forall i :: i in f.reservations ==> i < f.nextReservation && Seated(f, f.reservations[i])
  }

  ghost predicate TablesSound(f: Floor) {
    && (forall r :: r in f.rooms ==> r < f.nextRoom)
    && (forall t :: t in f.tables ==>
          && t < f.nextTable
          && MIN_CAPACITY <= f.tables[t].capacity <= MAX_CAPACITY
          && !RoomMissing(f, f.tables[t].room))
  }

  ghost predicate NamesUnique(f: Floor) {
    && (forall r, q :: r in f.rooms && q in f.rooms && f.rooms[r].name == f.rooms[q].name ==> r == q)
    && (forall t, u :: t in f.tables && u in f.tables && f.tables[t].number == f.tables[u].number ==> t == u)
  }

  ghost predicate CodesSound(f: Floor) {
    && (forall i :: i in f.reservations ==> Codes.IsCode(f.reservations[i].code))
    && (forall i, j ::
          (i in f.reservations && j in f.reservations && f.reservations[i].code == f.reservations[j].code)
          ==> i == j)
  }

  ghost predicate Inv(f: Floor) {
    Apart(f) && AllSeated(f) && TablesSound(f) && NamesUnique(f) && CodesSound(f)
  }

  lemma {:induction false} EmptySound()
    ensures Inv(EMPTY)
  {
  }

  // ----- which table is chosen

  lemma {:induction false} LeastExists(f: Floor, ids: set<int>) returns (least: int)
    requires ids != {} && ids <= f.tables.Keys
    ensures least in ids
    ensures forall u :: u in ids ==> Prefers(f, least, u)
    decreases ids
  {
    HasMember(ids);
    var t :| t in ids;
    var rest := ids - {t};
    if rest == {} {
      least := t;
      assert ids == {t};
    } else {
      var m := LeastExists(f, rest);
      least := if Prefers(f, t, m) then t else m;
      forall u | u in ids ensures Prefers(f, least, u) {
        if u != t {
          assert u in rest;
        }
      }
    }
  }

  /** `Best` is the one preferred open table, and fails only if no table is open. */
  lemma {:induction false} BestIsLeastOpen(f: Floor, party: int, at: int, exclude: Option<int>)
    ensures forall t :: Best(f, party, at, exclude) == Some(t) <==> IsBest(f, party, at, exclude, t)
    ensures Best(f, party, at, exclude) == None <==> forall t :: !Open(f, party, at, exclude, t)
  {
    var open := set t | t in f.tables && Open(f, party, at, exclude, t);
    if open != {} {
      var t := LeastExists(f, open);
      assert IsBest(f, party, at, exclude, t);
    } else {
      forall t ensures !Open(f, party, at, exclude, t) {
        assert t !in open;
      }
    }
  }

  lemma {:induction false} ResolvedIsOpen(f: Floor, requested: Option<int>, party: int, at: int, exclude: Option<int>)
    ensures var r := Resolve(f, requested, party, at, exclude);
      r.Ok? ==> Open(f, party, at, exclude, r.value)
  {
  }

  // ----- reservations

  lemma {:induction false} FirstFreeIsNew(draws: seq<string>, taken: set<string>)
    requires forall k | 0 <= k < |draws| :: Codes.IsCode(draws[k])
    ensures var c := FirstFree(draws, taken);
      c.Some? ==> c.value !in taken && Codes.IsCode(c.value)
  {
    if draws != [] && draws[0] in taken {
      FirstFreeIsNew(draws[1..], taken);
    }
  }

  /** A reservation put on an open table keeps the floor sound, whether new or moved. */
  lemma {:induction false} PlacingKeepsApart(f: Floor, g: Floor, id: int, r: Reservation)
    requires Apart(f)
    requires g.reservations == f.reservations[id := r]
    requires r.status == Confirmed && r.table.Some? ==> !HasConflict(f, r.table.value, r.at, Some(id))
    ensures Apart(g)
  {
    forall i, j | i in g.reservations && j in g.reservations && i != j
      && SameTable(g.reservations[i], g.reservations[j])
      ensures Abs(g.reservations[i].at - g.reservations[j].at) >= CONFLICT_WINDOW
    {
      if i == id {
        assert !Clashes(f.reservations[j], r.table.value, r.at);
      } else if j == id {
        assert !Clashes(f.reservations[i], r.table.value, r.at);
      } else {
        assert SameTable(f.reservations[i], f.reservations[j]);
      }
    }
  }

  lemma {:induction false} CreateKeepsInv(f: Floor, data: NewReservation, draws: seq<string>)
    requires Inv(f)
    requires forall k | 0 <= k < |draws| :: Codes.IsCode(draws[k])
    ensures var r := Create(f, data, draws);
      r.Ok? ==> Inv(r.value) && f.nextReservation !in f.reservations
  {
    var r := Create(f, data, draws);
    if r.Ok? {
      var t := Resolve(f, data.table, data.party, data.at, None).value;
      var row := r.value.reservations[f.nextReservation];
      FirstFreeIsNew(draws, CodesInUse(f));
      assert f.nextReservation !in f.reservations;
      assert !HasConflict(f, t, data.at, Some(f.nextReservation)) by {
        assert !HasConflict(f, t, data.at, None);
        forall i | i in f.reservations ensures !Clashes(f.reservations[i], t, data.at) {
          assert None != Some(i);
        }
      }
      PlacingKeepsApart(f, r.value, f.nextReservation, row);
      assert forall i :: i in f.reservations ==> f.reservations[i].code in CodesInUse(f);
    }
  }

  /** Where a patched reservation goes is open to it, or it stays where it was. */
  lemma {:induction false} ReassignedIsOpen(f: Floor, id: int, patch: ReservationPatch)
    requires id in f.reservations
    ensures var r := f.reservations[id];
      var to := Reassign(f, id, patch);
      to.Ok? ==>
        if patch.Moves() then
          to.value.Some? && Open(f, patch.party.Or(r.party), patch.at.Or(r.at), Some(id), to.value.value)
        else to.value == r.table
  {
  }

  lemma {:induction false} StaysApart(f: Floor, id: int)
    requires Apart(f) && id in f.reservations
    ensures var r := f.reservations[id];
      r.status == Confirmed && r.table.Some? ==> !HasConflict(f, r.table.value, r.at, Some(id))
  {
    var r := f.reservations[id];
    if r.status == Confirmed && r.table.Some? {
      forall i | i in f.reservations && i != id
        ensures !Clashes(f.reservations[i], r.table.value, r.at)
      {
        if Clashes(f.reservations[i], r.table.value, r.at) {
          assert SameTable(f.reservations[i], r);
        }
      }
    }
  }

  lemma {:induction false} UpdateKeepsInv(f: Floor, id: int, patch: ReservationPatch)
    requires Inv(f) && id in f.reservations
    ensures var r := Update(f, id, patch);
      r.Ok? ==> Inv(r.value)
  {
    var u := Update(f, id, patch);
    if u.Ok? {
      ReassignedIsOpen(f, id, patch);
      StaysApart(f, id);
      var row := u.value.reservations[id];
      assert Seated(f, f.reservations[id]);
      assert Seated(u.value, row);
      PlacingKeepsApart(f, u.value, id, row);
    }
  }

  lemma {:induction false} CancelKeepsInv(f: Floor, id: int)
    requires Inv(f) && id in f.reservations
    ensures Inv(Cancel(f, id))
  {
    var g := Cancel(f, id);
    assert Seated(f, f.reservations[id]);
    PlacingKeepsApart(f, g, id, g.reservations[id]);
  }

  // ----- tables and rooms

  lemma {:induction false} CreateTableKeepsInv(f: Floor, data: NewTable)
    requires Inv(f)
    ensures var r := CreateTable(f, data);
      r.Ok? ==> Inv(r.value)
  {
  }

  lemma {:induction false} UpdateTableKeepsInv(f: Floor, t: int, patch: TablePatch)
    requires Inv(f) && t in f.tables
    ensures var r := UpdateTable(f, t, patch);
      r.Ok? ==> Inv(r.value)
  {
    var r := UpdateTable(f, t, patch);
    if r.Ok? {
      forall i | i in f.reservations ensures Seated(r.value, f.reservations[i]) {
        assert Seated(f, f.reservations[i]);
        if OnTable(f.reservations[i], t) {
          assert f.reservations[i].party <= r.value.tables[t].capacity;
        }
      }
    }
  }

  lemma {:induction false} DeleteTableKeepsInv(f: Floor, t: int)
    requires Inv(f) && t in f.tables
    ensures var r := DeleteTable(f, t);
      r.Ok? ==> Inv(r.value)
  {
    var r := DeleteTable(f, t);
    if r.Ok? {
      forall i | i in f.reservations ensures Seated(r.value, f.reservations[i]) {
        assert Seated(f, f.reservations[i]);
        assert f.reservations[i].table != Some(t);
      }
    }
  }

  lemma {:induction false} CreateRoomKeepsInv(f: Floor, name: string)
    requires Inv(f)
    ensures var r := CreateRoom(f, name);
      r.Ok? ==> Inv(r.value)
  {
  }

  lemma {:induction false} DeleteRoomKeepsInv(f: Floor, room: int)
    requires Inv(f) && room in f.rooms
    ensures var r := DeleteRoom(f, room);
      r.Ok? ==> Inv(r.value)
  {
    var r := DeleteRoom(f, room);
    if r.Ok? {
      forall t | t in f.tables ensures !RoomMissing(r.value, f.tables[t].room) {
        assert f.tables[t].room != Some(room);
      }
    }
  }
}
