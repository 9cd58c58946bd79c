/** The calls of app/crud.py, on the stored rows. */
module Crud {
  import opened Prelude
  import opened Ordering
  import opened Booking
  import opened Safety
  import opened Assignment
  import opened System
  import opened Storage
  import M = Messages
  import Q = NotificationQueue

  // ----- conflict detection and availability

  /** The confirmed reservations of a table, in no particular order. */
  function Carried(conn: Database, t: int): set<int>
    reads conn
  {
    set i | i in conn.reservations && OnTable(conn.reservations[i], t)
  }

  method TableHasConflict(conn: Database, t: int, at: int, exclude: Option<int>) returns (conflict: bool)
    ensures conflict == HasConflict(conn.Floor(), t, at, exclude)
  {
    var rows := Carried(conn, t);
    while rows != {}
      invariant rows <= Carried(conn, t)
      invariant forall i :: i in Carried(conn, t) && i !in rows && exclude != Some(i)
                  ==> !Clashes(conn.reservations[i], t, at)
      decreases rows
    {
      HasMember(rows);
      var i :| i in rows;
      rows := rows - {i};
      if exclude != Some(i) {
        var delta := Abs(conn.reservations[i].at - at);
        if delta < CONFLICT_WINDOW {
          assert i in conn.Floor().reservations && Clashes(conn.reservations[i], t, at);
          return true;
        }
      }
    }
    forall i | i in conn.reservations && exclude != Some(i) ensures !Clashes(conn.reservations[i], t, at) {
      if OnTable(conn.reservations[i], t) {
        assert i in Carried(conn, t);
      }
    }
    return false;
  }

  /** The rows of the availability query, before conflicts are looked at. */
  function MatchingKeys(f: Floor, party: Option<int>, room: Option<int>): Keys {
    map t | t in f.tables
      && (party.Some? ==> f.tables[t].capacity >= party.value)
      && (room.Some? ==> f.tables[t].room == room) :: (f.tables[t].capacity, 0)
  }

  /** The tables without a conflict, in the same order. */
  function Free(f: Floor, at: int, ids: seq<int>): seq<int> {
    if ids == [] then []
    else Free(f, at, ids[..|ids| - 1])
         + if HasConflict(f, ids[|ids| - 1], at, None) then [] else [ids[|ids| - 1]]
  }

  lemma {:induction false} FreeElements(f: Floor, at: int, ids: seq<int>)
    ensures forall t :: t in Free(f, at, ids) <==> t in ids && !HasConflict(f, t, at, None)
  {
    if ids != [] {
      FreeElements(f, at, ids[..|ids| - 1]);
      assert ids == ids[..|ids| - 1] + [ids[|ids| - 1]];
    }
  }

  lemma {:induction false} FreeSorted(f: Floor, at: int, party: Option<int>, room: Option<int>, ids: seq<int>)
    requires Sorted(MatchingKeys(f, party, room), ids)
    ensures Sorted(ListingKeys(f, at, party, room), Free(f, at, ids))
  {
    if ids != [] {
      var init, last := ids[..|ids| - 1], ids[|ids| - 1];
      var keys, kept := ListingKeys(f, at, party, room), Free(f, at, init);
      FreeSorted(f, at, party, room, init);
      FreeElements(f, at, init);
      if !HasConflict(f, last, at, None) {
        forall n | 0 <= n < |kept| ensures Precedes(keys[kept[n]], kept[n], keys[last], last) {
          assert kept[n] in kept;
          var p :| 0 <= p < |init| && init[p] == kept[n];
          assert ids[p] == kept[n];
        }
      }
    }
  }

  lemma {:induction false} FreeIsListing(f: Floor, at: int, party: Option<int>, room: Option<int>, ids: seq<int>)
    requires Sorted(MatchingKeys(f, party, room), ids)
    requires Elements(ids) == MatchingKeys(f, party, room).Keys
    ensures IsListing(f, at, party, room, Free(f, at, ids))
  {
    FreeSorted(f, at, party, room, ids);
    FreeElements(f, at, ids);
    forall t ensures t in Free(f, at, ids) <==> t in ListingKeys(f, at, party, room) {
      assert t in ids <==> t in Elements(ids);
    }
  }

  method FindAllAvailableTables(conn: Database, at: int, party: Option<int>, room: Option<int>) returns (ids: seq<int>)
    ensures IsListing(conn.Floor(), at, party, room, ids)
  {
    var f := conn.Floor();
    var rows := OrderBy(MatchingKeys(f, party, room));
    ids := [];
    for k := 0 to |rows|
      invariant ids == Free(f, at, rows[..k])
    {
      assert rows[..k + 1][..k] == rows[..k];
      var conflict := TableHasConflict(conn, rows[k], at, None);
      if !conflict {
        ids := ids + [rows[k]];
      }
    }
    assert rows[..|rows|] == rows;
    FreeIsListing(f, at, party, room, rows);
  }

  /** The tables that seat a party, with their loads, as the assignment query orders them. */
  function CandidateKeys(f: Floor, party: int): Keys {
    map t | t in f.tables && f.tables[t].capacity >= party :: (f.tables[t].capacity, Load(f, t))
  }

  lemma {:induction false} FirstOpenIsBest(f: Floor, party: int, at: int,
        exclude: Option<int>, ordered: seq<int>, k: nat)
    requires Sorted(CandidateKeys(f, party), ordered)
    requires Elements(ordered) == CandidateKeys(f, party).Keys
    requires k < |ordered| && Open(f, party, at, exclude, ordered[k])
    requires forall n | 0 <= n < k :: !Open(f, party, at, exclude, ordered[n])
    ensures Best(f, party, at, exclude) == Some(ordered[k])
  {
    forall u | Open(f, party, at, exclude, u) ensures Prefers(f, ordered[k], u) {
      assert u in Elements(ordered);
      var p :| 0 <= p < |ordered| && ordered[p] == u;
    }
    BestIsLeastOpen(f, party, at, exclude);
  }

  lemma {:induction false} NoneOpenNoBest(f: Floor, party: int, at: int, exclude: Option<int>, ordered: seq<int>)
    requires Elements(ordered) == CandidateKeys(f, party).Keys
    requires forall n | 0 <= n < |ordered| :: !Open(f, party, at, exclude, ordered[n])
    ensures Best(f, party, at, exclude) == None
  {
    forall u ensures !Open(f, party, at, exclude, u) {
      if u in CandidateKeys(f, party) {
        assert u in Elements(ordered);
        var p :| 0 <= p < |ordered| && ordered[p] == u;
      }
    }
    BestIsLeastOpen(f, party, at, exclude);
  }

  method FindAvailableTable(conn: Database, party: int, at: int, exclude: Option<int>) returns (table: Option<int>)
    ensures table == Best(conn.Floor(), party, at, exclude)
  {
    var f := conn.Floor();
    var candidates := OrderBy(CandidateKeys(f, party));
    for k := 0 to |candidates|
      invariant forall n | 0 <= n < k :: !Open(f, party, at, exclude, candidates[n])
    {
      var conflict := TableHasConflict(conn, candidates[k], at, exclude);
      if !conflict {
        FirstOpenIsBest(f, party, at, exclude, candidates, k);
        return Some(candidates[k]);
      }
    }
    NoneOpenNoBest(f, party, at, exclude, candidates);
    return None;
  }

  method ResolveTableFor(conn: Database, requested: Option<int>, party: int, at: int, exclude: Option<int>)
    returns (table: Result<int, Error>)
    ensures table == Resolve(conn.Floor(), requested, party, at, exclude)
  {
    if requested.Some? {
      var t := requested.value;
      if t !in conn.tables {
        return Err(NoSuchTable);
      }
      if conn.tables[t].capacity < party {
        return Err(TableTooSmall);
      }
      var conflict := TableHasConflict(conn, t, at, exclude);
      if conflict {
        return Err(TableTaken);
      }
      return Ok(t);
    }
    var chosen := FindAvailableTable(conn, party, at, exclude);
    return if chosen.None? then Err(NoTableFree) else Ok(chosen.value);
  }

  // ----- reservations

  method GenerateUniqueCode(conn: Database, draws: seq<string>) returns (code: Option<string>)
    ensures code == FirstFree(draws, CodesInUse(conn.Floor()))
  {
    var taken := CodesInUse(conn.Floor());
    for k := 0 to |draws|
      invariant FirstFree(draws, taken) == FirstFree(draws[k..], taken)
    {
      if draws[k] !in taken {
        return Some(draws[k]);
      }
      assert draws[k..][1..] == draws[k + 1..];
    }
    return None;
  }

  /** Answers the id of the new reservation. */
  method CreateReservation(conn: Database, cfg: M.Config, data: NewReservation, draws: seq<string>, n1: int, n2: int)
    returns (r: Result<int, Error>)
    modifies conn
    ensures match Create(old(conn.Floor()), data, draws)
      case Err(e) => r == Err(e) && conn.Floor() == old(conn.Floor()) && conn.Queue() == old(conn.Queue())
      case Ok(g) =>
        var id := old(conn.nextReservation);
        && r == Ok(id) && conn.Floor() == g
        && conn.Queue() == AfterBooking(cfg, old(conn.Queue()), id, g.reservations[id], n1, n2)
  {
    var table := ResolveTableFor(conn, data.table, data.party, data.at, None);
    if table.Err? {
      return Err(table.error);
    }
    var code := GenerateUniqueCode(conn, draws);
    if code.None? {
      return Err(CodesExhausted);
    }
    if data.party <= 0 {
      return Err(ConstraintFailed);
    }
    var id := conn.nextReservation;
    var row := Reservation(data.phone, data.name, data.notes, data.party, data.at,
                           Confirmed, Some(table.value), code.value);
    conn.reservations := conn.reservations[id := row];
    conn.nextReservation := id + 1;
    var _ := Q.EnqueueRow(conn, cfg, Some(id), M.CreatedMsg, row.phone, n1, n1);
    var _ := Q.EnqueueRow(conn, cfg, Some(id), M.ReminderMsg, row.phone, ReminderTime(cfg, row.at, n2), n2);
    return Ok(id);
  }

  /** Where a patch puts a reservation: as asked, or where it is, or, if that fails, anywhere. */
  method ResolvePatch(conn: Database, id: int, patch: ReservationPatch) returns (table: Result<Option<int>, Error>)
    requires id in conn.reservations
    ensures table == Reassign(conn.Floor(), id, patch)
  {
    var existing := conn.reservations[id];
    var party, at := patch.party.Or(existing.party), patch.at.Or(existing.at);
    if !patch.Moves() {
      return Ok(existing.table);
    }
    var resolved := ResolveTableFor(conn, patch.table.Or(existing.table), party, at, Some(id));
    if resolved.Err? {
      if patch.table.Set? {
        return Err(resolved.error);
      }
      resolved := ResolveTableFor(conn, None, party, at, Some(id));
      if resolved.Err? {
        return Err(resolved.error);
      }
    }
    return Ok(Some(resolved.value));
  }

  /** Answers whether there is such a reservation. */
  method UpdateReservation(conn: Database, cfg: M.Config, id: int, patch: ReservationPatch, n1: int, n2: int)
    returns (r: Result<bool, Error>)
    modifies conn
    ensures if id !in old(conn.reservations) then
        r == Ok(false) && conn.Floor() == old(conn.Floor()) && conn.Queue() == old(conn.Queue())
      else
        match Update(old(conn.Floor()), id, patch)
        case Err(e) => r == Err(e) && conn.Floor() == old(conn.Floor()) && conn.Queue() == old(conn.Queue())
        case Ok(g) =>
          && r == Ok(true) && conn.Floor() == g
          && conn.Queue() == AfterChange(cfg, old(conn.Queue()), id, g.reservations[id], patch, n1, n2)
  {
    if id !in conn.reservations {
      return Ok(false);
    }
    var table := ResolvePatch(conn, id, patch);
    if table.Err? {
      return Err(table.error);
    }
    if patch.Nullifies() || patch.party.Or(1) <= 0 {
      return Err(ConstraintFailed);
    }
    var row := Patched(conn.reservations[id], patch, table.value);
    conn.reservations := conn.reservations[id := row];
    if patch.Moves() {
      var _ := Q.EnqueueRow(conn, cfg, Some(id), M.UpdatedMsg, row.phone, n1, n1);
    }
    if patch.at.Set? {
      var _ := Q.CancelPendingRemindersFor(conn, id);
      var _ := Q.EnqueueRow(conn, cfg, Some(id), M.ReminderMsg, row.phone, ReminderTime(cfg, row.at, n2), n2);
    }
    return Ok(true);
  }

  /** Answers whether there is such a reservation; cancelling twice is cancelling once. */
  method CancelReservation(conn: Database, cfg: M.Config, id: int, n1: int) returns (found: bool)
    modifies conn
    ensures found == (id in old(conn.reservations))
    ensures if id !in old(conn.reservations) || old(conn.reservations)[id].status == Cancelled then
        conn.Floor() == old(conn.Floor()) && conn.Queue() == old(conn.Queue())
      else
        var g := Cancel(old(conn.Floor()), id);
        conn.Floor() == g && conn.Queue() == AfterCancel(cfg, old(conn.Queue()), id, g.reservations[id], n1)
  {
    if id !in conn.reservations {
      return false;
    }
    if conn.reservations[id].status == Cancelled {
      return true;
    }
    var row := conn.reservations[id].(status := Cancelled);
    conn.reservations := conn.reservations[id := row];
    var _ := Q.EnqueueRow(conn, cfg, Some(id), M.CancelledMsg, row.phone, n1, n1);
    var _ := Q.CancelPendingRemindersFor(conn, id);
    return true;
  }

  // ----- tables and rooms

  /** What a call on tables or rooms answers: an error, or whether the row was found. */
  ghost predicate Outcome(before: Floor, found: bool, spec: Result<Floor, Error>,
        after: Floor, answer: Result<bool, Error>)
  {
    if !found then after == before && answer == Ok(false)
    else after == Left(before, spec) && answer == if spec.Err? then Err(spec.error) else Ok(true)
  }

  method CreateTableRow(conn: Database, data: NewTable) returns (r: Result<bool, Error>)
    modifies conn
    ensures Outcome(old(conn.Floor()), true, CreateTable(old(conn.Floor()), data), conn.Floor(), r)
    ensures conn.Queue() == old(conn.Queue())
  {
    if data.room.Some? && data.room.value !in conn.rooms {
      return Err(NoSuchRoom);
    }
    if NumberTaken(conn.Floor(), data.number, None) || !(MIN_CAPACITY <= data.capacity <= MAX_CAPACITY) {
      return Err(NameTaken);
    }
    conn.tables := conn.tables[conn.nextTable := Table(data.number, data.capacity, data.room)];
    conn.nextTable := conn.nextTable + 1;
    return Ok(true);
  }

  /** The COUNT(*) of the capacity check is positive exactly when some party would be stranded. */
  lemma {:induction false} StrandedCount(f: Floor, t: int, capacity: int)
    ensures var rows := set i | i in f.reservations && OnTable(f.reservations[i], t);
      |set i | i in rows && f.reservations[i].party > capacity| > 0 <==> Strands(f, t, capacity)
  {
    var rows := set i | i in f.reservations && OnTable(f.reservations[i], t);
    var large := set i | i in rows && f.reservations[i].party > capacity;
    HasMember(large);
    if Strands(f, t, capacity) {
      var i :| i in f.reservations && OnTable(f.reservations[i], t) && f.reservations[i].party > capacity;
      assert i in large;
    }
  }

  method UpdateTableRow(conn: Database, t: int, patch: TablePatch) returns (r: Result<bool, Error>)
    modifies conn
    ensures Outcome(old(conn.Floor()), t in old(conn.tables),
                    if t in old(conn.tables) then UpdateTable(old(conn.Floor()), t, patch) else Ok(old(conn.Floor())),
                    conn.Floor(), r)
    ensures conn.Queue() == old(conn.Queue())
  {
    if t !in conn.tables {
      return Ok(false);
    }
    var existing := conn.tables[t];
    if patch.capacity.Set? && patch.capacity.value < existing.capacity {
      var oversized := |set i | i in Carried(conn, t) && conn.reservations[i].party > patch.capacity.value|;
      StrandedCount(conn.Floor(), t, patch.capacity.value);
      if oversized > 0 {
        return Err(PartyStranded);
      }
    }
    if patch.room.Set? && patch.room.value.Some? && patch.room.value.value !in conn.rooms {
      return Err(NoSuchRoom);
    }
    if patch.number == Set(None)
       || (patch.number.Set? && NumberTaken(conn.Floor(), patch.number.value.value, Some(t))) {
      return Err(NameTaken);
    }
    if patch.capacity.Set? && !(MIN_CAPACITY <= patch.capacity.value <= MAX_CAPACITY) {
      return Err(NameTaken);
    }
    conn.tables := conn.tables[t := Table(
      if patch.number.Set? then patch.number.value.value else existing.number,
      patch.capacity.Or(existing.capacity), patch.room.Or(existing.room))];
    return Ok(true);
  }

  method DeleteTableRow(conn: Database, t: int) returns (r: Result<bool, Error>)
    modifies conn
    ensures Outcome(old(conn.Floor()), t in old(conn.tables),
                    if t in old(conn.tables) then DeleteTable(old(conn.Floor()), t) else Ok(old(conn.Floor())),
                    conn.Floor(), r)
    ensures conn.Queue() == old(conn.Queue())
  {
    if t !in conn.tables {
      return Ok(false);
    }
    var inUse := set i | i in conn.reservations && conn.reservations[i].table == Some(t);
    HasMember(inUse);
    if |inUse| > 0 {
      assert TableReferenced(conn.Floor(), t);
      return Err(TableInUse);
    }
    forall i | i in conn.reservations ensures conn.reservations[i].table != Some(t) {
      assert i !in inUse;
    }
    conn.tables := conn.tables - {t};
    return Ok(true);
  }

  method CreateRoomRow(conn: Database, name: string) returns (r: Result<bool, Error>)
    modifies conn
    ensures Outcome(old(conn.Floor()), true, CreateRoom(old(conn.Floor()), name), conn.Floor(), r)
    ensures conn.Queue() == old(conn.Queue())
  {
    if RoomNameTaken(conn.Floor(), name) {
      return Err(NameTaken);
    }
    conn.rooms := conn.rooms[conn.nextRoom := Room(name)];
    conn.nextRoom := conn.nextRoom + 1;
    return Ok(true);
  }

  method DeleteRoomRow(conn: Database, room: int) returns (r: Result<bool, Error>)
    modifies conn
    ensures Outcome(old(conn.Floor()), room in old(conn.rooms),
                    if room in old(conn.rooms) then DeleteRoom(old(conn.Floor()), room) else Ok(old(conn.Floor())),
                    conn.Floor(), r)
    ensures conn.Queue() == old(conn.Queue())
  {
    if room !in conn.rooms {
      return Ok(false);
    }
    var inUse := set t | t in conn.tables && conn.tables[t].room == Some(room);
    HasMember(inUse);
    if |inUse| > 0 {
      assert RoomReferenced(conn.Floor(), room);
      return Err(RoomInUse);
    }
    forall t | t in conn.tables ensures conn.tables[t].room != Some(room) {
      assert t !in inUse;
    }
    conn.rooms := conn.rooms - {room};
    return Ok(true);
  }
}
