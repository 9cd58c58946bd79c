/**
 Rooms, tables and reservations (app/crud.py), as a value.

 `Floor` is the content of the three SQL tables. Each operation below is the
 meaning of one CRUD call: what it answers and what it leaves in the database.
 An `Err` stands for a raised exception, after which nothing has changed.
 Instants are whole microseconds.
 */
module Booking {
  import opened Prelude
  import Codes

  const HOUR := 3600 * SECOND
  const CONFLICT_WINDOW := 2 * HOUR
  const MIN_CAPACITY := 2
  const MAX_CAPACITY := 12
  const CODE_TRIES := 8

  datatype Room = Room(name: string)

  datatype Table = Table(number: string, capacity: int, room: Option<int>)

  datatype Status = Confirmed | Cancelled

  datatype Reservation = Reservation(
    phone: string, name: string, notes: Option<string>, party: int, at: int,
    status: Status, table: Option<int>, code: string)

  datatype Floor = Floor(
    rooms: map<int, Room>, tables: map<int, Table>, reservations: map<int, Reservation>,
    nextRoom: int, nextTable: int, nextReservation: int)

  const EMPTY := Floor(map[], map[], map[], 1, 1, 1)

  datatype Error =
    // ReservationError
    | NoSuchTable | TableTooSmall | TableTaken | NoTableFree
    // DomainError
    | NameTaken | NoSuchRoom | RoomInUse | TableInUse | PartyStranded
    // sqlite3.IntegrityError and RuntimeError, which reach the caller as they are
    | ConstraintFailed | CodesExhausted | NoTables

  // ----- request bodies

  datatype NewReservation = NewReservation(
    phone: string, name: string, notes: Option<string>, party: int, at: int, table: Option<int>)

  datatype ReservationPatch = ReservationPatch(
    phone: Patch<Option<string>>, name: Patch<Option<string>>, notes: Patch<Option<string>>,
    party: Patch<int>, at: Patch<int>, table: Patch<Option<int>>)
  {
    /** The fields whose change makes the table be resolved again and a message be sent. */
    predicate Moves() {
      party.Set? || at.Set? || table.Set?
    }

    predicate Nullifies() {
      phone == Set(None) || name == Set(None)
    }
  }

  datatype NewTable = NewTable(number: string, capacity: int, room: Option<int>)

  datatype TablePatch = TablePatch(
    number: Patch<Option<string>>, capacity: Patch<int>, room: Patch<Option<int>>)

  // ----- conflicts and availability

  /** A confirmed reservation on table `t`, less than two hours away from `at`. */
  predicate Clashes(r: Reservation, t: int, at: int) {
    r.status == Confirmed && r.table == Some(t) && Abs(r.at - at) < CONFLICT_WINDOW
  }

  predicate HasConflict(f: Floor, t: int, at: int, exclude: Option<int>) {
    exists i :: i in f.reservations && exclude != Some(i) && Clashes(f.reservations[i], t, at)
  }

  /** Table `t` could take a party at `at`. */
  predicate Open(f: Floor, party: int, at: int, exclude: Option<int>, t: int) {
    t in f.tables && f.tables[t].capacity >= party && !HasConflict(f, t, at, exclude)
  }

  predicate OnTable(r: Reservation, t: int) {
    r.status == Confirmed && r.table == Some(t)
  }

  /** How many confirmed reservations a table carries, at whatever time. */
  function Load(f: Floor, t: int): nat {
    |set i | i in f.reservations && OnTable(f.reservations[i], t)|
  }

  /** The order in which auto-assignment prefers tables. */
  predicate Prefers(f: Floor, t: int, u: int)
    requires t in f.tables && u in f.tables
  {
    var c, d := f.tables[t].capacity, f.tables[u].capacity;
    c < d || (c == d && (Load(f, t) < Load(f, u) || (Load(f, t) == Load(f, u) && t <= u)))
  }

  ghost predicate IsBest(f: Floor, party: int, at: int, exclude: Option<int>, t: int) {
    && Open(f, party, at, exclude, t)
    && forall u :: Open(f, party, at, exclude, u) ==> Prefers(f, t, u)
  }

  /** The table auto-assignment takes: of all open ones the least in (capacity, load, id). */
  ghost function Best(f: Floor, party: int, at: int, exclude: Option<int>): (r: Option<int>)
    ensures r.Some? ==> IsBest(f, party, at, exclude, r.value)
  {
    if t :| IsBest(f, party, at, exclude, t) then Some(t) else None
  }

  ghost function Resolve(f: Floor, requested: Option<int>, party: int, at: int, exclude: Option<int>)
    : Result<int, Error>
  {
    match requested
    case Some(t) =>
      if t !in f.tables then Err(NoSuchTable)
      else if f.tables[t].capacity < party then Err(TableTooSmall)
      else if HasConflict(f, t, at, exclude) then Err(TableTaken)
      else Ok(t)
    case None =>
      match Best(f, party, at, exclude)
      case Some(t) => Ok(t)
      case None => Err(NoTableFree)
  }

  // ----- confirmation codes

  function CodesInUse(f: Floor): set<string> {
    set i | i in f.reservations :: f.reservations[i].code
  }

  /** The first drawn code that no reservation has yet. */
  function FirstFree(draws: seq<string>, taken: set<string>): Option<string> {
    if draws == [] then None
    else if draws[0] !in taken then Some(draws[0])
    else FirstFree(draws[1..], taken)
  }

  ghost predicate FoundBy(f: Floor, raw: string, i: int) {
    i in f.reservations && f.reservations[i].code == Codes.Normalize(raw)
  }

  /** get_reservation_by_code. */
  ghost function ByCode(f: Floor, raw: string): (r: Option<int>)
    ensures r.Some? ==> FoundBy(f, raw, r.value)
  {
    if i :| FoundBy(f, raw, i) then Some(i) else None
  }

  // ----- reservations

  function Insert(f: Floor, r: Reservation): Floor {
    f.(reservations := f.reservations[f.nextReservation := r], nextReservation := f.nextReservation + 1)
  }

  ghost function Create(f: Floor, data: NewReservation, draws: seq<string>): Result<Floor, Error> {
    match Resolve(f, data.table, data.party, data.at, None)
    case Err(e) => Err(e)
    case Ok(t) =>
      match FirstFree(draws, CodesInUse(f))
      case None => Err(CodesExhausted)
      case Some(code) =>
        if data.party <= 0 then Err(ConstraintFailed)
        else Ok(Insert(f, Reservation(data.phone, data.name, data.notes, data.party, data.at,
                                      Confirmed, Some(t), code)))
  }

  /** The table a patched reservation ends up on. */
  ghost function Reassign(f: Floor, id: int, patch: ReservationPatch): Result<Option<int>, Error>
    requires id in f.reservations
  {
    var r := f.reservations[id];
    var party, at := patch.party.Or(r.party), patch.at.Or(r.at);
    if !patch.Moves() then Ok(r.table)
    else
      match Resolve(f, patch.table.Or(r.table), party, at, Some(id))
      case Ok(t) => Ok(Some(t))
      case Err(e) =>
        if patch.table.Set? then Err(e)
        else
          match Resolve(f, None, party, at, Some(id))
          case Ok(t) => Ok(Some(t))
          case Err(e') => Err(e')
  }

  function Patched(r: Reservation, patch: ReservationPatch, table: Option<int>): Reservation {
    r.(phone := match patch.phone case Set(Some(p)) => p case _ => r.phone,
       name := match patch.name case Set(Some(n)) => n case _ => r.name,
       notes := patch.notes.Or(r.notes),
       party := patch.party.Or(r.party),
       at := patch.at.Or(r.at),
       table := table)
  }

  ghost function Update(f: Floor, id: int, patch: ReservationPatch): Result<Floor, Error>
    requires id in f.reservations
  {
    match Reassign(f, id, patch)
    case Err(e) => Err(e)
    case Ok(table) =>
      if patch.Nullifies() || patch.party.Or(1) <= 0 then Err(ConstraintFailed)
      else Ok(f.(reservations := f.reservations[id := Patched(f.reservations[id], patch, table)]))
  }

  function Cancel(f: Floor, id: int): Floor
    requires id in f.reservations
  {
    f.(reservations := f.reservations[id := f.reservations[id].(status := Cancelled)])
  }

  // ----- tables and rooms

  predicate NumberTaken(f: Floor, number: string, except: Option<int>) {
    exists t :: t in f.tables && except != Some(t) && f.tables[t].number == number
  }

  predicate RoomNameTaken(f: Floor, name: string) {
    exists r :: r in f.rooms && f.rooms[r].name == name
  }

  predicate RoomMissing(f: Floor, room: Option<int>) {
    room.Some? && room.value !in f.rooms
  }

  function CreateTable(f: Floor, data: NewTable): Result<Floor, Error> {
    if RoomMissing(f, data.room) then Err(NoSuchRoom)
    else if NumberTaken(f, data.number, None) || !(MIN_CAPACITY <= data.capacity <= MAX_CAPACITY) then Err(NameTaken)
    else Ok(f.(tables := f.tables[f.nextTable := Table(data.number, data.capacity, data.room)],
               nextTable := f.nextTable + 1))
  }

  /** Some confirmed party on table `t` would not fit `capacity`. */
  predicate Strands(f: Floor, t: int, capacity: int) {
    exists i :: i in f.reservations && OnTable(f.reservations[i], t) && f.reservations[i].party > capacity
  }

  function UpdateTable(f: Floor, t: int, patch: TablePatch): Result<Floor, Error>
    requires t in f.tables
  {
    var was := f.tables[t];
    var capacity := patch.capacity.Or(was.capacity);
    if capacity < was.capacity && Strands(f, t, capacity) then Err(PartyStranded)
    else if patch.room.Set? && RoomMissing(f, patch.room.value) then Err(NoSuchRoom)
    else if patch.number == Set(None)
         || (patch.number.Set? && NumberTaken(f, patch.number.value.value, Some(t)))
         || (patch.capacity.Set? && !(MIN_CAPACITY <= capacity <= MAX_CAPACITY)) then Err(NameTaken)
    else Ok(f.(tables := f.tables[t := Table(
      if patch.number.Set? then patch.number.value.value else was.number,
      capacity, patch.room.Or(was.room))]))
  }

  predicate TableReferenced(f: Floor, t: int) {
    exists i :: i in f.reservations && f.reservations[i].table == Some(t)
  }

  function DeleteTable(f: Floor, t: int): Result<Floor, Error>
    requires t in f.tables
  {
    if TableReferenced(f, t) then Err(TableInUse)
    else Ok(f.(tables := f.tables - {t}))
  }

  function CreateRoom(f: Floor, name: string): Result<Floor, Error> {
    if RoomNameTaken(f, name) then Err(NameTaken)
    else Ok(f.(rooms := f.rooms[f.nextRoom := Room(name)], nextRoom := f.nextRoom + 1))
  }

  predicate RoomReferenced(f: Floor, room: int) {
    exists t :: t in f.tables && f.tables[t].room == Some(room)
  }

  function DeleteRoom(f: Floor, room: int): Result<Floor, Error>
    requires room in f.rooms
  {
    if RoomReferenced(f, room) then Err(RoomInUse)
    else Ok(f.(rooms := f.rooms - {room}))
  }
}
