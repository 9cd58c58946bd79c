/**
 What each call answers and which fields it writes, row by row: the meaning of the operations,
 said without them.
 */
module Effects {
  import opened Prelude
  import opened Ordering
  import opened Booking
  import opened Assignment
  import Safety
  import opened Messages
  import opened System
  import opened Protocol

  // ----- availability

  /** Confirmed reservations other than `exclude` keep two hours away from `at` on table `t`. */
  ghost predicate FreeAt(f: Floor, t: int, at: int, exclude: Option<int>) {
    forall i :: i in f.reservations && exclude != Some(i)
      && f.reservations[i].status == Booking.Confirmed && f.reservations[i].table == Some(t)
      ==> f.reservations[i].at <= at - 7_200_000_000 || f.reservations[i].at >= at + 7_200_000_000
  }

  /** The table exists, seats the party, and nobody else has it within two hours. */
  ghost predicate Takes(f: Floor, t: int, party: int, at: int, exclude: Option<int>) {
    t in f.tables && f.tables[t].capacity >= party && FreeAt(f, t, at, exclude)
  }

  lemma {:induction false} NoConflictIsFree(f: Floor, t: int, at: int, exclude: Option<int>)
    ensures HasConflict(f, t, at, exclude) <==> !FreeAt(f, t, at, exclude)
  {
    if HasConflict(f, t, at, exclude) {
      var i :| i in f.reservations && exclude != Some(i) && Clashes(f.reservations[i], t, at);
      assert f.reservations[i].table == Some(t);
    }
    if !FreeAt(f, t, at, exclude) {
      var i :| i in f.reservations && exclude != Some(i)
        && f.reservations[i].status == Booking.Confirmed && f.reservations[i].table == Some(t)
        && !(f.reservations[i].at <= at - 7_200_000_000 || f.reservations[i].at >= at + 7_200_000_000);
      assert Clashes(f.reservations[i], t, at);
    }
  }

  lemma {:induction false} OpenTakes(f: Floor, t: int, party: int, at: int, exclude: Option<int>)
    ensures Open(f, party, at, exclude, t) <==> Takes(f, t, party, at, exclude)
  {
    NoConflictIsFree(f, t, at, exclude);
  }

  /** Which tables the availability query lists, and in which order. */
  lemma {:induction false} ListingIsExact(f: Floor, at: int, party: Option<int>, room: Option<int>, ids: seq<int>)
    requires IsListing(f, at, party, room, ids)
    ensures forall t :: t in ids <==>
              && t in f.tables
              && (room.Some? ==> f.tables[t].room == Some(room.value))
              && (party.Some? ==> f.tables[t].capacity >= party.value)
              && FreeAt(f, t, at, None)
    ensures forall i, j | 0 <= i < j < |ids| :: ids[i] in f.tables && ids[j] in f.tables
              && (|| f.tables[ids[i]].capacity < f.tables[ids[j]].capacity
                  || (f.tables[ids[i]].capacity == f.tables[ids[j]].capacity && ids[i] < ids[j]))
  {
    forall t ensures t in ids <==> Listed(f, at, party, room, t) {
      assert t in ids <==> t in Elements(ids);
      NoConflictIsFree(f, t, at, None);
    }
    forall t ensures HasConflict(f, t, at, None) <==> !FreeAt(f, t, at, None) {
      NoConflictIsFree(f, t, at, None);
    }
  }

  // ----- create_reservation

  predicate FirstNew(draws: seq<string>, used: set<string>, k: nat) {
    k < |draws| && draws[k] !in used && forall j | 0 <= j < k :: draws[j] in used
  }

  /** Which draw becomes the code: the first that no reservation has, if there is one. */
  lemma {:induction false} FirstFreeIsFirst(draws: seq<string>, used: set<string>)
    ensures var c := FirstFree(draws, used);
      && (c.None? <==> forall k | 0 <= k < |draws| :: draws[k] in used)
      && (c.Some? ==> exists k: nat :: FirstNew(draws, used, k) && draws[k] == c.value)
  {
    if draws != [] {
      if draws[0] !in used {
        assert FirstNew(draws, used, 0);
      } else {
        var rest := draws[1..];
        FirstFreeIsFirst(rest, used);
        assert forall k | 0 <= k < |draws| :: draws[k] == if k == 0 then draws[0] else rest[k - 1];
        if FirstFree(rest, used).Some? {
          var k: nat :| FirstNew(rest, used, k) && rest[k] == FirstFree(rest, used).value;
          assert FirstNew(draws, used, k + 1);
        }
      }
    }
  }

  predicate CodeUsed(f: Floor, code: string) {
    exists i :: i in f.reservations && f.reservations[i].code == code
  }

  /** Draw `k` is the first that no reservation has. */
  predicate NewCode(f: Floor, draws: seq<string>, k: nat) {
    k < |draws| && !CodeUsed(f, draws[k]) && forall j | 0 <= j < k :: CodeUsed(f, draws[j])
  }

  lemma {:induction false} CodesAreUsed(f: Floor, code: string)
    ensures code in CodesInUse(f) <==> CodeUsed(f, code)
  {
  }

  /** A booking stores just what it was asked for, on the table it names or else on the best one. */
  lemma {:induction false} BookingStoresWhatIsAsked(f: Floor, data: NewReservation, draws: seq<string>)
    requires Create(f, data, draws).Ok?
    ensures var g := Create(f, data, draws).value;
      && f.nextReservation in g.reservations
      && var r := g.reservations[f.nextReservation];
         && g == f.(reservations := f.reservations[f.nextReservation := r], nextReservation := f.nextReservation + 1)
         && r.phone == data.phone && r.name == data.name && r.notes == data.notes
         && r.party == data.party && r.at == data.at && r.status == Booking.Confirmed
         && r.table.Some? && Takes(f, r.table.value, data.party, data.at, None)
         && (data.table.Some? ==> r.table == data.table)
         && (data.table.None? ==> IsBest(f, data.party, data.at, None, r.table.value))
         && !CodeUsed(f, r.code)
         && exists k: nat :: NewCode(f, draws, k) && draws[k] == r.code
  {
    var r := Create(f, data, draws).value.reservations[f.nextReservation];
    OpenTakes(f, r.table.value, data.party, data.at, None);
    FirstFreeIsFirst(draws, CodesInUse(f));
    var k: nat :| FirstNew(draws, CodesInUse(f), k) && draws[k] == r.code;
    forall j | 0 <= j < |draws| ensures draws[j] in CodesInUse(f) <==> CodeUsed(f, draws[j]) {
      CodesAreUsed(f, draws[j]);
    }
    assert NewCode(f, draws, k);
  }

  /** A table can be had: the one that is named, or any if none is. */
  ghost predicate TableToBeHad(f: Floor, table: Option<int>, party: int, at: int, exclude: Option<int>) {
    if table.Some? then Takes(f, table.value, party, at, exclude)
    else exists t :: Takes(f, t, party, at, exclude)
  }

  /** What each answer of the table resolution means. */
  lemma {:induction false} ResolveAnswers(f: Floor, table: Option<int>, party: int, at: int, exclude: Option<int>)
    ensures var r := Resolve(f, table, party, at, exclude);
      && (r.Ok? <==> TableToBeHad(f, table, party, at, exclude))
      && (r == Err(NoSuchTable) <==> table.Some? && table.value !in f.tables)
      && (r == Err(TableTooSmall) <==>
            table.Some? && table.value in f.tables && f.tables[table.value].capacity < party)
      && (r == Err(TableTaken) <==>
            && table.Some? && table.value in f.tables && f.tables[table.value].capacity >= party
            && !FreeAt(f, table.value, at, exclude))
      && (r == Err(NoTableFree) <==> table.None? && !TableToBeHad(f, table, party, at, exclude))
  {
    if table.Some? {
      NoConflictIsFree(f, table.value, at, exclude);
    } else {
      Safety.BestIsLeastOpen(f, party, at, exclude);
      forall t ensures Open(f, party, at, exclude, t) <==> Takes(f, t, party, at, exclude) {
        OpenTakes(f, t, party, at, exclude);
      }
    }
  }

  /** When a booking succeeds, and what it answers when it does not. */
  lemma {:induction false} BookingAnswers(f: Floor, data: NewReservation, draws: seq<string>)
    ensures var r := Create(f, data, draws);
      var had := TableToBeHad(f, data.table, data.party, data.at, None);
      var code := exists k :: 0 <= k < |draws| && !CodeUsed(f, draws[k]);
      && (r.Ok? <==> had && code && data.party > 0)
      && (!had ==> r.Err? && Resolve(f, data.table, data.party, data.at, None) == Err(r.error))
      && (r == Err(CodesExhausted) <==> had && !code)
      && (r == Err(ConstraintFailed) <==> had && code && data.party <= 0)
  {
    ResolveAnswers(f, data.table, data.party, data.at, None);
    FirstFreeIsFirst(draws, CodesInUse(f));
    forall k | 0 <= k < |draws| ensures draws[k] in CodesInUse(f) <==> CodeUsed(f, draws[k]) {
      CodesAreUsed(f, draws[k]);
    }
  }

  // ----- update_reservation

  /** When a patch succeeds. */
  lemma {:induction false} PatchAnswers(f: Floor, id: int, patch: ReservationPatch)
    requires id in f.reservations
    ensures var r := f.reservations[id];
      var party, at := patch.party.Or(r.party), patch.at.Or(r.at);
      var had := match patch.table
        case Set(table) => TableToBeHad(f, table, party, at, Some(id))
        case Keep => (patch.party.Keep? && patch.at.Keep?) || TableToBeHad(f, None, party, at, Some(id));
      var u := Update(f, id, patch);
      && (u.Ok? <==>
            && had && patch.phone != Set(None) && patch.name != Set(None)
            && (patch.party.Set? ==> patch.party.value > 0))
      && (u == Err(ConstraintFailed) <==> had && u.Err?)
  {
    var r := f.reservations[id];
    var party, at := patch.party.Or(r.party), patch.at.Or(r.at);
    ResolveAnswers(f, patch.table.Or(r.table), party, at, Some(id));
    ResolveAnswers(f, None, party, at, Some(id));
  }

  /** Edits of phone, name and notes are silent: no message is queued or cancelled, and the table stays. */
  lemma {:induction false} OtherEditsAreSilent(cfg: Config, s: State, step: Step)
    requires step.Change? && step.id in s.floor.reservations
    requires step.patch.party.Keep? && step.patch.at.Keep? && step.patch.table.Keep?
    ensures var t := Apply(cfg, s, step);
      && t.queue == s.queue && step.id in t.floor.reservations
      && var r, r' := s.floor.reservations[step.id], t.floor.reservations[step.id];
         r'.table == r.table && r'.party == r.party && r'.at == r.at && r'.status == r.status
  {
  }

  // ----- cancel_reservation

  /** Cancelling changes the status of one reservation and nothing else on the floor. */
  lemma {:induction false} CancelWritesStatus(f: Floor, id: int)
    requires id in f.reservations
    ensures var r, g := f.reservations[id], Cancel(f, id);
      && id in g.reservations
      && g == f.(reservations := f.reservations[id := g.reservations[id]])
      && g.reservations[id] == Reservation(r.phone, r.name, r.notes, r.party, r.at, Booking.Cancelled, r.table, r.code)
  {
  }

  // ----- tables

  predicate NumberUsed(f: Floor, number: string, except: Option<int>) {
    exists t :: t in f.tables && Some(t) != except && f.tables[t].number == number
  }

  /** When a table can be added, what else is answered, and what is stored. */
  lemma {:induction false} AddTableEffect(f: Floor, data: NewTable)
    ensures var r := CreateTable(f, data);
      && (r == Err(NoSuchRoom) <==> data.room.Some? && data.room.value !in f.rooms)
      && (r.Ok? <==>
            && (data.room.Some? ==> data.room.value in f.rooms)
            && !NumberUsed(f, data.number, None) && 2 <= data.capacity <= 12)
      && (r.Err? ==> r.error == NoSuchRoom || r.error == NameTaken)
      && (r.Ok? ==>
            r.value == f.(tables := f.tables[f.nextTable := Table(data.number, data.capacity, data.room)],
                          nextTable := f.nextTable + 1))
  {
    assert NumberTaken(f, data.number, None) <==> NumberUsed(f, data.number, None);
  }

  /** A smaller capacity is asked for, and a confirmed party on the table does not fit it. */
  predicate WouldStrand(f: Floor, t: int, patch: TablePatch)
    requires t in f.tables
  {
    && patch.capacity.Set? && patch.capacity.value < f.tables[t].capacity
    && exists i :: i in f.reservations && f.reservations[i].status == Booking.Confirmed
                   && f.reservations[i].table == Some(t) && f.reservations[i].party > patch.capacity.value
  }

  lemma {:induction false} StrandsSpelledOut(f: Floor, t: int, capacity: int)
    ensures Strands(f, t, capacity) <==>
      exists i :: i in f.reservations && f.reservations[i].status == Booking.Confirmed
                  && f.reservations[i].table == Some(t) && f.reservations[i].party > capacity
  {
    if Strands(f, t, capacity) {
      var i :| i in f.reservations && OnTable(f.reservations[i], t) && f.reservations[i].party > capacity;
      assert f.reservations[i].table == Some(t);
    }
    forall i | i in f.reservations && f.reservations[i].status == Booking.Confirmed
      && f.reservations[i].table == Some(t) && f.reservations[i].party > capacity
      ensures Strands(f, t, capacity)
    {
      assert OnTable(f.reservations[i], t);
    }
  }

  /** When a table can be patched, and what else is answered. */
  lemma {:induction false} TablePatchAnswers(f: Floor, t: int, patch: TablePatch)
    requires t in f.tables
    ensures var r := UpdateTable(f, t, patch);
      var missing := patch.room.Set? && patch.room.value.Some? && patch.room.value.value !in f.rooms;
      && (r == Err(PartyStranded) <==> WouldStrand(f, t, patch))
      && (r == Err(NoSuchRoom) <==> !WouldStrand(f, t, patch) && missing)
      && (r.Ok? <==>
            && !WouldStrand(f, t, patch) && !missing && patch.number != Set(None)
            && (patch.number.Set? && patch.number.value.Some? ==>
                  !NumberUsed(f, patch.number.value.value, Some(t)))
            && (patch.capacity.Set? ==> 2 <= patch.capacity.value <= 12))
      && (r.Err? ==> r.error == PartyStranded || r.error == NoSuchRoom || r.error == NameTaken)
  {
    if patch.capacity.Set? && patch.capacity.value < f.tables[t].capacity {
      StrandsSpelledOut(f, t, patch.capacity.value);
    }
    if patch.number.Set? && patch.number.value.Some? {
      assert NumberTaken(f, patch.number.value.value, Some(t)) <==> NumberUsed(f, patch.number.value.value, Some(t));
    }
  }

  /** A patch of a table stores the fields it was sent and leaves everything else alone. */
  lemma {:induction false} TablePatchWritesWhatIsSent(f: Floor, t: int, patch: TablePatch)
    requires t in f.tables && UpdateTable(f, t, patch).Ok?
    ensures var g := UpdateTable(f, t, patch).value;
      && t in g.tables
      && var was, now := f.tables[t], g.tables[t];
         && g == f.(tables := f.tables[t := now])
         && (if patch.number.Set? then patch.number.value == Some(now.number) else now.number == was.number)
         && (if patch.capacity.Set? then patch.capacity.value == now.capacity else now.capacity == was.capacity)
         && (if patch.room.Set? then patch.room.value == now.room else now.room == was.room)
  {
  }

  /** A table is deleted unless some reservation, confirmed or cancelled, is on it. */
  lemma {:induction false} DeleteTableEffect(f: Floor, t: int)
    requires t in f.tables
    ensures var r := DeleteTable(f, t);
      && (r.Ok? <==> forall i :: i in f.reservations ==> f.reservations[i].table != Some(t))
      && (r.Err? ==> r.error == TableInUse)
      && (r.Ok? ==> r.value == f.(tables := r.value.tables))
      && (r.Ok? ==> r.value.tables.Keys == f.tables.Keys - {t})
      && (r.Ok? ==> forall u :: u in r.value.tables ==> r.value.tables[u] == f.tables[u])
  {
    assert TableReferenced(f, t) <==> exists i :: i in f.reservations && f.reservations[i].table == Some(t);
  }

  // ----- rooms

  /** A room is added unless its name is in use. */
  lemma {:induction false} AddRoomEffect(f: Floor, name: string)
    ensures var r := CreateRoom(f, name);
      && (r.Ok? <==> forall q :: q in f.rooms ==> f.rooms[q].name != name)
      && (r.Err? ==> r.error == NameTaken)
      && (r.Ok? ==> r.value == f.(rooms := f.rooms[f.nextRoom := Room(name)], nextRoom := f.nextRoom + 1))
  {
    assert RoomNameTaken(f, name) <==> exists q :: q in f.rooms && f.rooms[q].name == name;
  }

  /** A room is deleted unless a table is in it. */
  lemma {:induction false} DeleteRoomEffect(f: Floor, room: int)
    requires room in f.rooms
    ensures var r := DeleteRoom(f, room);
      && (r.Ok? <==> forall t :: t in f.tables ==> f.tables[t].room != Some(room))
      && (r.Err? ==> r.error == RoomInUse)
      && (r.Ok? ==> r.value == f.(rooms := r.value.rooms))
      && (r.Ok? ==> r.value.rooms.Keys == f.rooms.Keys - {room})
      && (r.Ok? ==> forall q :: q in r.value.rooms ==> r.value.rooms[q] == f.rooms[q])
  {
    assert RoomReferenced(f, room) <==> exists t :: t in f.tables && f.tables[t].room == Some(room);
  }

  // ----- the queue

  /** An agent's message is queued as sent, suppressed or not, unless it is about a reservation that is not there. */
  lemma {:induction false} PostQueuesIt(cfg: Config, s: State, step: Step)
    requires step.Post?
    ensures var t := Apply(cfg, s, step);
      && t.floor == s.floor && t.worker == s.worker
      && if step.reservation.Some? && step.reservation.value !in s.floor.reservations then t.queue == s.queue
         else
           var at := if step.when.Some? then step.when.value else step.n1;
           && t.queue.rows == s.queue.rows[s.queue.next :=
                Row(step.reservation, CustomMsg, step.phone, at, Pending, 0, step.n1)]
           && t.queue.next == s.queue.next + 1
  {
  }

  /** Cancelling reminders drops the pending ones of the reservation and leaves every other row as it is. */
  lemma {:induction false} DropsExactly(q: Queue, reservation: int, id: int)
    requires id in q.rows
    ensures var q' := DropReminders(q, reservation);
      && q'.rows.Keys == q.rows.Keys && q'.next == q.next
      && q'.rows[id] ==
           if q.rows[id].reservation == Some(reservation) && q.rows[id].kind == ReminderMsg
              && q.rows[id].status == Pending
           then q.rows[id].(status := Dropped) else q.rows[id]
  {
  }

  /** A message about reservation `id`, entered and, if it is no reminder, due at the same clock reading. */
  function Message(id: int, kind: Kind, phone: string, at: int, now: int): Row {
    Row(Some(id), kind, phone, at, Pending, 0, now)
  }

  /** A booking queues its confirmation and then its reminder, and touches no other row. */
  lemma {:induction false} BookingQueues(cfg: Config, s: State, step: Step)
    requires step.Book? && Create(s.floor, step.data, step.draws).Ok?
    ensures var q, t := s.queue, Apply(cfg, s, step);
      var id, d := s.floor.nextReservation, step.data;
      if cfg.suppress then t.queue == q
      else
        t.queue == Queue(
          q.rows[q.next := Message(id, CreatedMsg, d.phone, step.n1, step.n1)]
                [q.next + 1 := Message(id, ReminderMsg, d.phone, Max(d.at - cfg.lead, step.n2), step.n2)],
          q.next + 2)
  {
  }

  /** The rows with the pending reminders of a reservation cancelled. */
  function Silenced(rows: map<int, Row>, reservation: int): map<int, Row> {
    map id | id in rows ::
      if rows[id].reservation == Some(reservation) && rows[id].kind == ReminderMsg && rows[id].status == Pending
      then rows[id].(status := Dropped) else rows[id]
  }

  lemma {:induction false} DropIsSilenced(q: Queue, reservation: int)
    ensures DropReminders(q, reservation) == Queue(Silenced(q.rows, reservation), q.next)
  {
    var dropped, silenced := DropReminders(q, reservation).rows, Silenced(q.rows, reservation);
    assert dropped.Keys == silenced.Keys;
    forall id | id in q.rows ensures dropped[id] == silenced[id] {
    }
    assert dropped == silenced;
  }

  lemma {:induction false} SilencedAfter(rows: map<int, Row>, reservation: int, id: int, row: Row)
    requires row.kind != ReminderMsg
    ensures Silenced(rows[id := row], reservation) == Silenced(rows, reservation)[id := row]
  {
  }

  /** A cancellation queues its message and cancels the pending reminders; a second one does nothing. */
  lemma {:induction false} CancellationQueues(cfg: Config, s: State, step: Step)
    requires SystemInv(cfg, s) && step.CancelBooking? && step.id in s.floor.reservations
    ensures var q, t := s.queue, Apply(cfg, s, step);
      var r := s.floor.reservations[step.id];
      if r.status == Booking.Cancelled then t.queue == q && t.floor == s.floor
      else
        var silenced := Silenced(q.rows, step.id);
        t.queue ==
          if cfg.suppress then Queue(silenced, q.next)
          else Queue(silenced[q.next := Message(step.id, CancelledMsg, r.phone, step.n1, step.n1)], q.next + 1)
  {
    var q, r := s.queue, s.floor.reservations[step.id];
    if r.status == Booking.Cancelled {
      assert Apply(cfg, s, step).queue == q;
    } else {
      var row := Message(step.id, CancelledMsg, r.phone, step.n1, step.n1);
      DropIsSilenced(Enqueue(cfg, q, Some(step.id), CancelledMsg, r.phone, step.n1, step.n1), step.id);
      SilencedAfter(q.rows, step.id, q.next, row);
    }
  }

  /**
   A change of party, time or table queues a message; one that sends a time also cancels the pending
   reminders and queues a new one.
   */
  lemma {:induction false} ChangeQueues(cfg: Config, s: State, step: Step)
    requires SystemInv(cfg, s) && step.Change? && step.id in s.floor.reservations
    requires Update(s.floor, step.id, step.patch).Ok?
    ensures var q, t := s.queue, Apply(cfg, s, step);
      var p, id := step.patch, step.id;
      && id in t.floor.reservations
      && var r := t.floor.reservations[id];
         var updated := Message(id, UpdatedMsg, r.phone, step.n1, step.n1);
         t.queue ==
           if p.at.Keep? then
             (if cfg.suppress || (p.party.Keep? && p.table.Keep?) then q
              else Queue(q.rows[q.next := updated], q.next + 1))
           else if cfg.suppress then Queue(Silenced(q.rows, id), q.next)
           else
             Queue(Silenced(q.rows, id)[q.next := updated]
                   [q.next + 1 := Message(id, ReminderMsg, r.phone, Max(r.at - cfg.lead, step.n2), step.n2)],
                   q.next + 2)
  {
    var q, id := s.queue, step.id;
    var r := Apply(cfg, s, step).floor.reservations[id];
    var updated := Message(id, UpdatedMsg, r.phone, step.n1, step.n1);
    assert Apply(cfg, s, step).queue == AfterChange(cfg, q, id, r, step.patch, step.n1, step.n2);
    if step.patch.at.Set? {
      var told := Enqueue(cfg, q, Some(id), UpdatedMsg, r.phone, step.n1, step.n1);
      DropIsSilenced(told, id);
      SilencedAfter(q.rows, id, q.next, updated);
    }
  }

  /** The rows due at `now`, and, while messages are suppressed, custom. */
  function DueNow(cfg: Config, q: Queue, now: int): set<int> {
    set id | id in q.rows && q.rows[id].status == Pending && q.rows[id].at <= now
      && (cfg.suppress ==> q.rows[id].kind == CustomMsg)
  }

  function DueEarlier(cfg: Config, q: Queue, now: int, id: int): set<int>
    requires id in q.rows
  {
    set j | j in DueNow(cfg, q, now)
      && (q.rows[j].at < q.rows[id].at || (q.rows[j].at == q.rows[id].at && j < id))
  }

  /** A claim takes exactly the due rows with fewer than twenty due rows before them, and marks just these. */
  lemma {:induction false} ClaimTakesFirstTwenty(cfg: Config, s: State, step: Step)
    requires step.Claiming? && Enabled(cfg, s, step)
    ensures forall id :: id in step.order <==>
              id in DueNow(cfg, s.queue, step.n1) && |DueEarlier(cfg, s.queue, step.n1, id)| < 20
    ensures var t := Apply(cfg, s, step);
      && t.queue.rows.Keys == s.queue.rows.Keys && t.worker == Worker(step.order, None) && t.floor == s.floor
      && (forall id :: id in s.queue.rows && id in step.order ==>
            t.queue.rows[id] == s.queue.rows[id].(status := InFlight, attempts := s.queue.rows[id].attempts + 1))
      && (forall id :: id in s.queue.rows && id !in step.order ==> t.queue.rows[id] == s.queue.rows[id])
  {
    var keys := DueKeys(s.queue, step.n1, OnlyKind(cfg));
    forall id ensures id in keys <==> id in DueNow(cfg, s.queue, step.n1) {
      assert id in s.queue.rows ==>
          (Due(s.queue.rows[id], step.n1, OnlyKind(cfg)) <==> id in DueNow(cfg, s.queue, step.n1));
    }
    forall id | id in keys ensures Ahead(keys, id) == DueEarlier(cfg, s.queue, step.n1, id) {
    }
    forall id ensures id in step.order <==> id in Claimable(s.queue, step.n1, OnlyKind(cfg), BATCH) {
      assert id in step.order <==> id in Elements(step.order);
    }
  }

  /** What recording an outcome does to the row at the head of the batch, to the microsecond, and to no other row. */
  lemma {:induction false} RecordIsExact(cfg: Config, s: State, step: Step)
    requires SystemInv(cfg, s) && step.Ack? && Enabled(cfg, s, step)
    ensures var t := Apply(cfg, s, step);
      var id := s.worker.batch[0];
      && id in s.queue.rows && t.floor == s.floor && t.worker == Worker(s.worker.batch[1..], None)
      && var row := s.queue.rows[id];
         t.queue == s.queue.(rows := s.queue.rows[id :=
           if s.worker.sent.value then row.(status := Sent)
           else if row.attempts >= cfg.maxAttempts then row.(status := Failed)
           else row.(status := Pending, at := step.n1 + Min(60 * Pow2(row.attempts), 3600) * 1_000_000)])
  {
    assert s.worker.batch[0] in s.queue.rows;
    assert s.worker.sent == Some(s.worker.sent.value);
    if s.worker.sent.value {
      assert s.worker.sent == Some(true);
    }
  }
}
