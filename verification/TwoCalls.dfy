/**
 What the allocator's promise costs when two calls overlap.

 A call reads before its write transaction opens, so what it decided on one floor may be
 written to another. This module says exactly when that is harmless.
 */
module TwoCalls {
  import opened Prelude
  import opened Booking
  import opened Safety
  import Codes

  /** The row that a creation on floor `f` is about to insert. */
  ghost function Decided(f: Floor, data: NewReservation, draws: seq<string>): Reservation
    requires Create(f, data, draws).Ok?
  {
    Create(f, data, draws).value.reservations[f.nextReservation]
  }

  lemma {:induction false} DecidedRow(f: Floor, data: NewReservation, draws: seq<string>)
    requires Create(f, data, draws).Ok?
    requires forall k | 0 <= k < |draws| :: Codes.IsCode(draws[k])
    ensures var r := Decided(f, data, draws);
      && r.party == data.party > 0 && r.at == data.at && r.status == Confirmed && r.table.Some?
      && Open(f, data.party, data.at, None, r.table.value)
      && Codes.IsCode(r.code) && r.code !in CodesInUse(f)
  {
    FirstFreeIsNew(draws, CodesInUse(f));
    ResolvedIsOpen(f, data.table, data.party, data.at, None);
  }

  /** A confirmed row is fine on a floor: its table is still open, and nobody has its code. */
  predicate StillGood(g: Floor, r: Reservation)
    requires r.table.Some?
  {
    Open(g, r.party, r.at, None, r.table.value) && r.code !in CodesInUse(g)
  }

  lemma {:induction false} InsertedIsSound(g: Floor, r: Reservation)
    requires Inv(g) && r.table.Some? && r.status == Confirmed && r.party > 0 && Codes.IsCode(r.code)
    requires StillGood(g, r)
    ensures Inv(Insert(g, r))
  {
    var h, id := Insert(g, r), g.nextReservation;
    forall i | i in g.reservations ensures !Clashes(g.reservations[i], r.table.value, r.at) {
      assert None != Some(i);
    }
    PlacingKeepsApart(g, h, id, r);
    forall i | i in g.reservations ensures g.reservations[i].code in CodesInUse(g) && Seated(g, g.reservations[i]) {
    }
    assert Seated(h, r);
  }

  lemma {:induction false} SoundWasGood(g: Floor, r: Reservation)
    requires Inv(g) && r.table.Some? && r.status == Confirmed
    requires Inv(Insert(g, r))
    ensures StillGood(g, r)
  {
    var h, id := Insert(g, r), g.nextReservation;
    assert h.reservations[id] == r && Seated(h, r);
    forall i | i in g.reservations
      ensures !Clashes(g.reservations[i], r.table.value, r.at) && g.reservations[i].code != r.code
    {
      assert i != id && h.reservations[i] == g.reservations[i];
      if Clashes(g.reservations[i], r.table.value, r.at) {
        assert SameTable(h.reservations[i], h.reservations[id]);
      }
    }
  }

  /**
   A creation that decided on floor `f` and writes to floor `g`, whatever has been committed in
   between, keeps the promise exactly if its table is then still open to its party and its code
   still new.
   */
  lemma {:induction false} StaleCreate(f: Floor, g: Floor, data: NewReservation, draws: seq<string>)
    requires Inv(g) && Create(f, data, draws).Ok?
    requires forall k | 0 <= k < |draws| :: Codes.IsCode(draws[k])
    ensures Decided(f, data, draws).table.Some?
    ensures Inv(Insert(g, Decided(f, data, draws))) <==> StillGood(g, Decided(f, data, draws))
  {
    var r := Decided(f, data, draws);
    DecidedRow(f, data, draws);
    if StillGood(g, r) {
      InsertedIsSound(g, r);
    }
    if Inv(Insert(g, r)) {
      SoundWasGood(g, r);
    }
  }

  /** Two creations that both decide before either writes. */
  ghost predicate Collide(r: Reservation, q: Reservation) {
    (r.table == q.table && Abs(r.at - q.at) < CONFLICT_WINDOW) || r.code == q.code
  }

  lemma {:induction false} GoodAfterFirst(f: Floor, r: Reservation, q: Reservation)
    requires Inv(f) && r.table.Some? && q.table.Some? && r.status == Confirmed
    requires StillGood(f, q)
    ensures StillGood(Insert(f, r), q) <==> !Collide(r, q)
  {
    var g, id := Insert(f, r), f.nextReservation;
    var t := q.table.value;
    assert id !in f.reservations;
    forall i | i in f.reservations
      ensures !Clashes(f.reservations[i], t, q.at) && f.reservations[i].code != q.code
    {
      assert None != Some(i);
      assert f.reservations[i].code in CodesInUse(f);
    }
    assert HasConflict(g, t, q.at, None) <==> Clashes(r, t, q.at) by {
      if Clashes(r, t, q.at) {
        assert id in g.reservations && None != Some(id) && Clashes(g.reservations[id], t, q.at);
      }
    }
    assert CodesInUse(g) == CodesInUse(f) + {r.code} by {
      assert g.reservations[id] == r;
      forall c | c in CodesInUse(f) ensures c in CodesInUse(g) {
        var i :| i in f.reservations && f.reservations[i].code == c;
        assert g.reservations[i].code == c;
      }
    }
  }

  /**
   Two creations that both read floor `f` before either has written keep the promise exactly if
   they chose different tables or are two hours apart, and drew different codes.
   */
  lemma {:induction false} TwoCreates(f: Floor, data1: NewReservation, draws1: seq<string>,
        data2: NewReservation, draws2: seq<string>)
    requires Inv(f) && Create(f, data1, draws1).Ok? && Create(f, data2, draws2).Ok?
    requires forall k | 0 <= k < |draws1| :: Codes.IsCode(draws1[k])
    requires forall k | 0 <= k < |draws2| :: Codes.IsCode(draws2[k])
    ensures var r, q := Decided(f, data1, draws1), Decided(f, data2, draws2);
      Inv(Insert(Insert(f, r), q)) <==> !Collide(r, q)
  {
    var r, q := Decided(f, data1, draws1), Decided(f, data2, draws2);
    DecidedRow(f, data1, draws1);
    DecidedRow(f, data2, draws2);
    InsertedIsSound(f, r);
    StaleCreate(f, Insert(f, r), data2, draws2);
    GoodAfterFirst(f, r, q);
  }

  /** The spacing alone, which no constraint of the database guards, depends on table and time alone. */
  lemma {:induction false} TwoCreatesApart(f: Floor, data1: NewReservation, draws1: seq<string>,
        data2: NewReservation, draws2: seq<string>)
    requires Inv(f) && Create(f, data1, draws1).Ok? && Create(f, data2, draws2).Ok?
    requires forall k | 0 <= k < |draws1| :: Codes.IsCode(draws1[k])
    requires forall k | 0 <= k < |draws2| :: Codes.IsCode(draws2[k])
    ensures var r, q := Decided(f, data1, draws1), Decided(f, data2, draws2);
      Apart(Insert(Insert(f, r), q)) <==> !(r.table == q.table && Abs(data1.at - data2.at) < CONFLICT_WINDOW)
  {
    var r, q := Decided(f, data1, draws1), Decided(f, data2, draws2);
    DecidedRow(f, data1, draws1);
    DecidedRow(f, data2, draws2);
    InsertedIsSound(f, r);
    var g := Insert(f, r);
    var h := Insert(g, q);
    if r.table == q.table && Abs(data1.at - data2.at) < CONFLICT_WINDOW {
      assert SameTable(h.reservations[f.nextReservation], h.reservations[g.nextReservation]);
    } else {
      forall i | i in g.reservations ensures !Clashes(g.reservations[i], q.table.value, q.at) {
        if i in f.reservations {
          assert None != Some(i);
        }
      }
      PlacingKeepsApart(g, h, g.nextReservation, q);
    }
  }
}
