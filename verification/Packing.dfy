/**
 Bounds on the whole restaurant that follow from the allocator's promise.
 */
module Packing {
  import opened Prelude
  import opened Booking
  import opened Safety

  /** The sum of the weights of a set of rows. */
  ghost function Sum(weights: map<int, int>, ids: set<int>): int
    requires ids <= weights.Keys
    decreases ids
  {
    if ids == {} then 0
    else
      HasMember(ids);
      var i :| i in ids;
      weights[i] + Sum(weights, ids - {i})
  }

  lemma {:induction false} SumSplits(weights: map<int, int>, ids: set<int>, x: int)
    requires ids <= weights.Keys && x in ids
    ensures Sum(weights, ids) == weights[x] + Sum(weights, ids - {x})
    decreases ids
  {
    HasMember(ids);
    var i :| i in ids && Sum(weights, ids) == weights[i] + Sum(weights, ids - {i});
    if i != x {
      SumSplits(weights, ids - {i}, x);
      SumSplits(weights, ids - {x}, i);
      assert ids - {i} - {x} == ids - {x} - {i};
    }
  }

  lemma {:induction false} SumOfPart(weights: map<int, int>, part: set<int>, ids: set<int>)
    requires part <= ids <= weights.Keys
    requires forall i :: i in ids ==> weights[i] >= 0
    ensures 0 <= Sum(weights, part) <= Sum(weights, ids)
    decreases ids
  {
    if ids == {} {
      assert part == {};
    } else {
      HasMember(ids);
      var i :| i in ids;
      SumSplits(weights, ids, i);
      if i in part {
        SumSplits(weights, part, i);
      }
      SumOfPart(weights, part - {i}, ids - {i});
      assert i !in part ==> part - {i} == part;
    }
  }

  function Parties(f: Floor): map<int, int> {
    map i | i in f.reservations :: f.reservations[i].party
  }

  function Capacities(f: Floor): map<int, int> {
    map t | t in f.tables :: f.tables[t].capacity
  }

  predicate SeatedFrom(r: Reservation, start: int) {
    r.status == Confirmed && r.table.Some? && start <= r.at < start + CONFLICT_WINDOW
  }

  /** The confirmed, table-assigned reservations in the two hours from `start`. */
  function Sitting(f: Floor, start: int): set<int> {
    set i | i in f.reservations && SeatedFrom(f.reservations[i], start)
  }

  /** Within half-open two hours no table is used twice. */
  lemma {:induction false} SittingsUseDistinctTables(f: Floor, start: int, i: int, j: int)
    requires Inv(f)
    requires i in Sitting(f, start) && j in Sitting(f, start)
    requires f.reservations[i].table == f.reservations[j].table
    ensures i == j
  {
    if i != j {
      assert SameTable(f.reservations[i], f.reservations[j]);
      assert false;
    }
  }

  function TablesOf(f: Floor, ids: set<int>): set<int>
    requires forall i :: i in ids ==> i in f.reservations && f.reservations[i].table.Some?
  {
    set i | i in ids :: f.reservations[i].table.value
  }

  lemma {:induction false} SittingsAreSeated(f: Floor, start: int, ids: set<int>)
    requires Inv(f) && ids <= Sitting(f, start)
    ensures ids <= f.reservations.Keys
    ensures forall i :: i in ids ==> f.reservations[i].table.Some? && f.reservations[i].table.value in f.tables
    ensures forall i :: i in ids ==> f.reservations[i].party <= f.tables[f.reservations[i].table.value].capacity
  {
    forall i | i in ids ensures Seated(f, f.reservations[i]) && i in Sitting(f, start) {
    }
  }

  /** Taking one reservation out of a sitting takes its table out of the tables in use. */
  lemma {:induction false} OneTableLess(f: Floor, start: int, ids: set<int>, i: int)
    requires Inv(f) && ids <= Sitting(f, start) && i in ids
    ensures var t := f.reservations[i].table.value;
      t in TablesOf(f, ids) && TablesOf(f, ids - {i}) == TablesOf(f, ids) - {t}
  {
    var t := f.reservations[i].table.value;
    forall j | j in ids - {i} ensures f.reservations[j].table.value != t {
      if f.reservations[j].table.value == t {
        SittingsUseDistinctTables(f, start, i, j);
      }
    }
    forall u | u in TablesOf(f, ids) - {t} ensures u in TablesOf(f, ids - {i}) {
      var j :| j in ids && f.reservations[j].table.value == u;
      assert j in ids - {i};
    }
  }

  lemma {:induction false} TablesExist(f: Floor, start: int, ids: set<int>)
    requires Inv(f) && ids <= Sitting(f, start)
    ensures TablesOf(f, ids) <= f.tables.Keys
  {
    SittingsAreSeated(f, start, ids);
  }

  lemma {:induction false} PartiesFitTheirTables(f: Floor, start: int, ids: set<int>)
    requires Inv(f) && ids <= Sitting(f, start)
    ensures ids <= f.reservations.Keys && TablesOf(f, ids) <= f.tables.Keys
    ensures Sum(Parties(f), ids) <= Sum(Capacities(f), TablesOf(f, ids))
    decreases ids
  {
    SittingsAreSeated(f, start, ids);
    TablesExist(f, start, ids);
    if ids == {} {
      assert TablesOf(f, ids) == {};
    } else {
      HasMember(ids);
      var i :| i in ids;
      PartiesFitTheirTables(f, start, ids - {i});
      OneTableLess(f, start, ids, i);
      SumSplits(Parties(f), ids, i);
      SumSplits(Capacities(f), TablesOf(f, ids), f.reservations[i].table.value);
    }
  }

  /** Seating: in any two hours, the parties seated never exceed the seats there are. */
  lemma {:induction false} SeatingBound(f: Floor, start: int)
    requires Inv(f)
    ensures Sum(Parties(f), Sitting(f, start)) <= Sum(Capacities(f), f.tables.Keys)
  {
    PartiesFitTheirTables(f, start, Sitting(f, start));
    SumOfPart(Capacities(f), TablesOf(f, Sitting(f, start)), f.tables.Keys);
  }

  predicate OnTableWithin(f: Floor, t: int, lo: int, hi: int, i: int) {
    i in f.reservations && OnTable(f.reservations[i], t) && lo <= f.reservations[i].at <= hi
  }

  lemma {:induction false} LatestExists(f: Floor, ids: set<int>) returns (last: int)
    requires ids != {} && ids <= f.reservations.Keys
    ensures last in ids
    ensures forall i :: i in ids ==> f.reservations[i].at <= f.reservations[last].at
    decreases ids
  {
    HasMember(ids);
    var i :| i in ids;
    if ids == {i} {
      last := i;
    } else {
      assert ids - {i} != {};
      var m := LatestExists(f, ids - {i});
      last := if f.reservations[i].at >= f.reservations[m].at then i else m;
      assert forall j :: j in ids ==> j == i || j in ids - {i};
    }
  }

  /** Everyone before the last comer on a table came at least two hours earlier. */
  lemma {:induction false} EarlierByTwoHours(f: Floor, t: int, ids: set<int>, lo: int, hi: int, last: int)
    requires Apart(f) && ids <= f.reservations.Keys
    requires forall i :: i in ids ==> OnTableWithin(f, t, lo, hi, i)
    requires last in ids
    requires forall i :: i in ids ==> f.reservations[i].at <= f.reservations[last].at
    ensures forall i :: i in ids - {last} ==>
              OnTableWithin(f, t, lo, f.reservations[last].at - CONFLICT_WINDOW, i)
  {
    assert OnTableWithin(f, t, lo, hi, last);
    forall i | i in ids - {last}
      ensures OnTableWithin(f, t, lo, f.reservations[last].at - CONFLICT_WINDOW, i)
    {
      assert OnTableWithin(f, t, lo, hi, i);
      assert SameTable(f.reservations[i], f.reservations[last]);
    }
  }

  lemma {:induction false} SpanBound(f: Floor, t: int, ids: set<int>, lo: int, hi: int)
    requires Apart(f)
    requires ids != {}
    requires forall i :: i in ids ==> OnTableWithin(f, t, lo, hi, i)
    ensures (|ids| - 1) * CONFLICT_WINDOW <= hi - lo
    decreases ids
  {
    assert ids <= f.reservations.Keys by {
      forall i | i in ids ensures i in f.reservations {
        assert OnTableWithin(f, t, lo, hi, i);
      }
    }
    var last := LatestExists(f, ids);
    assert OnTableWithin(f, t, lo, hi, last);
    var rest := ids - {last};
    if rest == {} {
      assert ids == {last};
    } else {
      EarlierByTwoHours(f, t, ids, lo, hi, last);
      SpanBound(f, t, rest, lo, f.reservations[last].at - CONFLICT_WINDOW);
      assert |ids| == |rest| + 1;
    }
  }

  /** Packing: n confirmed reservations on one table need at least (n-1) * 2h from first to last. */
  lemma {:induction false} PackingBound(f: Floor, t: int, ids: set<int>, lo: int, hi: int)
    requires Inv(f)
    requires ids != {}
    requires forall i :: i in ids ==> OnTableWithin(f, t, lo, hi, i)
    ensures (|ids| - 1) * CONFLICT_WINDOW <= hi - lo
  {
    SpanBound(f, t, ids, lo, hi);
  }
}
