/**
 backfill_assignments of scripts/seed_tables.py: the batch allocator, which answers its
 questions from an index in memory instead of asking the database row by row.
 */
module SeedTables {
  import opened Prelude
  import opened Ordering
  import opened Booking
  import opened Safety
  import opened Backfill
  import opened Storage
  import opened Crud

  // ----- the index

  type Usage = map<int, seq<int>>

  /** `times` are the times of the confirmed reservations of table `t`, one for each; `ids` says which. */
  ghost predicate Lists(f: Floor, t: int, times: seq<int>, ids: seq<int>) {
    && |ids| == |times| && Distinct(ids)
    && (forall k | 0 <= k < |ids| :: ids[k] in f.reservations
          && OnTable(f.reservations[ids[k]], t) && times[k] == f.reservations[ids[k]].at)
    && (forall i :: i in f.reservations && OnTable(f.reservations[i], t) ==> i in ids)
  }

  /** The index agrees with the database on every table. */
  ghost predicate Agrees(f: Floor, usage: Usage, who: Usage) {
    && usage.Keys == f.tables.Keys && who.Keys == f.tables.Keys
    && forall t :: t in f.tables ==> Lists(f, t, usage[t], who[t])
  }

  lemma {:induction false} DistinctSize(ids: seq<int>)
    requires Distinct(ids)
    ensures |Elements(ids)| == |ids|
  {
    if ids == [] {
      assert Elements(ids) == {};
    } else {
      var init, last := ids[..|ids| - 1], ids[|ids| - 1];
      DistinctSize(init);
      assert ids == init + [last];
      assert Elements(ids) == Elements(init) + {last};
      assert last !in init;
    }
  }

  /** The length of a table's list is its load. */
  lemma {:induction false} ListedLoad(f: Floor, t: int, times: seq<int>, ids: seq<int>)
    requires Lists(f, t, times, ids)
    ensures |times| == Load(f, t)
  {
    DistinctSize(ids);
    forall i | i in ids ensures i in f.reservations && OnTable(f.reservations[i], t) {
      var k :| 0 <= k < |ids| && ids[k] == i;
    }
    var rows := set i | i in f.reservations && OnTable(f.reservations[i], t);
    forall i | i in rows ensures i in Elements(ids) {
      assert OnTable(f.reservations[i], t);
    }
    assert Elements(ids) == rows;
  }

  predicate Near(times: seq<int>, at: int) {
    exists k :: 0 <= k < |times| && Abs(times[k] - at) < CONFLICT_WINDOW
  }

  /** A time in a table's list lies within two hours exactly when the query finds a conflict. */
  lemma {:induction false} ListedConflict(f: Floor, t: int, times: seq<int>, ids: seq<int>, at: int)
    requires Lists(f, t, times, ids)
    ensures Near(times, at) <==> HasConflict(f, t, at, None)
  {
    if Near(times, at) {
      var k :| 0 <= k < |times| && Abs(times[k] - at) < CONFLICT_WINDOW;
      assert ids[k] in f.reservations && Clashes(f.reservations[ids[k]], t, at);
    }
    if HasConflict(f, t, at, None) {
      var i :| i in f.reservations && None != Some(i) && Clashes(f.reservations[i], t, at);
      assert OnTable(f.reservations[i], t);
      var k :| 0 <= k < |ids| && ids[k] == i;
      assert Abs(times[k] - at) < CONFLICT_WINDOW;
    }
  }

  // ----- one row

  method IsNear(times: seq<int>, at: int) returns (near: bool)
    ensures near == Near(times, at)
  {
    for k := 0 to |times|
      invariant forall n | 0 <= n < k :: Abs(times[n] - at) >= CONFLICT_WINDOW
    {
      if Abs(at - times[k]) < CONFLICT_WINDOW {
        return true;
      }
    }
    return false;
  }

  /** The keys of the fitting tables, by capacity and length of their list. */
  function FittingKeys(tables: map<int, Table>, usage: Usage, party: int): Keys
    requires usage.Keys == tables.Keys
  {
    map t | t in tables && tables[t].capacity >= party :: (tables[t].capacity, |usage[t]|)
  }

  lemma {:induction false} FittingAreCandidates(f: Floor, usage: Usage, who: Usage, party: int)
    requires Agrees(f, usage, who)
    ensures FittingKeys(f.tables, usage, party) == CandidateKeys(f, party)
  {
    forall t | t in f.tables ensures |usage[t]| == Load(f, t) {
      ListedLoad(f, t, usage[t], who[t]);
    }
  }

  lemma {:induction false} NearMeansTaken(f: Floor, usage: Usage, who: Usage, party: int, at: int, t: int)
    requires Agrees(f, usage, who) && t in f.tables && f.tables[t].capacity >= party
    ensures Near(usage[t], at) <==> !Open(f, party, at, None, t)
  {
    ListedConflict(f, t, usage[t], who[t], at);
  }

  /** The index gives a row the very table that the online assignment would give it now, or none if it would not. */
  method ChooseTable(tables: map<int, Table>, usage: Usage, party: int, at: int, ghost f: Floor, ghost who: Usage)
    returns (chosen: Option<int>)
    requires Agrees(f, usage, who) && tables == f.tables
    ensures chosen == Best(f, party, at, None)
  {
    var fitting := OrderBy(FittingKeys(tables, usage, party));
    FittingAreCandidates(f, usage, who, party);
    for k := 0 to |fitting|
      invariant forall n | 0 <= n < k :: !Open(f, party, at, None, fitting[n])
    {
      NearMeansTaken(f, usage, who, party, at, fitting[k]);
      var near := IsNear(usage[fitting[k]], at);
      if !near {
        FirstOpenIsBest(f, party, at, None, fitting, k);
        return Some(fitting[k]);
      }
    }
    NoneOpenNoBest(f, party, at, None, fitting);
    return None;
  }

  /** Appending to the chosen table's list keeps the index in step with the database. */
  lemma {:induction false} AppendKeepsAgreement(f: Floor, usage: Usage, who: Usage, id: int, t: int)
    requires Agrees(f, usage, who)
    requires id in Unassigned(f) && t in f.tables
    ensures var at := f.reservations[id].at;
      Agrees(AssignTo(f, id, t), usage[t := usage[t] + [at]], who[t := who[t] + [id]])
  {
    var g := AssignTo(f, id, t);
    var usage', who' := usage[t := usage[t] + [f.reservations[id].at]], who[t := who[t] + [id]];
    forall u | u in g.tables ensures Lists(g, u, usage'[u], who'[u]) {
      assert Lists(f, u, usage[u], who[u]);
      forall k | 0 <= k < |who[u]| ensures who[u][k] != id {
        assert OnTable(f.reservations[who[u][k]], u);
      }
      forall i | i in g.reservations && OnTable(g.reservations[i], u) ensures i in who'[u] {
        if i == id {
          assert who'[u][|who[u]|] == id;
        } else {
          var k :| 0 <= k < |who[u]| && who[u][k] == i;
          assert who'[u][k] == i;
        }
      }
    }
  }

  // ----- building the index

  /** `Lists`, as far as the rows `seen` go. */
  ghost predicate ListsSeen(f: Floor, seen: set<int>, t: int, times: seq<int>, ids: seq<int>) {
    && |ids| == |times| && Distinct(ids)
    && (forall k | 0 <= k < |ids| :: ids[k] in seen && ids[k] in f.reservations
          && OnTable(f.reservations[ids[k]], t) && times[k] == f.reservations[ids[k]].at)
    && (forall i :: i in seen && i in f.reservations && OnTable(f.reservations[i], t) ==> i in ids)
  }

  ghost predicate AgreesSeen(f: Floor, seen: set<int>, usage: Usage, who: Usage) {
    && usage.Keys == f.tables.Keys && who.Keys == f.tables.Keys
    && forall t :: t in f.tables ==> ListsSeen(f, seen, t, usage[t], who[t])
  }

  function AssignedRows(f: Floor): set<int> {
    set i | i in f.reservations && f.reservations[i].status == Confirmed && f.reservations[i].table.Some?
  }

  lemma {:induction false} SeeOneMore(f: Floor, seen: set<int>, usage: Usage, who: Usage, i: int)
    requires AgreesSeen(f, seen, usage, who)
    requires i in AssignedRows(f) && i !in seen && f.reservations[i].table.value in f.tables
    ensures var t := f.reservations[i].table.value;
      AgreesSeen(f, seen + {i}, usage[t := usage[t] + [f.reservations[i].at]], who[t := who[t] + [i]])
  {
    var t := f.reservations[i].table.value;
    var usage', who' := usage[t := usage[t] + [f.reservations[i].at]], who[t := who[t] + [i]];
    forall u | u in f.tables ensures ListsSeen(f, seen + {i}, u, usage'[u], who'[u]) {
      assert ListsSeen(f, seen, u, usage[u], who[u]);
      forall j | j in seen + {i} && j in f.reservations && OnTable(f.reservations[j], u) ensures j in who'[u] {
        if j == i {
          assert who'[u][|who[u]|] == i;
        } else {
          var k :| 0 <= k < |who[u]| && who[u][k] == j;
          assert who'[u][k] == j;
        }
      }
    }
  }

  method LoadUsage(conn: Database) returns (usage: Usage, ghost who: Usage)
    requires AllSeated(conn.Floor())
    ensures Agrees(conn.Floor(), usage, who)
  {
    var f := conn.Floor();
    usage := map t | t in conn.tables :: [];
    who := usage;
    var rows := AssignedRows(f);
    ghost var seen: set<int> := {};
    while rows != {}
      invariant rows == AssignedRows(f) - seen
      invariant AgreesSeen(f, seen, usage, who)
      decreases rows
    {
      HasMember(rows);
      var i :| i in rows;
      var row := conn.reservations[i];
      assert Seated(f, f.reservations[i]);
      SeeOneMore(f, seen, usage, who, i);
      who := who[row.table.value := who[row.table.value] + [i]];
      usage := usage[row.table.value := usage[row.table.value] + [row.at]];
      seen := seen + {i};
      rows := rows - {i};
    }
    forall t | t in f.tables ensures Lists(f, t, usage[t], who[t]) {
      assert ListsSeen(f, seen, t, usage[t], who[t]);
      forall i | i in f.reservations && OnTable(f.reservations[i], t) ensures i in seen {
        assert i in AssignedRows(f);
      }
    }
  }

  // ----- the whole batch

  /** One turn of the loop. */
  method PlaceRow(conn: Database, id: int, usage: Usage, ghost who: Usage)
    returns (placed: bool, usage': Usage, ghost who': Usage)
    requires id in Unassigned(conn.Floor()) && Agrees(conn.Floor(), usage, who)
    modifies conn`reservations
    ensures conn.Queue() == old(conn.Queue())
    ensures conn.Floor() == BackfillRow(old(conn.Floor()), id)
    ensures placed <==> !SkipsRow(old(conn.Floor()), id)
    ensures Agrees(conn.Floor(), usage', who')
  {
    var row := conn.reservations[id];
    var chosen := ChooseTable(conn.tables, usage, row.party, row.at, conn.Floor(), who);
    if chosen.None? {
      return false, usage, who;
    }
    AppendKeepsAgreement(conn.Floor(), usage, who, id, chosen.value);
    conn.reservations := conn.reservations[id := row.(table := Some(chosen.value))];
    usage' := usage[chosen.value := usage[chosen.value] + [row.at]];
    who' := who[chosen.value := who[chosen.value] + [id]];
    placed := true;
  }

  lemma {:induction false} BackfillNext(f: Floor, ids: seq<int>, k: nat)
    requires k < |ids|
    ensures BackfillAll(f, ids[..k + 1]) == BackfillRow(BackfillAll(f, ids[..k]), ids[k])
    ensures Skipped(f, ids[..k + 1])
         == Skipped(f, ids[..k]) + if SkipsRow(BackfillAll(f, ids[..k]), ids[k]) then 1 else 0
  {
    assert ids[..k + 1][..k] == ids[..k];
  }

  /** The rows still to come are still unassigned. */
  lemma {:induction false} ComingRowUnassigned(f: Floor, ids: seq<int>, k: nat)
    requires Distinct(ids) && k < |ids|
    requires Elements(ids) == Unassigned(f)
    ensures ids[k] in Unassigned(BackfillAll(f, ids[..k]))
  {
    assert ids[k] in Elements(ids);
    BackfillTouchesOnly(f, ids[..k]);
    assert ids[k] !in ids[..k];
  }

  lemma {:induction false} LeftAfterAll(f: Floor, ids: seq<int>)
    requires Distinct(ids) && Elements(ids) == Unassigned(f)
    ensures Skipped(f, ids) == |Unassigned(BackfillAll(f, ids))|
  {
    forall k | 0 <= k < |ids| ensures ids[k] in Unassigned(f) {
      assert ids[k] in Elements(ids);
    }
    DistinctSize(ids);
    SkippedAreLeft(f, ids);
  }

  /** Answers how many rows got a table and how many did not. */
  method BackfillAssignments(conn: Database, unassigned: seq<int>) returns (r: Result<(nat, nat), Error>)
    requires AllSeated(conn.Floor())
    requires Distinct(unassigned) && Elements(unassigned) == Unassigned(conn.Floor())
    modifies conn`reservations
    ensures conn.Queue() == old(conn.Queue())
    ensures r.Err? <==> old(conn.tables) == map[]
    ensures r.Err? ==> conn.Floor() == old(conn.Floor())
    ensures r.Ok? ==>
      && conn.Floor() == BackfillAll(old(conn.Floor()), unassigned)
      && r.value.0 + r.value.1 == |unassigned|
      && r.value.1 == |Unassigned(conn.Floor())|
  {
    if conn.tables == map[] {
      return Err(NoTables);
    }
    var usage, who := LoadUsage(conn);
    var count, skipped := 0, 0;
    ghost var f := conn.Floor();
    for k := 0 to |unassigned|
      invariant conn.Floor() == BackfillAll(f, unassigned[..k])
      invariant conn.Queue() == old(conn.Queue())
      invariant Agrees(conn.Floor(), usage, who)
      invariant count + skipped == k && skipped == Skipped(f, unassigned[..k])
    {
      ComingRowUnassigned(f, unassigned, k);
      BackfillNext(f, unassigned, k);
      var placed;
      placed, usage, who := PlaceRow(conn, unassigned[k], usage, who);
      if placed {
        count := count + 1;
      } else {
        skipped := skipped + 1;
      }
    }
    assert unassigned[..|unassigned|] == unassigned;
    LeftAfterAll(f, unassigned);
    return Ok((count, skipped));
  }
}
