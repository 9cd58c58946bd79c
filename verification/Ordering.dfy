/**
 Row ordering as SQL's ORDER BY does it: rows are compared by a two-part key and
 ties are broken by row id, so the order is total and the result unique.
 */
module Ordering {
  import opened Prelude

  /** The sort key of each row, by row id. */
  type Keys = map<int, (int, int)>

  predicate Precedes(a: (int, int), i: int, b: (int, int), j: int) {
    || a.0 < b.0
    || (a.0 == b.0 && a.1 < b.1)
    || (a.0 == b.0 && a.1 == b.1 && i < j)
  }

  predicate Sorted(keys: Keys, ids: seq<int>) {
    && (forall i | 0 <= i < |ids| :: ids[i] in keys)
    && (forall i, j | 0 <= i < j < |ids| :: Precedes(keys[ids[i]], ids[i], keys[ids[j]], ids[j]))
  }

  predicate Distinct(ids: seq<int>) {
    forall i, j | 0 <= i < j < |ids| :: ids[i] != ids[j]
  }

  /** The rows that come strictly before row `id`. */
  function Ahead(keys: Keys, id: int): set<int>
    requires id in keys
  {
    set j | j in keys && Precedes(keys[j], j, keys[id], id)
  }

  function Elements(ids: seq<int>): set<int> {
    set id | id in ids
  }

  /** Puts one more row at its place in an ordered result. */
  method Insert(keys: Keys, ids: seq<int>, id: int) returns (r: seq<int>)
    requires Sorted(keys, ids)
    requires id in keys && id !in ids
    ensures Sorted(keys, r)
    ensures Elements(r) == Elements(ids) + {id}
  {
    var p := 0;
    while p < |ids| && Precedes(keys[ids[p]], ids[p], keys[id], id)
      invariant 0 <= p <= |ids|
      invariant forall i | 0 <= i < p :: Precedes(keys[ids[i]], ids[i], keys[id], id)
    {
      p := p + 1;
    }
    r := ids[..p] + [id] + ids[p..];
    forall i, j | 0 <= i < j < |r|
      ensures Precedes(keys[r[i]], r[i], keys[r[j]], r[j])
    {
      assert i < p ==> r[i] == ids[i];
      assert j < p ==> r[j] == ids[j];
      assert i > p ==> r[i] == ids[i - 1];
      assert j > p ==> r[j] == ids[j - 1];
      if i == p {
        assert !Precedes(keys[ids[p]], ids[p], keys[id], id);
      }
    }
    assert Elements(r) == Elements(ids) + {id} by {
      forall x | x in ids ensures x in r {
        var i :| 0 <= i < |ids| && ids[i] == x;
        assert r[if i < p then i else i + 1] == x;
      }
      assert r[p] == id;
    }
  }

  /** ORDER BY: the ids of all rows, least key first. */
  method OrderBy(keys: Keys) returns (ids: seq<int>)
    ensures Sorted(keys, ids)
    ensures Elements(ids) == keys.Keys
  {
    ids := [];
    var rest := keys.Keys;
    while rest != {}
      invariant Sorted(keys, ids)
      invariant Elements(ids) == keys.Keys - rest
      invariant rest <= keys.Keys
      decreases rest
    {
      HasMember(rest);
      var id :| id in rest;
      ids := Insert(keys, ids, id);
      rest := rest - {id};
    }
  }

  lemma {:induction false} PrefixSize(keys: Keys, ids: seq<int>, k: nat)
    requires Sorted(keys, ids)
    requires k <= |ids|
    ensures |Elements(ids[..k])| == k
  {
    if k == 0 {
      assert Elements(ids[..0]) == {};
    } else {
      PrefixSize(keys, ids, k - 1);
      assert ids[..k] == ids[..k - 1] + [ids[k - 1]];
      assert Elements(ids[..k]) == Elements(ids[..k - 1]) + {ids[k - 1]};
      assert ids[k - 1] !in ids[..k - 1];
    }
  }

  /** In an ordered result the k-th row has exactly k rows ahead of it. */
  lemma {:induction false} RankIsPosition(keys: Keys, ids: seq<int>, k: nat)
    requires Sorted(keys, ids)
    requires Elements(ids) == keys.Keys
    requires k < |ids|
    ensures Ahead(keys, ids[k]) == Elements(ids[..k])
    ensures |Ahead(keys, ids[k])| == k
  {
    forall j | j in Ahead(keys, ids[k]) ensures j in ids[..k] {
      assert j in Elements(ids);
      var p :| 0 <= p < |ids| && ids[p] == j;
      assert p < k;
      assert ids[..k][p] == j;
    }
    PrefixSize(keys, ids, k);
  }

  /** LIMIT: the first `limit` rows are exactly those with fewer than `limit` ahead of them. */
  lemma {:induction false} PrefixIsLowRank(keys: Keys, ids: seq<int>, limit: nat)
    requires Sorted(keys, ids)
    requires Elements(ids) == keys.Keys
    ensures Elements(ids[..Min(limit, |ids|)]) == set id | id in keys && |Ahead(keys, id)| < limit
  {
    var n := Min(limit, |ids|);
    forall id | id in keys
      ensures id in ids[..n] <==> |Ahead(keys, id)| < limit
    {
      assert id in Elements(ids);
      var p :| 0 <= p < |ids| && ids[p] == id;
      RankIsPosition(keys, ids, p);
      if p < n {
        assert ids[..n][p] == id;
      }
    }
    forall id | id in ids[..n] ensures id in keys {
      assert id in ids;
    }
  }

  lemma {:induction false} LeastKey(keys: Keys, ids: set<int>) returns (least: int)
    requires ids != {} && ids <= keys.Keys
    ensures least in ids
    ensures forall j :: j in ids && j != least ==> Precedes(keys[least], least, keys[j], j)
    decreases ids
  {
    HasMember(ids);
    var i :| i in ids;
    if ids == {i} {
      least := i;
    } else {
      assert ids - {i} != {};
      var m := LeastKey(keys, ids - {i});
      least := if Precedes(keys[i], i, keys[m], m) then i else m;
      assert forall j :: j in ids ==> j == i || j in ids - {i};
    }
  }

  lemma {:induction false} OrderExists(keys: Keys, some: set<int>) returns (ids: seq<int>)
    requires some <= keys.Keys
    ensures Sorted(keys, ids)
    ensures Elements(ids) == some
    decreases some
  {
    if some == {} {
      ids := [];
    } else {
      var m := LeastKey(keys, some);
      var rest := OrderExists(keys, some - {m});
      ids := [m] + rest;
      forall k | 0 <= k < |rest| ensures rest[k] in some && rest[k] != m {
        assert rest[k] in Elements(rest);
      }
      assert Elements(ids) == {m} + Elements(rest);
    }
  }

  /** There are `limit` rows with fewer than `limit` ahead of them, or all rows if they are fewer. */
  lemma {:induction false} LowRankCount(keys: Keys, limit: nat)
    ensures |set id | id in keys && |Ahead(keys, id)| < limit| == Min(limit, |keys|)
  {
    var ids := OrderExists(keys, keys.Keys);
    PrefixIsLowRank(keys, ids, limit);
    PrefixSize(keys, ids, |ids|);
    assert ids[..|ids|] == ids;
    PrefixSize(keys, ids, Min(limit, |ids|));
  }

  /** A row outside the first `limit` has all of those ahead of it. */
  lemma {:induction false} LowRanksAreAhead(keys: Keys, limit: nat, id: int, j: int)
    requires id in keys && |Ahead(keys, id)| >= limit
    requires j in keys && |Ahead(keys, j)| < limit
    ensures j in Ahead(keys, id)
  {
    if j !in Ahead(keys, id) {
      assert Ahead(keys, id) <= Ahead(keys, j);
      SubsetSize(Ahead(keys, id), Ahead(keys, j));
    }
  }
}
