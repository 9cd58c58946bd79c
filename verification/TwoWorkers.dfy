/**
 What pick_due does and does not promise to two workers.

 The claim is a SELECT followed by an UPDATE that does not look at the status again. Run one
 after the other, two claims never share a row. Run with both SELECTs first, they always
 share one, if there is anything to claim at all.
 */
module TwoWorkers {
  import opened Prelude
  import opened Ordering
  import opened Messages

  /** Claims that run one after the other are disjoint, whatever their times and kinds. */
  lemma {:induction false} SerialClaimsAreDisjoint(q: Queue, n1: int, n2: int, only1: Option<Kind>,
        only2: Option<Kind>, limit1: nat, limit2: nat)
    ensures var first := Claimable(q, n1, only1, limit1);
      Claimable(Claim(q, first), n2, only2, limit2) !! first
  {
    var first := Claimable(q, n1, only1, limit1);
    var after := Claim(q, first);
    forall id | id in Claimable(after, n2, only2, limit2) ensures id !in first {
      assert id in DueKeys(after, n2, only2);
    }
  }

  /** The first row in the queue's order is in every claim that finds it due. */
  lemma {:induction false} FirstRowIsClaimed(q: Queue, now: int, only: Option<Kind>, limit: nat, first: int)
    requires first in DueKeys(q, now, only) && limit >= 1
    requires forall j :: j in DueKeys(q, now, only) && j != first
               ==> Precedes(DueKeys(q, now, only)[first], first, DueKeys(q, now, only)[j], j)
    ensures first in Claimable(q, now, only, limit)
  {
    assert Ahead(DueKeys(q, now, only), first) == {};
  }

  /** Both SELECTs before either UPDATE: the batches are disjoint only if there is nothing due. */
  lemma {:induction false} InterleavedClaimsOverlap(q: Queue, n1: int, n2: int, only: Option<Kind>, limit: nat)
    requires n1 <= n2 && limit >= 1
    ensures Claimable(q, n1, only, limit) !! Claimable(q, n2, only, limit)
      <==> DueKeys(q, n1, only) == map[]
  {
    var keys1, keys2 := DueKeys(q, n1, only), DueKeys(q, n2, only);
    if keys1 != map[] {
      assert keys1.Keys != {};
      var first := LeastKey(keys1, keys1.Keys);
      assert first in keys2;
      forall j | j in keys2 && j != first ensures Precedes(keys2[first], first, keys2[j], j) {
        if j !in keys1 {
          assert q.rows[first].at <= n1 < q.rows[j].at;
        }
      }
      FirstRowIsClaimed(q, n1, only, limit, first);
      FirstRowIsClaimed(q, n2, only, limit, first);
    } else {
      forall id ensures id !in Claimable(q, n1, only, limit) {
        assert id !in keys1;
      }
    }
  }

  /** One due row, two workers: both hold it, and it has used up two attempts. */
  lemma {:induction false} OneRowClaimedTwice()
    ensures exists q: Queue, id: int, now: int ::
      && id in Claimable(q, now, None, BATCH)
      && var twice := Claim(Claim(q, Claimable(q, now, None, BATCH)), Claimable(q, now, None, BATCH));
         id in twice.rows && twice.rows[id].attempts == q.rows[id].attempts + 2
  {
    var row := Row(None, CustomMsg, "+34911234567", 0, Pending, 0, 0);
    var q := Queue(map[1 := row], 2);
    FirstRowIsClaimed(q, 0, None, BATCH, 1);
    var taken := Claimable(q, 0, None, BATCH);
    assert taken == {1};
    var twice := Claim(Claim(q, taken), taken);
    assert 1 in twice.rows && twice.rows[1].attempts == 2;
  }
}
