/**
 The sliding-window rate limiter (_SlidingWindow in app/middleware.py).

 The meaning of the limiter is given on the full log of a key's accepted hits; the class at
 the end keeps only a pruned deque per key and is shown to behave the same. Time is real
 seconds of a clock that never turns back.
 */
module RateLimit {
  import opened Prelude

  // ----- the limiter on full logs

  predicate Ascending(log: seq<real>) {
    forall i, j | 0 <= i <= j < |log| :: log[i] <= log[j]
  }

  /** How many entries of the log are no older than `cutoff`. */
  function CountSince(log: seq<real>, cutoff: real): nat {
    |set i | 0 <= i < |log| && log[i] >= cutoff|
  }

  predicate Accepts(log: seq<real>, now: real, window: real, limit: nat) {
    CountSince(log, now - window) < limit
  }

  /** The log after one more hit: an accepted hit is entered, a rejected one leaves no trace. */
  function NextLog(log: seq<real>, now: real, window: real, limit: nat): seq<real> {
    if Accepts(log, now, window, limit) then log + [now] else log
  }

  /** The oldest entry still in the window; of an empty window, the present. */
  function Oldest(log: seq<real>, cutoff: real, now: real): real {
    if log == [] then now
    else if log[0] >= cutoff then log[0]
    else Oldest(log[1..], cutoff, now)
  }

  /** The Retry-After that a rejected hit is told. */
  function RetryAfter(log: seq<real>, now: real, window: real): int {
    Max(1, (window - (now - Oldest(log, now - window, now))).Floor + 1)
  }

  // ----- counting

  ghost function Indices(lo: nat, hi: nat): (r: set<int>)
    requires lo <= hi
    ensures forall i :: i in r <==> lo <= i < hi
    ensures |r| == hi - lo
    decreases hi
  {
    if lo == hi then {} else Indices(lo, hi - 1) + {hi - 1}
  }

  /** In an ascending log the entries since a cutoff are a suffix. */
  lemma {:induction false} CountIsSuffix(log: seq<real>, cutoff: real, d: nat)
    requires Ascending(log) && d <= |log|
    requires forall i | 0 <= i < d :: log[i] < cutoff
    requires d < |log| ==> log[d] >= cutoff
    ensures CountSince(log, cutoff) == |log| - d
  {
    assert (set i | 0 <= i < |log| && log[i] >= cutoff) == Indices(d, |log|);
  }

  /** The position of the oldest entry since a cutoff. */
  lemma {:induction false} OldestPosition(log: seq<real>, cutoff: real, now: real) returns (d: nat)
    requires Ascending(log)
    ensures d <= |log|
    ensures forall i | 0 <= i < d :: log[i] < cutoff
    ensures d < |log| ==> log[d] >= cutoff && Oldest(log, cutoff, now) == log[d]
    ensures CountSince(log, cutoff) == |log| - d
  {
    if log == [] || log[0] >= cutoff {
      d := 0;
    } else {
      var e := OldestPosition(log[1..], cutoff, now);
      d := e + 1;
      forall i | 0 <= i < d ensures log[i] < cutoff {
        assert i > 0 ==> log[i] == log[1..][i - 1];
      }
    }
    CountIsSuffix(log, cutoff, d);
  }

  // ----- every history

  /** Entries `limit` places apart are more than a window apart. */
  predicate Spread(log: seq<real>, window: real, limit: nat) {
    forall i, j | 0 <= i && i + limit <= j < |log| :: log[j] - log[i] > window
  }

  lemma {:induction false} CloseEntriesAreFew(log: seq<real>, window: real, limit: nat, i: int, j: int)
    requires Spread(log, window, limit)
    requires 0 <= i <= j < |log| && log[j] - log[i] <= window
    ensures j < i + limit
  {
  }

  predicate LogSound(log: seq<real>, now: real, window: real, limit: nat) {
    Ascending(log) && Spread(log, window, limit) && forall i | 0 <= i < |log| :: log[i] <= now
  }

  /** When a hit is accepted, the entry `limit` places before it is out of the window. */
  lemma {:induction false} RoomForOne(log: seq<real>, now: real, window: real, limit: nat, i: int)
    requires Ascending(log) && Accepts(log, now, window, limit)
    requires 0 <= i && i + limit <= |log| && limit >= 1
    ensures now - log[i] > window
  {
    var d := OldestPosition(log, now - window, now);
    assert i < d;
  }

  lemma {:induction false} NextLogSound(log: seq<real>, before: real, now: real, window: real, limit: nat)
    requires limit >= 1 && window >= 0.0 && before <= now
    requires LogSound(log, before, window, limit)
    ensures LogSound(NextLog(log, now, window, limit), now, window, limit)
  {
    if Accepts(log, now, window, limit) {
      var more := log + [now];
      forall i, j | 0 <= i && i + limit <= j < |more| ensures more[j] - more[i] > window {
        if j == |log| {
          RoomForOne(log, now, window, limit, i);
        }
      }
    }
  }

  /** One call of the limiter: the limit is the one the caller has for this key. */
  datatype Call<Key> = Call(key: Key, now: real, limit: nat)

  predicate Monotone<Key>(hits: seq<Call<Key>>) {
    forall i, j | 0 <= i < j < |hits| :: hits[i].now <= hits[j].now
  }

  /** Every hit of the key came with this limit. */
  predicate LimitIs<Key(==)>(hits: seq<Call<Key>>, key: Key, limit: nat) {
    forall i | 0 <= i < |hits| :: hits[i].key == key ==> hits[i].limit == limit
  }

  /** The accepted hits of one key, in a history of hits of all keys. */
  function Accepted<Key(==)>(hits: seq<Call<Key>>, key: Key, window: real): seq<real> {
    if hits == [] then []
    else
      var log := Accepted(hits[..|hits| - 1], key, window);
      var last := hits[|hits| - 1];
      if last.key == key then NextLog(log, last.now, window, last.limit) else log
  }

  lemma {:induction false} AcceptedSound<Key>(hits: seq<Call<Key>>, key: Key, window: real, limit: nat, now: real)
    requires limit >= 1 && window >= 0.0 && LimitIs(hits, key, limit)
    requires Monotone(hits) && forall i | 0 <= i < |hits| :: hits[i].now <= now
    ensures LogSound(Accepted(hits, key, window), now, window, limit)
  {
    if hits != [] {
      var init, last := hits[..|hits| - 1], hits[|hits| - 1];
      AcceptedSound(init, key, window, limit, last.now);
      NextLogSound(Accepted(init, key, window), last.now, last.now, window, limit);
    }
  }

  function Within(log: seq<real>, from: real, to: real): set<int> {
    set i | 0 <= i < |log| && from <= log[i] <= to
  }

  /** Whatever the history, a closed interval as long as the window holds at most `limit` accepted hits. */
  lemma {:induction false} WindowHoldsAtMostLimit<Key>(hits: seq<Call<Key>>, key: Key,
        window: real, limit: nat, from: real)
    requires limit >= 1 && window >= 0.0
    requires Monotone(hits) && LimitIs(hits, key, limit)
    ensures |Within(Accepted(hits, key, window), from, from + window)| <= limit
  {
    var log := Accepted(hits, key, window);
    var now := if hits == [] then 0.0 else hits[|hits| - 1].now;
    AcceptedSound(hits, key, window, limit, now);
    var inside := Within(log, from, from + window);
    if inside != {} {
      var d := OldestPosition(log, from, now);
      HasMember(inside);
      var k :| k in inside;
      var range := Indices(d, d + limit);
      forall i | i in inside ensures i in range {
        assert i >= d;
        CloseEntriesAreFew(log, window, limit, d, i);
      }
      SubsetSize(inside, range);
    }
  }

  function OnlyOf<Key(==)>(hits: seq<Call<Key>>, key: Key): seq<Call<Key>> {
    if hits == [] then []
    else OnlyOf(hits[..|hits| - 1], key) + if hits[|hits| - 1].key == key then [hits[|hits| - 1]] else []
  }

  /** The hits of other keys do not matter to a key. */
  lemma {:induction false} KeysAreIndependent<Key>(hits: seq<Call<Key>>, key: Key, window: real)
    ensures Accepted(hits, key, window) == Accepted(OnlyOf(hits, key), key, window)
  {
    if hits != [] {
      var init := hits[..|hits| - 1];
      KeysAreIndependent(init, key, window);
      if hits[|hits| - 1].key == key {
        assert OnlyOf(hits, key)[..|OnlyOf(hits, key)| - 1] == OnlyOf(init, key);
      } else {
        assert OnlyOf(hits, key) == OnlyOf(init, key);
      }
    }
  }

  // ----- Retry-After

  /**
   A rejected hit is told the least whole number of seconds after which, if the key is left alone,
   a hit is accepted; from then on it stays so.
   */
  lemma {:induction false} RetryAfterIsExact(log: seq<real>, now: real, window: real, limit: nat, later: real)
    requires limit >= 1 && window >= 0.0
    requires LogSound(log, now, window, limit)
    requires !Accepts(log, now, window, limit)
    ensures var r := RetryAfter(log, now, window);
      && 1 <= r <= window.Floor + 1
      && (later >= now + r as real ==> Accepts(log, later, window, limit))
      && !Accepts(log, now + (r - 1) as real, window, limit)
  {
    var d := OldestPosition(log, now - window, now);
    var wait := window - (now - log[d]);
    var r := RetryAfter(log, now, window);
    assert 0.0 <= wait <= window;
    assert r == wait.Floor + 1;
    CloseEntriesAreFew(log, window, limit, d, |log| - 1);
    assert |log| - d == limit;
    if later >= now + r as real {
      var e := OldestPosition(log, later - window, later);
      assert log[d] < later - window;
      assert e > d;
    }
    var e := OldestPosition(log, now + (r - 1) as real - window, now);
    assert log[d] >= now + (r - 1) as real - window;
    assert e <= d;
  }

  /** Rejected hits never lengthen the wait: all rejections in a row point to the same moment, to the second. */
  lemma {:induction false} RejectionsAgree(log: seq<real>, first: real, second: real, window: real, limit: nat)
    requires limit >= 1 && window >= 0.0 && first <= second
    requires LogSound(log, first, window, limit)
    requires !Accepts(log, first, window, limit) && !Accepts(log, second, window, limit)
    ensures NextLog(log, first, window, limit) == log
    ensures var free := Oldest(log, first - window, first) + window;
      && free < first + RetryAfter(log, first, window) as real <= free + 1.0
      && free < second + RetryAfter(log, second, window) as real <= free + 1.0
  {
    var d := OldestPosition(log, first - window, first);
    var e := OldestPosition(log, second - window, second);
    CloseEntriesAreFew(log, window, limit, d, |log| - 1);
    assert d == e;
  }

  lemma {:induction false} AcceptedNext<Key>(hits: seq<Call<Key>>, hit: Call<Key>, key: Key, window: real)
    ensures var log := Accepted(hits, key, window);
      Accepted(hits + [hit], key, window) == if hit.key == key then NextLog(log, hit.now, window, hit.limit) else log
  {
    var more := hits + [hit];
    assert more[..|more| - 1] == hits;
  }

  lemma {:induction false} OthersLeaveNoTrace<Key>(hits: seq<Call<Key>>, others: seq<Call<Key>>, key: Key, window: real)
    requires forall i | 0 <= i < |others| :: others[i].key != key
    ensures Accepted(hits + others, key, window) == Accepted(hits, key, window)
  {
    if others == [] {
      assert hits + others == hits;
    } else {
      var init, last := others[..|others| - 1], others[|others| - 1];
      OthersLeaveNoTrace(hits, init, key, window);
      AcceptedNext(hits + init, last, key, window);
      assert hits + others == hits + init + [last];
    }
  }

  /** Over any history: a rejected key that keeps quiet is accepted when it was told, and not a second sooner. */
  lemma {:induction false} PromiseIsKept<Key>(hits: seq<Call<Key>>, rejected: Call<Key>,
        others: seq<Call<Key>>, window: real, later: real)
    requires rejected.limit >= 1 && window >= 0.0 && LimitIs(hits, rejected.key, rejected.limit)
    requires Monotone(hits) && forall i | 0 <= i < |hits| :: hits[i].now <= rejected.now
    requires !Accepts(Accepted(hits, rejected.key, window), rejected.now, window, rejected.limit)
    requires forall i | 0 <= i < |others| :: others[i].key != rejected.key
    ensures var r := RetryAfter(Accepted(hits, rejected.key, window), rejected.now, window);
      var log := Accepted(hits + [rejected] + others, rejected.key, window);
      && 1 <= r <= window.Floor + 1
      && (later >= rejected.now + r as real ==> Accepts(log, later, window, rejected.limit))
      && !Accepts(log, rejected.now + (r - 1) as real, window, rejected.limit)
  {
    AcceptedSound(hits, rejected.key, window, rejected.limit, rejected.now);
    AcceptedNext(hits, rejected, rejected.key, window);
    OthersLeaveNoTrace(hits + [rejected], others, rejected.key, window);
    RetryAfterIsExact(Accepted(hits, rejected.key, window), rejected.now, window, rejected.limit, later);
  }

  // ----- the class

  /** The bucket holds the end of the log, and what is gone from it was out of the window at `last`. */
  ghost predicate Represents(bucket: seq<real>, log: seq<real>, last: real, window: real) {
    && |bucket| <= |log|
    && bucket == log[|log| - |bucket|..]
    && Ascending(log)
    && (forall i | 0 <= i < |log| - |bucket| :: log[i] < last - window)
    && (forall i | 0 <= i < |log| :: log[i] <= last)
  }

  lemma {:induction false} RepresentsLater(bucket: seq<real>, log: seq<real>, last: real, now: real, window: real)
    requires Represents(bucket, log, last, window) && last <= now
    ensures Represents(bucket, log, now, window)
  {
  }

  lemma {:induction false} PruneOne(bucket: seq<real>, log: seq<real>, now: real, window: real)
    requires Represents(bucket, log, now, window)
    requires bucket != [] && bucket[0] < now - window
    ensures Represents(bucket[1..], log, now, window)
  {
    assert bucket[0] == log[|log| - |bucket|];
  }

  /** A pruned bucket counts as the full log does, and its head is the oldest entry in the window. */
  lemma {:induction false} PrunedBucketCounts(bucket: seq<real>, log: seq<real>, now: real, window: real)
    requires Represents(bucket, log, now, window)
    requires bucket == [] || bucket[0] >= now - window
    ensures CountSince(log, now - window) == |bucket|
    ensures bucket != [] ==> Oldest(log, now - window, now) == bucket[0]
  {
    var d := |log| - |bucket|;
    assert bucket != [] ==> bucket[0] == log[d];
    CountIsSuffix(log, now - window, d);
    var e := OldestPosition(log, now - window, now);
  }

  lemma {:induction false} AppendKeepsRepresents(bucket: seq<real>, log: seq<real>, now: real, window: real)
    requires Represents(bucket, log, now, window)
    ensures Represents(bucket + [now], log + [now], now, window)
  {
    assert (log + [now])[|log| - |bucket|..] == log[|log| - |bucket|..] + [now];
  }

  /** What the limiter decides on the pruned bucket is what it would decide on the full log. */
  lemma {:induction false} BucketDecides(bucket: seq<real>, log: seq<real>, now: real, window: real, limit: nat)
    requires Represents(bucket, log, now, window)
    requires bucket == [] || bucket[0] >= now - window
    requires limit >= 1
    ensures |bucket| < limit <==> Accepts(log, now, window, limit)
    ensures |bucket| < limit ==> Represents(bucket + [now], NextLog(log, now, window, limit), now, window)
    ensures |bucket| >= limit ==>
              && NextLog(log, now, window, limit) == log
              && Max(1, (window - (now - bucket[0])).Floor + 1) == RetryAfter(log, now, window)
  {
    PrunedBucketCounts(bucket, log, now, window);
    AppendKeepsRepresents(bucket, log, now, window);
  }

  function BucketOf<Key>(buckets: map<Key, seq<real>>, key: Key): seq<real> {
    if key in buckets then buckets[key] else []
  }

  /** Every key's bucket stands for its accepted hits in the whole history. */
  ghost predicate Remembers<Key(!new)>(buckets: map<Key, seq<real>>, hits: seq<Call<Key>>, last: real, window: real) {
    forall key :: Represents(BucketOf(buckets, key), Accepted(hits, key, window), last, window)
  }

  lemma {:induction false} BucketFollows<Key>(buckets: map<Key, seq<real>>, hits: seq<Call<Key>>, last: real,
        window: real, hit: Call<Key>, bucket: seq<real>, key: Key)
    requires last <= hit.now
    requires Represents(BucketOf(buckets, key), Accepted(hits, key, window), last, window)
    requires Represents(bucket, NextLog(Accepted(hits, hit.key, window), hit.now, window, hit.limit), hit.now, window)
    ensures Represents(BucketOf(buckets[hit.key := bucket], key), Accepted(hits + [hit], key, window), hit.now, window)
  {
    AcceptedNext(hits, hit, key, window);
    if key != hit.key {
      RepresentsLater(BucketOf(buckets, key), Accepted(hits, key, window), last, hit.now, window);
    }
  }

  lemma {:induction false} OneBucketChanges<Key(!new)>(buckets: map<Key, seq<real>>, hits: seq<Call<Key>>, last: real,
                                                       window: real, hit: Call<Key>, bucket: seq<real>)
    requires Remembers(buckets, hits, last, window) && last <= hit.now
    requires Represents(bucket, NextLog(Accepted(hits, hit.key, window), hit.now, window, hit.limit), hit.now, window)
    ensures Remembers(buckets[hit.key := bucket], hits + [hit], hit.now, window)
  {
    forall key {
      BucketFollows(buckets, hits, last, window, hit, bucket, key);
    }
  }

  /** Drops the entries that are out of the window from the front of a bucket. */
  method Prune(bucket: seq<real>, cutoff: real, ghost log: seq<real>, ghost now: real, ghost window: real)
    returns (kept: seq<real>)
    requires cutoff == now - window && Represents(bucket, log, now, window)
    ensures Represents(kept, log, now, window)
    ensures kept != [] ==> kept[0] >= cutoff
  {
    kept := bucket;
    while kept != [] && kept[0] < cutoff
      invariant Represents(kept, log, now, window)
      decreases |kept|
    {
      PruneOne(kept, log, now, window);
      kept := kept[1..];
    }
  }

  /** The hit on one key's bucket. */
  method HitBucket(bucket: seq<real>, limit: nat, windowSeconds: real, now: real,
        ghost log: seq<real>, ghost last: real)
    returns (retry: Option<int>, kept: seq<real>)
    requires Represents(bucket, log, last, windowSeconds) && last <= now && limit >= 1
    ensures Represents(kept, NextLog(log, now, windowSeconds, limit), now, windowSeconds)
    ensures retry == None <==> Accepts(log, now, windowSeconds, limit)
    ensures retry.Some? ==> retry.value == RetryAfter(log, now, windowSeconds)
  {
    RepresentsLater(bucket, log, last, now, windowSeconds);
    kept := Prune(bucket, now - windowSeconds, log, now, windowSeconds);
    BucketDecides(kept, log, now, windowSeconds, limit);
    if |kept| >= limit {
      var wait := (windowSeconds - (now - kept[0])).Floor + 1;
      return Some(Max(1, wait)), kept;
    }
    return None, kept + [now];
  }

  class SlidingWindow<Key(==, !new)> {
    var buckets: map<Key, seq<real>>

    ghost const window: real
    /** All hits ever, accepted or not, of all keys, and the time of the last one. */
    ghost var history: seq<Call<Key>>
    ghost var last: real

    ghost predicate Valid()
      reads this
    {
      Remembers(buckets, history, last, window)
    }

    constructor (ghost window: real, ghost start: real)
      ensures Valid() && this.window == window && last == start && history == []
    {
      buckets := map[];
      this.window := window;
      history := [];
      last := start;
    }

    /** Records a hit: None if it is accepted, otherwise the seconds to wait. */
    method Hit(key: Key, limit: nat, windowSeconds: real, now: real) returns (retry: Option<int>)
      requires Valid() && windowSeconds == window && now >= last && limit >= 1
      modifies this
      ensures Valid() && last == now
      ensures history == old(history) + [Call(key, now, limit)]
      ensures retry == None <==> Accepts(Accepted(old(history), key, windowSeconds), now, windowSeconds, limit)
      ensures retry.Some? ==> retry.value == RetryAfter(Accepted(old(history), key, windowSeconds), now, windowSeconds)
    {
      var bucket;
      retry, bucket := HitBucket(BucketOf(buckets, key), limit, windowSeconds, now,
                                 Accepted(history, key, windowSeconds), last);
      OneBucketChanges(buckets, history, last, windowSeconds, Call(key, now, limit), bucket);
      buckets, history, last := buckets[key := bucket], history + [Call(key, now, limit)], now;
    }
  }
}
