/** Small datatypes shared by every part of the model. */
module Prelude {

  datatype Option<+T> = None | Some(value: T)

  /** The outcome of an operation that may raise. */
  datatype Result<+T, +E> = Ok(value: T) | Err(error: E)

  /** One field of a PATCH body: left out, or sent with a value. */
  datatype Patch<+T> = Keep | Set(value: T) {
    function Or(current: T): T {
      match this
      case Keep => current
      case Set(v) => v
    }
  }

  /** Instants are whole microseconds. */
  const SECOND := 1_000_000

  function Abs(x: int): int {
    if x < 0 then -x else x
  }

  function Max(x: int, y: int): int {
    if x > y then x else y
  }

  function Min(x: int, y: int): int {
    if x < y then x else y
  }

  /** A non-empty set of row ids has a member to pick. */
  lemma {:induction false} HasMember(ids: set<int>)
    ensures ids == {} || exists id :: id in ids
  {
    if forall id :: id !in ids {
      assert ids == {};
    }
  }

  /** A subset of a finite set is no larger. */
  lemma {:induction false} SubsetSize<T>(small: set<T>, large: set<T>)
    requires small <= large
    ensures |small| <= |large|
    ensures |small| == |large| ==> small == large
  {
    assert large == small + (large - small);
  }
}
