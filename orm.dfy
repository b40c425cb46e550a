/**
 * The one piece of the ORM the models depend on: an active model's column
 * is either newly set, unchanged from the loaded row, or not set at all.
 */
module Orm {
  import opened Wrappers

  datatype ActiveValue<T> = Set(value: T) | Unchanged(value: T) | NotSet {
    predicate IsSet() {
      Set?
    }

    predicate IsUnchanged() {
      Unchanged?
    }
  }

  /** The column value stored after an update: a set column is written, any other keeps the row's value. */
  function Written<T>(v: ActiveValue<T>, stored: T): (w: T)
    ensures v.Set? ==> w == v.value
    ensures !v.Set? ==> w == stored
  {
    if v.Set? then v.value else stored
  }

  /** The position of the first row a filter accepts: what a `find().filter(..).one()` query returns. */
  function FirstWhere<T>(rows: seq<T>, matches: T -> bool): (r: Option<nat>)
    ensures r.Some? ==> r.value < |rows| && matches(rows[r.value]) &&
                        forall i :: 0 <= i < r.value ==> !matches(rows[i])
    ensures r.None? ==> forall i :: 0 <= i < |rows| ==> !matches(rows[i])
  {
    if rows == [] then None
    else if matches(rows[0]) then Some(0)
    else
      match FirstWhere(rows[1..], matches)
      case None =>
        assert forall i :: 1 <= i < |rows| ==> rows[i] == rows[1..][i - 1];
        None
      case Some(k) =>
        assert forall i :: 1 <= i < k + 1 ==> rows[i] == rows[1..][i - 1];
        Some(k + 1)
  }

  /** Milliseconds since the Unix epoch; `chrono::Utc::now()` is passed in as one of these. */
  type Instant = int
}
