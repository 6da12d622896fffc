/** Datatypes shared by every component of the model, and a fact about sequences. */
module Common {
  datatype Option<+T> = None | Some(value: T)

  datatype Result<+T, +E> = Ok(value: T) | Err(error: E)

  /** Seconds in a UTC day; instants are seconds since the epoch. */
  const DAY: nat := 86400

  /** The UTC day an instant falls on. */
  function DayOf(instant: nat): nat {
    instant / DAY
  }

  lemma SplitLast<T>(xs: seq<T>)
    requires xs != []
    ensures xs == xs[..|xs| - 1] + [xs[|xs| - 1]]
  {
  }
}
