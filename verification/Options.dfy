/** SQL's nullable columns. */
module Options {
  datatype Option<+T> = None | Some(value: T) {
    /** COALESCE(this, fallback). */
    function Or(fallback: T): T {
      match this
      case Some(v) => v
      case None => fallback
    }

    /** COALESCE(this, other), where the other may be NULL as well. */
    function OrElse(other: Option<T>): Option<T> {
      if this.Some? then this else other
    }
  }

  function Min(a: int, b: int): int { if a < b then a else b }

  function Max(a: int, b: int): int { if a < b then b else a }

  lemma ProductOfCasts(a: int, b: int)
    ensures (a * b) as real == a as real * b as real
  {
  }
}
