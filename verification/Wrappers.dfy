/** The optional values the system stores as SQL NULL or a nil pointer, and small arithmetic. */
module Wrappers {

  datatype Option<+T> = None | Some(value: T) {

    /** SQL's COALESCE(this, default) with a non-null default. */
    function GetOr(default: T): T {
      match this
      case None => default
      case Some(v) => v
    }

    /** SQL's COALESCE(this, other). */
    function OrElse(other: Option<T>): Option<T> {
      if this.Some? then this else other
    }
  }

  datatype Result<+T> = Ok(value: T) | Err(message: string)

  function Min(a: int, b: int): int { if a <= b then a else b }

  function Max(a: int, b: int): int { if a <= b then b else a }

  /** The remainder of Go's % operator, which truncates toward zero. */
  function GoMod(a: int, b: int): int
    requires b > 0
  {
    if a >= 0 then a % b else -((-a) % b)
  }

  lemma {:induction false} SubsetSize<T>(a: set<T>, b: set<T>)
    requires a <= b
    ensures |a| <= |b|
  {
    if a == {} {
    } else {
      var x :| x in a;
      SubsetSize(a - {x}, b - {x});
    }
  }
}
