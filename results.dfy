/** Failure-compatible wrappers shared by the reader, the writer and the legacy parser. */
module Results {

  /** An optional value; `None` is what a short read of the byte stream gives. */
  datatype Option<+T> = None | Some(value: T) {
    predicate IsFailure() { None? }

    function PropagateFailure<U>(): Option<U>
      requires None?
    {
      None
    }

    function Extract(): T
      requires Some?
    {
      value
    }
  }

  /** A value or an error, as Rust's `Result`. */
  datatype Result<+T, +E> = Ok(value: T) | Err(error: E) {
    predicate IsFailure() { Err? }

    function PropagateFailure<U>(): Result<U, E>
      requires Err?
    {
      Err(error)
    }

    function Extract(): T
      requires Ok?
    {
      value
    }
  }

  /** A value decoded from a byte string, with the position just past it. */
  datatype Decoded<+T> = Decoded(value: T, next: nat)

  /** Pairs an optional value with the cursor position reached. */
  function LocatedOption<T>(o: Option<T>, pos: nat): (r: Option<Decoded<T>>)
    ensures r.Some? <==> o.Some?
    ensures r.Some? ==> r.value.value == o.value && r.value.next == pos
  {
    match o
    case None => None
    case Some(v) => Some(Decoded(v, pos))
  }

  /** Pairs a result with the cursor position reached; errors carry no position. */
  function Located<T, E>(r: Result<T, E>, pos: nat): (l: Result<Decoded<T>, E>)
    ensures l.Ok? <==> r.Ok?
    ensures l.Ok? ==> l.value.value == r.value && l.value.next == pos
    ensures l.Err? ==> l.error == r.error
  {
    match r
    case Err(e) => Err(e)
    case Ok(v) => Ok(Decoded(v, pos))
  }
}
