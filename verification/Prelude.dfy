/** Result types, shared by every part of the model. */
module Prelude {

  /** A value that may be missing. */
  datatype Option<+T> = None | Some(value: T)

  /** A value, or the reason why there is none. */
  datatype Result<+T, +E> = Ok(value: T) | Err(error: E)

  const USIZE_MAX: nat := 0xFFFF_FFFF_FFFF_FFFF

  function Min(a: int, b: int): int {
    if a <= b then a else b
  }

  function Max(a: int, b: int): int {
    if a >= b then a else b
  }

  /** Some member of a set: which one is not determined. */
  method Pick<T(==)>(s: set<T>) returns (x: T)
    requires s != {}
    ensures x in s
  {
    x :| x in s;
  }

  /** A write succeeds, fails without effect, or takes effect and still reports an error. */
  datatype Io = Good | Lost | Torn

  /** The outcome of a put or delete. */
  method Attempt(reliable: bool) returns (io: Io)
    ensures reliable ==> io == Good
  {
    io := Good;
    if !reliable {
      if * {
        io := Lost;
      } else if * {
        io := Torn;
      }
    }
  }

  /** Whether a read of a stored key succeeds. */
  method AttemptRead(reliable: bool) returns (ok: bool)
    ensures reliable ==> ok
  {
    ok := true;
    if !reliable {
      ok := *;
    }
  }
}
