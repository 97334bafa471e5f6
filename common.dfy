/** Shared vocabulary of both user subsystems: optional values, results with an
    error, the clock and the stored password. */
module Common {

  datatype Option<+T> = None | Some(value: T)

  datatype Result<+T, +E> = Ok(value: T) | Err(error: E)

  /** A point in time as `timezone.now()` returns it; the clock is always a
      parameter of the operation that reads it. */
  type Time = int

  /** A stored password after `set_password`: an encoded salted hash, or the
      unusable marker that `set_password(None)` stores. */
  datatype Credential = Encoded(hash: string) | Unusable

  /** `check_password`. The hashing algorithm is external: `verify(hash, raw)` is
      its verdict on a usable credential. An unusable credential never matches. */
  function CheckPassword(c: Credential, raw: string, verify: (string, string) -> bool): (ok: bool)
    ensures ok ==> c.Encoded?
    ensures c.Encoded? ==> ok == verify(c.hash, raw)
  {
    match c
    case Encoded(h) => verify(h, raw)
    case Unusable => false
  }
}
