/** Types shared by every module: identifiers, optional values and the error kinds a handler answers with. */
module Prelude {

  /** A row id such as `PRJ_1f`; the server mints them, so only equality matters here. */
  type Id = string

  datatype Option<+T> = None | Some(value: T)

  /** One constructor per error helper of crates/api/src/error.rs that the modelled handlers use. */
  datatype Error =
    | NotFound
    | Forbidden
    | FieldForbidden
    | BadRequest
    | Unprocessable
    | IllegalTransition
    | ClosePreconditionsUnmet
    | Conflict
    | PreconditionRequired
    | PreconditionFailed
    | Internal

  datatype Result<+T> = Ok(value: T) | Err(error: Error)

  const MAX_I32: int := 0x7fff_ffff

  /** Who is calling: `admin` is the platform-admin flag that bypasses both permission planes. */
  datatype Caller = Caller(actor: Id, admin: bool)

  /** What holds at first, and through each of `n` steps exactly unless the step breaks it, holds all along
      exactly if no step breaks it. */
  lemma HoldsIffNeverBroken(n: nat, holds: nat -> bool, breaks: nat -> bool)
    requires holds(0)
    requires forall i | 0 <= i < n && holds(i) :: holds(i + 1) <==> !breaks(i)
    ensures (forall i | 0 <= i <= n :: holds(i)) <==> (forall i | 0 <= i < n :: !breaks(i))
  {
    if forall i | 0 <= i < n :: !breaks(i) {
      for m := 0 to n
        invariant forall i | 0 <= i <= m :: holds(i)
      {
        assert !breaks(m);
      }
    }
    if forall i | 0 <= i <= n :: holds(i) {
      forall i | 0 <= i < n ensures !breaks(i) {
        assert holds(i) && holds(i + 1);
      }
    }
  }
}
