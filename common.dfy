/** Values shared by both monitors: Go's `(value, error)` returns and the timer test. */
module Common {

  datatype Option<+T> = None | Some(value: T)

  /** A Go call's `(value, error)` result: `err` is `None` exactly when the call succeeded.
      On failure the Go code still returns a value (its zero value), kept here in `value`. */
  datatype Outcome<+T> = Outcome(value: T, err: Option<string>) {
    predicate Ok() { err.None? }
  }

  /** The broker login set on the client options; a monitor sets it only for a non-empty user. */
  datatype Credentials = Credentials(user: string, password: string)

  /** `now.Sub(last) >= interval`: a pass is due once at least `interval` has elapsed since `last`.
      Times are integers on one monotonic clock. */
  predicate Due(last: int, interval: int, now: int) {
    now - last >= interval
  }

  /** The timer a pass leaves behind: `now` if it fired, `last` otherwise. */
  function NextTimer(last: int, interval: int, now: int): (t: int)
    ensures Due(last, interval, now) ==> t == now
    ensures !Due(last, interval, now) ==> t == last
    ensures last <= now ==> last <= t
  {
    if Due(last, interval, now) then now else last
  }
}
