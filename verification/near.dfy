/** Notions the NEAR runtime supplies to both contracts: account ids, optional values,
    the all-or-nothing outcome of a call (a panic reverts every write of that call),
    the single promise result a callback observes, and the shape of a state step. */
module Near {

  /** Account ids are plain strings. */
  type AccountId = string

  datatype Option<+T> = None | Some(value: T) {

    /** The value, or `default` when there is none (Rust's `unwrap_or`). */
    function GetOr(default: T): T {
      match this
      case Some(v) => v
      case None => default
    }
  }

  /** The outcome of one call. `Failure` is a panic: the caller keeps the state it had
      before the call and no promise is scheduled. */
  datatype Result<+T, +E> = Ok(value: T) | Failure(error: E)

  /** What a callback learns of the one promise it was chained to: the remote call
      failed, or it succeeded and its return value parsed (`Some`) or did not (`None`). */
  datatype PromiseResult<+T> = Failed | Successful(parsed: Option<T>)

  /** A successful step: the new state, the promises and logs it emits in order, and
      the value it returns to its caller. */
  datatype Step<+S, +F, +R> = Step(state: S, effects: seq<F>, ret: R)

  /** The attached deposit `assert_one_yocto` demands. */
  const ONE_YOCTO: nat := 1
}
