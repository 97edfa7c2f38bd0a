/** Optional values and error results shared by every module of the model.
    `None` stands for both `null` and `undefined` of the original code. */
module Common {

  datatype Option<+T> = None | Some(value: T) {
    /** `x ?? d` */
    function GetOr(d: T): T {
      match this
      case Some(v) => v
      case None => d
    }
  }

  /** A thrown error or a returned failure. */
  datatype Result<+T, +E> = Ok(value: T) | Err(error: E)
}
