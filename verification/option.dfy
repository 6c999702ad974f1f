/** An optional value: Go's nil pointer or absent map entry on one side, a present value on the other. */
module Optional {

  datatype Option<+T> = None | Some(value: T) {

    /** The value, or `default` when there is none (Go's zero value for a missing map key). */
    function GetOr(default: T): T
    {
      match this
      case Some(v) => v
      case None => default
    }
  }
}
