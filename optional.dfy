/** The optional value used wherever the program has `undefined`, `null` or a
    missing entry. */
module Optional {

  datatype Option<T> = None | Some(value: T) {

    /** `value ?? default` */
    function GetOr(default: T): T
    {
      match this
      case Some(v) => v
      case None => default
    }
  }
}
