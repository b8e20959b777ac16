/** A value that may be absent: JavaScript's `null`/`undefined`, Go's `nil`, a failed parse. */
module Optional {

  datatype Option<T> = None | Some(value: T)
  {
    function GetOr(default: T): (r: T)
      ensures this.Some? ==> r == this.value
      ensures this.None? ==> r == default
    {
      match this
      case Some(v) => v
      case None => default
    }
  }
}
