/** The optional value a peer's round produces: a message to send, or none. */
module Options {

  datatype Option<+T> = None | Some(value: T) {

    /** The zero- or one-element sequence holding the value, if any. */
    function ToSeq(): (s: seq<T>)
      ensures |s| <= 1
      ensures s == [] <==> None?
      ensures Some? ==> s == [value]
    {
      match this
      case None => []
      case Some(v) => [v]
    }
  }
}
