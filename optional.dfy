/** A value that a JavaScript record may or may not carry (a missing or
    `undefined` property is `None`). */
module Optional {

  datatype Option<+T> = None | Some(value: T)

  /** JavaScript's `s || fallback` on a string-valued property: both a missing
      property and the empty string are falsy and yield the fallback. */
  function OrElse(o: Option<string>, fallback: string): (r: string)
    ensures r == fallback || (o.Some? && r == o.value && r != "")
    ensures o.Some? && o.value != "" ==> r == o.value
  {
    match o
    case Some(s) => if s == "" then fallback else s
    case None => fallback
  }
}
