/** The table of selection-scheme handlers. The geometry of the two schemes
    lives in a module that is not part of this model, so each scheme is an
    arbitrary function from a start time, an end time and the grid to the
    region of times the gesture covers; nothing is assumed about its output. */
module Schemes {
  import opened Clock
  import opened Wrappers

  /** A region resolver: `(selectionStart, selectionEnd, dates) -> region`. */
  type SchemeFn = (Time, Time, seq<seq<Time>>) -> seq<Time>

  /** The two handlers the component installs. */
  datatype SchemeLibrary = SchemeLibrary(linear: SchemeFn, square: SchemeFn)

  /** The scheme used when the host names none. */
  const DefaultScheme: string := "square"

  /** The names the handler table has an entry for. */
  predicate IsKnownScheme(name: string)
  {
    name == "linear" || name == "square"
  }

  /** Looking up `selectionSchemeHandlers[name]`: a handler for exactly the two
      installed names, nothing for any other. */
  function HandlerFor(name: string, lib: SchemeLibrary): (h: Option<SchemeFn>)
    ensures h.Some? <==> IsKnownScheme(name)
    ensures name == "linear" ==> h == Some(lib.linear)
    ensures name == "square" ==> h == Some(lib.square)
  {
    if name == "linear" then Some(lib.linear)
    else if name == "square" then Some(lib.square)
    else None
  }
}
