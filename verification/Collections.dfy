/** The set of the elements of a sequence. */
module Collections {

  function ToSet<T(==)>(s: seq<T>): set<T> { set x | x in s }
}
