/** What several of the models share. */
module Basics {

  datatype Option<+T> = None | Some(value: T)

  ghost function Elems<T>(s: seq<T>): set<T> { set x | x in s }

  function Max(a: int, b: int): int { if a < b then b else a }
}
