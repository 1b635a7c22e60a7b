/** Small definitions that several components share. */
module Basics {

  datatype Option<T> = None | Some(value: T)

  /** A key of a store. */
  datatype Key = Key(name: string)

  const MAX_INT64: int := 0x7fff_ffff_ffff_ffff
  const MIN_INT64: int := -0x8000_0000_0000_0000

  function Elements<T>(s: seq<T>): set<T> {
    set x | x in s
  }
}
