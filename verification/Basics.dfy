/** Small things that several modules share. */
module Basics {

  datatype Option<+T> = None | Some(value: T)

  // `std::size_t` and `std::uint64_t` arithmetic is modulo WORD.
  const WORD: nat := 0x1_0000_0000_0000_0000

  function One(b: bool): nat {
    if b then 1 else 0
  }

  lemma Nonempty<T>(s: set<T>) returns (x: T)
    requires s != {}
    ensures x in s
  {
    x :| x in s;
  }
}
