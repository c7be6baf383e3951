/** The MP deframer as an object that changes, against its specification. */
module V34MpClass {
  import opened Prelude
  import opened BitField
  import opened V34Mp

  /** The finder of `V34Mp`, with its window in a field. */
  class Finder {
    var window: Bits
    var ones: nat
    /** Every sequence found so far. */
    ghost var found: seq<Mp>

    ghost function View(): Deframer
      reads this
    {
      Deframer(window, ones, found)
    }

    ghost predicate Valid()
      reads this
    {
      |window| <= LONGEST
    }

    constructor ()
      ensures Valid() && View() == Deframer([], 0, [])
    {
      window, ones, found := [], 0, [];
    }

    method Push(bit: bool) returns (mp: Option<Mp>)
      requires Valid()
      modifies this
      ensures Valid() && View() == V34Mp.Push(old(View()), bit)
      ensures found == old(found) + if mp.Some? then [mp.value] else []
    {
      hide MpIn;
      ones := if bit then ones + 1 else 0;
      window := window + [bit];
      if |window| > LONGEST {
        window := window[1..];
      }
      mp := MpIn(window);
      if mp.Some? {
        window := [];
        found := found + [mp.value];
      }
    }
  }
}
