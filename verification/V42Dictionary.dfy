/** The string dictionary of V.42 bis as values: what an update and a recovery do to it. */
module V42Dictionary {
  import opened Prelude

  const CONTROL_CODEWORDS := 3
  const FIRST_STRING := CONTROL_CODEWORDS + 256
  const MIN_CODEWORDS := 512
  const MIN_STRING := 6
  const MAX_STRING := 250

  datatype Parameters = Parameters(codewords: nat, maxString: nat) {
    /** What section 5.1 of V.42 bis allows; the number of codewords is a 16-bit value. */
    predicate Valid() {
      MIN_CODEWORDS <= codewords < 0x1_0000 && MIN_STRING <= maxString <= MAX_STRING
    }

    /** No codeword is wider than this, N1. */
    function MaxBits(): nat
      requires Valid()
    {
      BitLength(codewords - 1)
    }
  }

  datatype Entry = Entry(parent: nat, character: Octet, length: nat)

  /** Every string longer than one character, as an entry that extends another; C1 is `next`. */
  datatype Dict = Dict(parameters: Parameters, entries: map<nat, Entry>, next: nat)

  function Root(character: Octet): nat {
    CONTROL_CODEWORDS + character
  }

  predicate IsRoot(code: nat) {
    CONTROL_CODEWORDS <= code < FIRST_STRING
  }

  predicate Known(d: Dict, code: nat) {
    IsRoot(code) || code in d.entries
  }

  function Len(d: Dict, code: nat): nat
    requires Known(d, code)
  {
    if IsRoot(code) then 1 else d.entries[code].length
  }

  ghost predicate EntryOk(d: Dict, code: nat)
    requires code in d.entries
  {
    var e := d.entries[code];
    && FIRST_STRING <= code < d.parameters.codewords
    && Known(d, e.parent)
    && e.length == Len(d, e.parent) + 1
    && e.length <= d.parameters.maxString
  }

  predicate HasKey(d: Dict, code: nat, parent: nat, character: Octet)
  {
    code in d.entries && d.entries[code].parent == parent && d.entries[code].character == character
  }

  ghost predicate Unambiguous(d: Dict) {
    forall a: nat, b: nat, p: nat, c: Octet :: HasKey(d, a, p, c) && HasKey(d, b, p, c) ==> a == b
  }

  /** Every entry hangs below a known string and is one character longer, and no two are alike. */
  ghost predicate Tree(d: Dict) {
    && d.parameters.Valid()
    && (forall code :: code in d.entries ==> EntryOk(d, code))
    && Unambiguous(d)
  }

  /** What every update keeps: a tree, and an empty entry to come. */
  ghost predicate Inv(d: Dict) {
    && Tree(d)
    && FIRST_STRING <= d.next < d.parameters.codewords
    && d.next !in d.entries
  }

  function NewDict(parameters: Parameters): Dict {
    Dict(parameters, map[], FIRST_STRING)
  }

  /** The entry that extends `node` by `character`, if any. */
  ghost function Child(d: Dict, node: nat, character: Octet): (found: Option<nat>)
    ensures found.Some? ==> HasKey(d, found.value, node, character)
    ensures found.None? ==> forall code :: !HasKey(d, code, node, character)
  {
    if code: nat :| HasKey(d, code, node, character) then Some(code) else None
  }

  lemma NewDictOk(parameters: Parameters)
    requires parameters.Valid()
    ensures Inv(NewDict(parameters))
  {
  }

  ghost predicate HasChild(d: Dict, node: nat) {
    exists code :: code in d.entries && d.entries[code].parent == node
  }

  /** What recovery may take: an entry that is empty or ends no other string's prefix. */
  ghost predicate Free(d: Dict, code: nat) {
    code !in d.entries || !HasChild(d, code)
  }

  function After(d: Dict, code: nat): nat {
    if code + 1 >= d.parameters.codewords then FIRST_STRING else code + 1
  }

  predicate IsSlot(d: Dict, code: nat) {
    FIRST_STRING <= code < d.parameters.codewords
  }

  /** The first free entry from `at` on, in cyclic order, looking no further than `stop`. */
  ghost function Scan(d: Dict, at: nat, stop: nat): (found: nat)
    requires IsSlot(d, at) && IsSlot(d, stop)
    ensures IsSlot(d, found)
    ensures found == stop || Free(d, found)
    decreases if at <= stop then stop - at else stop - at + d.parameters.codewords
  {
    if at == stop || Free(d, at) then at else Scan(d, After(d, at), stop)
  }

  function Insert(d: Dict, node: nat, character: Octet): Dict
    requires Known(d, node)
  {
    d.(entries := d.entries[d.next := Entry(node, character, Len(d, node) + 1)])
  }

  /** A string one character longer goes in at `next`, and a free entry is emptied to be next (sections 6.4, 6.5). */
  ghost function Add(d: Dict, node: nat, character: Octet): (r: (Dict, Option<nat>))
    requires Inv(d) && Known(d, node)
  {
    if Len(d, node) >= d.parameters.maxString || Child(d, node, character).Some? then
      (d, None)
    else
      var grown := Insert(d, node, character);
      var next := Scan(grown, After(d, d.next), d.next);
      (grown.(entries := grown.entries - {next}, next := next), Some(d.next))
  }

  // Recovery always finds an entry other than the one just made.

  ghost function Ancestor(d: Dict, node: nat, length: nat): (a: nat)
    requires Tree(d) && Known(d, node) && 1 <= length <= Len(d, node)
    ensures Known(d, a) && Len(d, a) == length
    decreases Len(d, node)
  {
    if length == Len(d, node) then node
    else assert EntryOk(d, node); Ancestor(d, d.entries[node].parent, length)
  }

  lemma {:induction false} AncestorStep(d: Dict, node: nat, length: nat)
    requires Tree(d) && Known(d, node) && 1 <= length < Len(d, node)
    ensures Ancestor(d, node, length + 1) in d.entries
    ensures Ancestor(d, node, length) == d.entries[Ancestor(d, node, length + 1)].parent
    decreases Len(d, node)
  {
    assert EntryOk(d, node);
    if length + 1 < Len(d, node) {
      AncestorStep(d, d.entries[node].parent, length);
    }
  }

  /** If `code` is the only free entry, every entry is one of its prefixes. */
  lemma {:induction false} OnlyPrefixes(d: Dict, x: nat, code: nat)
    requires Tree(d) && code in d.entries && x in d.entries
    requires forall y :: IsSlot(d, y) && y != code ==> !Free(d, y)
    ensures Len(d, x) <= Len(d, code) && x == Ancestor(d, code, Len(d, x))
    decreases d.parameters.maxString - Len(d, x)
  {
    assert EntryOk(d, x) && EntryOk(d, code);
    if x != code {
      assert !Free(d, x);
      var y :| y in d.entries && d.entries[y].parent == x;
      assert EntryOk(d, y);
      OnlyPrefixes(d, y, code);
      AncestorStep(d, code, Len(d, x));
    }
  }

  lemma PrefixAt(d: Dict, x: nat, code: nat)
    requires Tree(d) && code in d.entries && IsSlot(d, x) && (x == code || !Free(d, x))
    requires forall y :: IsSlot(d, y) && y != code ==> !Free(d, y)
    ensures x in d.entries && Len(d, x) <= Len(d, code) && 2 <= Len(d, x) < 251
    ensures x == Ancestor(d, code, Len(d, x))
  {
    hide Ancestor;
    assert EntryOk(d, x) && EntryOk(d, code);
    OnlyPrefixes(d, x, code);
  }

  /** With at least 253 entries and strings of at most 250 characters, one other entry is free. */
  lemma AnotherIsFree(d: Dict, code: nat)
    requires Tree(d) && code in d.entries
    ensures exists y :: IsSlot(d, y) && y != code && Free(d, y)
  {
    if forall y :: IsSlot(d, y) && y != code ==> !Free(d, y) {
      var n := d.parameters.codewords;
      var slots, lengths := Range(FIRST_STRING, n), Range(2, 251);
      forall x | x in slots
        ensures x in d.entries && Len(d, x) <= Len(d, code) && Len(d, x) in lengths
        ensures x == Ancestor(d, code, Len(d, x))
      {
        assert x == code || !Free(d, x);
        PrefixAt(d, x, code);
      }
      hide Ancestor, Len;
      InjectionSize(slots, lengths, map x | x in slots :: Len(d, x));
      assert false;
    }
  }

  /** How many steps of the cycle `After` lead from `from` to `to`. */
  function Distance(d: Dict, from: nat, to: nat): nat
    requires IsSlot(d, from) && IsSlot(d, to)
  {
    if from <= to then to - from else to - from + (d.parameters.codewords - FIRST_STRING)
  }

  lemma {:induction false} ScanStopsEarly(d: Dict, at: nat, stop: nat, y: nat)
    requires IsSlot(d, at) && IsSlot(d, stop) && IsSlot(d, y) && Free(d, y) && y != stop
    requires Distance(d, at, y) < Distance(d, at, stop)
    ensures Scan(d, at, stop) != stop
    decreases Distance(d, at, stop)
  {
    if !(at == stop || Free(d, at)) {
      ScanStopsEarly(d, After(d, at), stop, y);
    }
  }

  lemma RecoversAnother(d: Dict, code: nat)
    requires Tree(d) && code in d.entries
    ensures IsSlot(d, code)
    ensures Scan(d, After(d, code), code) != code
    ensures Free(d, Scan(d, After(d, code), code))
  {
    assert EntryOk(d, code);
    AnotherIsFree(d, code);
    var y :| IsSlot(d, y) && y != code && Free(d, y);
    ScanStopsEarly(d, After(d, code), code, y);
  }

  // What an update keeps.

  ghost function Children(d: Dict, node: nat): set<nat> {
    set code | code in d.entries && d.entries[code].parent == node
  }

  lemma FewChildren(d: Dict, node: nat)
    requires Tree(d)
    ensures |Children(d, node)| < 0x1_0000
    ensures Children(d, node) == {} <==> !HasChild(d, node)
  {
    var slots := Range(FIRST_STRING, d.parameters.codewords);
    forall code | code in Children(d, node)
      ensures code in slots
    {
      assert EntryOk(d, code);
    }
    SubsetSize(Children(d, node), slots);
    assert forall code :: code in d.entries && d.entries[code].parent == node ==> code in Children(d, node);
  }

  lemma InsertChildren(d: Dict, node: nat, character: Octet)
    requires Known(d, node) && d.next !in d.entries
    ensures forall x :: |Children(Insert(d, node, character), x)| == |Children(d, x)| + (if x == node then 1 else 0)
  {
    var grown := Insert(d, node, character);
    forall x: nat
      ensures Children(grown, x) == Children(d, x) + (if x == node then {d.next} else {})
    {
    }
  }

  lemma RemovalChildren(d: Dict, code: nat)
    requires code in d.entries
    ensures var less := d.(entries := d.entries - {code}, next := code);
      forall x :: |Children(less, x)| == |Children(d, x)| - (if x == d.entries[code].parent then 1 else 0)
  {
    var less := d.(entries := d.entries - {code}, next := code);
    forall x: nat
      ensures Children(d, x) == Children(less, x) + (if x == d.entries[code].parent then {code} else {})
    {
    }
  }

  lemma InsertKeepsTree(d: Dict, node: nat, character: Octet)
    requires Inv(d) && Known(d, node)
    requires Len(d, node) < d.parameters.maxString && Child(d, node, character).None?
    ensures Tree(Insert(d, node, character))
    ensures !HasChild(Insert(d, node, character), d.next)
  {
    var grown := Insert(d, node, character);
    forall code | code in grown.entries
      ensures EntryOk(grown, code) && grown.entries[code].parent != d.next
    {
      if code != d.next {
        assert EntryOk(d, code);
      }
    }
    forall a: nat, b: nat, p: nat, c: Octet | HasKey(grown, a, p, c) && HasKey(grown, b, p, c)
      ensures a == b
    {
      if a != d.next && b != d.next {
        assert HasKey(d, a, p, c) && HasKey(d, b, p, c);
      } else {
        assert a != d.next ==> HasKey(d, a, p, c);
        assert b != d.next ==> HasKey(d, b, p, c);
      }
    }
  }

  lemma RemovalKeepsTree(d: Dict, code: nat)
    requires Tree(d) && Free(d, code)
    ensures Tree(d.(entries := d.entries - {code}, next := code))
  {
    var less := d.(entries := d.entries - {code}, next := code);
    forall x | x in less.entries
      ensures EntryOk(less, x)
    {
      assert EntryOk(d, x);
    }
    forall a: nat, b: nat, p: nat, c: Octet | HasKey(less, a, p, c) && HasKey(less, b, p, c)
      ensures a == b
    {
      assert HasKey(d, a, p, c) && HasKey(d, b, p, c);
    }
  }

  /** An update keeps the invariant, the string it extends, and the entry it makes. */
  lemma AddKeepsInv(d: Dict, node: nat, character: Octet)
    requires Inv(d) && Known(d, node)
    ensures var (d', made) := Add(d, node, character);
      && Inv(d') && Known(d', node)
      && d'.parameters == d.parameters
      && (made.Some? ==> made.value == d.next && HasKey(d', d.next, node, character) && !HasChild(d', d.next))
  {
    if Add(d, node, character).1.Some? {
      var grown := Insert(d, node, character);
      InsertKeepsTree(d, node, character);
      assert HasChild(grown, node) by {
        assert d.next in grown.entries && grown.entries[d.next].parent == node;
      }
      RecoversAnother(grown, d.next);
      var next := Scan(grown, After(grown, d.next), d.next);
      RemovalKeepsTree(grown, next);
    }
  }

  function String(d: Dict, code: nat): (s: Octets)
    requires Tree(d) && Known(d, code)
    ensures |s| == Len(d, code) >= 1
    decreases Len(d, code)
  {
    if IsRoot(code) then [code - CONTROL_CODEWORDS]
    else
      assert EntryOk(d, code);
      String(d, d.entries[code].parent) + [d.entries[code].character]
  }

  lemma StringParts(d: Dict, code: nat)
    requires Tree(d) && Known(d, code)
    ensures code in d.entries ==>
      var e := d.entries[code];
      && Known(d, e.parent) && Len(d, e.parent) < Len(d, code) && e.parent < 0xFFFF
      && String(d, code) == String(d, e.parent) + [e.character]
    ensures IsRoot(code) ==> String(d, code) == [code - CONTROL_CODEWORDS]
  {
    if code in d.entries {
      assert EntryOk(d, code);
      if d.entries[code].parent in d.entries {
        assert EntryOk(d, d.entries[code].parent);
      }
    }
  }

  /** Every string but the new one was there before the update, spelt the same. */
  lemma {:induction false} AddKeepsStrings(d: Dict, node: nat, character: Octet, code: nat)
    requires Inv(d) && Known(d, node)
    requires var (d', made) := Add(d, node, character); Known(d', code) && made != Some(code)
    ensures code != d.next && Known(d, code)
    ensures Inv(Add(d, node, character).0)
    ensures String(Add(d, node, character).0, code) == String(d, code)
    decreases Len(d, code)
  {
    var (d', made) := Add(d, node, character);
    AddKeepsInv(d, node, character);
    if made.Some? && !IsRoot(code) {
      assert EntryOk(d', code) && EntryOk(d, code);
      assert d'.entries[code] == d.entries[code];
      AddKeepsStrings(d, node, character, d.entries[code].parent);
    }
  }
}
