/** The dictionary as the codec keeps it: parallel arrays with child counts and a hash map. */
module V42DictionaryClass {
  import opened Prelude
  import opened V42Dictionary

  const NONE: Word := 0xFFFF

  /** What the arrays and the hash map hold at one moment. */
  datatype Store = Store(
    parent: seq<Word>,
    character: seq<Octet>,
    length: seq<Octet>,
    children: seq<Word>,
    lookup: map<(Word, Octet), Word>)

  ghost predicate Shaped(s: Store, n: nat) {
    |s.parent| == |s.character| == |s.length| == |s.children| == n
  }

  ghost predicate RootsStored(s: Store)
    requires Shaped(s, |s.parent|) && |s.parent| >= FIRST_STRING
  {
    && (forall c :: 0 <= c < CONTROL_CODEWORDS ==> s.length[c] == 0)
    && (forall c: nat :: IsRoot(c) ==> s.length[c] == 1 && s.parent[c] == NONE && Root(s.character[c]) == c)
  }

  ghost predicate EntriesStored(s: Store, d: Dict)
    requires Shaped(s, d.parameters.codewords)
  {
    forall code: nat :: IsSlot(d, code) ==>
      if code in d.entries then d.entries[code] == Entry(s.parent[code], s.character[code], s.length[code])
      else s.length[code] == 0
  }

  ghost predicate Finds(s: Store, d: Dict) {
    && (forall k :: k in s.lookup ==> HasKey(d, s.lookup[k], k.0, k.1))
    && (forall code :: code in d.entries ==>
      var e := d.entries[code];
      e.parent < 0x1_0000 && (e.parent, e.character) in s.lookup && s.lookup[(e.parent, e.character)] == code)
  }

  ghost predicate Counts(s: Store, d: Dict)
    requires Shaped(s, d.parameters.codewords)
  {
    forall x :: 0 <= x < d.parameters.codewords ==> s.children[x] == |Children(d, x)|
  }

  /** The arrays, the hash map and the child counts all tell of the entries of `d`. */
  ghost predicate Mirrors(s: Store, d: Dict) {
    && d.parameters.Valid() && Shaped(s, d.parameters.codewords)
    && RootsStored(s) && EntriesStored(s, d) && Finds(s, d) && Counts(s, d)
  }

  lemma StoredLength(s: Store, d: Dict, code: nat)
    requires Mirrors(s, d) && Tree(d) && Known(d, code)
    ensures code < d.parameters.codewords && s.length[code] == Len(d, code)
    ensures code in d.entries ==> d.entries[code] == Entry(s.parent[code], s.character[code], s.length[code])
    ensures IsRoot(code) ==> s.parent[code] == NONE && Root(s.character[code]) == code
  {
    if code in d.entries {
      assert EntryOk(d, code) && IsSlot(d, code);
    }
  }

  lemma EntrySlot(d: Dict, code: nat)
    requires Tree(d) && code in d.entries
    ensures IsSlot(d, code)
  {
    assert EntryOk(d, code);
  }

  lemma FoundIsChild(s: Store, d: Dict, node: Word, c: Octet)
    requires Finds(s, d) && Unambiguous(d)
    ensures Child(d, node, c) == if (node, c) in s.lookup then Some(s.lookup[(node, c)]) else None
  {
    var found := Child(d, node, c);
    if (node, c) in s.lookup {
      assert HasKey(d, s.lookup[(node, c)], node, c);
    }
    assert found.Some? ==> HasKey(d, found.value, node, c);
  }

  function Inserted(s: Store, code: Word, node: Word, c: Octet, size: Octet, count: Word): Store
    requires Shaped(s, |s.parent|) && code < |s.parent| && node < |s.parent|
  {
    Store(s.parent[code := node], s.character[code := c], s.length[code := size],
      s.children[node := count], s.lookup[(node, c) := code])
  }

  lemma InsertStored(s: Store, d: Dict, node: Word, c: Octet, size: Octet, count: Word)
    requires Shaped(s, d.parameters.codewords) && d.parameters.Valid()
    requires RootsStored(s) && EntriesStored(s, d) && IsSlot(d, d.next)
    requires Known(d, node) && node < d.parameters.codewords && size == Len(d, node) + 1
    ensures RootsStored(Inserted(s, d.next, node, c, size, count))
    ensures EntriesStored(Inserted(s, d.next, node, c, size, count), Insert(d, node, c))
  {
  }

  lemma InsertFinds(s: Store, d: Dict, node: Word, c: Octet, size: Octet, count: Word)
    requires Shaped(s, d.parameters.codewords) && Finds(s, d)
    requires IsSlot(d, d.next) && d.next !in d.entries && d.parameters.Valid()
    requires Known(d, node) && node < d.parameters.codewords && Child(d, node, c).None?
    ensures Finds(Inserted(s, d.next, node, c, size, count), Insert(d, node, c))
  {
    var s', grown := Inserted(s, d.next, node, c, size, count), Insert(d, node, c);
    forall k | k in s'.lookup
      ensures HasKey(grown, s'.lookup[k], k.0, k.1)
    {
      assert k != (node, c) ==> HasKey(d, s.lookup[k], k.0, k.1);
    }
    forall code | code in d.entries
      ensures (d.entries[code].parent, d.entries[code].character) != (node as nat, c)
    {
      assert !HasKey(d, code, node, c);
    }
  }

  lemma InsertMirrors(s: Store, d: Dict, node: Word, c: Octet)
    requires Mirrors(s, d) && Inv(d) && Known(d, node)
    requires Len(d, node) < d.parameters.maxString && Child(d, node, c).None?
    ensures node < d.parameters.codewords && s.length[node] == Len(d, node) < 255 && s.children[node] < 0xFFFF
    ensures Mirrors(Inserted(s, d.next, node, c, s.length[node] + 1, s.children[node] + 1), Insert(d, node, c))
  {
    hide Finds, RootsStored, EntriesStored, Counts, Tree, Child;
    StoredLength(s, d, node);
    InsertCounts(s, d, node, c);
    InsertStored(s, d, node, c, s.length[node] + 1, s.children[node] + 1);
    InsertFinds(s, d, node, c, s.length[node] + 1, s.children[node] + 1);
  }

  lemma InsertCounts(s: Store, d: Dict, node: Word, c: Octet)
    requires Mirrors(s, d) && Inv(d) && Known(d, node) && node < d.parameters.codewords
    requires Len(d, node) < d.parameters.maxString && Len(d, node) < 255 && Child(d, node, c).None?
    ensures s.children[node] < 0xFFFF
    ensures Counts(Inserted(s, d.next, node, c, Len(d, node) + 1, s.children[node] + 1), Insert(d, node, c))
  {
    hide Finds, RootsStored, EntriesStored, Children, Tree, Child;
    InsertChildren(d, node, c);
    InsertKeepsTree(d, node, c);
    FewChildren(Insert(d, node, c), node);
  }

  function Dropped(s: Store, code: Word): Store
    requires Shaped(s, |s.parent|) && code < |s.parent|
    requires s.parent[code] < |s.parent| && s.children[s.parent[code]] > 0
  {
    var up := s.parent[code];
    s.(length := s.length[code := 0], children := s.children[up := s.children[up] - 1],
      lookup := s.lookup - {(up, s.character[code])})
  }

  lemma DropFinds(s: Store, d: Dict, code: Word)
    requires Finds(s, d) && Unambiguous(d) && code in d.entries
    ensures d.entries[code].parent < 0x1_0000
    ensures var key := (d.entries[code].parent as Word, d.entries[code].character);
      Finds(s.(lookup := s.lookup - {key}), d.(entries := d.entries - {code}, next := code))
  {
    var e := d.entries[code];
    var s' := s.(lookup := s.lookup - {(e.parent as Word, e.character)});
    var d' := d.(entries := d.entries - {code}, next := code);
    assert HasKey(d, code, e.parent, e.character);
    forall k | k in s'.lookup
      ensures HasKey(d', s'.lookup[k], k.0, k.1)
    {
      assert HasKey(d, s.lookup[k], k.0, k.1);
    }
    forall x | x in d'.entries
      ensures (d.entries[x].parent, d.entries[x].character) != (e.parent, e.character)
    {
      assert HasKey(d, x, d.entries[x].parent, d.entries[x].character);
    }
  }

  lemma DropMirrors(s: Store, d: Dict, code: Word)
    requires Mirrors(s, d) && Tree(d) && code in d.entries
    ensures IsSlot(d, code) && s.length[code] > 0
    ensures s.parent[code] < d.parameters.codewords && s.children[s.parent[code]] > 0
    ensures Mirrors(Dropped(s, code), d.(entries := d.entries - {code}, next := code))
  {
    hide Finds;
    DropIsSlot(s, d, code);
    DropStored(s, d, code);
    DropCounts(s, d, code);
    DropFinds(s, d, code);
    var key := (d.entries[code].parent as Word, d.entries[code].character);
    SameLookup(s.(lookup := s.lookup - {key}), Dropped(s, code), d.(entries := d.entries - {code}, next := code));
  }

  lemma SameLookup(s: Store, s': Store, d: Dict)
    requires s.lookup == s'.lookup
    ensures Finds(s, d) == Finds(s', d)
  {
  }

  lemma DropIsSlot(s: Store, d: Dict, code: Word)
    requires Mirrors(s, d) && Tree(d) && code in d.entries
    ensures IsSlot(d, code) && s.length[code] > 0
    ensures d.entries[code] == Entry(s.parent[code], s.character[code], s.length[code])
    ensures s.parent[code] < d.parameters.codewords && s.children[s.parent[code]] > 0
  {
    hide Finds, RootsStored;
    StoredLength(s, d, code);
    assert EntryOk(d, code);
    StoredLength(s, d, s.parent[code]);
    assert code in Children(d, s.parent[code]);
  }

  lemma DropStored(s: Store, d: Dict, code: Word)
    requires Mirrors(s, d) && code in d.entries && IsSlot(d, code)
    requires s.parent[code] < d.parameters.codewords && s.children[s.parent[code]] > 0
    ensures RootsStored(Dropped(s, code))
    ensures EntriesStored(Dropped(s, code), d.(entries := d.entries - {code}, next := code))
  {
    hide Finds, Counts;
  }

  lemma DropCounts(s: Store, d: Dict, code: Word)
    requires Mirrors(s, d) && code in d.entries && IsSlot(d, code) && d.entries[code].parent == s.parent[code]
    requires s.parent[code] < d.parameters.codewords && s.children[s.parent[code]] > 0
    ensures Counts(Dropped(s, code), d.(entries := d.entries - {code}, next := code))
  {
    hide Finds, EntriesStored, RootsStored, Children;
    RemovalChildren(d, code);
  }

  lemma FreedMirrors(s: Store, d: Dict, code: Word)
    requires Mirrors(s, d) && Tree(d) && IsSlot(d, code)
    ensures code !in d.entries <==> s.length[code] == 0
    ensures code in d.entries ==> s.parent[code] < d.parameters.codewords && s.children[s.parent[code]] > 0
    ensures var d' := d.(entries := d.entries - {code}, next := code);
      Mirrors(if s.length[code] == 0 then s else Dropped(s, code), d')
  {
    if code in d.entries {
      DropMirrors(s, d, code);
    } else {
      assert d.entries - {code} == d.entries;
      forall k | k in s.lookup
        ensures HasKey(d, s.lookup[k], k.0, k.1)
      {
      }
      forall x: nat
        ensures Children(d, x) == Children(d.(next := code), x)
      {
      }
    }
  }

  lemma OccupiedOrFree(s: Store, d: Dict, code: nat)
    requires Mirrors(s, d) && Tree(d) && IsSlot(d, code)
    ensures s.length[code] != 0 <==> code in d.entries
    ensures s.children[code] != 0 <==> HasChild(d, code)
    ensures Free(d, code) <==> s.length[code] == 0 || s.children[code] == 0
  {
    FewChildren(d, code);
    if code in d.entries {
      StoredLength(s, d, code);
    }
  }

  lemma {:induction false} ScanSkipsTaken(d: Dict, at: nat, stop: nat, y: nat)
    requires IsSlot(d, at) && IsSlot(d, stop) && IsSlot(d, y)
    requires Distance(d, at, y) < Distance(d, at, Scan(d, at, stop))
    ensures !Free(d, y)
    decreases Distance(d, at, stop)
  {
    if !(at == stop || Free(d, at) || at == y) {
      ScanSkipsTaken(d, After(d, at), stop, y);
    }
  }

  /** What recovery looks for, in terms of the arrays. */
  ghost predicate NextToFree(s: Store, d: Dict, code: nat, target: nat)
    requires Shaped(s, d.parameters.codewords) && IsSlot(d, code)
  {
    && IsSlot(d, target)
    && (s.length[target] == 0 || s.children[target] == 0)
    && forall y: nat :: IsSlot(d, y) && Distance(d, After(d, code), y) < Distance(d, After(d, code), target) ==>
      s.length[y] != 0 && s.children[y] != 0
  }

  lemma ScanIsNext(s: Store, d: Dict, code: nat)
    requires Mirrors(s, d) && Tree(d) && IsSlot(d, code) && code in d.entries
    ensures var target := Scan(d, After(d, code), code);
      NextToFree(s, d, code, target) && target != code && (s.length[target] != 0 <==> target in d.entries)
  {
    var target := Scan(d, After(d, code), code);
    RecoversAnother(d, code);
    OccupiedOrFree(s, d, target);
    forall y: nat | IsSlot(d, y) && Distance(d, After(d, code), y) < Distance(d, After(d, code), target)
      ensures s.length[y] != 0 && s.children[y] != 0
    {
      ScanSkipsTaken(d, After(d, code), code, y);
      OccupiedOrFree(s, d, y);
    }
  }

  lemma NewMirrors(s: Store, parameters: Parameters)
    requires parameters.Valid() && Shaped(s, parameters.codewords) && s.lookup == map[]
    requires forall x :: 0 <= x < parameters.codewords ==>
      && s.parent[x] == NONE && s.children[x] == 0
      && s.length[x] == (if CONTROL_CODEWORDS <= x < FIRST_STRING then 1 else 0)
    requires forall x :: CONTROL_CODEWORDS <= x < FIRST_STRING ==> s.character[x] == x - CONTROL_CODEWORDS
    ensures Mirrors(s, NewDict(parameters)) && Inv(NewDict(parameters))
  {
    var d := NewDict(parameters);
    forall x: nat
      ensures Children(d, x) == {}
    {
    }
  }

  lemma KnownIsWord(d: Dict, code: nat)
    requires Inv(d) && Known(d, code)
    ensures code < d.parameters.codewords < 0x1_0000
  {
    assert code in d.entries ==> EntryOk(d, code);
  }

  lemma CodeInUse(s: Store, d: Dict, code: nat)
    requires Mirrors(s, d) && Tree(d)
    ensures Known(d, code) <==> CONTROL_CODEWORDS <= code < d.parameters.codewords && s.length[code] != 0
    ensures d.parameters.codewords < 0x1_0000
  {
    if Known(d, code) {
      StoredLength(s, d, code);
    }
  }

  class Dictionary {
    const parameters: Parameters
    const parent: array<Word>
    const character: array<Octet>
    /** What `EntriesStored` has for an entry in use, and 0 for every other slot. */
    const length: array<Octet>
    const children: array<Word>
    var lookup: map<(Word, Octet), Word>
    var next: Word
    ghost var model: Dict

    ghost function Parts(): set<object> {
      {this, parent, character, length, children}
    }

    ghost predicate Distinct() {
      && parameters.Valid()
      && parent.Length == character.Length == length.Length == children.Length == parameters.codewords
      && parent != children
      && character != length
    }

    ghost function Fields(): Store
      reads this`lookup, parent, character, length, children
    {
      Store(parent[..], character[..], length[..], children[..], lookup)
    }

    ghost predicate Valid()
      reads this, parent, character, length, children
    {
      && Distinct() && model.parameters == parameters
      && Mirrors(Fields(), model) && Inv(model) && next == model.next
    }

    constructor (parameters: Parameters)
      requires parameters.Valid()
      ensures Valid() && fresh(Parts())
      ensures this.parameters == parameters && model == NewDict(parameters)
    {
      this.parameters := parameters;
      parent := new Word[parameters.codewords];
      character := new Octet[parameters.codewords];
      length := new Octet[parameters.codewords];
      children := new Word[parameters.codewords];
      new;
      Clear();
    }

    /** Back to the 256 strings of one character. */
    method Clear()
      requires Distinct()
      modifies Parts()
      ensures Valid() && model == NewDict(parameters)
    {
      lookup := map[];
      next := FIRST_STRING;
      model := NewDict(parameters);
      forall i | 0 <= i < parent.Length {
        parent[i] := NONE;
      }
      forall i | 0 <= i < length.Length {
        length[i] := 0;
      }
      forall i | 0 <= i < children.Length {
        children[i] := 0;
      }
      for c := 0 to 256
        modifies character, length
        invariant forall x :: 0 <= x < length.Length ==>
          length[x] == (if CONTROL_CODEWORDS <= x < CONTROL_CODEWORDS + c then 1 else 0)
        invariant forall x :: CONTROL_CODEWORDS <= x < CONTROL_CODEWORDS + c ==> character[x] == x - CONTROL_CODEWORDS
      {
        character[Root(c)] := c;
        length[Root(c)] := 1;
      }
      NewMirrors(Fields(), parameters);
    }

    method ChildOf(node: Word, c: Octet) returns (found: Option<nat>)
      requires Valid()
      ensures found == Child(model, node, c)
    {
      FoundIsChild(Fields(), model, node, c);
      found := if (node, c) in lookup then Some(lookup[(node, c)]) else None;
    }

    method Add(node: Word, c: Octet) returns (made: Option<nat>)
      requires Valid() && Known(model, node)
      modifies this, parent, character, length, children
      ensures Valid()
      ensures (model, made) == V42Dictionary.Add(old(model), node, c)
    {
      hide Mirrors, Tree, Insert, Child;
      StoredLength(Fields(), model, node);
      var size := length[node];
      var found := ChildOf(node, c);
      if size >= parameters.maxString || found.Some? {
        return None;
      }
      AddKeepsInv(model, node, c);
      InsertKeepsTree(model, node, c);
      var code := next;
      Make(node, c, size);
      Recover();
      made := Some(code);
    }

    /** The entry that is next becomes the string of `node` and one more character. */
    method Make(node: Word, c: Octet, size: Octet)
      requires Valid() && Known(model, node) && size == Len(model, node) < parameters.maxString
      requires Child(model, node, c).None?
      modifies this`model, this`lookup, parent, character, length, children
      ensures Distinct() && model == Insert(old(model), node, c) && Mirrors(Fields(), model)
    {
      hide Mirrors, Tree, Child, Insert, Inserted;
      InsertMirrors(Fields(), model, node, c);
      Put(next, node, c, size + 1);
      model := Insert(model, node, c);
    }

    /** The string that the model spells for `code`, or nothing where it has none. */
    method StringOf(code: Word) returns (text: Option<Octets>)
      requires Valid()
      ensures text == if Known(model, code) then Some(String(model, code)) else None
    {
      hide Mirrors, Tree, String;
      CodeInUse(Fields(), model, code);
      if code < CONTROL_CODEWORDS || code >= length.Length || length[code] == 0 {
        return None;
      }
      var backwards: Octets := [];
      var node := code;
      ghost var rest := String(model, code);
      assert rest + Reverse(backwards) == rest;
      while node != NONE
        invariant if node == NONE then rest == [] else Known(model, node) && rest == String(model, node)
        invariant rest + Reverse(backwards) == String(model, code)
        decreases |rest|
      {
        StoredLength(Fields(), model, node);
        StringParts(model, node);
        ReverseAppends(backwards, character[node]);
        rest := rest[..|rest| - 1];
        backwards := backwards + [character[node]];
        node := parent[node];
      }
      assert rest + Reverse(backwards) == Reverse(backwards);
      text := Some(Reverse(backwards));
    }

    method Put(code: Word, node: Word, c: Octet, size: Octet)
      requires Distinct() && code < parameters.codewords && node < parameters.codewords
      requires children[node] < 0xFFFF
      modifies this`lookup, parent, character, length, children
      ensures Fields() == Inserted(old(Fields()), code, node, c, size, old(children[node]) + 1)
    {
      parent[code] := node;
      character[code] := c;
      length[code] := size;
      children[node] := children[node] + 1;
      lookup := lookup[(node, c) := code];
    }

    method Empty(code: Word)
      requires Distinct() && code < parameters.codewords
      requires parent[code] < parameters.codewords && children[parent[code]] > 0
      modifies this`lookup, length, children
      ensures Fields() == Dropped(old(Fields()), code)
    {
      var up := parent[code];
      lookup := lookup - {(up, character[code])};
      children[up] := children[up] - 1;
      length[code] := 0;
    }

    /** Moves `next` on to the first entry that is empty or a leaf. */
    method Advance(ghost d: Dict, ghost target: nat)
      requires Distinct() && d.parameters == parameters && IsSlot(d, next)
      requires NextToFree(Fields(), d, next, target)
      modifies this`next
      ensures next == target
    {
      ghost var start := After(d, next);
      next := if next + 1 >= parameters.codewords then FIRST_STRING else next + 1;
      while length[next] != 0 && children[next] != 0
        invariant IsSlot(d, next) && Distance(d, start, next) <= Distance(d, start, target)
        decreases Distance(d, next, target)
      {
        next := if next + 1 >= parameters.codewords then FIRST_STRING else next + 1;
      }
    }

    /** Moves `next` on to an entry that is free, and empties it. */
    method Recover()
      requires Distinct() && model.parameters == parameters
      requires Mirrors(Fields(), model) && Tree(model) && next in model.entries
      modifies this, length, children
      ensures model.parameters == parameters && Mirrors(Fields(), model) && next == model.next
      ensures IsSlot(old(model), old(next))
      ensures var found := Scan(old(model), After(old(model), old(next)), old(next));
        model == old(model).(entries := old(model).entries - {found}, next := found)
    {
      hide Mirrors, Tree, Dropped;
      ghost var d, s := model, Fields();
      EntrySlot(d, next);
      ScanIsNext(s, d, next);
      Advance(d, Scan(d, After(d, next), next));
      FreedMirrors(s, d, next);
      if length[next] != 0 {
        Empty(next);
      }
      model := d.(entries := d.entries - {next}, next := next);
    }
  }
}
