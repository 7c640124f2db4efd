/** The order of expanded host names: every choice of one element per bracket
    area, in lexicographic order of the areas. */
module NameOrder {
  import opened Text
  import opened BracketArea
  import opened SimpleRegex

  /** An area with the plain text in front of it. */
  datatype Slot = Slot(prefix: string, elements: seq<string>)

  datatype Reading = Broken | Reading(slots: seq<Slot>, tail: string)

  /** The areas of an expression from left to right. Nothing is read behind an
      area that stands for nothing. */
  function ReadSlots(s: string): Reading
    decreases |s|
  {
    match ShapeOf(s)
    case Malformed => Broken
    case Plain => Reading([], s)
    case Area(prefix, es, suffix) =>
      var slot := Slot(prefix, es);
      if es == [] then Reading([slot], suffix)
      else
        match ReadSlots(suffix)
        case Broken => Broken
        case Reading(slots, tail) => Reading([slot] + slots, tail)
  }

  /** The product of the sizes of the areas. */
  function Size(slots: seq<Slot>): nat {
    if slots == [] then 1 else |slots[0].elements| * Size(slots[1..])
  }

  /** One element index per area. */
  predicate IsChoice(slots: seq<Slot>, choice: seq<nat>) {
    |choice| == |slots| && forall i :: 0 <= i < |slots| ==> choice[i] < |slots[i].elements|
  }

  function Spell(slots: seq<Slot>, tail: string, choice: seq<nat>): string
    requires IsChoice(slots, choice)
  {
    if slots == [] then tail
    else slots[0].prefix + slots[0].elements[choice[0]] + Spell(slots[1..], tail, choice[1..])
  }

  /** The lexicographic rank of a choice. */
  function Rank(slots: seq<Slot>, choice: seq<nat>): nat
    requires IsChoice(slots, choice)
  {
    if slots == [] then 0 else choice[0] * Size(slots[1..]) + Rank(slots[1..], choice[1..])
  }

  /** An entry of row `i` of a table with `rows` rows of `size` entries. */
  lemma RowFits(i: nat, rows: nat, size: nat, j: nat)
    requires i < rows && j < size
    ensures i * size + j < rows * size
  {
    assert i * size + size == (i + 1) * size;
    assert (i + 1) * size <= rows * size;
  }

  lemma RowAndColumn(k: nat, rows: nat, size: nat)
    requires k < rows * size
    ensures size != 0 && k / size < rows && k % size < size && k == k / size * size + k % size
  {
    if size != 0 {
      var row := k / size;
      assert rows <= row ==> rows * size <= row * size;
    }
  }

  lemma SizeOf(slots: seq<Slot>)
    requires slots != []
    ensures Size(slots) == |slots[0].elements| * Size(slots[1..])
  {
  }

  lemma SizeOfNone()
    ensures Size([]) == 1
  {
  }

  /** Every position of the list is the rank of some choice. */
  lemma {:induction false} RankIsOnto(slots: seq<Slot>, k: nat)
    requires k < Size(slots)
    ensures exists choice :: IsChoice(slots, choice) && Rank(slots, choice) == k
  {
    hide Size;
    SizeOfNone();
    if slots == [] {
      assert IsChoice(slots, []) && Rank(slots, []) == k;
    } else {
      var size := Size(slots[1..]);
      SizeOf(slots);
      RowAndColumn(k, |slots[0].elements|, size);
      RankIsOnto(slots[1..], k % size);
      var rest :| IsChoice(slots[1..], rest) && Rank(slots[1..], rest) == k % size;
      ChoiceCons(slots, k / size, rest);
      assert IsChoice(slots, [k / size] + rest);
    }
  }

  lemma ChoiceCons(slots: seq<Slot>, i: nat, rest: seq<nat>)
    requires slots != [] && i < |slots[0].elements| && IsChoice(slots[1..], rest)
    ensures IsChoice(slots, [i] + rest)
    ensures Rank(slots, [i] + rest) == i * Size(slots[1..]) + Rank(slots[1..], rest)
  {
    assert ([i] + rest)[1..] == rest;
  }

  lemma {:induction false} CrossSize(prefix: string, es: seq<string>, names: seq<string>)
    ensures |Cross(prefix, es, names)| == |es| * |names|
  {
    if es != [] {
      CrossSize(prefix, es[1..], names);
      assert (|es| - 1) * |names| + |names| == |es| * |names|;
    }
  }

  lemma {:induction false} CrossAt(prefix: string, es: seq<string>, names: seq<string>, i: nat, j: nat)
    requires i < |es| && j < |names|
    ensures i * |names| + j < |Cross(prefix, es, names)|
    ensures Cross(prefix, es, names)[i * |names| + j] == prefix + es[i] + names[j]
  {
    CrossSize(prefix, es, names);
    RowFits(i, |es|, |names|, j);
    if i > 0 {
      CrossAt(prefix, es[1..], names, i - 1, j);
      assert i * |names| + j == |names| + ((i - 1) * |names| + j);
    }
  }

  /** Putting an area in front of names already in order. */
  lemma SlotInFront(slot: Slot, slots: seq<Slot>, tail: string, names: seq<string>, c: seq<nat>)
    requires IsChoice([slot] + slots, c) && |names| == Size(slots)
    requires forall d :: IsChoice(slots, d) ==>
               Rank(slots, d) < |names| && names[Rank(slots, d)] == Spell(slots, tail, d)
    ensures var list, all := Cross(slot.prefix, slot.elements, names), [slot] + slots;
            |list| == Size(all) && Rank(all, c) < Size(all) && list[Rank(all, c)] == Spell(all, tail, c)
  {
    hide Cross;
    var all := [slot] + slots;
    assert all[1..] == slots;
    assert IsChoice(slots, c[1..]);
    CrossSize(slot.prefix, slot.elements, names);
    CrossAt(slot.prefix, slot.elements, names, c[0], Rank(slots, c[1..]));
  }

  /** The names stand in the lexicographic order of the choices that spell them. */
  ghost predicate InOrder(names: seq<string>, slots: seq<Slot>, tail: string) {
    && |names| == Size(slots)
    && forall c :: IsChoice(slots, c) ==>
         Rank(slots, c) < Size(slots) && names[Rank(slots, c)] == Spell(slots, tail, c)
  }

  /** Expansion fails exactly when the expression cannot be read, and otherwise it
      finds one name per choice, each at the choice's lexicographic rank. */
  lemma {:induction false} NamesInOrder(s: string)
    ensures Names(s) == None <==> ReadSlots(s) == Broken
    ensures Names(s).Some? ==> InOrder(Names(s).value, ReadSlots(s).slots, ReadSlots(s).tail)
    decreases |s|
  {
    hide ShapeOf, Cross, Rank, Spell;
    SuffixIsShorter(s);
    match ShapeOf(s)
    case Malformed =>
    case Plain =>
      PlainInOrder(s);
    case Area(prefix, es, suffix) =>
      if es == [] {
        EmptyInOrder(Slot(prefix, es), suffix);
      } else {
        NamesInOrder(suffix);
        if Names(suffix).Some? {
          var rest, names := ReadSlots(suffix), Names(suffix).value;
          CrossInOrder(Slot(prefix, es), rest.slots, rest.tail, names);
        }
      }
  }

  lemma PlainInOrder(s: string)
    ensures InOrder([s], [], s)
  {
  }

  lemma EmptyInOrder(slot: Slot, tail: string)
    requires slot.elements == []
    ensures InOrder([], [slot], tail)
  {
    assert Size([slot]) == 0;
  }

  lemma CrossInOrder(slot: Slot, slots: seq<Slot>, tail: string, names: seq<string>)
    requires InOrder(names, slots, tail)
    ensures InOrder(Cross(slot.prefix, slot.elements, names), [slot] + slots, tail)
  {
    hide Cross;
    CrossSize(slot.prefix, slot.elements, names);
    var all := [slot] + slots;
    assert all[1..] == slots;
    forall c | IsChoice(all, c)
      ensures Rank(all, c) < Size(all)
           && Cross(slot.prefix, slot.elements, names)[Rank(all, c)] == Spell(all, tail, c)
    {
      SlotInFront(slot, slots, tail, names, c);
    }
  }
}
