/** The names of a whole list: every choice of a piece and of one element per bracket
    area of it, in the order of the pieces. */
module ListOrder {
  import opened Text
  import opened SimpleRegex
  import opened NameOrder
  import opened HostList

  function PieceAt(pieces: seq<string>, i: nat): Reading
    requires i < |pieces|
  {
    ReadSlots(Trim(pieces[i]))
  }

  /** How many names the pieces stand for together. */
  function TotalSize(pieces: seq<string>): nat {
    if pieces == [] then 0
    else (if PieceAt(pieces, 0) == Broken then 0 else Size(PieceAt(pieces, 0).slots)) + TotalSize(pieces[1..])
  }

  /** One piece, and one element index per area of it. */
  predicate IsChoiceOf(pieces: seq<string>, i: nat, choice: seq<nat>) {
    i < |pieces| && PieceAt(pieces, i) != Broken && IsChoice(PieceAt(pieces, i).slots, choice)
  }

  /** Where the name of a choice stands: behind all names of earlier pieces. */
  function Place(pieces: seq<string>, i: nat, choice: seq<nat>): nat
    requires IsChoiceOf(pieces, i, choice)
  {
    TotalSize(pieces[..i]) + Rank(PieceAt(pieces, i).slots, choice)
  }

  function NameOf(pieces: seq<string>, i: nat, choice: seq<nat>): string
    requires IsChoiceOf(pieces, i, choice)
  {
    Spell(PieceAt(pieces, i).slots, PieceAt(pieces, i).tail, choice)
  }

  /** A choice in a later piece. */
  lemma LaterChoice(pieces: seq<string>, i: nat, choice: seq<nat>)
    requires 0 < i && IsChoiceOf(pieces, i, choice) && PieceAt(pieces, 0) != Broken
    ensures IsChoiceOf(pieces[1..], i - 1, choice)
    ensures Place(pieces, i, choice) == Size(PieceAt(pieces, 0).slots) + Place(pieces[1..], i - 1, choice)
    ensures NameOf(pieces, i, choice) == NameOf(pieces[1..], i - 1, choice)
  {
    hide ReadSlots, Trim, Size, Rank, Spell;
    assert pieces[..i][1..] == pieces[1..][..i - 1];
  }

  /** A list stands for nothing exactly if a piece of it cannot be read. */
  lemma {:induction false} ListFailsWhen(pieces: seq<string>)
    ensures NamesOfAll(pieces) == None <==> exists i :: 0 <= i < |pieces| && PieceAt(pieces, i) == Broken
    decreases |pieces|
  {
    hide Names, ReadSlots, Trim;
    if pieces != [] {
      var others := pieces[1..];
      NamesInOrder(Trim(pieces[0]));
      ListFailsWhen(others);
      if Names(Trim(pieces[0])) == None {
        assert PieceAt(pieces, 0) == Broken;
      }
      if i :| 0 <= i < |others| && PieceAt(others, i) == Broken {
        assert PieceAt(pieces, i + 1) == Broken;
      }
      if i :| 0 <= i < |pieces| && PieceAt(pieces, i) == Broken {
        assert i == 0 || PieceAt(others, i - 1) == Broken;
      }
    }
  }

  /** Otherwise it has one name per choice, each in its place. */
  lemma {:induction false} ListNamesInOrder(pieces: seq<string>)
    requires NamesOfAll(pieces).Some?
    ensures var names := NamesOfAll(pieces).value;
            && |names| == TotalSize(pieces)
            && forall i: nat, c: seq<nat> :: IsChoiceOf(pieces, i, c) ==>
                 Place(pieces, i, c) < |names| && names[Place(pieces, i, c)] == NameOf(pieces, i, c)
    decreases |pieces|
  {
    hide Names, ReadSlots, Trim, Size, Rank, Spell;
    if pieces != [] {
      var first, names := Names(Trim(pieces[0])).value, NamesOfAll(pieces).value;
      NamesInOrder(Trim(pieces[0]));
      ListNamesInOrder(pieces[1..]);
      forall i: nat, c: seq<nat> | IsChoiceOf(pieces, i, c)
        ensures Place(pieces, i, c) < |names| && names[Place(pieces, i, c)] == NameOf(pieces, i, c)
      {
        if i == 0 {
          assert pieces[..0] == [];
        } else {
          LaterChoice(pieces, i, c);
        }
      }
    }
  }

  /** And no others: every place is that of a choice. */
  lemma {:induction false} PlaceIsOnto(pieces: seq<string>, k: nat)
    requires k < TotalSize(pieces) && forall i :: 0 <= i < |pieces| ==> PieceAt(pieces, i) != Broken
    ensures exists i: nat, c: seq<nat> :: IsChoiceOf(pieces, i, c) && Place(pieces, i, c) == k
    decreases |pieces|
  {
    hide ReadSlots, Trim, Size, Rank;
    var slots, others := PieceAt(pieces, 0).slots, pieces[1..];
    if k < Size(slots) {
      RankIsOnto(slots, k);
      var c :| IsChoice(slots, c) && Rank(slots, c) == k;
      assert pieces[..0] == [];
      assert IsChoiceOf(pieces, 0, c) && Place(pieces, 0, c) == k;
    } else {
      forall i | 0 <= i < |others| ensures PieceAt(others, i) != Broken {
        assert PieceAt(others, i) == PieceAt(pieces, i + 1);
      }
      PlaceIsOnto(others, k - Size(slots));
      var i: nat, c: seq<nat> :| IsChoiceOf(others, i, c) && Place(others, i, c) == k - Size(slots);
      assert IsChoiceOf(pieces, i + 1, c);
      LaterChoice(pieces, i + 1, c);
    }
  }
}
