/** What bracket areas and expressions stand for, said of their text. */
module AreaMeaning {
  import opened Text
  import opened BracketArea
  import opened SimpleRegex

  // ---------------------------------------------------------------------
  // Ranges

  /** Two numbers in ascending order. */
  predicate NumbersUp(low: string, high: string) {
    IsNumber(low) && IsNumber(high) && Atoi(low) <= Atoi(high)
  }

  /** Two letters of one case in ascending order. */
  predicate LettersUp(low: string, high: string) {
    && |low| == 1 && |high| == 1 && low[0] <= high[0]
    && (('A' <= low[0] && high[0] <= 'Z') || ('a' <= low[0] && high[0] <= 'z'))
  }

  lemma {:induction false} NumberRangeIs(low: nat, high: nat)
    requires low <= high + 1
    ensures |NumberRange(low, high)| == high + 1 - low
    ensures forall i :: 0 <= i < high + 1 - low ==> NumberRange(low, high)[i] == Decimal(low + i)
    decreases high + 1 - low
  {
    hide Decimal;
    if low <= high {
      NumberRangeIs(low + 1, high);
    }
  }

  lemma TrimTwice(s: string)
    ensures Trim(TrimLeft(s)) == Trim(s) && Trim(TrimRight(s)) == Trim(s)
  {
    hide TrimLeft, TrimRight;
    assert TrimLeft(TrimLeft(s)) == TrimLeft(s) by { TrimLeftStops(s); NothingToTrim(TrimLeft(s)); }
    assert TrimRight(TrimRight(s)) == TrimRight(s) by { TrimRightStops(s); NothingToTrim(TrimRight(s)); }
    TrimEitherWay(s);
    TrimEitherWay(TrimRight(s));
  }

  /** A piece around its first '-' is taken apart there. */
  lemma DashSplits(low: string, high: string)
    requires '-' !in low
    ensures var piece := Trim(low + "-" + high);
            var pos := Find(piece, '-');
            && pos < |piece| && Trim(piece[..pos]) == Trim(low) && Trim(piece[pos + 1..]) == Trim(high)
  {
    hide TrimLeft, TrimRight, Find, Trim;
    var l, h := TrimLeft(low), TrimRight(high);
    var piece := l + "-" + h;
    assert Trimmed("-") by { assert !IsSpace('-'); }
    TrimAround(low, "-", high);
    assert !IsSpace('-');
    TrimLeftKeeps(low, '-');
    FindIs(piece, '-', |l|);
    assert piece[..|l|] == l && piece[|l| + 1..] == h;
    TrimTwice(low);
    TrimTwice(high);
  }

  /** A range stands for the numbers, or the letters, from the first to the last; it fails
      exactly if it is neither two numbers nor two letters of one case in ascending order.
      (So does one with an empty side, or with another '-'.) */
  lemma RangeMeans(low: string, high: string)
    requires '-' !in low && ',' !in low && ',' !in high
    ensures var l, h, r := Trim(low), Trim(high), AreaElements(low + "-" + high);
            && (r == None <==> !NumbersUp(l, h) && !LettersUp(l, h))
            && (NumbersUp(l, h) ==>
                  && |r.value| == Atoi(h) + 1 - Atoi(l)
                  && forall i :: 0 <= i < |r.value| ==> r.value[i] == Decimal(Atoi(l) + i))
            && (LettersUp(l, h) ==>
                  && |r.value| == h[0] as int + 1 - l[0] as int
                  && forall i :: 0 <= i < |r.value| ==> r.value[i] == [(l[0] as int + i) as char])
  {
    hide Find, Trim, Atoi, NumberRange, LetterRange, Decimal;
    var area, l, h := low + "-" + high, Trim(low), Trim(high);
    DashSplits(low, high);
    OnePiece(area);
    assert '-' in area by { assert area[|low|] == '-'; }
    assert !IsSpace('-');
    TrimKeeps(area, '-');
    if NumbersUp(l, h) {
      NumberRangeIs(Atoi(l), Atoi(h));
    } else if LettersUp(l, h) {
      LetterRangeAscends(l[0], h[0]);
    }
  }

  lemma OnePiece(area: string)
    requires ',' !in area
    ensures AreaElements(area) == if Trim(area) == [] then Some([]) else PieceElements(Trim(area))
  {
    hide Trim, PieceElements;
    FindIs(area, ',', |area|);
    assert area[..|area|] == area;
    assert Pieces(area) == if Trim(area) == [] then [] else [Trim(area)];
    if Trim(area) != [] {
      assert [Trim(area)][1..] == [] && AllElements([]) == Some([]);
      assert AllElements([Trim(area)]) == PieceElements(Trim(area));
    }
  }

  /** In particular a range of decimal numbers. */
  lemma DecimalRange(low: nat, high: nat)
    requires low <= high
    ensures var r := AreaElements(Decimal(low) + "-" + Decimal(high));
            && r.Some? && |r.value| == high + 1 - low
            && forall i :: 0 <= i < |r.value| ==> r.value[i] == Decimal(low + i)
  {
    hide Trim, AreaElements, Decimal, Atoi;
    var l, h := Decimal(low), Decimal(high);
    DigitsOnly(l);
    DigitsOnly(h);
    DecimalReadsBack(low);
    DecimalReadsBack(high);
    RangeMeans(l, h);
  }

  lemma DigitsOnly(s: string)
    requires IsNumber(s)
    ensures '-' !in s && ',' !in s && '[' !in s && ']' !in s && Trim(s) == s
  {
    hide Trim;
    assert Trimmed(s) by { assert IsDigit(s[0]) && IsDigit(s[|s| - 1]); }
    NothingToTrimAtAll(s);
  }

  lemma NothingToTrimAtAll(s: string)
    requires Trimmed(s)
    ensures Trim(s) == s
  {
  }

  /** An area that is neither a range nor a list stands for itself. */
  lemma PlainMeans(area: string)
    requires ',' !in area && '-' !in area
    ensures AreaElements(area) == Some(if Trim(area) == [] then [] else [Trim(area)])
  {
    hide Trim;
    OnePiece(area);
    assert !IsSpace('-');
    TrimKeeps(area, '-');
    FindIs(Trim(area), '-', |Trim(area)|);
  }

  /** A list stands for what its pieces stand for, one after the other, and fails exactly if
      one of them does. */
  lemma ListMeans(piece: string, area: string)
    requires ',' !in piece
    ensures var first, others := AreaElements(piece), AreaElements(area);
            AreaElements(piece + "," + area)
            == if first == None || others == None then None else Some(first.value + others.value)
  {
    hide Trim, PieceElements;
    var all := piece + "," + area;
    FindIs(all, ',', |piece|);
    assert all[..|piece|] == piece && all[|piece| + 1..] == area;
    OnePiece(piece);
    var p := Trim(piece);
    if p == [] {
      assert [] + Pieces(area) == Pieces(area);
      if AreaElements(area).Some? {
        assert [] + AreaElements(area).value == AreaElements(area).value;
      }
    } else {
      assert ([p] + Pieces(area))[1..] == Pieces(area);
    }
  }

  // ---------------------------------------------------------------------
  // Expressions

  /** An expression without brackets stands for itself. */
  lemma TextMeans(s: string)
    requires NoBrackets(s)
    ensures Names(s) == Some([s])
  {
    FindIs(s, '[', |s|);
    FindIs(s, ']', |s|);
  }

  lemma FirstBrackets(prefix: string, area: string, suffix: string)
    requires NoBrackets(prefix) && ']' !in area
    ensures ShapeOf(prefix + "[" + area + "]" + suffix) == Opened(prefix, area + "]" + suffix)
  {
    hide Opened, Find;
    var s, rest := prefix + "[" + area + "]" + suffix, area + "]" + suffix;
    FindIs(s, '[', |prefix|);
    FindIs(s, ']', |prefix| + 1 + |area|);
    assert s[..|prefix|] == prefix && s[|prefix| + 1..] == rest;
  }

  lemma AreaOpened(prefix: string, area: string, suffix: string)
    requires ']' !in area
    ensures Opened(prefix, area + "]" + suffix)
         == if Trim(area) == [] || '[' in area || AreaElements(Trim(area)) == None then Malformed
            else Area(prefix, AreaElements(Trim(area)).value, suffix)
  {
    hide Find, Trim, AreaElements;
    var rest := area + "]" + suffix;
    FindIs(rest, ']', |area|);
    assert rest[..|area|] == area && rest[|area| + 1..] == suffix;
    assert !IsSpace('[');
    TrimKeeps(area, '[');
  }

  /** One that starts with an area, after plain text, stands for every element of the area
      between that text and every name of what follows, which is not read if there is none. */
  lemma AreaMeans(prefix: string, area: string, suffix: string)
    requires NoBrackets(prefix) && ']' !in area
    ensures var es, r := AreaElements(Trim(area)), Names(prefix + "[" + area + "]" + suffix);
            if Trim(area) == [] || '[' in area || es == None then r == None
            else if es == Some([]) then r == Some([])
            else r == match Names(suffix) case None => None case Some(names) => Some(Cross(prefix, es.value, names))
  {
    hide Trim, AreaElements, Cross, ShapeOf, Opened;
    FirstBrackets(prefix, area, suffix);
    AreaOpened(prefix, area, suffix);
  }

  /** One whose first bracket closes, or never closes, stands for nothing. */
  lemma BracketsFail(prefix: string, tail: string)
    requires NoBrackets(prefix)
    ensures Names(prefix + "]" + tail) == None
    ensures ']' !in tail ==> Names(prefix + "[" + tail) == None
  {
    hide Trim, AreaElements;
    var s := prefix + "]" + tail;
    FindIs(s, ']', |prefix|);
    if ']' !in tail {
      var u := prefix + "[" + tail;
      FindIs(u, '[', |prefix|);
      FindIs(u, ']', |u|);
      assert u[|prefix| + 1..] == tail;
      FindIs(tail, ']', |tail|);
    }
  }

  /** A host name with a range of numbers stands for as many names, in ascending order. */
  lemma HostRange(prefix: string, low: nat, high: nat, suffix: string)
    requires NoBrackets(prefix) && NoBrackets(suffix) && low <= high
    ensures var r := Names(prefix + "[" + (Decimal(low) + "-" + Decimal(high)) + "]" + suffix);
            && r.Some? && |r.value| == high + 1 - low
            && forall i :: 0 <= i < |r.value| ==> r.value[i] == prefix + Decimal(low + i) + suffix
  {
    hide Names, AreaElements, Trim, Decimal;
    var area := Decimal(low) + "-" + Decimal(high);
    DigitsOnly(Decimal(low));
    DigitsOnly(Decimal(high));
    assert Trimmed(area) by {
      assert area[0] == Decimal(low)[0] && area[|area| - 1] == Decimal(high)[|Decimal(high)| - 1];
      assert IsDigit(area[0]) && IsDigit(area[|area| - 1]);
    }
    NothingToTrimAtAll(area);
    DecimalRange(low, high);
    TextMeans(suffix);
    AreaMeans(prefix, area, suffix);
    CrossOne(prefix, AreaElements(area).value, suffix);
  }

  lemma {:induction false} CrossOne(prefix: string, es: seq<string>, suffix: string)
    ensures |Cross(prefix, es, [suffix])| == |es|
    ensures forall i :: 0 <= i < |es| ==> Cross(prefix, es, [suffix])[i] == prefix + es[i] + suffix
    decreases |es|
  {
    if es != [] {
      CrossOne(prefix, es[1..], suffix);
    }
  }
}
