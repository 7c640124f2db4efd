/** One `[..]` area of a simple regular expression: pieces between commas, some
    of which are ranges of numbers or of letters. */
module BracketArea {
  import opened Text

  /** The value atoi gives a string of digits. */
  function Atoi(s: string): nat
    requires forall i :: 0 <= i < |s| ==> IsDigit(s[i])
  {
    if s == [] then 0
    else
      assert IsDigit(s[|s| - 1]);
      10 * Atoi(s[..|s| - 1]) + (s[|s| - 1] as int - '0' as int)
  }

  function DigitChar(d: nat): (c: char)
    requires d < 10
    ensures IsDigit(c) && c as int - '0' as int == d
  {
    ('0' as int + d) as char
  }

  /** The decimal notation of a number, without leading zeros. */
  function Decimal(n: nat): (s: string)
    ensures s != [] && forall i :: 0 <= i < |s| ==> IsDigit(s[i])
  {
    if n < 10 then [DigitChar(n)] else Decimal(n / 10) + [DigitChar(n % 10)]
  }

  /** Every number of a range is written so that it reads back as itself. */
  lemma {:induction false} DecimalReadsBack(n: nat)
    ensures Atoi(Decimal(n)) == n && (0 < n ==> Decimal(n)[0] != '0')
  {
    if n < 10 {
      assert Decimal(n)[..0] == [];
    } else {
      DecimalReadsBack(n / 10);
      var s := Decimal(n);
      assert s[..|s| - 1] == Decimal(n / 10);
    }
  }

  predicate IsNumber(s: string) {
    s != [] && forall i :: 0 <= i < |s| ==> IsDigit(s[i])
  }

  predicate IsLetter(c: char) {
    'A' <= c <= 'Z' || 'a' <= c <= 'z'
  }

  function NumberRange(low: nat, high: nat): seq<string>
    requires low <= high + 1
    decreases high + 1 - low
  {
    if low > high then [] else [Decimal(low)] + NumberRange(low + 1, high)
  }

  function LetterRange(low: char, high: char): seq<string>
    requires high <= 'z'
    decreases high as int + 1 - low as int
  {
    if low > high then [] else [[low]] + LetterRange((low as int + 1) as char, high)
  }

  /** What one comma-separated piece of an area stands for; None if it is malformed. */
  function PieceElements(piece: string): Option<seq<string>> {
    var pos := Find(piece, '-');
    if pos == |piece| then Some([piece])
    else
      var low, high := Trim(piece[..pos]), Trim(piece[pos + 1..]);
      if low == [] || high == [] || '-' in high then None
      else if IsNumber(low) && IsNumber(high) then
        if Atoi(high) < Atoi(low) then None else Some(NumberRange(Atoi(low), Atoi(high)))
      else if |low| != 1 || |high| != 1 || !IsLetter(low[0]) || !IsLetter(high[0]) then None
      else if high[0] < low[0] || !(('a' <= low[0] && 'a' <= high[0]) || (low[0] <= 'Z' && high[0] <= 'Z')) then None
      else Some(LetterRange(low[0], high[0]))
  }

  /** The non-empty trimmed pieces between the commas of an area. */
  function Pieces(area: string): seq<string>
    decreases |area|
  {
    var pos := Find(area, ',');
    var piece := Trim(area[..pos]);
    (if piece == [] then [] else [piece]) + (if pos == |area| then [] else Pieces(area[pos + 1..]))
  }

  function AllElements(pieces: seq<string>): Option<seq<string>> {
    if pieces == [] then Some([])
    else
      match PieceElements(pieces[0])
      case None => None
      case Some(es) => After(es, AllElements(pieces[1..]))
  }

  function AreaElements(area: string): Option<seq<string>> {
    AllElements(Pieces(area))
  }

  /** A range of numbers is ascending and has no gaps. */
  lemma {:induction false} NumberRangeAscends(low: nat, high: nat)
    requires low <= high + 1
    ensures |NumberRange(low, high)| == high + 1 - low
    ensures forall i :: 0 <= i < high + 1 - low ==>
              IsNumber(NumberRange(low, high)[i]) && Atoi(NumberRange(low, high)[i]) == low + i
    decreases high + 1 - low
  {
    if low <= high {
      DecimalReadsBack(low);
      NumberRangeAscends(low + 1, high);
    }
  }

  /** So is a range of letters. */
  lemma {:induction false} LetterRangeAscends(low: char, high: char)
    requires low as int <= high as int + 1 && high <= 'z'
    ensures |LetterRange(low, high)| == high as int + 1 - low as int
    ensures forall i :: 0 <= i < high as int + 1 - low as int ==>
              LetterRange(low, high)[i] == [(low as int + i) as char]
    decreases high as int + 1 - low as int
  {
    if low <= high {
      LetterRangeAscends((low as int + 1) as char, high);
    }
  }

  // Spaces at either end of an area play no part in its pieces.

  lemma {:induction false} PiecesTrimLeft(s: string)
    ensures Pieces(TrimLeft(s)) == Pieces(s)
    decreases |s|
  {
    hide Find;
    if s != [] && IsSpace(s[0]) {
      var t := s[1..];
      var pos := Find(s, ',');
      assert s[0] != ',';
      FindIs(t, ',', pos - 1);
      assert s[..pos][1..] == t[..pos - 1];
      assert TrimLeft(s[..pos]) == TrimLeft(t[..pos - 1]);
      if pos < |s| {
        assert s[pos + 1..] == t[pos..];
      }
      PiecesTrimLeft(t);
    }
  }

  lemma {:induction false} TrimDropsLast(s: string)
    requires s != [] && IsSpace(s[|s| - 1])
    ensures Trim(s) == Trim(s[..|s| - 1])
  {
    if IsSpace(s[0]) {
      if |s| > 1 {
        assert s[1..][..|s| - 2] == s[..|s| - 1][1..];
        TrimDropsLast(s[1..]);
      }
    } else {
      assert TrimLeft(s) == s && TrimLeft(s[..|s| - 1]) == s[..|s| - 1];
    }
  }

  lemma SlicesDropLast(s: string, pos: nat)
    requires pos + 1 < |s|
    ensures var t, u := s[..|s| - 1], s[pos + 1..];
            s[..pos] == t[..pos] && u[..|u| - 1] == t[pos + 1..] && u[|u| - 1] == s[|s| - 1]
  {
  }

  lemma {:induction false} PiecesDropLast(s: string)
    requires s != [] && IsSpace(s[|s| - 1])
    ensures Pieces(s) == Pieces(s[..|s| - 1])
    decreases |s|
  {
    hide Find, Trim, IsSpace;
    var t := s[..|s| - 1];
    var pos := Find(s, ',');
    SpaceIsNoComma();
    if pos == |s| {
      FindIs(t, ',', |t|);
      TrimDropsLast(s);
      assert s[..pos] == s && t[..|t|] == t;
    } else {
      FindIs(t, ',', pos);
      SlicesDropLast(s, pos);
      PiecesDropLast(s[pos + 1..]);
    }
  }

  lemma SpaceIsNoComma()
    ensures !IsSpace(',')
  {
  }

  lemma {:induction false} PiecesTrimRight(s: string)
    ensures Pieces(TrimRight(s)) == Pieces(s)
    decreases |s|
  {
    if s != [] && IsSpace(s[|s| - 1]) {
      PiecesDropLast(s);
      PiecesTrimRight(s[..|s| - 1]);
    }
  }

  lemma PiecesTrim(s: string)
    ensures Pieces(Trim(s)) == Pieces(s)
  {
    PiecesTrimLeft(s);
    PiecesTrimRight(TrimLeft(s));
  }

  lemma NoPieces()
    ensures Pieces([]) == []
  {
  }

  lemma LastPiece(target: string)
    requires ',' !in target && target != [] && Trimmed(target)
    ensures Pieces(target) == [target]
  {
    FindIs(target, ',', |target|);
    assert target[..|target|] == target;
    var t := Trim(target);
    assert Pieces(target) == [t] + [];
  }

  /** Cutting the first piece off loses nothing. */
  lemma CutPiece(done: seq<string>, target: string, piece: string, rest: string)
    requires ',' in target
    requires piece == Trim(target[..Find(target, ',')])
    requires rest == Trim(target[Find(target, ',') + 1..])
    ensures Trimmed(rest) && |rest| < |target|
    ensures done + Pieces(target) == (if piece == [] then done else done + [piece]) + Pieces(rest)
  {
    var raw := target[Find(target, ',') + 1..];
    PiecesTrim(raw);
    TrimTrims(raw);
    TrimShrinks(raw);
    if piece == [] {
      assert [] + Pieces(rest) == Pieces(rest);
    } else {
      Append(done, [piece], Pieces(rest));
    }
  }

  lemma Append<T>(done: seq<T>, more: seq<T>, rest: seq<T>)
    ensures done + (more + rest) == done + more + rest
  {
  }

  /** The first loop over an area: cut it at its commas. */
  method SplitArea(area: string) returns (pieces: seq<string>)
    ensures pieces == Pieces(area)
  {
    hide Find, Trim, Pieces;
    pieces := [];
    var target := Trim(area);
    PiecesTrim(area);
    TrimTrims(area);
    NoPieces();
    while target != []
      invariant Trimmed(target)
      invariant pieces + Pieces(target) == Pieces(area)
      decreases |target|
    {
      var pos := Find(target, ',');
      if pos == |target| {
        LastPiece(target);
        NoPieces();
        pieces := pieces + [target];
        target := [];
      } else {
        var piece, rest := Trim(target[..pos]), Trim(target[pos + 1..]);
        CutPiece(pieces, target, piece, rest);
        if piece != [] {
          pieces := pieces + [piece];
        }
        target := rest;
      }
    }
  }

  /** The loop over a range of numbers. */
  method ExpandNumbers(first: nat, last: nat) returns (out: seq<string>)
    requires first <= last
    ensures out == NumberRange(first, last)
  {
    out := [];
    var num := first;
    while num <= last
      invariant num <= last + 1
      invariant out + NumberRange(num, last) == NumberRange(first, last)
    {
      out := out + [Decimal(num)];
      num := num + 1;
    }
  }

  /** The loop over a range of letters. */
  method ExpandLetters(first: char, last: char) returns (out: seq<string>)
    requires first <= last <= 'z'
    ensures out == LetterRange(first, last)
  {
    out := [];
    var c := first;
    while c <= last
      invariant c as int <= last as int + 1
      invariant out + LetterRange(c, last) == LetterRange(first, last)
      decreases last as int + 1 - c as int
    {
      out := out + [[c]];
      c := (c as int + 1) as char;
    }
  }

  /** The body of the second loop: one piece, which may be a range. */
  method ExpandPiece(piece: string) returns (r: Option<seq<string>>)
    ensures r == PieceElements(piece)
  {
    hide Find, Trim, Atoi, NumberRange, LetterRange;
    var pos := Find(piece, '-');
    if pos == |piece| {
      return Some([piece]);
    }
    var low, high := Trim(piece[..pos]), Trim(piece[pos + 1..]);
    if low == [] || high == [] || '-' in high {
      return None;
    }
    var out;
    if IsNumber(low) && IsNumber(high) {
      if Atoi(high) < Atoi(low) {
        return None;
      }
      out := ExpandNumbers(Atoi(low), Atoi(high));
    } else {
      if |low| != 1 || |high| != 1 || !IsLetter(low[0]) || !IsLetter(high[0]) {
        return None;
      }
      var c1, c2 := low[0], high[0];
      if c2 < c1 || !(('a' <= c1 && 'a' <= c2) || (c1 <= 'Z' && c2 <= 'Z')) {
        return None;
      }
      out := ExpandLetters(c1, c2);
    }
    return Some(out);
  }

  /** A list followed by what is still to come, if that does not fail. */
  function After(done: seq<string>, rest: Option<seq<string>>): (r: Option<seq<string>>)
    ensures done == [] ==> r == rest
    ensures rest == Some([]) ==> r == Some(done)
  {
    match rest
    case None => None
    case Some(es) =>
      assert done == [] ==> done + es == es;
      assert es == [] ==> done + es == done;
      Some(done + es)
  }

  lemma AfterMore(done: seq<string>, more: seq<string>, rest: Option<seq<string>>)
    ensures After(done, After(more, rest)) == After(done + more, rest)
  {
    if rest.Some? {
      Append(done, more, rest.value);
    }
  }

  /** All names one bracket area stands for. */
  method ExpandArea(area: string) returns (r: Option<seq<string>>)
    ensures r == AreaElements(area)
  {
    hide PieceElements;
    var pieces := SplitArea(area);
    var out: seq<string> := [];
    var i := 0;
    ghost var all := AllElements(pieces);
    assert pieces[0..] == pieces;
    while i < |pieces|
      invariant i <= |pieces|
      invariant all == After(out, AllElements(pieces[i..]))
    {
      var es := ExpandPiece(pieces[i]);
      assert pieces[i..][0] == pieces[i] && pieces[i..][1..] == pieces[i + 1..];
      if es == None {
        return None;
      }
      AfterMore(out, es.value, AllElements(pieces[i + 1..]));
      out := out + es.value;
      i := i + 1;
    }
    assert pieces[i..] == [];
    return Some(out);
  }

  // ---------------------------------------------------------------------
  // Areas bring no brackets into a name

  predicate NoBrackets(s: string) {
    '[' !in s && ']' !in s
  }

  lemma {:induction false} PiecesKeepOut(area: string, c: char)
    requires !IsSpace(c) && c !in area
    ensures forall i :: 0 <= i < |Pieces(area)| ==> c !in Pieces(area)[i]
    decreases |area|
  {
    var pos := Find(area, ',');
    TrimKeeps(area[..pos], c);
    if pos < |area| {
      PiecesKeepOut(area[pos + 1..], c);
    }
  }

  lemma PieceElementsHaveNoBrackets(piece: string)
    requires NoBrackets(piece) && PieceElements(piece).Some?
    ensures forall e :: e in PieceElements(piece).value ==> NoBrackets(e)
  {
    hide Find, Trim, Atoi, NumberRange, LetterRange;
    var pos := Find(piece, '-');
    if pos < |piece| {
      var low, high := Trim(piece[..pos]), Trim(piece[pos + 1..]);
      if IsNumber(low) && IsNumber(high) {
        NumberRangeAscends(Atoi(low), Atoi(high));
      } else {
        LetterRangeAscends(low[0], high[0]);
      }
    }
  }

  lemma {:induction false} AllElementsHaveNoBrackets(pieces: seq<string>)
    requires AllElements(pieces).Some?
    requires forall i :: 0 <= i < |pieces| ==> NoBrackets(pieces[i])
    ensures forall e :: e in AllElements(pieces).value ==> NoBrackets(e)
  {
    if pieces != [] {
      PieceElementsHaveNoBrackets(pieces[0]);
      AllElementsHaveNoBrackets(pieces[1..]);
    }
  }

  lemma ElementsHaveNoBrackets(area: string)
    requires NoBrackets(area) && AreaElements(area).Some?
    ensures forall e :: e in AreaElements(area).value ==> NoBrackets(e)
  {
    PiecesKeepOut(area, '[');
    PiecesKeepOut(area, ']');
    AllElementsHaveNoBrackets(Pieces(area));
  }
}
