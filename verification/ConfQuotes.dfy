/** Values with quotes in them: what a backslash does there, and quotes left open. */
module ConfQuotes {
  import opened Text
  import opened ConfValue

  /** What can stand between double quotes: a character as it is, the double quote or the
      backslash after a backslash, or a backslash before any other character. */
  datatype Piece = Same(c: char) | Quoted(c: char) | Kept(c: char)

  predicate IsPiece(p: Piece) {
    p.c != '\0' && (p.Quoted? <==> p.c == '"' || p.c == '\\')
  }

  /** As it is written. */
  function Raw(p: Piece): string {
    if p.Same? then [p.c] else ['\\', p.c]
  }

  /** What it stands for: only the backslash before a quote or a backslash goes. */
  function Meant(p: Piece): string {
    if p.Kept? then ['\\', p.c] else [p.c]
  }

  function AllRaw(ps: seq<Piece>): string {
    if ps == [] then [] else Raw(ps[0]) + AllRaw(ps[1..])
  }

  function AllMeant(ps: seq<Piece>): string {
    if ps == [] then [] else Meant(ps[0]) + AllMeant(ps[1..])
  }

  /** Within double quotes, with `result` read so far. */
  predicate Inside(s: Scan, result: string) {
    s.quote == Double && !s.escape && !s.comment && s.result == result
  }

  lemma ReadsPiece(s: Scan, p: Piece)
    requires Inside(s, s.result) && IsPiece(p)
    ensures Inside(ScanAll(s, Raw(p)), s.result + Meant(p)) && '\0' !in Raw(p)
  {
    hide ScanAll;
    if p.Same? {
      ScanOne(s, [p.c]);
      ScanEnds(Step(s, p.c), [p.c][1..]);
    } else {
      var s' := s.(escape := true);
      ScanOne(s, ['\\', p.c]);
      assert ['\\', p.c][1..] == [p.c];
      ScanOne(s', [p.c]);
      ScanEnds(Step(s', p.c), [p.c][1..]);
    }
  }

  lemma {:induction false} ReadsPieces(s: Scan, ps: seq<Piece>)
    requires Inside(s, s.result) && forall i :: 0 <= i < |ps| ==> IsPiece(ps[i])
    ensures Inside(ScanAll(s, AllRaw(ps)), s.result + AllMeant(ps)) && '\0' !in AllRaw(ps)
    decreases |ps|
  {
    hide ScanAll, Raw, Meant, IsPiece;
    if ps == [] {
      ScanEnds(s, []);
      assert s.result + [] == s.result;
    } else {
      ReadsPiece(s, ps[0]);
      ScanJoins(s, Raw(ps[0]), AllRaw(ps[1..]));
      ReadsPieces(ScanAll(s, Raw(ps[0])), ps[1..]);
      Associates(s.result, Meant(ps[0]), AllMeant(ps[1..]));
    }
  }

  /** Whatever stands in double quotes is read piece by piece: a backslash is dropped before
      a quote or a backslash, and kept before any other character. */
  lemma QuotedIsRead(segs: seq<Segment>, ps: seq<Piece>, more: seq<Segment>)
    requires AllWritable(segs) && AllWritable(more) && forall i :: 0 <= i < |ps| ==> IsPiece(ps[i])
    ensures Extract(AllWritten(segs) + (['"'] + AllRaw(ps) + ['"']) + AllWritten(more))
         == Some(Trim(Contents(segs) + AllMeant(ps) + Contents(more)))
  {
    hide AllWritten, Contents, AllWritable, ScanAll, IsPiece, AllRaw, AllMeant, IsSpace, BareText;
    hide TrimFront, TrimBack, TrimLeft, TrimRight;
    var front, back := TrimFront(segs), TrimBack(more);
    var middle := ['"'] + AllRaw(ps) + ['"'];
    FrontTrims(segs);
    BackTrims(more);
    assert Trimmed(middle) by { QuotesAreNoSpace(); }
    TrimAround(AllWritten(segs), middle, AllWritten(more));
    Associates(AllWritten(front), middle, AllWritten(back));
    AfterSegments(START, front, middle + AllWritten(back));
    assert "" + Contents(front) == Contents(front);
    var s := ScanAll(START, AllWritten(front));
    ReadsQuoted(s, ps);
    ScanJoins(s, middle, AllWritten(back));
    ReadsSegments(ScanAll(s, middle), back);
    TrimEnds(Contents(front), Contents(segs), AllMeant(ps), Contents(back), Contents(more));
  }

  lemma ReadsQuoted(s: Scan, ps: seq<Piece>)
    requires Ready(s, s.result) && forall i :: 0 <= i < |ps| ==> IsPiece(ps[i])
    ensures var middle := ['"'] + AllRaw(ps) + ['"'];
            Ready(ScanAll(s, middle), s.result + AllMeant(ps)) && '\0' !in middle
  {
    hide ScanAll, IsPiece, AllRaw, AllMeant;
    var s' := s.(quote := Double);
    ReadsPieces(s', ps);
    Associates(['"'], AllRaw(ps), ['"']);
    ScanOne(s, ['"'] + (AllRaw(ps) + ['"']));
    assert (['"'] + (AllRaw(ps) + ['"']))[1..] == AllRaw(ps) + ['"'];
    ScanJoins(s', AllRaw(ps), ['"']);
    var s'' := ScanAll(s', AllRaw(ps));
    ScanOne(s'', ['"']);
    ScanEnds(Step(s'', '"'), ['"'][1..]);
  }

  lemma QuotesAreNoSpace()
    ensures !IsSpace('"') && !IsSpace('\'')
  {
  }

  // ---------------------------------------------------------------------
  // Quotes left open

  lemma {:induction false} StaysOpen(s: Scan, text: string)
    requires (s.quote == Single && '\'' !in text) || (s.quote == Double && '"' !in text)
    ensures ScanAll(s, text).quote == s.quote
    decreases |text|
  {
    if !s.comment && text != [] && text[0] != '\0' {
      assert text[0] in text;
      StaysOpen(Step(s, text[0]), text[1..]);
    }
  }

  /** A quote that is not closed is refused, whatever follows it. */
  lemma OpenQuoteIsRefused(segs: seq<Segment>, q: char, rest: string)
    requires AllWritable(segs) && (q == '"' || q == '\'') && q !in rest
    ensures Extract(AllWritten(segs) + [q] + rest) == None
  {
    hide AllWritten, Contents, AllWritable, ScanAll, TrimFront, TrimLeft, TrimRight, IsSpace, BareText;
    var front, tail := TrimFront(segs), [q] + TrimRight(rest);
    FrontTrims(segs);
    assert Trimmed([q]) by { QuotesAreNoSpace(); }
    TrimAround(AllWritten(segs), [q], rest);
    Associates(AllWritten(front), [q], TrimRight(rest));
    AfterSegments(START, front, tail);
    TrimRightIsSlice(rest);
    var s := ScanAll(START, AllWritten(front));
    ScanOne(s, tail);
    assert tail[1..] == TrimRight(rest);
    StaysOpen(Step(s, q), TrimRight(rest));
  }
}
