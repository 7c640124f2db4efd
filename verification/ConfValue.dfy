/** Reading a value of an INI file: quotes, escapes and comments. */
module ConfValue {
  import opened Text

  datatype Quote = Plain | Single | Double

  /** How far a value has been read. */
  datatype Scan = Scan(quote: Quote, escape: bool, beforeSpace: bool, result: string, comment: bool)

  const START := Scan(Plain, false, false, "", false)

  /** A character inside double quotes: only the quote and the backslash can be escaped. */
  function StepDouble(s: Scan, c: char): Scan {
    if c == '"' then
      if s.escape then s.(result := s.result + [c], escape := false) else s.(quote := Plain)
    else if c == '\\' then
      if s.escape then s.(result := s.result + [c], escape := false) else s.(escape := true)
    else s.(result := s.result + (if s.escape then ['\\', c] else [c]), escape := false)
  }

  /** A character outside quotes. */
  function StepPlain(s: Scan, c: char): Scan {
    if c == '"' then
      if s.escape then s.(result := s.result + [c], escape := false) else s.(quote := Double)
    else if c == '\'' then
      if s.escape then s.(result := s.result + [c], escape := false) else s.(quote := Single)
    else if c == '#' then
      if s.beforeSpace then s.(comment := true) else s.(result := s.result + [c])
    else if c == '\\' then
      if s.escape then s.(result := s.result + [c], escape := false) else s.(escape := true)
    else s.(result := s.result + [c], beforeSpace := IsSpace(c), escape := false)
  }

  function StepSingle(s: Scan, c: char): Scan {
    if c == '\'' then s.(quote := Plain) else s.(result := s.result + [c])
  }

  function Step(s: Scan, c: char): Scan {
    match s.quote
    case Single => StepSingle(s, c)
    case Double => StepDouble(s, c)
    case Plain => StepPlain(s, c)
  }

  /** Reading goes on to the end of the text, a NUL or a comment. */
  function ScanAll(s: Scan, text: string): Scan
    decreases |text|
  {
    if s.comment || text == [] || text[0] == '\0' then s else ScanAll(Step(s, text[0]), text[1..])
  }

  /** The value; None if a quote or an escape is left open. */
  function Extract(value: string): Option<string> {
    var s := ScanAll(START, Trim(value));
    if s.quote != Plain || s.escape then None else Some(Trim(s.result))
  }

  method ExtractConfValue(value: string) returns (ok: bool, r: string)
    ensures match Extract(value)
            case None => !ok && r == Trim(value)
            case Some(v) => ok && r == v
  {
    hide ScanAll, Trim, IsSpace;
    r := Trim(value);
    var result, quote, escape, beforeSpace, comment := "", Plain, false, false, false;
    var i := 0;
    assert r[0..] == r;
    while i < |r| && r[i] != '\0' && !comment
      invariant 0 <= i <= |r|
      invariant ScanAll(Scan(quote, escape, beforeSpace, result, comment), r[i..]) == ScanAll(START, r)
      decreases |r| - i
    {
      ScanOne(Scan(quote, escape, beforeSpace, result, comment), r[i..]);
      assert r[i..][1..] == r[i + 1..];
      var c := r[i];
      if quote == Single {
        if c == '\'' {
          quote := Plain;
        } else {
          result := result + [c];
        }
      } else if quote == Double {
        if c == '"' {
          if escape {
            result, escape := result + [c], false;
          } else {
            quote := Plain;
          }
        } else if c == '\\' {
          if escape {
            result, escape := result + [c], false;
          } else {
            escape := true;
          }
        } else {
          if escape {
            assert result + ['\\'] + [c] == result + ['\\', c];
            result, escape := result + ['\\'], false;
          }
          result := result + [c];
        }
      } else {
        if c == '"' {
          if escape {
            result, escape := result + [c], false;
          } else {
            quote := Double;
          }
        } else if c == '\'' {
          if escape {
            result, escape := result + [c], false;
          } else {
            quote := Single;
          }
        } else if c == '#' {
          if !beforeSpace {
            result := result + [c];
          } else {
            comment := true;
          }
        } else if c == '\\' {
          if escape {
            result, escape := result + [c], false;
          } else {
            escape := true;
          }
        } else {
          result, beforeSpace, escape := result + [c], IsSpace(c), false;
        }
      }
      i := i + 1;
    }
    ScanEnds(Scan(quote, escape, beforeSpace, result, comment), r[i..]);
    if quote != Plain || escape {
      return false, r;
    }
    return true, Trim(result);
  }

  lemma ScanOne(s: Scan, text: string)
    requires !s.comment && text != [] && text[0] != '\0'
    ensures ScanAll(s, text) == ScanAll(Step(s, text[0]), text[1..])
  {
  }

  lemma ScanEnds(s: Scan, text: string)
    requires s.comment || text == [] || text[0] == '\0'
    ensures ScanAll(s, text) == s
  {
  }

  // ---------------------------------------------------------------------
  // Writing a value so that it is read back

  datatype Segment = Bare(text: string) | InSingle(text: string) | InDouble(text: string)

  /** The text with the double quote and the backslash escaped. */
  function Escaped(text: string): string {
    if text == [] then []
    else (if text[0] == '"' || text[0] == '\\' then ['\\', text[0]] else [text[0]]) + Escaped(text[1..])
  }

  function Written(seg: Segment): string {
    match seg
    case Bare(text) => text
    case InSingle(text) => ['\''] + text + ['\'']
    case InDouble(text) => ['"'] + Escaped(text) + ['"']
  }

  function AllWritten(segs: seq<Segment>): string {
    if segs == [] then [] else Written(segs[0]) + AllWritten(segs[1..])
  }

  function Contents(segs: seq<Segment>): string {
    if segs == [] then [] else segs[0].text + Contents(segs[1..])
  }

  /** What can be written: anything in double quotes, anything but the single quote in
      single quotes, and without quotes what has no special character. */
  predicate Writable(seg: Segment) {
    && '\0' !in seg.text
    && (seg.InSingle? ==> '\'' !in seg.text)
    && (seg.Bare? ==> '"' !in seg.text && '\'' !in seg.text && '\\' !in seg.text && '#' !in seg.text)
  }

  predicate AllWritable(segs: seq<Segment>) {
    forall i :: 0 <= i < |segs| ==> Writable(segs[i])
  }

  lemma {:induction false} ScanJoins(s: Scan, a: string, b: string)
    requires '\0' !in a
    ensures ScanAll(s, a + b) == ScanAll(ScanAll(s, a), b)
    decreases |a|
  {
    if a == [] {
      assert a + b == b;
    } else if !s.comment {
      assert (a + b)[0] == a[0] && (a + b)[1..] == a[1..] + b;
      ScanJoins(Step(s, a[0]), a[1..], b);
    }
  }

  /** Ready to read the next segment, with `result` read so far. */
  predicate Ready(s: Scan, result: string) {
    s.quote == Plain && !s.escape && !s.comment && s.result == result
  }

  lemma {:induction false} ReadsSingle(s: Scan, text: string)
    requires s.quote == Single && !s.comment && '\'' !in text && '\0' !in text
    ensures ScanAll(s, text) == s.(result := s.result + text)
    decreases |text|
  {
    if text == [] {
      assert s.result + text == s.result;
    } else {
      ReadsSingle(Step(s, text[0]), text[1..]);
      assert s.result + [text[0]] + text[1..] == s.result + text;
    }
  }

  lemma ReadsOneInDouble(s: Scan, c: char)
    requires s.quote == Double && !s.comment && !s.escape && c != '\0'
    ensures ScanAll(s, if c == '"' || c == '\\' then ['\\', c] else [c]) == s.(result := s.result + [c])
  {
    hide ScanAll;
    if c == '"' || c == '\\' {
      ScanOne(s, ['\\', c]);
      assert ['\\', c][1..] == [c];
      ScanOne(s.(escape := true), [c]);
    } else {
      ScanOne(s, [c]);
    }
    assert [c][1..] == [];
    ScanEnds(s.(result := s.result + [c]), []);
  }

  lemma {:induction false} ReadsDouble(s: Scan, text: string)
    requires s.quote == Double && !s.comment && !s.escape && '\0' !in text
    ensures ScanAll(s, Escaped(text)) == s.(result := s.result + text)
    ensures '\0' !in Escaped(text)
    decreases |text|
  {
    if text == [] {
      assert s.result + text == s.result;
    } else {
      var c := text[0];
      var one := if c == '"' || c == '\\' then ['\\', c] else [c];
      var s' := s.(result := s.result + [c]);
      ReadsOneInDouble(s, c);
      ScanJoins(s, one, Escaped(text[1..]));
      ReadsDouble(s', text[1..]);
      assert s.result + [c] + text[1..] == s.result + text;
    }
  }

  lemma {:induction false} ReadsBare(s: Scan, text: string)
    requires Ready(s, s.result) && Writable(Bare(text))
    ensures Ready(ScanAll(s, text), s.result + text)
    decreases |text|
  {
    if text == [] {
      assert s.result + text == s.result;
    } else {
      assert text[0] in text;
      ReadsBare(Step(s, text[0]), text[1..]);
      assert s.result + [text[0]] + text[1..] == s.result + text;
    }
  }

  lemma ReadsSegment(s: Scan, seg: Segment)
    requires Ready(s, s.result) && Writable(seg)
    ensures Ready(ScanAll(s, Written(seg)), s.result + seg.text) && '\0' !in Written(seg)
  {
    var q := if seg.InDouble? then '"' else '\'';
    assert [q][1..] == [];
    match seg
    case Bare(text) =>
      ReadsBare(s, text);
    case InSingle(text) =>
      ScanJoins(s, [q] + text, [q]);
      ScanJoins(s, [q], text);
      ReadsSingle(s.(quote := Single), text);
    case InDouble(text) =>
      ReadsDouble(s.(quote := Double), text);
      ScanJoins(s, [q] + Escaped(text), [q]);
      ScanJoins(s, [q], Escaped(text));
  }

  lemma {:induction false} ReadsSegments(s: Scan, segs: seq<Segment>)
    requires Ready(s, s.result) && AllWritable(segs)
    ensures Ready(ScanAll(s, AllWritten(segs)), s.result + Contents(segs)) && '\0' !in AllWritten(segs)
    decreases |segs|
  {
    hide Written, Writable, ScanAll;
    if segs == [] {
      assert s.result + [] == s.result;
      ScanEnds(s, []);
    } else {
      var s' := ScanAll(s, Written(segs[0]));
      ReadsSegment(s, segs[0]);
      ScanJoins(s, Written(segs[0]), AllWritten(segs[1..]));
      ReadsSegments(s', segs[1..]);
      Associates(s.result, segs[0].text, Contents(segs[1..]));
    }
  }

  // ---------------------------------------------------------------------
  // Spaces at the ends of what is written

  function TrimFront(segs: seq<Segment>): seq<Segment> {
    if segs == [] || !segs[0].Bare? then segs
    else
      var text := TrimLeft(segs[0].text);
      if text == [] then TrimFront(segs[1..]) else [Bare(text)] + segs[1..]
  }

  function TrimBack(segs: seq<Segment>): seq<Segment> {
    if segs == [] || !segs[|segs| - 1].Bare? then segs
    else
      var init, text := segs[..|segs| - 1], TrimRight(segs[|segs| - 1].text);
      if text == [] then TrimBack(init) else init + [Bare(text)]
  }

  lemma LeftStaysWritable(text: string)
    requires Writable(Bare(text))
    ensures Writable(Bare(TrimLeft(text))) && Writable(Bare(TrimRight(text)))
  {
    TrimLeftIsSlice(text);
    TrimRightIsSlice(text);
  }

  lemma {:induction false} FrontTrims(segs: seq<Segment>)
    requires AllWritable(segs)
    ensures AllWritable(TrimFront(segs)) && AllWritten(TrimFront(segs)) == TrimLeft(AllWritten(segs))
    ensures TrimLeft(Contents(TrimFront(segs))) == TrimLeft(Contents(segs))
    decreases |segs|
  {
    hide Writable;
    if segs != [] && segs[0].Bare? {
      LeftStaysWritable(segs[0].text);
      TrimLeftJoins(segs[0].text, AllWritten(segs[1..]));
      TrimLeftJoins(segs[0].text, Contents(segs[1..]));
      FrontTrims(segs[1..]);
      if TrimLeft(segs[0].text) != [] {
        assert ([Bare(TrimLeft(segs[0].text))] + segs[1..])[1..] == segs[1..];
      }
    }
  }

  lemma {:induction false} WrittenJoins(segs: seq<Segment>, more: seq<Segment>)
    ensures AllWritten(segs + more) == AllWritten(segs) + AllWritten(more)
    ensures Contents(segs + more) == Contents(segs) + Contents(more)
    decreases |segs|
  {
    hide Written;
    if segs == [] {
      assert [] + more == more;
    } else {
      assert (segs + more)[1..] == segs[1..] + more;
      WrittenJoins(segs[1..], more);
      Associates(Written(segs[0]), AllWritten(segs[1..]), AllWritten(more));
      Associates(segs[0].text, Contents(segs[1..]), Contents(more));
    }
  }

  lemma OneWritten(seg: Segment)
    ensures AllWritten([seg]) == Written(seg) && Contents([seg]) == seg.text
  {
    assert [seg][1..] == [];
  }

  lemma {:induction false} BackTrims(segs: seq<Segment>)
    requires AllWritable(segs)
    ensures AllWritable(TrimBack(segs)) && AllWritten(TrimBack(segs)) == TrimRight(AllWritten(segs))
    ensures TrimRight(Contents(TrimBack(segs))) == TrimRight(Contents(segs))
    decreases |segs|
  {
    hide AllWritten, Contents, Writable, TrimRight;
    if segs == [] {
      assert AllWritten([]) == [] && Contents([]) == [] by { NothingWritten(); }
      TrimRightNothing();
    } else {
      var init, last := segs[..|segs| - 1], segs[|segs| - 1];
      assert segs == init + [last];
      WrittenJoins(init, [last]);
      OneWritten(last);
      if last.Bare? {
        LeftStaysWritable(last.text);
        TrimRightJoins(AllWritten(init), last.text);
        TrimRightJoins(Contents(init), last.text);
        BackTrims(init);
        WrittenJoins(init, [Bare(TrimRight(last.text))]);
        OneWritten(Bare(TrimRight(last.text)));
      } else {
        EndsInQuote(AllWritten(init), last);
      }
    }
  }

  lemma NothingWritten()
    ensures AllWritten([]) == [] && Contents([]) == []
  {
  }

  lemma TrimRightNothing()
    ensures TrimRight([]) == []
  {
  }

  lemma EndsInQuote(before: string, seg: Segment)
    requires !seg.Bare?
    ensures TrimRight(before + Written(seg)) == before + Written(seg)
  {
    hide Escaped;
  }

  /** Reading undoes writing, up to spaces at the ends: a quoted `#` starts no comment. */
  lemma ExtractUndoesWriting(segs: seq<Segment>)
    requires AllWritable(segs)
    ensures Extract(AllWritten(segs)) == Some(Trim(Contents(segs)))
  {
    hide AllWritten, Contents, AllWritable, ScanAll, TrimFront, TrimBack, TrimLeft, TrimRight;
    var front := TrimFront(segs);
    FrontTrims(segs);
    BackTrims(front);
    ReadsSegments(START, TrimBack(front));
    assert "" + Contents(TrimBack(front)) == Contents(TrimBack(front));
    TrimEitherWay(Contents(TrimBack(front)));
    TrimEitherWay(Contents(front));
  }

  // ---------------------------------------------------------------------
  // Where a comment starts

  /** The text outside quotes. */
  function BareText(segs: seq<Segment>): string {
    if segs == [] then [] else (if segs[0].Bare? then segs[0].text else []) + BareText(segs[1..])
  }

  predicate EndsInSpace(text: string) {
    text != [] && IsSpace(text[|text| - 1])
  }

  /** Whether the last character outside quotes is a space, where `s` has read before. */
  predicate SpaceAfter(s: Scan, bare: string) {
    if bare == [] then s.beforeSpace else EndsInSpace(bare)
  }

  lemma {:induction false} BareSpace(s: Scan, text: string)
    requires Ready(s, s.result) && Writable(Bare(text))
    ensures ScanAll(s, text).beforeSpace == SpaceAfter(s, text)
    decreases |text|
  {
    if text != [] {
      assert text[0] in text;
      BareSpace(Step(s, text[0]), text[1..]);
    }
  }

  lemma SegmentSpace(s: Scan, seg: Segment)
    requires Ready(s, s.result) && Writable(seg)
    ensures ScanAll(s, Written(seg)).beforeSpace == SpaceAfter(s, if seg.Bare? then seg.text else [])
  {
    var q := if seg.InDouble? then '"' else '\'';
    assert [q][1..] == [];
    match seg
    case Bare(text) =>
      BareSpace(s, text);
    case InSingle(text) =>
      ScanJoins(s, [q] + text, [q]);
      ScanJoins(s, [q], text);
      ReadsSingle(s.(quote := Single), text);
    case InDouble(text) =>
      ReadsDouble(s.(quote := Double), text);
      ScanJoins(s, [q] + Escaped(text), [q]);
      ScanJoins(s, [q], Escaped(text));
  }

  lemma {:induction false} SegmentsSpace(s: Scan, segs: seq<Segment>)
    requires Ready(s, s.result) && AllWritable(segs)
    ensures ScanAll(s, AllWritten(segs)).beforeSpace == SpaceAfter(s, BareText(segs))
    decreases |segs|
  {
    hide Written, Writable, ScanAll, IsSpace;
    if segs == [] {
      ScanEnds(s, []);
    } else {
      ReadsSegment(s, segs[0]);
      SegmentSpace(s, segs[0]);
      ScanJoins(s, Written(segs[0]), AllWritten(segs[1..]));
      SegmentsSpace(ScanAll(s, Written(segs[0])), segs[1..]);
    }
  }

  /** Where reading stands after segments. */
  lemma AfterSegments(s: Scan, segs: seq<Segment>, rest: string)
    requires Ready(s, s.result) && AllWritable(segs)
    ensures ScanAll(s, AllWritten(segs) + rest) == ScanAll(ScanAll(s, AllWritten(segs)), rest)
    ensures ScanAll(s, AllWritten(segs))
         == Scan(Plain, false, SpaceAfter(s, BareText(segs)), s.result + Contents(segs), false)
  {
    hide AllWritten, Contents, AllWritable, ScanAll, IsSpace, BareText;
    ReadsSegments(s, segs);
    SegmentsSpace(s, segs);
    ScanJoins(s, AllWritten(segs), rest);
  }

  /** A `#` outside quotes starts a comment exactly if the last character outside quotes
      is a space, whatever stands in quotes between; otherwise it is part of the value. */
  lemma HashStartsComment(segs: seq<Segment>)
    requires AllWritable(segs)
    ensures var s := ScanAll(START, AllWritten(segs) + "#");
            && (s.comment <==> EndsInSpace(BareText(segs)))
            && s.result == Contents(segs) + (if s.comment then "" else "#")
  {
    hide AllWritten, Contents, AllWritable, ScanAll, IsSpace, BareText;
    AfterSegments(START, segs, "#");
    assert "" + Contents(segs) == Contents(segs) == Contents(segs) + "";
    ScanOne(ScanAll(START, AllWritten(segs)), "#");
    assert "#"[1..] == "";
    ScanEnds(Step(ScanAll(START, AllWritten(segs)), '#'), "");
  }

  /** After such a `#` nothing counts. */
  lemma CommentIsIgnored(segs: seq<Segment>, rest: string)
    requires AllWritable(segs) && EndsInSpace(BareText(TrimFront(segs)))
    ensures Extract(AllWritten(segs) + "#" + rest) == Some(Trim(Contents(segs)))
  {
    hide AllWritten, Contents, AllWritable, ScanAll, IsSpace, BareText, TrimFront, TrimLeft, TrimRight;
    var front, tail := TrimFront(segs), "#" + TrimRight(rest);
    FrontTrims(segs);
    assert Trimmed("#") by { NoSpaces(); }
    TrimAround(AllWritten(segs), "#", rest);
    Associates(AllWritten(front), "#", TrimRight(rest));
    AfterSegments(START, front, tail);
    assert "" + Contents(front) == Contents(front);
    ScanOne(ScanAll(START, AllWritten(front)), tail);
    ScanEnds(Step(ScanAll(START, AllWritten(front)), '#'), tail[1..]);
  }

  /** Any other `#` outside quotes is read as it stands. */
  lemma HashIsRead(segs: seq<Segment>, more: seq<Segment>)
    requires AllWritable(segs) && AllWritable(more) && !EndsInSpace(BareText(TrimFront(segs)))
    ensures Extract(AllWritten(segs) + "#" + AllWritten(more)) == Some(Trim(Contents(segs) + "#" + Contents(more)))
  {
    hide AllWritten, Contents, AllWritable, ScanAll, IsSpace, BareText, TrimFront, TrimBack, TrimLeft, TrimRight;
    var front, back := TrimFront(segs), TrimBack(more);
    var tail := "#" + AllWritten(back);
    FrontTrims(segs);
    BackTrims(more);
    assert Trimmed("#") by { NoSpaces(); }
    TrimAround(AllWritten(segs), "#", AllWritten(more));
    Associates(AllWritten(front), "#", AllWritten(back));
    AfterSegments(START, front, tail);
    assert "" + Contents(front) == Contents(front);
    ScanOne(ScanAll(START, AllWritten(front)), tail);
    assert tail[1..] == AllWritten(back);
    ReadsSegments(Step(ScanAll(START, AllWritten(front)), '#'), back);
    TrimEnds(Contents(front), Contents(segs), "#", Contents(back), Contents(more));
  }

  lemma NoSpaces()
    ensures !IsSpace('#') && !IsSpace('\\')
  {
  }

  // ---------------------------------------------------------------------
  // A backslash before `#`

  function Hashes(n: nat): string {
    if n == 0 then [] else ['#'] + Hashes(n - 1)
  }

  lemma {:induction false} HashesEnd(n: nat)
    ensures |Hashes(n)| == n && '\0' !in Hashes(n)
    ensures Trimmed(['\\'] + Hashes(n)) && (0 < n ==> Hashes(n)[n - 1] == '#')
  {
    if 0 < n {
      HashesEnd(n - 1);
    }
  }

  /** The escape stays pending past any number of `#`. */
  lemma {:induction false} PendingPastHashes(s: Scan, n: nat)
    requires s.quote == Plain && s.escape && !s.beforeSpace && !s.comment
    ensures ScanAll(s, Hashes(n)) == s.(result := s.result + Hashes(n))
    decreases n
  {
    if n == 0 {
      assert s.result + [] == s.result;
    } else {
      assert Hashes(n)[1..] == Hashes(n - 1);
      PendingPastHashes(s.(result := s.result + ['#']), n - 1);
      Associates(s.result, ['#'], Hashes(n - 1));
    }
  }

  lemma AfterPending(front: seq<Segment>, n: nat, rest: string)
    requires AllWritable(front) && !EndsInSpace(BareText(front))
    ensures ScanAll(START, AllWritten(front) + (['\\'] + Hashes(n)) + rest)
         == ScanAll(Scan(Plain, true, false, Contents(front) + Hashes(n), false), rest)
  {
    hide AllWritten, Contents, AllWritable, ScanAll, IsSpace, BareText;
    var tail := ['\\'] + (Hashes(n) + rest);
    assert AllWritten(front) + (['\\'] + Hashes(n)) + rest == AllWritten(front) + tail;
    AfterSegments(START, front, tail);
    assert "" + Contents(front) == Contents(front);
    var s := ScanAll(START, AllWritten(front));
    ScanOne(s, tail);
    assert tail[1..] == Hashes(n) + rest;
    HashesEnd(n);
    ScanJoins(s.(escape := true), Hashes(n), rest);
    PendingPastHashes(s.(escape := true), n);
  }

  /** A value that ends after a backslash and any number of `#` is rejected. */
  lemma PendingAtEnd(segs: seq<Segment>, n: nat, rest: string)
    requires AllWritable(segs) && !EndsInSpace(BareText(TrimFront(segs)))
    requires TrimRight(rest) == [] || TrimRight(rest)[0] == '\0'
    ensures Extract(AllWritten(segs) + (['\\'] + Hashes(n)) + rest) == None
  {
    hide AllWritten, Contents, AllWritable, ScanAll, IsSpace, BareText, TrimFront, TrimLeft, TrimRight;
    var front := TrimFront(segs);
    FrontTrims(segs);
    HashesEnd(n);
    TrimAround(AllWritten(segs), ['\\'] + Hashes(n), rest);
    AfterPending(front, n, TrimRight(rest));
    ScanEnds(Scan(Plain, true, false, Contents(front) + Hashes(n), false), TrimRight(rest));
  }

  /** One that goes on is accepted, whatever comes next: the backslash is dropped and the
      next character taken as it stands. */
  lemma PendingIsDropped(segs: seq<Segment>, n: nat, c: char, more: seq<Segment>)
    requires AllWritable(segs) && !EndsInSpace(BareText(TrimFront(segs))) && AllWritable(more)
    requires c != '#' && c != '\0' && TrimRight([c] + AllWritten(more)) != []
    ensures Extract(AllWritten(segs) + (['\\'] + Hashes(n)) + ([c] + AllWritten(more)))
         == Some(Trim(Contents(segs) + (Hashes(n) + [c]) + Contents(more)))
  {
    hide AllWritten, Contents, AllWritable, ScanAll, IsSpace, BareText, TrimFront, TrimBack, TrimLeft, TrimRight;
    var front, back := TrimFront(segs), TrimBack(more);
    var middle, rest := ['\\'] + Hashes(n), [c] + AllWritten(more);
    FrontTrims(segs);
    BackTrims(more);
    HashesEnd(n);
    TrimAround(AllWritten(segs), middle, rest);
    NextStays(c, AllWritten(more));
    AfterPending(front, n, [c] + AllWritten(back));
    var s := Scan(Plain, true, false, Contents(front) + Hashes(n), false);
    ScanOne(s, [c] + AllWritten(back));
    assert ([c] + AllWritten(back))[1..] == AllWritten(back);
    ReadsSegments(Step(s, c), back);
    Associates(Contents(front), Hashes(n), [c]);
    TrimEnds(Contents(front), Contents(segs), Hashes(n) + [c], Contents(back), Contents(more));
  }

  lemma NextStays(c: char, text: string)
    requires TrimRight([c] + text) != []
    ensures TrimRight([c] + text) == [c] + TrimRight(text)
  {
    TrimRightJoins([c], text);
    if TrimRight(text) == [] {
      assert [c][..0] == [];
      assert [c] + [] == [c];
    }
  }

  /** After a space outside quotes the `#` starts a comment all the same, and leaves the
      escape open. */
  lemma EscapedComment(segs: seq<Segment>, rest: string)
    requires AllWritable(segs) && EndsInSpace(BareText(TrimFront(segs)))
    ensures Extract(AllWritten(segs) + "\\#" + rest) == None
  {
    hide AllWritten, Contents, AllWritable, ScanAll, IsSpace, BareText, TrimFront, TrimLeft, TrimRight;
    var front, tail := TrimFront(segs), "\\#" + TrimRight(rest);
    FrontTrims(segs);
    assert Trimmed("\\#") by { NoSpaces(); }
    TrimAround(AllWritten(segs), "\\#", rest);
    Associates(AllWritten(front), "\\#", TrimRight(rest));
    AfterSegments(START, front, tail);
    var s := ScanAll(START, AllWritten(front));
    ScanOne(s, tail);
    ScanOne(s.(escape := true), tail[1..]);
    ScanEnds(s.(escape := true, comment := true), tail[1..][1..]);
  }
}
