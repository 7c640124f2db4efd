/** A comma-separated list of simple regular expressions: commas inside bracket
    areas belong to the areas. */
module HostList {
  import opened Text
  import opened BracketArea
  import opened SimpleRegex

  /** Whether the text after `s` lies inside a bracket area that `s` started. */
  predicate Inside(s: string) {
    s != [] && if Inside(s[..|s| - 1]) then s[|s| - 1] != ']' else s[|s| - 1] == '['
  }

  /** No comma of `s` lies outside its bracket areas. */
  predicate NoTopComma(s: string) {
    forall i :: 0 <= i < |s| && s[i] == ',' ==> Inside(s[..i])
  }

  function Joined(pieces: seq<string>): string {
    if pieces == [] then [] else if |pieces| == 1 then pieces[0] else pieces[0] + [','] + Joined(pieces[1..])
  }

  /** The position behind the first bracket area, or |s| if that area is never closed. */
  function AreaEnd(s: string): (n: nat)
    requires '[' in s
    ensures Find(s, '[') < n <= |s|
  {
    var open := Find(s, '[');
    var end := Find(s[open + 1..], ']');
    if open + 1 + end < |s| then open + 1 + end + 1 else |s|
  }

  /** The pieces of the list whose text so far is `before` and whose text to come is `rest`. */
  function Split(before: string, rest: string): seq<string>
    decreases |rest|
  {
    var comma, open := Find(rest, ','), Find(rest, '[');
    if rest == [] then
      if before == [] then [] else [before]
    else if comma == |rest| && open == |rest| then [before + rest]
    else if comma < open then [before + rest[..comma]] + Split([], rest[comma + 1..])
    else Split(before + rest[..AreaEnd(rest)], rest[AreaEnd(rest)..])
  }

  /** The first loop over a list of expressions. */
  method SplitList(list: string) returns (pieces: seq<string>)
    ensures pieces == Split([], list)
  {
    hide Find, Split, AreaEnd;
    pieces := [];
    SplitEnds([]);
    ghost var all := Split([], list);
    var before: string := [];
    var rest := list;
    while rest != []
      invariant pieces + Split(before, rest) == all
      decreases |rest|
    {
      var comma, open := Find(rest, ','), Find(rest, '[');
      if comma == |rest| && open == |rest| {
        SplitPlain(before, rest);
        NothingAfter(pieces + [before + rest]);
        pieces := pieces + [before + rest];
        before := [];
        rest := [];
      } else if comma < open {
        SplitComma(before, rest);
        Append(pieces, [before + rest[..comma]], Split([], rest[comma + 1..]));
        pieces := pieces + [before + rest[..comma]];
        before := [];
        rest := rest[comma + 1..];
      } else {
        SplitArea(before, rest);
        AreaSlices(before, rest);
        before := before + rest[..open + 1];
        rest := rest[open + 1..];
        var end := Find(rest, ']');
        if end < |rest| {
          before := before + rest[..end + 1];
          rest := rest[end + 1..];
        } else {
          SplitEnds(before + rest);
          NothingAfter(pieces + [before + rest]);
          pieces := pieces + [before + rest];
          before := [];
          rest := [];
        }
      }
    }
    SplitEnds(before);
    NothingAfter(pieces);
    if before != [] {
      pieces := pieces + [before];
    }
  }

  lemma NothingAfter(pieces: seq<string>)
    ensures pieces + [] == pieces
  {
  }

  lemma SplitPlain(before: string, rest: string)
    requires rest != [] && ',' !in rest && '[' !in rest
    ensures Split(before, rest) == [before + rest]
  {
    hide Find;
  }

  lemma SplitComma(before: string, rest: string)
    requires Find(rest, ',') < Find(rest, '[')
    ensures var comma := Find(rest, ',');
            Split(before, rest) == [before + rest[..comma]] + Split([], rest[comma + 1..])
  {
    hide Find;
  }

  lemma SplitArea(before: string, rest: string)
    requires '[' in rest && Find(rest, '[') <= Find(rest, ',')
    ensures Split(before, rest) == Split(before + rest[..AreaEnd(rest)], rest[AreaEnd(rest)..])
  {
    hide Find, AreaEnd;
  }

  lemma AreaSlices(before: string, s: string)
    requires '[' in s
    ensures var open, n := Find(s, '['), AreaEnd(s);
            var area := s[open + 1..];
            var end := Find(area, ']');
            if end < |area| then
              before + s[..open + 1] + area[..end + 1] == before + s[..n] && area[end + 1..] == s[n..]
            else before + s[..open + 1] + area == before + s[..n] && s[n..] == []
  {
    hide Find;
  }

  lemma SplitEnds(before: string)
    ensures Split(before, []) == if before == [] then [] else [before]
  {
  }

  function NamesOfAll(pieces: seq<string>): Option<seq<string>> {
    if pieces == [] then Some([])
    else
      match Names(Trim(pieces[0]))
      case None => None
      case Some(names) => After(names, NamesOfAll(pieces[1..]))
  }

  /** All names a list of expressions stands for. */
  method ExpandList(list: string) returns (r: Option<seq<string>>)
    ensures r == NamesOfAll(Split([], list))
  {
    hide Names, Trim, Split;
    var pieces := SplitList(list);
    var found: seq<string> := [];
    var i := 0;
    assert pieces[0..] == pieces;
    while i < |pieces|
      invariant i <= |pieces|
      invariant NamesOfAll(pieces) == After(found, NamesOfAll(pieces[i..]))
    {
      var names := ExpandOne(pieces[i]);
      assert pieces[i..][0] == pieces[i] && pieces[i..][1..] == pieces[i + 1..];
      if names == None {
        return None;
      }
      AfterMore(found, names.value, NamesOfAll(pieces[i + 1..]));
      found := found + names.value;
      i := i + 1;
    }
    assert pieces[i..] == [];
    return Some(found);
  }

  // ---------------------------------------------------------------------
  // Where a list is split

  /** Text without brackets leaves the state of a scan as it was. */
  lemma {:induction false} InsideUnchanged(a: string, b: string)
    requires if Inside(a) then ']' !in b else '[' !in b
    ensures Inside(a + b) == Inside(a)
    decreases |b|
  {
    if b == [] {
      assert a + b == a;
    } else {
      var s := a + b;
      assert s[..|s| - 1] == a + b[..|b| - 1];
      InsideUnchanged(a, b[..|b| - 1]);
    }
  }

  lemma InsideStep(s: string, c: char)
    ensures Inside(s + [c]) == if Inside(s) then c != ']' else c == '['
  {
    assert (s + [c])[..|s|] == s;
  }

  /** Adding text that holds no comma, or lies inside an area, keeps commas inside. */
  lemma NoTopCommaMore(a: string, b: string)
    requires NoTopComma(a)
    requires ',' !in b || (Inside(a) && ']' !in b)
    ensures NoTopComma(a + b)
  {
    hide Inside;
    var s := a + b;
    forall i | 0 <= i < |s| && s[i] == ','
      ensures Inside(s[..i])
    {
      if i < |a| {
        assert s[..i] == a[..i];
      } else {
        assert s[i] == b[i - |a|];
        assert s[..i] == a + b[..i - |a|];
        InsideUnchanged(a, b[..i - |a|]);
      }
    }
  }

  lemma {:induction false} InsideStartsOver(a: string, b: string)
    requires !Inside(a)
    ensures Inside(a + b) == Inside(b)
    decreases |b|
  {
    if b == [] {
      assert a + b == a;
    } else {
      assert (a + b)[..|a + b| - 1] == a + b[..|b| - 1];
      InsideStartsOver(a, b[..|b| - 1]);
    }
  }

  /** A bracket area added to text outside all areas: its commas lie inside,
      and the text is outside again if the area is closed. */
  lemma AreaAdded(before: string, rest: string)
    requires NoTopComma(before) && !Inside(before)
    requires '[' in rest && Find(rest, '[') <= Find(rest, ',')
    ensures var n := AreaEnd(rest);
            NoTopComma(before + rest[..n]) && (Inside(before + rest[..n]) ==> n == |rest|)
  {
    hide Find, Inside, NoTopComma;
    var open := Find(rest, '[');
    var area := rest[open + 1..];
    var end := Find(area, ']');
    var text := before + rest[..open];
    InsideUnchanged(before, rest[..open]);
    NoTopCommaMore(before, rest[..open]);
    InsideStep(text, '[');
    NoTopCommaMore(text, ['[']);
    var started := text + ['['];
    InsideUnchanged(started, area[..end]);
    NoTopCommaMore(started, area[..end]);
    var filled := started + area[..end];
    if end < |area| {
      InsideStep(filled, ']');
      NoTopCommaMore(filled, [']']);
      assert before + rest[..AreaEnd(rest)] == filled + [']'];
    } else {
      assert before + rest[..AreaEnd(rest)] == filled;
    }
  }

  /** The list ends with a comma outside all bracket areas. */
  predicate EndsWithTopComma(s: string) {
    s != [] && s[|s| - 1] == ',' && !Inside(s[..|s| - 1])
  }

  /** The pieces are cut at exactly the commas of `s` outside bracket areas:
      commas put back between them restore `s` up to one such comma at its end,
      no piece holds another one, and none but the last ends inside an area. */
  ghost predicate CutAtTopCommas(pieces: seq<string>, s: string) {
    && (if EndsWithTopComma(s) then Joined(pieces) + [','] == s else Joined(pieces) == s)
    && (forall i :: 0 <= i < |pieces| ==> NoTopComma(pieces[i]))
    && (forall i :: 0 <= i < |pieces| - 1 ==> !Inside(pieces[i]))
  }

  lemma CutOne(s: string)
    requires NoTopComma(s)
    ensures CutAtTopCommas([s], s) && CutAtTopCommas([], [])
  {
    hide Inside;
  }

  lemma CutMore(first: string, pieces: seq<string>, rest: string)
    requires NoTopComma(first) && !Inside(first) && CutAtTopCommas(pieces, rest) && (pieces == [] <==> rest == [])
    ensures CutAtTopCommas([first] + pieces, first + [','] + rest)
  {
    hide Inside, NoTopComma;
    var s, all := first + [','] + rest, [first] + pieces;
    assert all[1..] == pieces;
    if rest == [] {
      assert s[..|s| - 1] == first;
      assert Joined(all) == first;
    } else {
      InsideStep(first, ',');
      InsideStartsOver(first + [','], rest[..|rest| - 1]);
      assert s[..|s| - 1] == first + [','] + rest[..|rest| - 1];
      assert Joined(all) == first + [','] + Joined(pieces);
    }
  }

  lemma PartsOf(before: string, rest: string, n: nat)
    requires n <= |rest|
    ensures before + rest == before + rest[..n] + rest[n..]
    ensures n < |rest| ==> before + rest == before + rest[..n] + [rest[n]] + rest[n + 1..]
  {
  }

  lemma NothingBefore(s: string)
    ensures [] + s == s && s + [] == s
  {
  }

  ghost predicate SplitsWell(before: string, rest: string) {
    CutAtTopCommas(Split(before, rest), before + rest) && (Split(before, rest) == [] <==> before + rest == [])
  }

  lemma {:induction false} SplitCuts(before: string, rest: string)
    requires NoTopComma(before) && (Inside(before) ==> rest == [])
    ensures SplitsWell(before, rest)
    decreases |rest|
  {
    hide Find, Inside, NoTopComma, AreaEnd, SplitsWell;
    var comma, open := Find(rest, ','), Find(rest, '[');
    if rest == [] || (comma == |rest| && open == |rest|) {
      LastPieceSplits(before, rest);
    } else if comma < open {
      EmptyText();
      SplitCuts([], rest[comma + 1..]);
      SplitsAtComma(before, rest);
    } else {
      AreaAdded(before, rest);
      SplitCuts(before + rest[..AreaEnd(rest)], rest[AreaEnd(rest)..]);
      SplitsAtArea(before, rest);
    }
  }

  lemma LastPieceSplits(before: string, rest: string)
    requires NoTopComma(before) && (Inside(before) ==> rest == [])
    requires rest == [] || (Find(rest, ',') == |rest| && Find(rest, '[') == |rest|)
    ensures SplitsWell(before, rest)
  {
    hide Find, Inside, NoTopComma, CutAtTopCommas, Split;
    if rest == [] {
      SplitEnds(before);
      NothingBefore(before);
      CutOne(before);
    } else {
      SplitPlain(before, rest);
      NoTopCommaMore(before, rest);
      CutOne(before + rest);
    }
  }

  lemma SplitsAtComma(before: string, rest: string)
    requires NoTopComma(before) && !Inside(before) && Find(rest, ',') < |rest| && Find(rest, ',') < Find(rest, '[')
    requires SplitsWell([], rest[Find(rest, ',') + 1..])
    ensures SplitsWell(before, rest)
  {
    hide Find, Inside, NoTopComma, CutAtTopCommas, Split;
    var comma := Find(rest, ',');
    var first, next := before + rest[..comma], rest[comma + 1..];
    SplitComma(before, rest);
    InsideUnchanged(before, rest[..comma]);
    NoTopCommaMore(before, rest[..comma]);
    PartsOf(before, rest, comma);
    NothingBefore(next);
    CutMore(first, Split([], next), next);
  }

  lemma SplitsAtArea(before: string, rest: string)
    requires '[' in rest && Find(rest, '[') <= Find(rest, ',') && !Inside(before)
    requires SplitsWell(before + rest[..AreaEnd(rest)], rest[AreaEnd(rest)..])
    ensures SplitsWell(before, rest)
  {
    hide Find, Inside, CutAtTopCommas, Split, AreaEnd;
    SplitArea(before, rest);
    PartsOf(before, rest, AreaEnd(rest));
  }

  lemma EmptyText()
    ensures NoTopComma([]) && !Inside([])
  {
  }

  /** A list is split at its commas outside bracket areas, at no other, and nothing is lost. */
  lemma SplitsAtTopCommas(list: string)
    ensures CutAtTopCommas(Split([], list), list)
  {
    hide CutAtTopCommas, Split;
    EmptyText();
    SplitCuts([], list);
    NothingBefore(list);
  }
}
