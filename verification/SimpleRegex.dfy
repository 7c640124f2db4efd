/** Simple regular expressions of host names, expanded to the names they stand for. */
module SimpleRegex {
  import opened Text
  import opened BracketArea

  // ---------------------------------------------------------------------
  // The meaning of an expression

  /** What the first bracket area of an expression looks like. */
  datatype Shape =
    | Malformed
    | Plain
    | Area(prefix: string, elements: seq<string>, suffix: string)

  function ShapeOf(s: string): Shape {
    var open, close := Find(s, '['), Find(s, ']');
    if open == |s| then
      if close < |s| then Malformed else Plain
    else if close < open then Malformed
    else Opened(s[..open], s[open + 1..])
  }

  /** The shape of an expression, given what lies before and behind its first '['. */
  function Opened(prefix: string, rest: string): Shape {
    var end := Find(rest, ']');
    if end == |rest| then Malformed
    else
      var area := Trim(rest[..end]);
      if area == [] || '[' in area then Malformed
      else
        match AreaElements(area)
        case None => Malformed
        case Some(es) => Area(prefix, es, rest[end + 1..])
  }

  /** Every string of `names` behind the same prefix. */
  function Prefixed(prefix: string, names: seq<string>): seq<string> {
    seq(|names|, i requires 0 <= i < |names| => prefix + names[i])
  }

  /** Every element before every name, elements first. */
  function Cross(prefix: string, elements: seq<string>, names: seq<string>): seq<string> {
    if elements == [] then []
    else Prefixed(prefix + elements[0], names) + Cross(prefix, elements[1..], names)
  }

  /** The names an expression stands for, read from left to right: the first
      area times all that follows it. None if it is malformed as far as it is read. */
  function Names(s: string): Option<seq<string>>
    decreases |s|
  {
    match ShapeOf(s)
    case Malformed => None
    case Plain => Some([s])
    case Area(prefix, es, suffix) =>
      if es == [] then Some([])
      else
        match Names(suffix)
        case None => None
        case Some(names) => Some(Cross(prefix, es, names))
  }

  function AllNames(list: seq<string>): Option<seq<string>> {
    if list == [] then Some([])
    else
      match Names(list[0])
      case None => None
      case Some(names) => After(names, AllNames(list[1..]))
  }

  lemma SuffixIsShorter(s: string)
    ensures ShapeOf(s).Area? ==> |ShapeOf(s).suffix| < |s|
  {
    hide Find, Trim, AreaElements;
  }

  // ---------------------------------------------------------------------
  // Expanding one area is a step towards the same names

  lemma FindShift(p: string, t: string)
    requires NoBrackets(p)
    ensures Find(p + t, '[') == |p| + Find(t, '[')
    ensures Find(p + t, ']') == |p| + Find(t, ']')
  {
    FindIs(p + t, '[', |p| + Find(t, '['));
    FindIs(p + t, ']', |p| + Find(t, ']'));
  }

  function Shifted(p: string, shape: Shape): Shape {
    match shape
    case Area(q, es, suffix) => Area(p + q, es, suffix)
    case other => other
  }

  lemma SliceShift(p: string, t: string, open: nat)
    requires open < |t|
    ensures (p + t)[..|p| + open] == p + t[..open] && (p + t)[|p| + open + 1..] == t[open + 1..]
  {
  }

  lemma OpenedShift(p: string, q: string, rest: string)
    ensures Opened(p + q, rest) == Shifted(p, Opened(q, rest))
  {
  }

  /** Text without brackets in front of an expression only lengthens its first prefix. */
  lemma ShapeShift(p: string, t: string)
    requires NoBrackets(p)
    ensures ShapeOf(p + t) == Shifted(p, ShapeOf(t))
  {
    hide Opened, Find;
    var open, close := Find(t, '['), Find(t, ']');
    FindShift(p, t);
    if open < |t| && open <= close {
      SliceShift(p, t, open);
      OpenedShift(p, t[..open], t[open + 1..]);
    }
  }

  lemma {:induction false} CrossShift(p: string, q: string, es: seq<string>, names: seq<string>)
    ensures Cross(p + q, es, names) == Prefixed(p, Cross(q, es, names))
  {
    if es != [] {
      CrossShift(p, q, es[1..], names);
      assert (p + q) + es[0] == p + (q + es[0]);
      var a, b := Prefixed(q + es[0], names), Cross(q, es[1..], names);
      assert Prefixed(p, a + b) == Prefixed(p, a) + Prefixed(p, b);
      assert Prefixed(p + (q + es[0]), names) == Prefixed(p, a) by {
        forall i | 0 <= i < |names|
          ensures p + (q + es[0]) + names[i] == p + ((q + es[0]) + names[i])
        {
        }
      }
    }
  }

  function PrefixedIfAny(p: string, names: Option<seq<string>>): Option<seq<string>> {
    match names
    case None => None
    case Some(list) => Some(Prefixed(p, list))
  }

  lemma NamesShift(p: string, t: string)
    requires NoBrackets(p)
    ensures Names(p + t) == PrefixedIfAny(p, Names(t))
  {
    hide ShapeOf, Prefixed, Cross;
    ShapeShift(p, t);
    match ShapeOf(t)
    case Malformed =>
    case Plain =>
      PrefixedOne(p, t);
    case Area(q, es, suffix) =>
      if es == [] {
        PrefixedNone(p);
      } else if Names(suffix).Some? {
        CrossShift(p, q, es, Names(suffix).value);
      }
  }

  lemma PrefixedOne(p: string, t: string)
    ensures Prefixed(p, [t]) == [p + t]
  {
  }

  lemma PrefixedNone(p: string)
    ensures Prefixed(p, []) == []
  {
  }

  /** The expressions one expansion step puts in place of an area. */
  function Children(prefix: string, es: seq<string>, suffix: string): seq<string> {
    seq(|es|, i requires 0 <= i < |es| => prefix + es[i] + suffix)
  }

  lemma {:induction false} ChildrenMeanTheSame(prefix: string, es: seq<string>, suffix: string)
    requires NoBrackets(prefix) && forall e :: e in es ==> NoBrackets(e)
    ensures AllNames(Children(prefix, es, suffix))
         == if es == [] then Some([])
            else match Names(suffix)
                 case None => None
                 case Some(names) => Some(Cross(prefix, es, names))
  {
    hide ShapeOf, Prefixed;
    if es != [] {
      var children := Children(prefix, es, suffix);
      assert children[1..] == Children(prefix, es[1..], suffix);
      assert es[0] in es;
      assert NoBrackets(prefix + es[0]);
      NamesShift(prefix + es[0], suffix);
      ChildrenMeanTheSame(prefix, es[1..], suffix);
    }
  }

  /** The prefix of an area and its elements hold no brackets. */
  lemma AreaHasNoBrackets(s: string)
    requires ShapeOf(s).Area?
    ensures NoBrackets(ShapeOf(s).prefix)
    ensures forall e :: e in ShapeOf(s).elements ==> NoBrackets(e)
  {
    hide Find, Trim, AreaElements;
    var open := Find(s, '[');
    var rest := s[open + 1..];
    var raw := rest[..Find(rest, ']')];
    TrimKeeps(raw, ']');
    ElementsHaveNoBrackets(Trim(raw));
  }

  lemma AreaStep(s: string)
    requires ShapeOf(s).Area?
    ensures var a := ShapeOf(s); Names(s) == AllNames(Children(a.prefix, a.elements, a.suffix))
  {
    hide ShapeOf;
    AreaHasNoBrackets(s);
    var a := ShapeOf(s);
    ChildrenMeanTheSame(a.prefix, a.elements, a.suffix);
  }

  // ---------------------------------------------------------------------
  // The worklist

  /** The areas an expression still has to lose. */
  function Opens(s: string): nat {
    if s == [] then 0 else (if s[0] == '[' then 1 else 0) + Opens(s[1..])
  }

  lemma {:induction false} OpensConcat(a: string, b: string)
    ensures Opens(a + b) == Opens(a) + Opens(b)
  {
    if a == [] {
      assert a + b == b;
    } else {
      assert (a + b)[1..] == a[1..] + b;
      OpensConcat(a[1..], b);
    }
  }

  lemma {:induction false} OpensNone(s: string)
    requires '[' !in s
    ensures Opens(s) == 0
  {
    if s != [] {
      OpensNone(s[1..]);
    }
  }

  /** Each expansion step takes away exactly one area. */
  lemma ChildrenHaveOneLess(s: string)
    requires ShapeOf(s).Area?
    ensures var a := ShapeOf(s);
            forall c :: c in Children(a.prefix, a.elements, a.suffix) ==> Opens(c) + 1 == Opens(s)
  {
    var a := ShapeOf(s);
    AreaHasNoBrackets(s);
    AreaSplits(s);
    var open := Find(s, '[');
    forall i | 0 <= i < |a.elements|
      ensures Opens(a.prefix + a.elements[i] + a.suffix) + 1 == Opens(s)
    {
      hide Opens, ShapeOf;
      assert a.elements[i] in a.elements;
      OpensConcat(a.prefix + a.elements[i], a.suffix);
      OpensNone(a.prefix + a.elements[i]);
    }
  }

  lemma {:induction false} OpensPast(s: string, i: nat)
    requires i < |s| && '[' !in s[..i]
    ensures Opens(s) == (if s[i] == '[' then 1 else 0) + Opens(s[i + 1..])
  {
    if i > 0 {
      assert s[0] == s[..i][0] && s[1..][..i - 1] == s[..i][1..] && s[1..][i..] == s[i + 1..];
      OpensPast(s[1..], i - 1);
    }
  }

  lemma AreaSplits(s: string)
    requires ShapeOf(s).Area?
    ensures Opens(s) == 1 + Opens(ShapeOf(s).suffix)
  {
    hide AreaElements, Find, Trim, Opens;
    var open := Find(s, '[');
    var rest := s[open + 1..];
    var end := Find(rest, ']');
    TrimKeeps(rest[..end], '[');
    OpensPast(s, open);
    OpensPast(rest, end);
  }

  lemma PlainHasNone(s: string)
    requires ShapeOf(s).Plain?
    ensures Opens(s) == 0
  {
    hide Find;
    OpensNone(s);
  }

  lemma {:induction false} AllNamesConcat(a: seq<string>, b: seq<string>)
    ensures AllNames(a + b) == if AllNames(a) == None then None else After(AllNames(a).value, AllNames(b))
  {
    hide Names;
    if a == [] {
      assert a + b == b;
    } else {
      assert (a + b)[1..] == a[1..] + b;
      AllNamesConcat(a[1..], b);
      if Names(a[0]).Some? && AllNames(a[1..]).Some? {
        AfterMore(Names(a[0]).value, AllNames(a[1..]).value, AllNames(b));
      }
    }
  }

  /** The outcome a worklist is heading for: the names found so far, then those of
      the younger half of the list, whose members come first in the final order,
      then those of the older half. */
  function Heading(found: seq<string>, list: seq<string>, older: nat): Option<seq<string>>
    requires older <= |list|
  {
    After(found, AllNames(list[older..] + list[..older]))
  }

  /** Both halves of the list: the older members have `m` areas left, the younger ones m - 1. */
  predicate Level(list: seq<string>, older: nat, m: nat) {
    && older <= |list|
    && (forall i :: 0 <= i < older ==> Opens(list[i]) == m)
    && (forall i :: older <= i < |list| ==> Opens(list[i]) + 1 == m)
  }

  /** Taking a plain expression off the list. */
  lemma TakesPlain(found: seq<string>, list: seq<string>, older: nat, m: nat)
    requires Level(list, older, m) && 0 < older && ShapeOf(list[0]).Plain?
    ensures Heading(found + [list[0]], list[1..], older - 1) == Heading(found, list, older)
    ensures Level(list[1..], older - 1, m)
  {
    hide ShapeOf, Opens;
    PlainHasNone(list[0]);
    assert older < |list| ==> Opens(list[older]) + 1 == m;
    assert list[older..] + list[..older] == [list[0]] + list[1..];
    assert list[1..][older - 1..] + list[1..][..older - 1] == list[1..];
    assert ([list[0]] + list[1..])[1..] == list[1..];
    AfterMore(found, [list[0]], AllNames(list[1..]));
  }

  /** Replacing an expression by its children at the end of the list. */
  lemma TakesArea(found: seq<string>, list: seq<string>, older: nat, m: nat)
    requires Level(list, older, m) && 0 < older && ShapeOf(list[0]).Area?
    ensures var a := ShapeOf(list[0]);
            var next := list[1..] + Children(a.prefix, a.elements, a.suffix);
            Heading(found, next, older - 1) == Heading(found, list, older) && Level(next, older - 1, m)
  {
    hide ShapeOf, Opens, AllNames, Children;
    var a := ShapeOf(list[0]);
    var children := Children(a.prefix, a.elements, a.suffix);
    var next := list[1..] + children;
    var younger, rest := list[older..], list[1..older];
    assert list[older..] + list[..older] == younger + ([list[0]] + rest);
    assert next[older - 1..] + next[..older - 1] == younger + (children + rest);
    AreaStep(list[0]);
    OneName(list[0]);
    AllNamesConcat(younger, [list[0]] + rest);
    AllNamesConcat([list[0]], rest);
    AllNamesConcat(younger, children + rest);
    AllNamesConcat(children, rest);
    ChildrenHaveOneLess(list[0]);
    forall i | older - 1 <= i < |next|
      ensures Opens(next[i]) + 1 == m
    {
      if i >= |list| - 1 {
        assert next[i] in children;
      }
    }
  }

  lemma OneName(s: string)
    ensures AllNames([s]) == Names(s)
  {
    assert [s][1..] == [];
  }

  lemma TakesMalformed(found: seq<string>, list: seq<string>, older: nat)
    requires 0 < older <= |list| && ShapeOf(list[0]).Malformed?
    ensures Heading(found, list, older) == None
  {
    hide ShapeOf;
    var younger, rest := list[older..], list[1..older];
    assert list[older..] + list[..older] == younger + ([list[0]] + rest);
    AllNamesConcat(younger, [list[0]] + rest);
    AllNamesConcat([list[0]], rest);
    OneName(list[0]);
  }

  /** The worklist loop: take the first expression off the list, and put what its
      first area expands to at the end. It ends, fails exactly when reading the
      expression from left to right fails, and finds the same names in the same order. */
  method ExpandOne(expression: string) returns (r: Option<seq<string>>)
    ensures r == Names(Trim(expression))
  {
    hide ShapeOf, Names, AllNames, Opens, Trim, Heading, Level;
    var list := [Trim(expression)];
    var found: seq<string> := [];
    ghost var older: nat, m: nat := 1, Opens(list[0]);
    StartsWith(list[0]);
    while list != []
      invariant Level(list, older, m) && older <= |list|
      invariant Heading(found, list, older) == Names(Trim(expression))
      decreases m, older
    {
      if older == 0 {
        NextLevel(found, list, m);
        older, m := |list|, m - 1;
      }
      var one := list[0];
      match ShapeOf(one) {
        case Malformed =>
          TakesMalformed(found, list, older);
          return None;
        case Plain =>
          TakesPlain(found, list, older, m);
          list := list[1..];
          found := found + [one];
        case Area(prefix, elements, suffix) =>
          TakesArea(found, list, older, m);
          list := list[1..];
          ghost var queue := list;
          var i := 0;
          while i < |elements|
            invariant i <= |elements|
            invariant list == queue + Children(prefix, elements[..i], suffix)
          {
            list := list + [prefix + elements[i] + suffix];
            i := i + 1;
          }
          assert elements[..i] == elements;
      }
      older := older - 1;
    }
    Ends(found, list, older);
    return Some(found);
  }

  lemma StartsWith(s: string)
    ensures Level([s], 1, Opens(s)) && Heading([], [s], 1) == Names(s)
  {
    hide Names, Opens;
    OneName(s);
    assert [s][1..] + [s][..1] == [s];
  }

  lemma NextLevel(found: seq<string>, list: seq<string>, m: nat)
    requires Level(list, 0, m) && list != []
    ensures 0 < m && Level(list, |list|, m - 1)
    ensures Heading(found, list, |list|) == Heading(found, list, 0)
  {
    hide Opens, AllNames;
    assert Opens(list[0]) + 1 == m;
    assert list[|list|..] + list[..|list|] == list && list[0..] + list[..0] == list;
  }

  lemma Ends(found: seq<string>, list: seq<string>, older: nat)
    requires list == [] && older == 0
    ensures Heading(found, list, older) == Some(found)
  {
  }
}
