/** The string helpers the configuration code leans on. */
module Text {

  datatype Option<+T> = None | Some(value: T)

  /** The characters isspace accepts in the C locale. */
  predicate IsSpace(c: char) {
    c == ' ' || '\t' <= c <= '\r'
  }

  predicate IsDigit(c: char) {
    '0' <= c <= '9'
  }

  function TrimLeft(s: string): string {
    if s != [] && IsSpace(s[0]) then TrimLeft(s[1..]) else s
  }

  function TrimRight(s: string): string {
    if s != [] && IsSpace(s[|s| - 1]) then TrimRight(s[..|s| - 1]) else s
  }

  function Trim(s: string): string {
    TrimRight(TrimLeft(s))
  }

  /** The first position of `c`, or |s| when there is none. */
  function Find(s: string, c: char): (i: nat)
    ensures i <= |s|
    ensures i < |s| ==> s[i] == c
    ensures forall j :: 0 <= j < i ==> s[j] != c
    ensures i == |s| <==> c !in s
  {
    if s == [] then 0 else if s[0] == c then 0 else 1 + Find(s[1..], c)
  }

  lemma FindIs(s: string, c: char, i: nat)
    requires i <= |s| && (i < |s| ==> s[i] == c)
    requires forall j :: 0 <= j < i ==> s[j] != c
    ensures Find(s, c) == i
  {
  }

  lemma {:induction false} TrimLeftIsSlice(s: string)
    ensures |TrimLeft(s)| <= |s| && TrimLeft(s) == s[|s| - |TrimLeft(s)|..]
  {
    if s != [] && IsSpace(s[0]) {
      TrimLeftIsSlice(s[1..]);
    }
  }

  lemma {:induction false} TrimRightIsSlice(s: string)
    ensures |TrimRight(s)| <= |s| && TrimRight(s) == s[..|TrimRight(s)|]
  {
    if s != [] && IsSpace(s[|s| - 1]) {
      TrimRightIsSlice(s[..|s| - 1]);
    }
  }

  /** Trimming removes nothing but spaces. */
  lemma {:induction false} TrimKeeps(s: string, c: char)
    requires !IsSpace(c)
    ensures c in Trim(s) <==> c in s
  {
    TrimLeftKeeps(s, c);
    TrimRightKeeps(TrimLeft(s), c);
  }

  lemma {:induction false} TrimLeftKeeps(s: string, c: char)
    requires !IsSpace(c)
    ensures c in TrimLeft(s) <==> c in s
  {
    if s != [] && IsSpace(s[0]) {
      TrimLeftKeeps(s[1..], c);
      assert s == [s[0]] + s[1..];
    }
  }

  lemma {:induction false} TrimRightKeeps(s: string, c: char)
    requires !IsSpace(c)
    ensures c in TrimRight(s) <==> c in s
  {
    if s != [] && IsSpace(s[|s| - 1]) {
      TrimRightKeeps(s[..|s| - 1], c);
      assert s == s[..|s| - 1] + [s[|s| - 1]];
    }
  }

  /** Text without spaces at its ends. */
  predicate Trimmed(s: string) {
    s == [] || (!IsSpace(s[0]) && !IsSpace(s[|s| - 1]))
  }

  lemma TrimTrims(s: string)
    ensures Trimmed(Trim(s))
  {
    TrimLeftStops(s);
    TrimRightStops(TrimLeft(s));
    TrimRightIsSlice(TrimLeft(s));
  }

  lemma TrimShrinks(s: string)
    ensures |Trim(s)| <= |s|
  {
    TrimLeftIsSlice(s);
    TrimRightIsSlice(TrimLeft(s));
  }

  lemma {:induction false} TrimLeftStops(s: string)
    ensures TrimLeft(s) == [] || !IsSpace(TrimLeft(s)[0])
  {
    if s != [] && IsSpace(s[0]) {
      TrimLeftStops(s[1..]);
    }
  }

  lemma {:induction false} TrimRightStops(s: string)
    ensures TrimRight(s) == [] || !IsSpace(TrimRight(s)[|TrimRight(s)| - 1])
  {
    if s != [] && IsSpace(s[|s| - 1]) {
      TrimRightStops(s[..|s| - 1]);
    }
  }

  lemma {:induction false} TrimLeftJoins(a: string, b: string)
    ensures TrimLeft(a + b) == TrimLeft(TrimLeft(a) + b)
    ensures TrimLeft(a) != [] ==> TrimLeft(a + b) == TrimLeft(a) + b
    ensures TrimLeft(a) == [] ==> TrimLeft(a + b) == TrimLeft(b)
    decreases |a|
  {
    if a == [] {
      assert a + b == b;
    } else if IsSpace(a[0]) {
      assert (a + b)[1..] == a[1..] + b;
      TrimLeftJoins(a[1..], b);
    }
  }

  lemma {:induction false} TrimRightJoins(a: string, b: string)
    ensures TrimRight(a + b) == TrimRight(a + TrimRight(b))
    ensures TrimRight(b) != [] ==> TrimRight(a + b) == a + TrimRight(b)
    ensures TrimRight(b) == [] ==> TrimRight(a + b) == TrimRight(a)
    decreases |b|
  {
    if b == [] {
      assert a + b == a;
    } else if IsSpace(b[|b| - 1]) {
      assert (a + b)[..|a + b| - 1] == a + b[..|b| - 1];
      TrimRightJoins(a, b[..|b| - 1]);
    }
  }

  lemma {:induction false} TrimEitherWay(s: string)
    ensures Trim(s) == TrimLeft(TrimRight(s))
    decreases |s|
  {
    if s != [] {
      assert s == [s[0]] + s[1..];
      TrimRightJoins([s[0]], s[1..]);
      if IsSpace(s[0]) {
        TrimEitherWay(s[1..]);
        TrimLeftJoins([s[0]], TrimRight(s[1..]));
      }
    }
  }

  /** Only what is left of each end after trimming matters. */
  lemma TrimEnds(a: string, a': string, middle: string, b: string, b': string)
    requires TrimLeft(a) == TrimLeft(a') && TrimRight(b) == TrimRight(b')
    ensures Trim(a + middle + b) == Trim(a' + middle + b')
  {
    hide TrimLeft, TrimRight;
    assert a + middle + b == a + (middle + b) && a' + middle + b == a' + (middle + b);
    TrimLeftJoins(a, middle + b);
    TrimLeftJoins(a', middle + b);
    TrimEitherWay(a' + middle + b);
    TrimEitherWay(a' + middle + b');
    TrimRightJoins(a' + middle, b);
    TrimRightJoins(a' + middle, b');
  }

  /** What is between the ends stays, if it has no spaces at its own. */
  lemma TrimAround(a: string, middle: string, b: string)
    requires middle != [] && Trimmed(middle)
    ensures Trim(a + middle + b) == TrimLeft(a) + middle + TrimRight(b)
  {
    hide TrimLeft, TrimRight;
    Associates(a, middle, b);
    TrimLeftJoins(a, middle + b);
    NothingToTrim(middle + b);
    Associates(TrimLeft(a), middle, b);
    TrimRightJoins(TrimLeft(a) + middle, b);
    NothingToTrim(TrimLeft(a) + middle);
    assert "" + (middle + b) == middle + b && TrimLeft(a) + middle + "" == TrimLeft(a) + middle;
  }

  lemma NothingToTrim(s: string)
    ensures s == [] || !IsSpace(s[0]) ==> TrimLeft(s) == s
    ensures s == [] || !IsSpace(s[|s| - 1]) ==> TrimRight(s) == s
  {
  }

  lemma Associates(a: string, b: string, c: string)
    ensures a + b + c == a + (b + c)
  {
  }
}
