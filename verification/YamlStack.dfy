/** YAML parser events, the nodes they spell, and the stack with which the
    configuration loader skips one key/value pair it does not know. */
module YamlStack {

  datatype EventType =
    | NO_EVENT
    | STREAM_START | STREAM_END
    | DOCUMENT_START | DOCUMENT_END
    | MAPPING_START | MAPPING_END
    | SEQUENCE_START | SEQUENCE_END
    | SCALAR | ALIAS

  /** One level of the stack: the types of a pair's key and value so far. */
  datatype Pair = Pair(first: EventType, second: EventType)

  predicate IsClosed(t: EventType) {
    t in {STREAM_END, DOCUMENT_END, MAPPING_END, SEQUENCE_END, SCALAR, ALIAS}
  }

  function Symmetry(t: EventType): EventType {
    match t
    case NO_EVENT => NO_EVENT
    case STREAM_START => STREAM_END
    case STREAM_END => STREAM_START
    case DOCUMENT_START => DOCUMENT_END
    case DOCUMENT_END => DOCUMENT_START
    case MAPPING_START => MAPPING_END
    case MAPPING_END => MAPPING_START
    case SEQUENCE_START => SEQUENCE_END
    case SEQUENCE_END => SEQUENCE_START
    case SCALAR => SCALAR
    case ALIAS => ALIAS
  }

  /** The stack after one event, and whether the event was accepted. */
  function Added(s: seq<Pair>, t: EventType): (bool, seq<Pair>)
    decreases |s|
  {
    match t
    case NO_EVENT => (true, s)

    case DOCUMENT_START | STREAM_START => (true, s + [Pair(t, NO_EVENT)])

    case DOCUMENT_END | STREAM_END =>
      if s == [] || t == Symmetry(s[|s| - 1].first) then (false, s)
      else (true, s[..|s| - 1])

    case MAPPING_START | SEQUENCE_START =>
      if s == [] then (true, s + [Pair(t, NO_EVENT)])
      else
        var rest, top := s[..|s| - 1], s[|s| - 1];
        if top.second != NO_EVENT then
          if IsClosed(top.second) then Added(rest, t) else (true, s + [Pair(t, NO_EVENT)])
        else if top.first == NO_EVENT then (true, rest + [top.(first := t)])
        else if IsClosed(top.first) then (true, rest + [top.(second := t)])
        else (true, s + [Pair(t, NO_EVENT)])

    case MAPPING_END | SEQUENCE_END =>
      if s == [] then (false, s)
      else
        var rest, top := s[..|s| - 1], s[|s| - 1];
        if top.second != NO_EVENT then
          if t == Symmetry(top.second) then (true, rest)
          else if IsClosed(top.second) then Added(rest, t)
          else (false, s)
        else if t == Symmetry(top.first) then (true, rest + [top.(first := t)])
        else if IsClosed(top.first) then Added(rest, t)
        else (false, s)

    case SCALAR | ALIAS =>
      if s == [] then (true, s + [Pair(t, NO_EVENT)])
      else
        var rest, top := s[..|s| - 1], s[|s| - 1];
        if top.second != NO_EVENT then
          if IsClosed(top.second) then Added(rest, t) else (true, s + [Pair(t, NO_EVENT)])
        else if top.first == NO_EVENT then (true, rest + [top.(first := t)])
        else if IsClosed(top.first) then (true, rest)
        else (true, s + [Pair(t, NO_EVENT)])
  }

  /** The helper stack of the loader. */
  class YamlDataStack {
    var stack: seq<Pair>

    constructor ()
      ensures stack == []
    {
      stack := [];
    }

    method Add(t: EventType) returns (ok: bool)
      modifies this
      ensures (ok, stack) == Added(old(stack), t)
      decreases |stack|
    {
      if t == NO_EVENT {
        return true;
      }
      if t == DOCUMENT_START || t == STREAM_START {
        stack := stack + [Pair(t, NO_EVENT)];
        return true;
      }
      if stack == [] {
        if t in {DOCUMENT_END, STREAM_END, MAPPING_END, SEQUENCE_END} {
          return false;
        }
        stack := stack + [Pair(t, NO_EVENT)];
        return true;
      }
      var last := |stack| - 1;
      var top := stack[last];
      if t == DOCUMENT_END || t == STREAM_END {
        if t == Symmetry(top.first) {
          return false;
        }
        stack := stack[..last];
      } else if t == MAPPING_START || t == SEQUENCE_START {
        if top.second != NO_EVENT {
          if IsClosed(top.second) {
            stack := stack[..last];
            ok := Add(t);
            return;
          }
          stack := stack + [Pair(t, NO_EVENT)];
        } else if top.first == NO_EVENT {
          stack := stack[..last] + [top.(first := t)];
        } else if IsClosed(top.first) {
          stack := stack[..last] + [top.(second := t)];
        } else {
          stack := stack + [Pair(t, NO_EVENT)];
        }
      } else if t == MAPPING_END || t == SEQUENCE_END {
        if top.second != NO_EVENT {
          if t == Symmetry(top.second) {
            stack := stack[..last];
          } else if IsClosed(top.second) {
            stack := stack[..last];
            ok := Add(t);
            return;
          } else {
            return false;
          }
        } else if t == Symmetry(top.first) {
          stack := stack[..last] + [top.(first := t)];
        } else if IsClosed(top.first) {
          stack := stack[..last];
          ok := Add(t);
          return;
        } else {
          return false;
        }
      } else {
        if top.second != NO_EVENT {
          if IsClosed(top.second) {
            stack := stack[..last];
            ok := Add(t);
            return;
          }
          stack := stack + [Pair(t, NO_EVENT)];
        } else if top.first == NO_EVENT {
          stack := stack[..last] + [top.(first := t)];
        } else if IsClosed(top.first) {
          stack := stack[..last];
        } else {
          stack := stack + [Pair(t, NO_EVENT)];
        }
      }
      return true;
    }
  }

  // ---------------------------------------------------------------------
  // Nodes and the events a parser reports for them

  datatype Event =
    | NoEvent
    | StreamStart | StreamEnd
    | DocumentStart | DocumentEnd
    | MappingStart | MappingEnd
    | SequenceStart | SequenceEnd
    | Scalar(text: string)
    | Alias

  function TypeOf(e: Event): EventType {
    match e
    case NoEvent => NO_EVENT
    case StreamStart => STREAM_START
    case StreamEnd => STREAM_END
    case DocumentStart => DOCUMENT_START
    case DocumentEnd => DOCUMENT_END
    case MappingStart => MAPPING_START
    case MappingEnd => MAPPING_END
    case SequenceStart => SEQUENCE_START
    case SequenceEnd => SEQUENCE_END
    case Scalar(_) => SCALAR
    case Alias => ALIAS
  }

  /** An alias-free node of any nesting; mappings may have any node as a key. */
  datatype Node =
    | Leaf(text: string)
    | List(items: seq<Node>)
    | Table(entries: seq<Entry>)

  datatype Entry = Entry(key: Node, value: Node)

  function NodeEvents(n: Node): (es: seq<Event>)
    ensures es != []
  {
    match n
    case Leaf(text) => [Scalar(text)]
    case List(items) => [SequenceStart] + ItemEvents(items) + [SequenceEnd]
    case Table(entries) => [MappingStart] + EntryEvents(entries) + [MappingEnd]
  }

  function ItemEvents(items: seq<Node>): seq<Event> {
    if items == [] then [] else NodeEvents(items[0]) + ItemEvents(items[1..])
  }

  function EntryEvents(entries: seq<Entry>): seq<Event> {
    if entries == [] then []
    else
      assert entries[0].key < entries[0] && entries[0].value < entries[0];
      NodeEvents(entries[0].key) + NodeEvents(entries[0].value) + EntryEvents(entries[1..])
  }

  /** The type a half-filled pair shows once its first node is complete. */
  function ClosedType(n: Node): EventType {
    match n
    case Leaf(_) => SCALAR
    case List(_) => SEQUENCE_END
    case Table(_) => MAPPING_END
  }

  // ---------------------------------------------------------------------
  // Runs of the stack

  /** The stack after a run of events, or None if one of them is refused. */
  datatype Outcome = Refused | Stack(pairs: seq<Pair>)

  function Fed(s: seq<Pair>, es: seq<Event>): Outcome
    decreases |es|
  {
    if es == [] then Stack(s)
    else
      var (ok, s') := Added(s, TypeOf(es[0]));
      if ok then Fed(s', es[1..]) else Refused
  }

  /** Every stack of the run after an event, save the last one, is deeper than `floor`. */
  predicate Deeper(s: seq<Pair>, es: seq<Event>, floor: nat)
    decreases |es|
  {
    |es| > 1 ==>
      var (ok, s') := Added(s, TypeOf(es[0]));
      ok && |s'| > floor && Deeper(s', es[1..], floor)
  }

  lemma {:induction false} FedConcat(s: seq<Pair>, a: seq<Event>, b: seq<Event>)
    ensures Fed(s, a + b) == match Fed(s, a) case Stack(t) => Fed(t, b) case Refused => Refused
    decreases |a|
  {
    if a == [] {
      assert a + b == b;
    } else {
      assert (a + b)[1..] == a[1..] + b;
      var (ok, s') := Added(s, TypeOf(a[0]));
      if ok { FedConcat(s', a[1..], b); }
    }
  }

  lemma {:induction false} DeeperConcat(s: seq<Pair>, a: seq<Event>, b: seq<Event>, floor: nat)
    requires Deeper(s, a, floor) && Fed(s, a).Stack? && a != []
    requires b != [] ==> |Fed(s, a).pairs| > floor
    requires Deeper(Fed(s, a).pairs, b, floor)
    ensures Deeper(s, a + b, floor)
    decreases |a|
  {
    var (ok, s') := Added(s, TypeOf(a[0]));
    assert (a + b)[1..] == a[1..] + b;
    if |a| == 1 {
      assert a[1..] == [] && a[1..] + b == b;
      assert Fed(s, a) == Fed(s', []);
    } else {
      DeeperConcat(s', a[1..], b, floor);
    }
  }

  lemma {:induction false} DeeperWeaken(s: seq<Pair>, es: seq<Event>, floor: nat, lower: nat)
    requires Deeper(s, es, floor) && lower <= floor
    ensures Deeper(s, es, lower)
    decreases |es|
  {
    if |es| > 1 {
      DeeperWeaken(Added(s, TypeOf(es[0])).1, es[1..], floor, lower);
    }
  }

  /** `es` is accepted and leads from `s` to `t` without coming down to `floor` on the way. */
  predicate Leads(s: seq<Pair>, es: seq<Event>, t: seq<Pair>, floor: nat) {
    Fed(s, es) == Stack(t) && Deeper(s, es, floor)
  }

  lemma LeadsConcat(s: seq<Pair>, a: seq<Event>, t: seq<Pair>, b: seq<Event>, u: seq<Pair>, floor: nat, lower: nat)
    requires Leads(s, a, t, floor) && Leads(t, b, u, lower) && a != []
    requires lower <= floor && (b != [] ==> |t| > lower)
    ensures Leads(s, a + b, u, lower)
  {
    FedConcat(s, a, b);
    DeeperWeaken(s, a, floor, lower);
    DeeperConcat(s, a, b, lower);
  }

  lemma LeadsOne(s: seq<Pair>, e: Event, t: seq<Pair>, floor: nat)
    requires Added(s, TypeOf(e)) == (true, t)
    ensures Leads(s, [e], t, floor)
  {
    assert [e][1..] == [];
    assert Fed(s, [e]) == Fed(t, []);
  }

  /** A stack whose next node opens a new level. */
  predicate Opens(s: seq<Pair>) {
    s == []
    || (var top := s[|s| - 1];
        if top.second == NO_EVENT then top.first != NO_EVENT && !IsClosed(top.first)
        else !IsClosed(top.second))
  }

  /** `s` with a pair on top whose key is complete and whose value is missing. */
  function Half(s: seq<Pair>, key: EventType): seq<Pair> {
    s + [Pair(key, NO_EVENT)]
  }

  /** Opening and closing one bracket of a collection met as a key. */
  lemma BracketAsKey(s: seq<Pair>, start: EventType, top: seq<Pair>, odd: EventType)
    requires Opens(s) && start in {SEQUENCE_START, MAPPING_START}
    requires top == Half(s, start)
          || (IsClosed(odd) && top == Half(Half(s, start), odd))
    ensures Added(s, start) == (true, Half(s, start)) && Opens(Half(s, start))
    ensures Added(top, Symmetry(start)) == (true, Half(s, Symmetry(start)))
  {
    var h := Half(s, start);
    assert h[..|s|] == s;
    if top != h {
      assert top[..|h|] == h;
    }
  }

  /** Opening and closing one bracket of a collection met as a value. */
  lemma BracketAsValue(s: seq<Pair>, key: EventType, start: EventType, top: seq<Pair>, odd: EventType)
    requires IsClosed(key) && start in {SEQUENCE_START, MAPPING_START}
    requires var t := s + [Pair(key, start)];
             top == t || (IsClosed(odd) && top == Half(t, odd))
    ensures var t := s + [Pair(key, start)];
            Added(Half(s, key), start) == (true, t) && Opens(t)
    ensures Added(top, Symmetry(start)) == (true, s)
  {
    var t := s + [Pair(key, start)];
    assert Half(s, key)[..|s|] == s && t[..|s|] == s;
    if top != t {
      assert top[..|t|] == t;
    }
  }

  /** A bracketed run, from its opening event to its closing one. */
  lemma Bracket(s: seq<Pair>, start: Event, t: seq<Pair>, mid: seq<Event>, u: seq<Pair>, end: Event, v: seq<Pair>,
                floor: nat)
    requires Added(s, TypeOf(start)) == (true, t) && |t| > floor
    requires Leads(t, mid, u, floor) && |u| > floor
    requires Added(u, TypeOf(end)) == (true, v)
    ensures Leads(s, [start] + mid + [end], v, floor)
  {
    LeadsOne(s, start, t, floor);
    LeadsOne(u, end, v, floor);
    LeadsConcat(s, [start], t, mid, u, floor, floor);
    LeadsConcat(s, [start] + mid, u, [end], v, floor, floor);
  }

  /** The closed type of the last node of a sequence if it has no partner there, else NO_EVENT. */
  function Odd(items: seq<Node>): (t: EventType)
    ensures t == NO_EVENT || IsClosed(t)
    ensures t == NO_EVENT <==> |items| % 2 == 0
  {
    if items == [] then NO_EVENT
    else if |items| == 1 then ClosedType(items[0])
    else Odd(items[2..])
  }

  /** Where a stack stands after the nodes of a sequence. */
  function AfterItems(s: seq<Pair>, items: seq<Node>): seq<Pair> {
    if Odd(items) == NO_EVENT then s else Half(s, Odd(items))
  }

  /** The events of a collection met where a pair starts, given what its contents do. */
  lemma CollectionOpens(s: seq<Pair>, start: Event, mid: seq<Event>, u: seq<Pair>, odd: EventType, end: Event)
    requires Opens(s) && start in {SequenceStart, MappingStart} && TypeOf(end) == Symmetry(TypeOf(start))
    requires var t := Half(s, TypeOf(start));
             Leads(t, mid, u, |s|) && (u == t || (IsClosed(odd) && u == Half(t, odd)))
    ensures Leads(s, [start] + mid + [end], Half(s, TypeOf(end)), |s|)
  {
    BracketAsKey(s, TypeOf(start), u, odd);
    Bracket(s, start, Half(s, TypeOf(start)), mid, u, end, Half(s, TypeOf(end)), |s|);
  }

  /** The events of a collection met where a value is due, given what its contents do. */
  lemma CollectionCloses(s: seq<Pair>, key: EventType, start: Event, mid: seq<Event>, u: seq<Pair>, odd: EventType,
                         end: Event)
    requires IsClosed(key) && start in {SequenceStart, MappingStart} && TypeOf(end) == Symmetry(TypeOf(start))
    requires var t := s + [Pair(key, TypeOf(start))];
             Leads(t, mid, u, |s|) && (u == t || (IsClosed(odd) && u == Half(t, odd)))
    ensures Leads(Half(s, key), [start] + mid + [end], s, |s|)
  {
    BracketAsValue(s, key, TypeOf(start), u, odd);
    Bracket(Half(s, key), start, s + [Pair(key, TypeOf(start))], mid, u, end, s, |s|);
  }

  /** A node met where a pair starts leaves exactly one half-filled pair behind. */
  lemma {:induction false} NodeOpens(s: seq<Pair>, n: Node)
    requires Opens(s)
    ensures Leads(s, NodeEvents(n), Half(s, ClosedType(n)), |s|)
    decreases n, 1
  {
    match n
    case Leaf(text) =>
      LeadsOne(s, Scalar(text), Half(s, SCALAR), |s|);
    case List(items) =>
      var t := Half(s, SEQUENCE_START);
      ItemsReturn(t, items);
      CollectionOpens(s, SequenceStart, ItemEvents(items), AfterItems(t, items), Odd(items), SequenceEnd);
    case Table(entries) =>
      var t := Half(s, MAPPING_START);
      EntriesReturn(t, entries);
      CollectionOpens(s, MappingStart, EntryEvents(entries), t, SCALAR, MappingEnd);
  }

  /** A node met where a pair waits for its value removes exactly that pair. */
  lemma {:induction false} NodeCloses(s: seq<Pair>, key: EventType, n: Node)
    requires IsClosed(key)
    ensures Leads(Half(s, key), NodeEvents(n), s, |s|)
    decreases n, 1
  {
    match n
    case Leaf(text) =>
      assert Half(s, key)[..|s|] == s;
      LeadsOne(Half(s, key), Scalar(text), s, |s|);
    case List(items) =>
      var t := s + [Pair(key, SEQUENCE_START)];
      ItemsReturn(t, items);
      CollectionCloses(s, key, SequenceStart, ItemEvents(items), AfterItems(t, items), Odd(items), SequenceEnd);
    case Table(entries) =>
      var t := s + [Pair(key, MAPPING_START)];
      EntriesReturn(t, entries);
      CollectionCloses(s, key, MappingStart, EntryEvents(entries), t, SCALAR, MappingEnd);
  }

  /** A complete pair, then whatever follows it on the same level. */
  lemma PairThen(s: seq<Pair>, a: seq<Event>, h: seq<Pair>, b: seq<Event>, rest: seq<Event>, u: seq<Pair>)
    requires s != [] && |h| > |s| && a != [] && b != []
    requires Leads(s, a, h, |s|) && Leads(h, b, s, |s|) && Leads(s, rest, u, |s| - 1)
    ensures Leads(s, a + b + rest, u, |s| - 1)
  {
    LeadsConcat(s, a, h, b, s, |s|, |s|);
    LeadsConcat(s, a + b, s, rest, u, |s|, |s| - 1);
  }

  lemma TwoItems(items: seq<Node>)
    requires |items| >= 2
    ensures ItemEvents(items) == NodeEvents(items[0]) + NodeEvents(items[1]) + ItemEvents(items[2..])
  {
    assert items[1..][1..] == items[2..];
  }

  lemma {:induction false} ItemsReturn(s: seq<Pair>, items: seq<Node>)
    requires Opens(s) && s != []
    ensures Leads(s, ItemEvents(items), AfterItems(s, items), |s| - 1)
    decreases items, 0
  {
    if items != [] {
      var a := NodeEvents(items[0]);
      var h := Half(s, ClosedType(items[0]));
      NodeOpens(s, items[0]);
      if |items| == 1 {
        DeeperWeaken(s, a, |s|, |s| - 1);
        assert ItemEvents(items) == a;
      } else {
        NodeCloses(s, ClosedType(items[0]), items[1]);
        ItemsReturn(s, items[2..]);
        TwoItems(items);
        PairThen(s, a, h, NodeEvents(items[1]), ItemEvents(items[2..]), AfterItems(s, items[2..]));
      }
    }
  }

  lemma {:induction false} EntriesReturn(s: seq<Pair>, entries: seq<Entry>)
    requires Opens(s) && s != []
    ensures Leads(s, EntryEvents(entries), s, |s| - 1)
    decreases entries, 0
  {
    if entries != [] {
      var e := entries[0];
      assert e.key < e && e.value < e;
      NodeOpens(s, e.key);
      NodeCloses(s, ClosedType(e.key), e.value);
      EntriesReturn(s, entries[1..]);
      PairThen(s, NodeEvents(e.key), Half(s, ClosedType(e.key)), NodeEvents(e.value), EntryEvents(entries[1..]), s);
    }
  }

  // ---------------------------------------------------------------------
  // What the stack is for

  lemma {:induction false} DeeperPrefix(s: seq<Pair>, es: seq<Event>, floor: nat, k: nat)
    requires Deeper(s, es, floor) && 0 < k < |es|
    ensures Fed(s, es[..k]).Stack? && |Fed(s, es[..k]).pairs| > floor
    decreases k
  {
    var (ok, s') := Added(s, TypeOf(es[0]));
    assert es[..k][1..] == es[1..][..k - 1];
    if k > 1 {
      DeeperPrefix(s', es[1..], floor, k - 1);
    }
  }

  /** Fed to an empty stack, the events of any key and any value are all
      accepted, keep it occupied until the last of them, and then empty it. */
  lemma SkipsExactlyOnePair(key: Node, value: Node)
    ensures var es := NodeEvents(key) + NodeEvents(value);
            Leads([], es, [], 0)
            && forall k: nat :: 0 < k < |es| ==> Fed([], es[..k]).Stack? && Fed([], es[..k]).pairs != []
  {
    var es := NodeEvents(key) + NodeEvents(value);
    NodeOpens([], key);
    NodeCloses([], ClosedType(key), value);
    LeadsConcat([], NodeEvents(key), Half([], ClosedType(key)), NodeEvents(value), [], 0, 0);
    forall k: nat | 0 < k < |es|
      ensures Fed([], es[..k]).Stack? && Fed([], es[..k]).pairs != []
    {
      DeeperPrefix([], es, 0, k);
    }
  }
}
