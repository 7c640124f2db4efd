/** Reading nodes back from the events a parser reports for them. */
module YamlReading {
  import opened Text
  import opened YamlStack

  /** The node at the start of the events, and the events behind it. */
  function ReadNode(es: seq<Event>): (r: Option<(Node, seq<Event>)>)
    ensures r.Some? ==> |r.value.1| < |es|
    decreases |es|, 0
  {
    if es == [] then None
    else
      match es[0]
      case Scalar(text) => Some((Leaf(text), es[1..]))
      case SequenceStart =>
        (match ReadItems(es[1..])
         case None => None
         case Some(read) => Some((List(read.0), read.1)))
      case MappingStart =>
        (match ReadEntries(es[1..])
         case None => None
         case Some(read) => Some((Table(read.0), read.1)))
      case _ => None
  }

  /** The items up to the end of their sequence. */
  function ReadItems(es: seq<Event>): (r: Option<(seq<Node>, seq<Event>)>)
    ensures r.Some? ==> |r.value.1| < |es|
    decreases |es|, 1
  {
    if es == [] then None
    else if es[0] == SequenceEnd then Some(([], es[1..]))
    else
      match ReadNode(es)
      case None => None
      case Some(item) =>
        match ReadItems(item.1)
        case None => None
        case Some(items) => Some(([item.0] + items.0, items.1))
  }

  /** The entries up to the end of their mapping. */
  function ReadEntries(es: seq<Event>): (r: Option<(seq<Entry>, seq<Event>)>)
    ensures r.Some? ==> |r.value.1| < |es|
    decreases |es|, 1
  {
    if es == [] then None
    else if es[0] == MappingEnd then Some(([], es[1..]))
    else
      match ReadNode(es)
      case None => None
      case Some(key) =>
        match ReadNode(key.1)
        case None => None
        case Some(value) =>
          match ReadEntries(value.1)
          case None => None
          case Some(entries) => Some(([Entry(key.0, value.0)] + entries.0, entries.1))
  }

  /** A node reads back from its events, whatever follows. */
  lemma {:induction false} NodeReadsBack(n: Node, after: seq<Event>)
    ensures ReadNode(NodeEvents(n) + after) == Some((n, after))
    decreases n, 1
  {
    hide ItemEvents, EntryEvents, ReadItems, ReadEntries;
    var es := NodeEvents(n) + after;
    match n
    case Leaf(_) =>
      assert es[1..] == after;
    case List(items) =>
      ItemsReadBack(items, after);
      assert es[1..] == ItemEvents(items) + [SequenceEnd] + after;
    case Table(entries) =>
      EntriesReadBack(entries, after);
      assert es[1..] == EntryEvents(entries) + [MappingEnd] + after;
  }

  /** No node's events end a collection. */
  lemma NodeBegins(n: Node)
    ensures NodeEvents(n)[0] != SequenceEnd && NodeEvents(n)[0] != MappingEnd
  {
  }

  lemma {:induction false} ItemsReadBack(items: seq<Node>, after: seq<Event>)
    ensures ReadItems(ItemEvents(items) + [SequenceEnd] + after) == Some((items, after))
    decreases items, 0
  {
    hide NodeEvents, ReadNode;
    var es := ItemEvents(items) + [SequenceEnd] + after;
    if items == [] {
      assert es[1..] == after;
    } else {
      var later := ItemEvents(items[1..]) + [SequenceEnd] + after;
      NodeBegins(items[0]);
      assert es == NodeEvents(items[0]) + later;
      NodeReadsBack(items[0], later);
      ItemsReadBack(items[1..], after);
      assert items == [items[0]] + items[1..];
    }
  }

  lemma {:induction false} EntriesReadBack(entries: seq<Entry>, after: seq<Event>)
    ensures ReadEntries(EntryEvents(entries) + [MappingEnd] + after) == Some((entries, after))
    decreases entries, 0
  {
    hide NodeEvents, ReadNode;
    var es := EntryEvents(entries) + [MappingEnd] + after;
    if entries == [] {
      assert es[1..] == after;
    } else {
      var e, later := entries[0], EntryEvents(entries[1..]) + [MappingEnd] + after;
      assert e.key < e && e.value < e;
      NodeBegins(e.key);
      assert es == NodeEvents(e.key) + (NodeEvents(e.value) + later);
      NodeReadsBack(e.key, NodeEvents(e.value) + later);
      NodeReadsBack(e.value, later);
      EntriesReadBack(entries[1..], after);
      assert entries == [Entry(e.key, e.value)] + entries[1..];
    }
  }

  /** So events are those of at most one node, and no node's events begin another's. */
  lemma NodesAreToldApart(n: Node, after: seq<Event>, n': Node, after': seq<Event>)
    requires NodeEvents(n) + after == NodeEvents(n') + after'
    ensures n == n' && after == after'
  {
    NodeReadsBack(n, after);
    NodeReadsBack(n', after');
  }
}
