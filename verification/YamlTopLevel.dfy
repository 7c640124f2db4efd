/** The loop that reads the top level of a YAML or JSON configuration: it hands
    each known section to its loader and skips everything else. */
module YamlTopLevel {
  import opened Text
  import opened YamlStack
  import YamlReading

  datatype Section = GLOBAL | SVRNODE | SLVNODE

  function LowerChar(c: char): char {
    if 'A' <= c <= 'Z' then (c as int + 32) as char else c
  }

  /** Equality up to ASCII case, as strcasecmp decides it. */
  predicate SameIgnoringCase(a: string, b: string) {
    |a| == |b| && forall i :: 0 <= i < |a| ==> LowerChar(a[i]) == LowerChar(b[i])
  }

  function SectionOf(keyword: string): Option<Section> {
    if SameIgnoringCase("GLOBAL", keyword) then Some(GLOBAL)
    else if SameIgnoringCase("SVRNODE", keyword) then Some(SVRNODE)
    else if SameIgnoringCase("SLVNODE", keyword) then Some(SLVNODE)
    else None
  }

  /** What a section loader did with the events that follow its keyword. */
  datatype Loaded<+C> = Failed | Consumed(config: C, events: nat)

  type Loader<!C> = (Section, C, seq<Event>) -> Loaded<C>

  datatype State<+C> = State(inStream: bool, inDocument: bool, inTopLevel: bool, stack: seq<Pair>, config: C)

  /** Whether the loop pushes the event on its skip stack. */
  predicate Stacks<C>(st: State<C>, e: Event) {
    match e
    case NoEvent | Alias => false
    case StreamStart => st.stack != [] || st.inStream
    case StreamEnd => st.stack != [] || !st.inStream
    case DocumentStart => st.stack != [] || !st.inStream || st.inDocument
    case DocumentEnd => st.stack != [] || !st.inDocument
    case MappingStart => st.stack != [] || !st.inStream || !st.inDocument || st.inTopLevel
    case MappingEnd => st.stack != [] || !st.inTopLevel
    case SequenceStart | SequenceEnd => true
    case Scalar(text) =>
      st.stack != [] || !st.inStream || !st.inDocument || !st.inTopLevel || SectionOf(text) == None
  }

  /** The flags after an event that is not stacked. */
  function Flagged<C>(st: State<C>, e: Event): State<C> {
    match e
    case StreamStart => st.(inStream := true)
    case StreamEnd => st.(inStream := false)
    case DocumentStart => st.(inDocument := true)
    case DocumentEnd => st.(inDocument := false)
    case MappingStart => st.(inTopLevel := true)
    case MappingEnd => st.(inTopLevel := false)
    case _ => st
  }

  /** The configuration a run of the loop produces; None when the loop gives up. */
  function TopRun<C>(load: Loader<C>, st: State<C>, es: seq<Event>): Option<C>
    decreases |es|
  {
    if es == [] then None
    else
      var e, rest := es[0], es[1..];
      if Stacks(st, e) then
        var (ok, stack) := Added(st.stack, TypeOf(e));
        if !ok then None
        else if e == StreamEnd then Some(st.config)
        else TopRun(load, st.(stack := stack), rest)
      else if e.Scalar? then
        var r := load(SectionOf(e.text).value, st.config, rest);
        if r.Failed? || r.events > |rest| then None
        else TopRun(load, st.(config := r.config), rest[r.events..])
      else if e == StreamEnd then Some(st.config)
      else TopRun(load, Flagged(st, e), rest)
  }

  function Start<C>(config: C): State<C> {
    State(false, false, false, [], config)
  }

  /** The loop itself, over the events the parser still has to deliver. */
  method LoadTopLevel<C>(load: Loader<C>, initial: C, es: seq<Event>) returns (r: Option<C>)
    ensures r == TopRun(load, Start(initial), es)
  {
    var other := new YamlDataStack();
    var inStream, inDocument, inTopLevel := false, false, false;
    var config := initial;
    var pos := 0;
    while pos < |es|
      invariant pos <= |es| && fresh(other)
      invariant TopRun(load, Start(initial), es)
             == TopRun(load, State(inStream, inDocument, inTopLevel, other.stack, config), es[pos..])
    {
      var e := es[pos];
      ghost var before := State(inStream, inDocument, inTopLevel, other.stack, config);
      assert es[pos..][0] == e && es[pos..][1..] == es[pos + 1..];
      pos := pos + 1;
      var skipping := other.stack != [];
      var stack := false;
      match e {
        case NoEvent =>
        case Alias =>
        case StreamStart =>
          if skipping || inStream { stack := true; } else { inStream := true; }
        case StreamEnd =>
          if skipping || !inStream { stack := true; } else { inStream := false; }
        case DocumentStart =>
          if skipping || !inStream || inDocument { stack := true; } else { inDocument := true; }
        case DocumentEnd =>
          if skipping || !inDocument { stack := true; } else { inDocument := false; }
        case MappingStart =>
          if skipping || !inStream || !inDocument || inTopLevel { stack := true; } else { inTopLevel := true; }
        case MappingEnd =>
          if skipping || !inTopLevel { stack := true; } else { inTopLevel := false; }
        case SequenceStart =>
          stack := true;
        case SequenceEnd =>
          stack := true;
        case Scalar(text) =>
          if skipping || !inStream || !inDocument || !inTopLevel || SectionOf(text) == None {
            stack := true;
          } else {
            var section := load(SectionOf(text).value, config, es[pos..]);
            if section.Failed? || section.events > |es| - pos {
              return None;
            }
            config := section.config;
            assert es[pos..][section.events..] == es[pos + section.events..];
            pos := pos + section.events;
          }
      }
      assert stack == Stacks(before, e);
      if stack {
        var ok := other.Add(TypeOf(e));
        if !ok {
          return None;
        }
      }
      if e == StreamEnd {
        return Some(config);
      }
    }
    return None;
  }

  // ---------------------------------------------------------------------
  // What the loop loads

  /** What the loaders make of the entries of the top-level mapping, in order;
      an entry whose key is not a section keyword contributes nothing. */
  function LoadAll<C>(meaning: (Section, C, Node) -> Option<C>, config: C, entries: seq<Entry>): Option<C> {
    if entries == [] then Some(config)
    else
      var e := entries[0];
      if e.key.Leaf? && SectionOf(e.key.text).Some? then
        match meaning(SectionOf(e.key.text).value, config, e.value)
        case None => None
        case Some(c) => LoadAll(meaning, c, entries[1..])
      else LoadAll(meaning, config, entries[1..])
  }

  /** A loader either fails or consumes exactly the one node behind its keyword,
      and looks at nothing beyond it. */
  ghost predicate ReadsOneNode<C(!new)>(load: Loader<C>, meaning: (Section, C, Node) -> Option<C>) {
    forall s, c, n, rest ::
      load(s, c, NodeEvents(n) + rest)
      == match meaning(s, c, n) case None => Failed case Some(d) => Consumed(d, |NodeEvents(n)|)
  }

  /** The loader that reads a node and gives it this meaning. */
  function LoaderOf<C>(meaning: (Section, C, Node) -> Option<C>): Loader<C> {
    (s: Section, c: C, es: seq<Event>) =>
      match YamlReading.ReadNode(es)
      case None => Failed
      case Some(read) =>
        match meaning(s, c, read.0)
        case None => Failed
        case Some(d) => Consumed(d, |es| - |read.1|)
  }

  /** There is such a loader for every meaning of sections. */
  lemma LoaderReadsOneNode<C(!new)>(meaning: (Section, C, Node) -> Option<C>)
    ensures ReadsOneNode(LoaderOf(meaning), meaning)
  {
    hide YamlReading.ReadNode, NodeEvents;
    forall s, c, n, rest
      ensures LoaderOf(meaning)(s, c, NodeEvents(n) + rest)
           == match meaning(s, c, n) case None => Failed case Some(d) => Consumed(d, |NodeEvents(n)|)
    {
      YamlReading.NodeReadsBack(n, rest);
    }
  }

  function DocumentEvents(entries: seq<Entry>): seq<Event> {
    [StreamStart, DocumentStart] + NodeEvents(Table(entries)) + [DocumentEnd, StreamEnd]
  }

  /** Events that keep the loop running and that the skip stack sees. */
  predicate Plain(es: seq<Event>) {
    forall i :: 0 <= i < |es| ==> es[i] !in {NoEvent, StreamEnd, Alias}
  }

  lemma {:induction false} NodesArePlain(n: Node)
    ensures Plain(NodeEvents(n))
    decreases n, 1
  {
    match n
    case Leaf(_) =>
    case List(items) => ItemsArePlain(items);
    case Table(entries) => EntriesArePlain(entries);
  }

  lemma {:induction false} ItemsArePlain(items: seq<Node>)
    ensures Plain(ItemEvents(items))
    decreases items, 0
  {
    if items != [] {
      NodesArePlain(items[0]);
      ItemsArePlain(items[1..]);
    }
  }

  lemma {:induction false} EntriesArePlain(entries: seq<Entry>)
    ensures Plain(EntryEvents(entries))
    decreases entries, 0
  {
    if entries != [] {
      var e := entries[0];
      assert e.key < e && e.value < e;
      NodesArePlain(e.key);
      NodesArePlain(e.value);
      EntriesArePlain(entries[1..]);
    }
  }

  /** Once its first event is stacked, a run that empties the skip stack only
      at its end goes to that stack alone. */
  lemma {:induction false} SkipsRun<C>(load: Loader<C>, st: State<C>, es: seq<Event>, t: seq<Pair>, rest: seq<Event>)
    requires es != [] && Plain(es)
    requires Stacks(st, es[0])
    requires Leads(st.stack, es, t, 0)
    ensures TopRun(load, st, es + rest) == TopRun(load, st.(stack := t), rest)
    decreases |es|
  {
    var s' := Added(st.stack, TypeOf(es[0])).1;
    assert (es + rest)[0] == es[0] && (es + rest)[1..] == es[1..] + rest;
    if |es| == 1 {
      assert es[1..] == [] && es[1..] + rest == rest;
      assert Fed(st.stack, es) == Fed(s', []);
    } else {
      SkipsRun(load, st.(stack := s'), es[1..], t, rest);
    }
  }

  predicate Known(e: Entry) {
    e.key.Leaf? && SectionOf(e.key.text).Some?
  }

  /** The loop inside the top-level mapping, between two entries. */
  function InTopLevel<C>(config: C): State<C> {
    State(true, true, true, [], config)
  }

  /** An entry that is not a section leaves the loop exactly where it was. */
  lemma SkipsEntry<C>(load: Loader<C>, config: C, e: Entry, rest: seq<Event>)
    requires !Known(e)
    ensures TopRun(load, InTopLevel(config), NodeEvents(e.key) + NodeEvents(e.value) + rest)
         == TopRun(load, InTopLevel(config), rest)
  {
    var es := NodeEvents(e.key) + NodeEvents(e.value);
    SkipsExactlyOnePair(e.key, e.value);
    NodesArePlain(e.key);
    NodesArePlain(e.value);
    assert es[0] == NodeEvents(e.key)[0];
    SkipsRun(load, InTopLevel(config), es, [], rest);
  }

  /** A section entry is handed to its loader, which takes its value and no more. */
  lemma LoadsEntry<C(!new)>(load: Loader<C>, meaning: (Section, C, Node) -> Option<C>, config: C, e: Entry,
                            rest: seq<Event>)
    requires ReadsOneNode(load, meaning) && Known(e)
    ensures TopRun(load, InTopLevel(config), NodeEvents(e.key) + NodeEvents(e.value) + rest)
         == match meaning(SectionOf(e.key.text).value, config, e.value)
            case None => None
            case Some(c) => TopRun(load, InTopLevel(c), rest)
  {
    var key, value := NodeEvents(e.key), NodeEvents(e.value);
    var es := key + value + rest;
    assert es[0] == Scalar(e.key.text) && es[1..] == value + rest;
    var r := load(SectionOf(e.key.text).value, config, value + rest);
    if r.Consumed? {
      assert (value + rest)[|value|..] == rest;
    }
  }

  lemma {:induction false} EntriesLoad<C(!new)>(load: Loader<C>, meaning: (Section, C, Node) -> Option<C>, config: C,
                                                entries: seq<Entry>, rest: seq<Event>)
    requires ReadsOneNode(load, meaning)
    ensures TopRun(load, InTopLevel(config), EntryEvents(entries) + rest)
         == match LoadAll(meaning, config, entries)
            case None => None
            case Some(c) => TopRun(load, InTopLevel(c), rest)
    decreases |entries|
  {
    if entries == [] {
      assert EntryEvents(entries) + rest == rest;
    } else {
      var e, others := entries[0], EntryEvents(entries[1..]) + rest;
      assert EntryEvents(entries) + rest == NodeEvents(e.key) + NodeEvents(e.value) + others;
      if Known(e) {
        LoadsEntry(load, meaning, config, e, others);
        match meaning(SectionOf(e.key.text).value, config, e.value)
        case None =>
        case Some(c) => EntriesLoad(load, meaning, c, entries[1..], rest);
      } else {
        SkipsEntry(load, config, e, others);
        EntriesLoad(load, meaning, config, entries[1..], rest);
      }
    }
  }

  /** Whatever else a document's top level holds, the loop loads its sections in
      document order, and fails exactly when one of their loaders fails. */
  lemma DocumentLoads<C(!new)>(load: Loader<C>, meaning: (Section, C, Node) -> Option<C>, config: C,
                               entries: seq<Entry>)
    requires ReadsOneNode(load, meaning)
    ensures TopRun(load, Start(config), DocumentEvents(entries)) == LoadAll(meaning, config, entries)
  {
    hide LoadAll, EntryEvents;
    var tail := [MappingEnd, DocumentEnd, StreamEnd];
    DocumentOpens(load, config, entries);
    EntriesLoad(load, meaning, config, entries, tail);
    match LoadAll(meaning, config, entries)
    case None =>
    case Some(c) => DocumentCloses(load, c);
  }

  lemma DocumentOpens<C(!new)>(load: Loader<C>, config: C, entries: seq<Entry>)
    ensures TopRun(load, Start(config), DocumentEvents(entries))
         == TopRun(load, InTopLevel(config), EntryEvents(entries) + [MappingEnd, DocumentEnd, StreamEnd])
  {
    hide EntryEvents;
    var es := DocumentEvents(entries);
    var body := EntryEvents(entries) + [MappingEnd, DocumentEnd, StreamEnd];
    assert es[0] == StreamStart && es[1..][0] == DocumentStart && es[1..][1..][0] == MappingStart;
    assert es[1..][1..][1..] == body;
    var s0 := Start(config);
    var s1 := s0.(inStream := true);
    var s2 := s1.(inDocument := true);
    assert TopRun(load, s0, es) == TopRun(load, s1, es[1..]);
    assert TopRun(load, s1, es[1..]) == TopRun(load, s2, es[1..][1..]);
    assert TopRun(load, s2, es[1..][1..]) == TopRun(load, InTopLevel(config), body);
  }

  lemma DocumentCloses<C(!new)>(load: Loader<C>, c: C)
    ensures TopRun(load, InTopLevel(c), [MappingEnd, DocumentEnd, StreamEnd]) == Some(c)
  {
    var tail := [MappingEnd, DocumentEnd, StreamEnd];
    assert tail[1..] == [DocumentEnd, StreamEnd] && tail[1..][1..] == [StreamEnd];
    assert TopRun(load, InTopLevel(c), tail) == TopRun(load, InTopLevel(c).(inTopLevel := false), tail[1..]);
  }

  // ---------------------------------------------------------------------
  // Other streams

  /** An alias, or no event at all, is passed over wherever it comes. */
  lemma PassedOver<C>(load: Loader<C>, st: State<C>, e: Event, rest: seq<Event>)
    requires e == Alias || e == NoEvent
    ensures TopRun(load, st, [e] + rest) == TopRun(load, st, rest)
  {
    assert ([e] + rest)[1..] == rest;
  }

  function DocumentsEvents(documents: seq<seq<Entry>>): seq<Event> {
    if documents == [] then []
    else [DocumentStart] + NodeEvents(Table(documents[0])) + [DocumentEnd] + DocumentsEvents(documents[1..])
  }

  function AllEntries(documents: seq<seq<Entry>>): seq<Entry> {
    if documents == [] then [] else documents[0] + AllEntries(documents[1..])
  }

  /** Between two documents. */
  function InStream<C>(config: C): State<C> {
    State(true, false, false, [], config)
  }

  lemma DocumentStarts<C>(load: Loader<C>, config: C, rest: seq<Event>)
    ensures TopRun(load, InStream(config), [DocumentStart, MappingStart] + rest)
         == TopRun(load, InTopLevel(config), rest)
  {
    var es := [DocumentStart, MappingStart] + rest;
    assert es[1..][0] == MappingStart && es[1..][1..] == rest;
    assert TopRun(load, InStream(config), es) == TopRun(load, InStream(config).(inDocument := true), es[1..]);
  }

  lemma DocumentStops<C>(load: Loader<C>, config: C, rest: seq<Event>)
    ensures TopRun(load, InTopLevel(config), [MappingEnd, DocumentEnd] + rest) == TopRun(load, InStream(config), rest)
  {
    var es := [MappingEnd, DocumentEnd] + rest;
    assert es[1..][0] == DocumentEnd && es[1..][1..] == rest;
    assert TopRun(load, InTopLevel(config), es) == TopRun(load, InTopLevel(config).(inTopLevel := false), es[1..]);
  }

  lemma {:induction false} DocumentsLoad<C(!new)>(load: Loader<C>, meaning: (Section, C, Node) -> Option<C>, config: C,
                                                  documents: seq<seq<Entry>>)
    requires ReadsOneNode(load, meaning)
    ensures TopRun(load, InStream(config), DocumentsEvents(documents) + [StreamEnd])
         == LoadAll(meaning, config, AllEntries(documents))
    decreases |documents|
  {
    hide ReadsOneNode, EntryEvents, LoadAll;
    if documents == [] {
      StreamStops(load, config);
      assert [] + [StreamEnd] == [StreamEnd];
      assert LoadAll(meaning, config, []) == Some(config) by { NothingLoads(meaning, config); }
    } else {
      var first, later := documents[0], DocumentsEvents(documents[1..]) + [StreamEnd];
      var body := EntryEvents(first) + ([MappingEnd, DocumentEnd] + later);
      assert DocumentsEvents(documents) + [StreamEnd] == [DocumentStart, MappingStart] + body;
      DocumentStarts(load, config, body);
      EntriesLoad(load, meaning, config, first, [MappingEnd, DocumentEnd] + later);
      LoadAllConcat(meaning, config, first, AllEntries(documents[1..]));
      match LoadAll(meaning, config, first)
      case None =>
      case Some(c) =>
        DocumentStops(load, c, later);
        DocumentsLoad(load, meaning, c, documents[1..]);
    }
  }

  lemma StreamStops<C>(load: Loader<C>, config: C)
    ensures TopRun(load, InStream(config), [StreamEnd]) == Some(config)
  {
  }

  lemma NothingLoads<C>(meaning: (Section, C, Node) -> Option<C>, config: C)
    ensures LoadAll(meaning, config, []) == Some(config)
  {
  }

  /** A stream of several documents loads the sections of all of them, one on top of the other. */
  lemma StreamLoads<C(!new)>(load: Loader<C>, meaning: (Section, C, Node) -> Option<C>, config: C,
                             documents: seq<seq<Entry>>)
    requires ReadsOneNode(load, meaning)
    ensures TopRun(load, Start(config), [StreamStart] + (DocumentsEvents(documents) + [StreamEnd]))
         == LoadAll(meaning, config, AllEntries(documents))
  {
    hide ReadsOneNode, DocumentsEvents, LoadAll;
    DocumentsLoad(load, meaning, config, documents);
    var es := DocumentsEvents(documents) + [StreamEnd];
    assert ([StreamStart] + es)[1..] == es;
  }

  /** A document that is no mapping loads nothing. */
  lemma OtherRootLoadsNothing<C>(load: Loader<C>, config: C, root: Node)
    requires !root.Table?
    ensures TopRun(load, Start(config), [StreamStart, DocumentStart] + NodeEvents(root) + [DocumentEnd, StreamEnd])
         == Some(config)
  {
    hide NodeEvents;
    var tail := [DocumentEnd, StreamEnd];
    var es := [StreamStart, DocumentStart] + NodeEvents(root) + tail;
    var s0 := Start(config);
    var s1 := s0.(inStream := true);
    var s2 := s1.(inDocument := true);
    assert es[1..][0] == DocumentStart && es[1..][1..] == NodeEvents(root) + tail;
    assert TopRun(load, s0, es) == TopRun(load, s1, es[1..]) == TopRun(load, s2, NodeEvents(root) + tail);
    NodeOpens([], root);
    NodesArePlain(root);
    RootIsStacked(s2, root);
    SkipsRun(load, s2, NodeEvents(root), Half([], ClosedType(root)), tail);
    DocumentEndPops(load, s2, Half([], ClosedType(root)));
  }

  lemma RootIsStacked<C>(st: State<C>, root: Node)
    requires !root.Table? && !st.inTopLevel
    ensures Stacks(st, NodeEvents(root)[0])
  {
  }

  lemma DocumentEndPops<C>(load: Loader<C>, st: State<C>, stack: seq<Pair>)
    requires |stack| == 1 && stack[0].first != DOCUMENT_START && st.inStream
    ensures TopRun(load, st.(stack := stack), [DocumentEnd, StreamEnd]) == Some(st.config)
  {
    var es, s1 := [DocumentEnd, StreamEnd], st.(stack := []);
    assert es[1..] == [StreamEnd];
    assert TopRun(load, st.(stack := stack), es) == TopRun(load, s1, [StreamEnd]);
  }

  lemma {:induction false} LoadAllConcat<C>(meaning: (Section, C, Node) -> Option<C>, config: C, a: seq<Entry>,
                                            b: seq<Entry>)
    ensures LoadAll(meaning, config, a + b)
         == match LoadAll(meaning, config, a) case None => None case Some(c) => LoadAll(meaning, c, b)
    decreases |a|
  {
    if a == [] {
      assert a + b == b;
    } else {
      assert (a + b)[0] == a[0] && (a + b)[1..] == a[1..] + b;
      if Known(a[0]) {
        match meaning(SectionOf(a[0].key.text).value, config, a[0].value)
        case None =>
        case Some(c) => LoadAllConcat(meaning, c, a[1..], b);
      } else {
        LoadAllConcat(meaning, config, a[1..], b);
      }
    }
  }

  /** The text spells these capitals, in any case. */
  predicate Spells(text: string, capitals: string) {
    |text| == |capitals|
    && forall i :: 0 <= i < |text| ==> text[i] == capitals[i] || text[i] as int == capitals[i] as int + 32
  }

  predicate Capitals(s: string) {
    forall i :: 0 <= i < |s| ==> 'A' <= s[i] <= 'Z'
  }

  lemma SpellsIgnoringCase(text: string, capitals: string)
    requires Capitals(capitals)
    ensures SameIgnoringCase(capitals, text) <==> Spells(text, capitals)
  {
    if SameIgnoringCase(capitals, text) {
      forall i | 0 <= i < |text| ensures text[i] == capitals[i] || text[i] as int == capitals[i] as int + 32 {
        assert LowerChar(capitals[i]) == LowerChar(text[i]);
      }
    }
  }

  /** No text spells two of the keywords. */
  lemma KeywordsDiffer(text: string)
    ensures !(Spells(text, "GLOBAL") && Spells(text, "SVRNODE")) && !(Spells(text, "GLOBAL") && Spells(text, "SLVNODE"))
    ensures !(Spells(text, "SVRNODE") && Spells(text, "SLVNODE"))
  {
    assert "SVRNODE"[1] == 'V' && "SLVNODE"[1] == 'L';
    if |text| == 7 {
      assert Spells(text, "SVRNODE") ==> text[1] == 'V' || text[1] == 'v';
      assert Spells(text, "SLVNODE") ==> text[1] == 'L' || text[1] == 'l';
    }
  }

  lemma KeywordsAre(text: string)
    ensures Spells(text, "GLOBAL") ==> SectionOf(text) == Some(GLOBAL)
    ensures Spells(text, "SVRNODE") ==> SectionOf(text) == Some(SVRNODE)
    ensures Spells(text, "SLVNODE") ==> SectionOf(text) == Some(SLVNODE)
    ensures !Spells(text, "GLOBAL") && !Spells(text, "SVRNODE") && !Spells(text, "SLVNODE") ==> SectionOf(text) == None
  {
    hide SameIgnoringCase, Spells;
    SpellsIgnoringCase(text, "GLOBAL");
    SpellsIgnoringCase(text, "SVRNODE");
    SpellsIgnoringCase(text, "SLVNODE");
    KeywordsDiffer(text);
  }

  /** Each of the three keywords, in any case, gets its own section loaded from its value;
      any other text, and any key that is no text, gets none. */
  lemma KeywordLoads<C(!new)>(load: Loader<C>, meaning: (Section, C, Node) -> Option<C>, config: C, key: Node, v: Node)
    requires ReadsOneNode(load, meaning)
    ensures var r := TopRun(load, Start(config), DocumentEvents([Entry(key, v)]));
            if key.Leaf? && Spells(key.text, "GLOBAL") then r == meaning(GLOBAL, config, v)
            else if key.Leaf? && Spells(key.text, "SVRNODE") then r == meaning(SVRNODE, config, v)
            else if key.Leaf? && Spells(key.text, "SLVNODE") then r == meaning(SLVNODE, config, v)
            else r == Some(config)
  {
    hide Spells, SectionOf, TopRun, ReadsOneNode;
    if key.Leaf? {
      KeywordsAre(key.text);
    }
    DocumentLoads(load, meaning, config, [Entry(key, v)]);
    assert [Entry(key, v)][1..] == [];
  }

  /** An unknown key with any value, put anywhere between the top-level
      entries, changes nothing that is loaded. */
  lemma UnknownEntryChangesNothing<C(!new)>(load: Loader<C>, meaning: (Section, C, Node) -> Option<C>, config: C,
                                            before: seq<Entry>, e: Entry, after: seq<Entry>)
    requires ReadsOneNode(load, meaning) && !Known(e)
    ensures TopRun(load, Start(config), DocumentEvents(before + [e] + after))
         == TopRun(load, Start(config), DocumentEvents(before + after))
  {
    DocumentLoads(load, meaning, config, before + [e] + after);
    DocumentLoads(load, meaning, config, before + after);
    LoadAllConcat(meaning, config, before, [e] + after);
    LoadAllConcat(meaning, config, before, after);
    assert before + [e] + after == before + ([e] + after);
    assert ([e] + after)[1..] == after;
  }

  /** A section that appears twice is loaded twice, the second time on top of
      the first: the loop never records that it has loaded a section. */
  lemma RepeatedSectionLoadsAgain<C(!new)>(load: Loader<C>, meaning: (Section, C, Node) -> Option<C>, config: C,
                                           first: Entry, between: seq<Entry>, again: Entry)
    requires ReadsOneNode(load, meaning) && Known(first) && Known(again)
    requires SectionOf(first.key.text) == SectionOf(again.key.text)
    requires forall e :: e in between ==> !Known(e)
    ensures TopRun(load, Start(config), DocumentEvents([first] + between + [again]))
         == (var s := SectionOf(first.key.text).value;
             match meaning(s, config, first.value)
             case None => None
             case Some(c) => meaning(s, c, again.value))
  {
    var es := [first] + between + [again];
    DocumentLoads(load, meaning, config, es);
    assert es == [first] + (between + [again]) && es[1..] == between + [again];
    match meaning(SectionOf(first.key.text).value, config, first.value)
    case None =>
    case Some(c) =>
      LoadAllConcat(meaning, c, between, [again]);
      SkipsAll(meaning, c, between);
  }

  lemma {:induction false} SkipsAll<C>(meaning: (Section, C, Node) -> Option<C>, config: C, entries: seq<Entry>)
    requires forall e :: e in entries ==> !Known(e)
    ensures LoadAll(meaning, config, entries) == Some(config)
    decreases |entries|
  {
    if entries != [] {
      assert entries[0] in entries;
      SkipsAll(meaning, config, entries[1..]);
    }
  }
}
