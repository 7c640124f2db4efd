/** How a message moves from one process to another: its head and body are put
    into a shared store, a word naming it is posted on the receiver's queue, and
    the receiver takes the word, reads the entries and removes them. Every call to
    the store or to a queue is one step, and the steps of any number of sends and
    receives interleave freely. */
module Transfer {
  import opened Text
  import opened Words
  import opened MessageId

  datatype ComType = C2C | C2PX | PX2C | OTHER

  type Bytes = seq<int>

  /** The head of a packet: what the transfer looks at, and the rest of its bytes. */
  datatype Head = Head(ctype: ComType, id: Id, length: nat, offset: nat, rest: Bytes)

  datatype Value = HeadValue(head: Head) | BodyValue(body: Bytes)

  /** What does not change during a run. */
  datatype Config = Config(
    base: U64,                // base id of the group
    headSize: nat,            // sizeof(COMPKT)
    retries: nat,             // attempts at a full queue
    useAck: bool,
    chmpxQueues: set<U64>,    // queues of chmpx processes; all others belong to clients
    owner: map<U64, nat>,     // the process that sends from a queue's id
    seeds: map<nat, U64>      // the seed of each process's serial numbers
  )

  datatype SendPc = WriteHead | WriteBody | Post(tries: nat) | DropHead | DropBody | AwaitAck

  /** A send part-way through; an empty body stands for no body. The flags say
      which of its entries it has put into the store. */
  datatype SendOp = SendOp(head: Head, body: Bytes, pc: SendPc, wroteHead: bool, wroteBody: bool)

  datatype RecvPc =
    | GetHead
    | RemoveHead(head: Head)
    | GetBody(head: Head)
    | RemoveBody(head: Head, body: Bytes)
    | Process(head: Head, found: Option<Bytes>)
    | PostAck(head: Head, ok: bool, tries: nat)

  /** A receive part-way through: the queue it took a word from, the word taken
      apart, and what it has read so far. */
  datatype RecvOp = RecvOp(queue: U64, composed: Composed, pc: RecvPc)

  // History, which no step consults except to say which runs are considered.

  datatype Place = AtSender(send: nat) | InQueue | AtReceiver(recv: nat)

  /** A message from the start of its send until its entries are gone again. */
  datatype Flight = Flight(issue: nat, head: Head, body: Bytes, place: Place)

  /** Where the one acknowledgement a client waits for has got to. */
  datatype Token = AskedFor | BeingMade(recv: nat) | Posted

  datatype Wait = Wait(send: nat, id: Id, token: Token, outcome: Option<bool>)

  datatype World = World(
    store: map<Key, Value>,
    queues: map<U64, seq<U64>>,
    sends: map<nat, SendOp>,
    recvs: map<nat, RecvOp>,
    issued: map<nat, nat>,      // how many serial numbers each process has taken
    flight: map<Id, Flight>,
    waits: map<U64, Wait>
  )

  datatype PostResult = Sent | Full | Error

  datatype Step =
    | TakeSerial(process: nat)
    | StartSend(send: nat, issue: nat, head: Head, body: Bytes)
    | SetHead(send: nat, ok: bool)
    | SetBody(send: nat, ok: bool)
    | OpenFails(send: nat)
    | PostWord(send: nat, result: PostResult)
    | GiveUp(send: nat)
    | UnsetHead(send: nat)
    | UnsetBody(send: nat)
    | TakeAck(send: nat)
    | AckTimeout(send: nat)
    | Dequeue(recv: nat, queue: U64)
    | ReadHead(recv: nat)
    | ClearHead(recv: nat)
    | ReadBody(recv: nat)
    | ClearBody(recv: nat)
    | Processed(recv: nat, ok: bool)
    | AnswerWord(recv: nat, result: PostResult)
    | AnswerGivesUp(recv: nat)
    | AnswerOpenFails(recv: nat)

  // ---------------------------------------------------------------------
  // Words and checks

  function DataWord(cfg: Config, id: Id): U64 {
    Compose(cfg.base, Composed(id.dept, id.serial, false, false))
  }

  function AckWord(cfg: Config, id: Id, ok: bool): U64 {
    Compose(cfg.base, Composed(id.dept, id.serial, true, ok))
  }

  /** What Send demands of a packet before it touches the store. */
  predicate Sendable(cfg: Config, head: Head, body: Bytes) {
    match head.ctype
    case C2C => head.length == cfg.headSize && head.offset == cfg.headSize
    case C2PX | PX2C => cfg.headSize <= head.length && head.offset == cfg.headSize && body == []
    case OTHER => false
  }

  /** What ReceiveHead demands of a head it has read. */
  predicate Receivable(cfg: Config, head: Head) {
    match head.ctype
    case C2C => head.length == cfg.headSize && head.offset == cfg.headSize
    case C2PX | PX2C => cfg.headSize <= head.length && head.offset == cfg.headSize
    case OTHER => false
  }

  /** Whether the sender waits for an acknowledgement: only a client does, and only for C2C. */
  predicate SenderWaits(cfg: Config, head: Head) {
    head.ctype == C2C && cfg.useAck && head.id.dept !in cfg.chmpxQueues
  }

  /** Whether the receiver acknowledges: only a chmpx process does, and only C2C. */
  predicate ReceiverAnswers(cfg: Config, queue: U64, head: Head) {
    head.ctype == C2C && cfg.useAck && queue in cfg.chmpxQueues
  }

  predicate GoodId(cfg: Config, id: Id) {
    && Addressable(cfg.base, id.dept) && Addressable(cfg.base, id.term)
    && id.serial <= MAX_SERIAL
    // a client sends to a chmpx process, and a chmpx process to a client
    && (id.dept in cfg.chmpxQueues <==> id.term !in cfg.chmpxQueues)
  }

  // ---------------------------------------------------------------------
  // Steps

  function RecvId(op: RecvOp): Id {
    Id(op.composed.msgid, op.queue, op.composed.number)
  }

  function Enqueued(queues: map<U64, seq<U64>>, queue: U64, word: U64): map<U64, seq<U64>> {
    queues[queue := (if queue in queues then queues[queue] else []) + [word]]
  }

  /** The serial of a message is one its process has taken. */
  predicate IssuedTo(cfg: Config, issued: map<nat, nat>, id: Id, issue: nat) {
    && id.dept in cfg.owner && cfg.owner[id.dept] in cfg.seeds && cfg.owner[id.dept] in issued
    && issue < issued[cfg.owner[id.dept]]
    && id.serial == SerialAt(cfg.seeds[cfg.owner[id.dept]], issue)
  }

  /** A message in flight between the two queues of `id` was given the same serial number as
      number `issue` has: the same number taken, or a multiple of 2^30 of them before or after. */
  predicate Clashes(flight: map<Id, Flight>, issue: nat, id: Id) {
    exists i :: i in flight && i.dept == id.dept && i.term == id.term && (flight[i].issue - issue) % TWO_30 == 0
  }

  /** A send may start with a serial number its process has taken, unless the message
      would share its id with one in flight: this is the one assumption about how long
      messages take. */
  predicate MayStart(cfg: Config, w: World, issue: nat, id: Id) {
    IssuedTo(cfg, w.issued, id, issue) && !Clashes(w.flight, issue, id)
  }

  /** An index from `i` on that is not in use. */
  function FreeIndex(used: set<nat>, i: nat): (k: nat)
    ensures i <= k && k !in used
    decreases used
  {
    if i in used then FreeIndex(used - {i}, i + 1) else i
  }

  function Without<K, V>(m: map<K, V>, k: K): map<K, V> {
    map x | x in m && x != k :: m[x]
  }

  function Moved(flight: map<Id, Flight>, id: Id, place: Place): map<Id, Flight> {
    if id in flight then flight[id := flight[id].(place := place)] else flight
  }

  /** The send is over, and so is its message. */
  function SendOver(w: World, s: nat): World
    requires s in w.sends
  {
    w.(sends := Without(w.sends, s), flight := Without(w.flight, w.sends[s].head.id))
  }

  /** The receiver has read all there is of its message. */
  function AllRead(w: World, r: nat, head: Head, body: Option<Bytes>): World
    requires r in w.recvs
  {
    w.(recvs := w.recvs[r := w.recvs[r].(pc := Process(head, body))],
       flight := Without(w.flight, RecvId(w.recvs[r])))
  }

  function DoTakeSerial(w: World, p: nat): Option<World> {
    if p in w.issued then Some(w.(issued := w.issued[p := w.issued[p] + 1])) else None
  }

  function DoStartSend(cfg: Config, w: World, s: nat, issue: nat, head: Head, body: Bytes): Option<World> {
    if s in w.sends || !Sendable(cfg, head, body) || !GoodId(cfg, head.id) || !MayStart(cfg, w, issue, head.id)
    then None
    else
      Some(w.(sends := w.sends[s := SendOp(head, body, WriteHead, false, false)],
              flight := w.flight[head.id := Flight(issue, head, body, AtSender(s))]))
  }

  function DoSetHead(w: World, s: nat, ok: bool): Option<World> {
    if s !in w.sends || w.sends[s].pc != WriteHead then None
    else
      var op := w.sends[s];
      if ok then
        Some(w.(store := w.store[HeadKey(op.head.id) := HeadValue(op.head)],
                sends := w.sends[s := op.(pc := if op.body == [] then Post(0) else WriteBody, wroteHead := true)]))
      else Some(w.(sends := w.sends[s := op.(pc := DropHead)]))
  }

  function DoSetBody(w: World, s: nat, ok: bool): Option<World> {
    if s !in w.sends || w.sends[s].pc != WriteBody then None
    else
      var op := w.sends[s];
      if ok then
        Some(w.(store := w.store[BodyKey(op.head.id) := BodyValue(op.body)],
                sends := w.sends[s := op.(pc := Post(0), wroteBody := true)]))
      else Some(w.(sends := w.sends[s := op.(pc := DropHead)]))
  }

  /** The receiver's queue cannot be opened. */
  function DoOpenFails(w: World, s: nat): Option<World> {
    if s !in w.sends || w.sends[s].pc != Post(0) then None
    else Some(w.(sends := w.sends[s := w.sends[s].(pc := DropHead)]))
  }

  function DoPostWord(cfg: Config, w: World, s: nat, result: PostResult): Option<World> {
    if s !in w.sends || !w.sends[s].pc.Post? || cfg.retries <= w.sends[s].pc.tries then None
    else
      var op := w.sends[s];
      var id := op.head.id;
      match result
      case Full => Some(w.(sends := w.sends[s := op.(pc := Post(op.pc.tries + 1))]))
      case Error => Some(w.(sends := w.sends[s := op.(pc := DropHead)]))
      case Sent =>
        var posted := w.(queues := Enqueued(w.queues, id.term, DataWord(cfg, id)),
                         flight := Moved(w.flight, id, InQueue));
        if SenderWaits(cfg, op.head) then
          Some(posted.(sends := w.sends[s := op.(pc := AwaitAck)],
                       waits := w.waits[id.dept := Wait(s, id, AskedFor, None)]))
        else Some(posted.(sends := Without(w.sends, s)))
  }

  /** The queue stayed full for as many attempts as there are. */
  function DoGiveUp(cfg: Config, w: World, s: nat): Option<World> {
    if s !in w.sends || !w.sends[s].pc.Post? || w.sends[s].pc.tries < cfg.retries then None
    else Some(w.(sends := w.sends[s := w.sends[s].(pc := DropHead)]))
  }

  function DoUnsetHead(w: World, s: nat): Option<World> {
    if s !in w.sends || w.sends[s].pc != DropHead then None
    else
      var op := w.sends[s];
      var w' := w.(store := Without(w.store, HeadKey(op.head.id)));
      if op.body == [] then Some(SendOver(w', s))
      else Some(w'.(sends := w.sends[s := op.(pc := DropBody, wroteHead := false)]))
  }

  function DoUnsetBody(w: World, s: nat): Option<World> {
    if s !in w.sends || w.sends[s].pc != DropBody then None
    else Some(SendOver(w.(store := Without(w.store, BodyKey(w.sends[s].head.id))), s))
  }

  /** The next word on the client's own queue, if it is an acknowledgement. */
  function NextAck(cfg: Config, w: World, s: nat): Option<Composed> {
    if s !in w.sends || w.sends[s].pc != AwaitAck then None
    else
      var d := w.sends[s].head.id.dept;
      if d !in w.queues || w.queues[d] == [] then None
      else
        match Decompose(cfg.base, w.queues[d][0])
        case Invalid => None
        case Decoded(c) => if c.isAck then Some(c) else None
  }

  /** A waiting send takes an acknowledgement and returns its success flag. The
      number in the acknowledgement is not looked at. */
  function DoTakeAck(cfg: Config, w: World, s: nat): Option<World> {
    if NextAck(cfg, w, s) == None then None
    else
      var d := w.sends[s].head.id.dept;
      Some(w.(queues := w.queues[d := w.queues[d][1..]],
              sends := Without(w.sends, s),
              waits := Without(w.waits, d)))
  }

  function DoAckTimeout(w: World, s: nat): Option<World> {
    if s !in w.sends || w.sends[s].pc != AwaitAck then None
    else
      var d := w.sends[s].head.id.dept;
      Some(w.(sends := Without(w.sends, s), waits := Without(w.waits, d)))
  }

  /** The message of the waiting send has been taken from its queue. */
  function Taken(waits: map<U64, Wait>, id: Id, r: nat): map<U64, Wait> {
    if id.dept in waits && waits[id.dept].id == id && waits[id.dept].token == AskedFor then
      waits[id.dept := waits[id.dept].(token := BeingMade(r))]
    else waits
  }

  /** A receive takes any word for a message; an acknowledgement it takes so is
      one the waiting send will not see. */
  function DoDequeue(cfg: Config, w: World, r: nat, q: U64): Option<World> {
    if r in w.recvs || q !in w.queues || w.queues[q] == [] then None
    else
      var w' := w.(queues := w.queues[q := w.queues[q][1..]]);
      match Decompose(cfg.base, w.queues[q][0])
      case Invalid => Some(w')
      case Decoded(c) =>
        var op := RecvOp(q, c, GetHead);
        var id := RecvId(op);
        if c.isAck then Some(w'.(recvs := w.recvs[r := op]))
        else
          Some(w'.(recvs := w.recvs[r := op],
                   flight := Moved(w.flight, id, AtReceiver(r)),
                   waits := Taken(w.waits, id, r)))
  }

  function DoReadHead(w: World, r: nat): Option<World> {
    if r !in w.recvs || w.recvs[r].pc != GetHead then None
    else
      var key := HeadKey(RecvId(w.recvs[r]));
      if key in w.store && w.store[key].HeadValue? then
        Some(w.(recvs := w.recvs[r := w.recvs[r].(pc := RemoveHead(w.store[key].head))]))
      else Some(w.(recvs := Without(w.recvs, r)))
  }

  function DoClearHead(cfg: Config, w: World, r: nat): Option<World> {
    if r !in w.recvs || !w.recvs[r].pc.RemoveHead? then None
    else
      var op, head := w.recvs[r], w.recvs[r].pc.head;
      var w' := w.(store := Without(w.store, HeadKey(RecvId(op))));
      if !Receivable(cfg, head) then Some(w'.(recvs := Without(w.recvs, r)))
      else if head.ctype == C2C then Some(w'.(recvs := w.recvs[r := op.(pc := GetBody(head))]))
      else Some(AllRead(w', r, head, None))
  }

  function DoReadBody(w: World, r: nat): Option<World> {
    if r !in w.recvs || !w.recvs[r].pc.GetBody? then None
    else
      var op, head := w.recvs[r], w.recvs[r].pc.head;
      var key := BodyKey(head.id);
      if key in w.store && w.store[key].BodyValue? then
        Some(w.(recvs := w.recvs[r := op.(pc := RemoveBody(head, w.store[key].body))]))
      else Some(AllRead(w, r, head, None))
  }

  function DoClearBody(w: World, r: nat): Option<World> {
    if r !in w.recvs || !w.recvs[r].pc.RemoveBody? then None
    else
      var pc := w.recvs[r].pc;
      Some(AllRead(w.(store := Without(w.store, BodyKey(pc.head.id))), r, pc.head, Some(pc.body)))
  }

  /** The wait, if any, for the acknowledgement receive `r` is to make. */
  predicate AskedOf(waits: map<U64, Wait>, d: U64, r: nat) {
    d in waits && waits[d].token == BeingMade(r)
  }

  /** The message of the waiting send has been processed. */
  function Judged(waits: map<U64, Wait>, d: U64, r: nat, ok: bool): map<U64, Wait> {
    if AskedOf(waits, d, r) then waits[d := waits[d].(outcome := Some(ok))] else waits
  }

  /** The acknowledgement for the waiting send has been posted. */
  function Answered(waits: map<U64, Wait>, d: U64, r: nat): map<U64, Wait> {
    if AskedOf(waits, d, r) then waits[d := waits[d].(token := Posted)] else waits
  }

  function DoProcess(cfg: Config, w: World, r: nat, ok: bool): Option<World> {
    if r !in w.recvs || !w.recvs[r].pc.Process? then None
    else
      var op, head := w.recvs[r], w.recvs[r].pc.head;
      var d := op.composed.msgid;
      if !ReceiverAnswers(cfg, op.queue, head) then Some(w.(recvs := Without(w.recvs, r)))
      else
        Some(w.(recvs := w.recvs[r := op.(pc := PostAck(head, ok, 0))],
                waits := Judged(w.waits, d, r, ok)))
  }

  function DoAnswer(cfg: Config, w: World, r: nat, result: PostResult): Option<World> {
    if r !in w.recvs || !w.recvs[r].pc.PostAck? || cfg.retries <= w.recvs[r].pc.tries then None
    else
      var op, pc := w.recvs[r], w.recvs[r].pc;
      var d := op.composed.msgid;
      match result
      case Full => Some(w.(recvs := w.recvs[r := op.(pc := PostAck(pc.head, pc.ok, pc.tries + 1))]))
      case Error => Some(w.(recvs := Without(w.recvs, r)))
      case Sent =>
        Some(w.(queues := Enqueued(w.queues, d, AckWord(cfg, RecvId(op), pc.ok)),
                recvs := Without(w.recvs, r),
                waits := Answered(w.waits, d, r)))
  }

  function DoAnswerGivesUp(cfg: Config, w: World, r: nat): Option<World> {
    if r !in w.recvs || !w.recvs[r].pc.PostAck? || w.recvs[r].pc.tries < cfg.retries then None
    else Some(w.(recvs := Without(w.recvs, r)))
  }

  /** The queue the acknowledgement is for cannot be opened. */
  function DoAnswerOpenFails(w: World, r: nat): Option<World> {
    if r !in w.recvs || !w.recvs[r].pc.PostAck? || w.recvs[r].pc.tries != 0 then None
    else Some(w.(recvs := Without(w.recvs, r)))
  }

  /** The world after a step; None if the step is not possible. */
  function Next(cfg: Config, w: World, step: Step): Option<World> {
    match step
    case TakeSerial(p) => DoTakeSerial(w, p)
    case StartSend(s, issue, head, body) => DoStartSend(cfg, w, s, issue, head, body)
    case SetHead(s, ok) => DoSetHead(w, s, ok)
    case SetBody(s, ok) => DoSetBody(w, s, ok)
    case OpenFails(s) => DoOpenFails(w, s)
    case PostWord(s, result) => DoPostWord(cfg, w, s, result)
    case GiveUp(s) => DoGiveUp(cfg, w, s)
    case UnsetHead(s) => DoUnsetHead(w, s)
    case UnsetBody(s) => DoUnsetBody(w, s)
    case TakeAck(s) => DoTakeAck(cfg, w, s)
    case AckTimeout(s) => DoAckTimeout(w, s)
    case Dequeue(r, q) => DoDequeue(cfg, w, r, q)
    case ReadHead(r) => DoReadHead(w, r)
    case ClearHead(r) => DoClearHead(cfg, w, r)
    case ReadBody(r) => DoReadBody(w, r)
    case ClearBody(r) => DoClearBody(w, r)
    case Processed(r, ok) => DoProcess(cfg, w, r, ok)
    case AnswerWord(r, result) => DoAnswer(cfg, w, r, result)
    case AnswerGivesUp(r) => DoAnswerGivesUp(cfg, w, r)
    case AnswerOpenFails(r) => DoAnswerOpenFails(w, r)
  }

  /** The world after a run in which every step is possible in turn. */
  function Run(cfg: Config, w: World, steps: seq<Step>): Option<World>
    decreases |steps|
  {
    if steps == [] then Some(w)
    else
      match Next(cfg, w, steps[0])
      case None => None
      case Some(w') => Run(cfg, w', steps[1..])
  }

  lemma {:induction false} RunsJoin(cfg: Config, w: World, steps: seq<Step>, more: seq<Step>)
    requires Run(cfg, w, steps).Some?
    ensures Run(cfg, w, steps + more) == Run(cfg, Run(cfg, w, steps).value, more)
    decreases |steps|
  {
    hide Next;
    if steps == [] {
      assert [] + more == more;
    } else {
      RunsJoin(cfg, Next(cfg, w, steps[0]).value, steps[1..], more);
      assert (steps + more)[1..] == steps[1..] + more;
    }
  }

  lemma OneStep(cfg: Config, w: World, step: Step)
    ensures Run(cfg, w, [step]) == Next(cfg, w, step)
  {
    hide Next;
    assert [step][1..] == [];
  }

  /** Each step of `steps` in turn leads from one of `worlds` to the next. */
  predicate Traces(cfg: Config, worlds: seq<World>, steps: seq<Step>) {
    && |worlds| == |steps| + 1
    && forall i :: 0 <= i < |steps| ==> Next(cfg, worlds[i], steps[i]) == Some(worlds[i + 1])
  }

  lemma {:induction false} TraceIsRun(cfg: Config, worlds: seq<World>, steps: seq<Step>)
    requires Traces(cfg, worlds, steps)
    ensures Run(cfg, worlds[0], steps) == Some(worlds[|steps|])
    decreases |steps|
  {
    hide Next;
    if steps != [] {
      TraceIsRun(cfg, worlds[1..], steps[1..]);
    }
  }

  predicate Initial(cfg: Config, w: World) {
    && w.store == map[] && w.sends == map[] && w.recvs == map[] && w.flight == map[] && w.waits == map[]
    && (forall q :: q in w.queues ==> w.queues[q] == [])
    && (forall p :: p in cfg.seeds ==> cfg.seeds[p] <= MAX_SERIAL)
  }
}
