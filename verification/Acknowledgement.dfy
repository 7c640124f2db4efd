/** Whose acknowledgement a waiting send takes. It never compares numbers, so this
    rests on there being only one acknowledgement it could take. */
module Acknowledgement {
  import opened Text
  import opened Words
  import opened MessageId
  import opened Transfer
  import opened Conservation

  // ---------------------------------------------------------------------
  // The invariant, for one client id d

  function WaitOf(waits: map<U64, Wait>, d: U64): Option<Wait> {
    if d in waits then Some(waits[d]) else None
  }

  function WordsOn(queues: map<U64, seq<U64>>, q: U64): seq<U64> {
    if q in queues then queues[q] else []
  }

  /** A send of `d` that waits, or is going to. */
  predicate Waiter(cfg: Config, op: SendOp, d: U64) {
    op.head.id.dept == d && SenderWaits(cfg, op.head)
  }

  predicate OneWaiter(cfg: Config, sends: map<nat, SendOp>, d: U64) {
    && (forall s, t :: s in sends && t in sends && Waiter(cfg, sends[s], d) && Waiter(cfg, sends[t], d) ==> s == t)
    && (forall s :: s in sends && sends[s].head.id.dept == d && !Writing(sends[s]) ==> Waiter(cfg, sends[s], d))
  }

  predicate WaitKnown(cfg: Config, sends: map<nat, SendOp>, wait: Option<Wait>, d: U64) {
    && (forall s :: s in sends && sends[s].head.id.dept == d && !Writing(sends[s]) ==>
          wait.Some? && wait.value.send == s)
    && (wait.Some? ==>
          && wait.value.send in sends && !Writing(sends[wait.value.send])
          && sends[wait.value.send].head.id == wait.value.id
          && wait.value.id.dept == d && GoodId(cfg, wait.value.id))
  }

  /** What the client waits for has got as far as `token`, with this outcome. */
  predicate WaitsFor(wait: Option<Wait>, id: Id, token: Token, outcome: Option<bool>) {
    wait.Some? && wait.value.id == id && wait.value.token == token && wait.value.outcome == outcome
  }

  predicate PlaceAwaited(place: Place, wait: Option<Wait>, id: Id) {
    match place
    case AtSender(_) => true
    case InQueue => WaitsFor(wait, id, AskedFor, None)
    case AtReceiver(r) => WaitsFor(wait, id, BeingMade(r), None)
  }

  /** A message of `d` that will be acknowledged. */
  predicate Acknowledged(cfg: Config, id: Id, f: Flight, d: U64) {
    id.dept == d && SenderWaits(cfg, f.head)
  }

  /** A posted message that will be acknowledged is the one waited for. */
  predicate FlightAwaited(cfg: Config, flight: Flights, wait: Option<Wait>, d: U64) {
    forall id :: id in flight && Acknowledged(cfg, id, flight[id], d) ==> PlaceAwaited(flight[id].place, wait, id)
  }

  predicate ReceiveAwaited(cfg: Config, op: RecvOp, r: nat, wait: Option<Wait>) {
    match op.pc
    case Process(head, _) => ReceiverAnswers(cfg, op.queue, head) ==> WaitsFor(wait, RecvId(op), BeingMade(r), None)
    case PostAck(_, ok, tries) => tries < cfg.retries ==> WaitsFor(wait, RecvId(op), BeingMade(r), Some(ok))
    case _ => true
  }

  predicate ReceiversAwaited(cfg: Config, recvs: map<nat, RecvOp>, wait: Option<Wait>, d: U64) {
    forall r :: r in recvs && !recvs[r].composed.isAck && recvs[r].composed.msgid == d ==>
      ReceiveAwaited(cfg, recvs[r], r, wait)
  }

  /** An acknowledgement on the client's queue is the one waited for. */
  predicate AckAwaited(cfg: Config, wait: Option<Wait>, word: U64) {
    && wait.Some? && wait.value.token == Posted && wait.value.outcome.Some?
    && word == AckWord(cfg, wait.value.id, wait.value.outcome.value)
  }

  /** At most one acknowledgement is on the client's queue, and it is awaited. */
  predicate AcksAwaited(cfg: Config, words: seq<U64>, wait: Option<Wait>) {
    && (forall i, j :: 0 <= i < j < |words| && !IsData(cfg, words[i]) ==> IsData(cfg, words[j]))
    && (forall i :: 0 <= i < |words| && !IsData(cfg, words[i]) ==> AckAwaited(cfg, wait, words[i]))
  }

  predicate AckInv(cfg: Config, w: World, d: U64) {
    var wait := WaitOf(w.waits, d);
    && OneWaiter(cfg, w.sends, d)
    && WaitKnown(cfg, w.sends, wait, d)
    && FlightAwaited(cfg, w.flight, wait, d)
    && ReceiversAwaited(cfg, w.recvs, wait, d)
    && AcksAwaited(cfg, WordsOn(w.queues, d), wait)
  }

  /** A step after which an acknowledgement to `d` may find the wrong send waiting: a
      waiting send begins while another is not over, or stops waiting without one. */
  predicate Disturbs(cfg: Config, w: World, step: Step, d: U64) {
    match step
    case StartSend(s, _, head, _) =>
      head.id.dept == d && SenderWaits(cfg, head) && exists t :: t in w.sends && Waiter(cfg, w.sends[t], d)
    case AckTimeout(s) => s in w.sends && w.sends[s].head.id.dept == d
    case _ => false
  }

  // ---------------------------------------------------------------------
  // Sends

  /** A send that still writes does not concern who waits. */
  lemma WriterGoesOn(cfg: Config, w: World, s: nat, op: SendOp, store': map<Key, Value>, d: U64)
    requires AckInv(cfg, w, d) && s in w.sends && Writing(w.sends[s]) && Writing(op) && op.head == w.sends[s].head
    ensures AckInv(cfg, w.(store := store', sends := w.sends[s := op]), d)
  {
    hide SenderWaits, GoodId, FlightAwaited, ReceiversAwaited, AcksAwaited, WaitOf, WordsOn;
  }

  lemma WriterEnds(cfg: Config, w: World, s: nat, store': map<Key, Value>, d: U64)
    requires AckInv(cfg, w, d) && s in w.sends && Writing(w.sends[s])
    ensures AckInv(cfg, SendOver(w.(store := store'), s), d)
  {
    hide SenderWaits, GoodId, FlightAwaited, ReceiversAwaited, AcksAwaited, WaitOf, WordsOn;
    AwaitedEnds(cfg, w.flight, w.sends[s].head.id, WaitOf(w.waits, d), d);
  }

  lemma AckStartSend(cfg: Config, w: World, s: nat, issue: nat, head: Head, body: Bytes, d: U64)
    requires AckInv(cfg, w, d) && DoStartSend(cfg, w, s, issue, head, body).Some?
    requires !Disturbs(cfg, w, StartSend(s, issue, head, body), d)
    ensures AckInv(cfg, DoStartSend(cfg, w, s, issue, head, body).value, d)
  {
    hide SenderWaits, GoodId, Sendable, MayStart, ReceiversAwaited, AcksAwaited, WaitOf;
  }

  /** A client that is about to wait does not wait yet. */
  lemma NotYetWaiting(cfg: Config, sends: map<nat, SendOp>, wait: Option<Wait>, s: nat, d: U64)
    requires OneWaiter(cfg, sends, d) && WaitKnown(cfg, sends, wait, d)
    requires s in sends && Writing(sends[s]) && Waiter(cfg, sends[s], d)
    ensures wait == None
    ensures forall t :: t in sends && t != s ==> !Waiter(cfg, sends[t], d)
  {
    hide SenderWaits, GoodId;
  }

  /** Where nothing is awaited, nothing that would be acknowledged is under way. */
  lemma NothingAwaited(cfg: Config, w: World, d: U64, wait: Option<Wait>)
    requires AckInv(cfg, w, d) && WaitOf(w.waits, d) == None
    ensures forall id :: id in w.flight && Acknowledged(cfg, id, w.flight[id], d) ==> w.flight[id].place.AtSender?
    ensures ReceiversAwaited(cfg, w.recvs, wait, d)
    ensures AcksAwaited(cfg, WordsOn(w.queues, d), wait)
  {
    hide SenderWaits, ReceiverAnswers, GoodId, OneWaiter, IsData, AckWord;
  }

  /** A message goes onto a queue. */
  lemma DataPushed(cfg: Config, queues: map<U64, seq<U64>>, q: U64, word: U64, wait: Option<Wait>, d: U64)
    requires AcksAwaited(cfg, WordsOn(queues, d), wait) && IsData(cfg, word)
    ensures AcksAwaited(cfg, WordsOn(Enqueued(queues, q, word), d), wait)
  {
    hide IsData, AckAwaited;
  }

  lemma AckPostWaiter(cfg: Config, w: World, s: nat, d: U64)
    requires Inv(cfg, w) && AckInv(cfg, w, d) && DoPostWord(cfg, w, s, Sent).Some? && Waiter(cfg, w.sends[s], d)
    ensures AckInv(cfg, DoPostWord(cfg, w, s, Sent).value, d)
  {
    hide GoodId, DataWord, IsData, Sendable, SendPhase, QueuesSound, FlightsSound, StoreExact, ReceiversSound,
      ReceiversAwaited, AcksAwaited, SenderWaits, Enqueued;
    var op, id := w.sends[s], w.sends[s].head.id;
    var wait := Some(Wait(s, id, AskedFor, None));
    AllGood(cfg, w.issued, w.flight);
    DataWordNames(cfg, id);
    NotYetWaiting(cfg, w.sends, WaitOf(w.waits, d), s, d);
    NothingAwaited(cfg, w, d, wait);
    DataPushed(cfg, w.queues, id.term, DataWord(cfg, id), wait, d);
  }

  /** A message that will not be acknowledged to `d` changes place. */
  lemma OtherMoves(cfg: Config, flight: Flights, id: Id, place: Place, wait: Option<Wait>, d: U64)
    requires FlightAwaited(cfg, flight, wait, d) && id in flight && !Acknowledged(cfg, id, flight[id], d)
    ensures FlightAwaited(cfg, Moved(flight, id, place), wait, d)
  {
    hide SenderWaits, PlaceAwaited;
  }

  /** A send is over, or begins to wait, that is not a waiter of `d`. */
  lemma OtherSendEnds(cfg: Config, sends: map<nat, SendOp>, sends': map<nat, SendOp>, s: nat, wait: Option<Wait>,
                      d: U64)
    requires OneWaiter(cfg, sends, d) && WaitKnown(cfg, sends, wait, d)
    requires s in sends && !Waiter(cfg, sends[s], d) && SendPosted(sends, sends', s)
    requires s in sends' ==> sends'[s].head.id.dept != d
    ensures OneWaiter(cfg, sends', d) && WaitKnown(cfg, sends', wait, d)
  {
    hide GoodId, SenderWaits;
  }

  lemma OtherPosts(cfg: Config, w: World, s: nat, d: U64)
    requires DoPostWord(cfg, w, s, Sent).Some? && !Waiter(cfg, w.sends[s], d)
    ensures var w' := DoPostWord(cfg, w, s, Sent).value;
            && SendPosted(w.sends, w'.sends, s) && (s in w'.sends ==> w'.sends[s].head.id.dept != d)
            && WaitOf(w'.waits, d) == WaitOf(w.waits, d)
            && w'.flight == Moved(w.flight, w.sends[s].head.id, InQueue)
            && w'.queues == Enqueued(w.queues, w.sends[s].head.id.term, DataWord(cfg, w.sends[s].head.id))
            && w'.recvs == w.recvs
  {
    hide DataWord, Enqueued, SenderWaits, Moved;
  }

  lemma AckPostOther(cfg: Config, w: World, s: nat, d: U64)
    requires Inv(cfg, w) && AckInv(cfg, w, d) && DoPostWord(cfg, w, s, Sent).Some? && !Waiter(cfg, w.sends[s], d)
    ensures AckInv(cfg, DoPostWord(cfg, w, s, Sent).value, d)
  {
    hide GoodId, DataWord, IsData, Sendable, SendPhase, FlightsSound, QueuesSound, StoreExact, ReceiversSound,
      SenderWaits, OneWaiter, WaitKnown, FlightAwaited, ReceiversAwaited, AcksAwaited, Enqueued, Moved, WaitOf,
      WordsOn;
    var id := w.sends[s].head.id;
    AllGood(cfg, w.issued, w.flight);
    DataWordNames(cfg, id);
    OtherPosts(cfg, w, s, d);
    OtherSendEnds(cfg, w.sends, DoPostWord(cfg, w, s, Sent).value.sends, s, WaitOf(w.waits, d), d);
    OtherMoves(cfg, w.flight, id, InQueue, WaitOf(w.waits, d), d);
    DataPushed(cfg, w.queues, id.term, DataWord(cfg, id), WaitOf(w.waits, d), d);
  }

  // ---------------------------------------------------------------------
  // The wait ends

  /** The acknowledgement a send takes is the one it waits for. */
  lemma AckIsAwaited(cfg: Config, w: World, s: nat, d: U64)
    requires AckInv(cfg, w, d) && NextAck(cfg, w, s).Some? && w.sends[s].head.id.dept == d
    ensures WaitOf(w.waits, d).Some? && WaitOf(w.waits, d).value.send == s
    ensures WaitsFor(WaitOf(w.waits, d), w.sends[s].head.id, Posted, Some(NextAck(cfg, w, s).value.isSuccess))
    ensures NextAck(cfg, w, s).value.number == w.sends[s].head.id.serial
    ensures AcksAwaited(cfg, WordsOn(w.queues, d)[1..], None)
  {
    hide GoodId, SenderWaits, Decompose, AckWord, FlightAwaited, ReceiversAwaited;
    var wait, word := WaitOf(w.waits, d), w.queues[d][0];
    assert !IsData(cfg, word) && AckAwaited(cfg, wait, word);
    AckWordNames(cfg, wait.value.id, wait.value.outcome.value);
  }

  /** The waiting send of `d` is over. */
  lemma WaiterEnds(cfg: Config, sends: map<nat, SendOp>, wait: Option<Wait>, s: nat, d: U64)
    requires OneWaiter(cfg, sends, d) && WaitKnown(cfg, sends, wait, d)
    requires s in sends && !Writing(sends[s]) && sends[s].head.id.dept == d
    ensures OneWaiter(cfg, Without(sends, s), d) && WaitKnown(cfg, Without(sends, s), None, d)
  {
    hide GoodId, SenderWaits;
  }

  /** Once the acknowledgement is posted, nothing else of the wait is under way. */
  lemma NothingAfterAck(cfg: Config, w: World, wait: Option<Wait>, d: U64)
    requires FlightAwaited(cfg, w.flight, wait, d) && ReceiversAwaited(cfg, w.recvs, wait, d)
    requires wait.Some? && wait.value.token == Posted
    ensures FlightAwaited(cfg, w.flight, None, d) && ReceiversAwaited(cfg, w.recvs, None, d)
  {
    hide GoodId, SenderWaits, ReceiverAnswers;
  }

  lemma AckTakeAck(cfg: Config, w: World, s: nat, d: U64)
    requires AckInv(cfg, w, d) && DoTakeAck(cfg, w, s).Some?
    ensures AckInv(cfg, DoTakeAck(cfg, w, s).value, d)
  {
    hide GoodId, SenderWaits, Decompose, FlightAwaited, ReceiversAwaited, AcksAwaited, OneWaiter, WaitKnown;
    if w.sends[s].head.id.dept == d {
      AckIsAwaited(cfg, w, s, d);
      WaiterEnds(cfg, w.sends, WaitOf(w.waits, d), s, d);
      NothingAfterAck(cfg, w, WaitOf(w.waits, d), d);
    } else {
      OtherSendEnds(cfg, w.sends, Without(w.sends, s), s, WaitOf(w.waits, d), d);
    }
  }

  lemma AckAckTimeout(cfg: Config, w: World, s: nat, d: U64)
    requires AckInv(cfg, w, d) && DoAckTimeout(w, s).Some? && !Disturbs(cfg, w, AckTimeout(s), d)
    ensures AckInv(cfg, DoAckTimeout(w, s).value, d)
  {
    hide GoodId, SenderWaits, FlightAwaited, ReceiversAwaited, AcksAwaited, OneWaiter, WaitKnown;
    OtherSendEnds(cfg, w.sends, Without(w.sends, s), s, WaitOf(w.waits, d), d);
  }

  // ---------------------------------------------------------------------
  // Receives

  /** The first word is taken from a queue, and it is no acknowledgement on the queue of `d`. */
  lemma WordPopped(cfg: Config, queues: map<U64, seq<U64>>, q: U64, wait: Option<Wait>, d: U64)
    requires AcksAwaited(cfg, WordsOn(queues, d), wait) && q in queues && queues[q] != []
    ensures AcksAwaited(cfg, WordsOn(queues[q := queues[q][1..]], d), wait)
  {
    hide IsData, AckAwaited;
  }

  lemma ReceiverAdded(cfg: Config, recvs: map<nat, RecvOp>, r: nat, op: RecvOp, wait: Option<Wait>, d: U64)
    requires ReceiversAwaited(cfg, recvs, wait, d)
    requires !op.composed.isAck && op.composed.msgid == d ==> ReceiveAwaited(cfg, op, r, wait)
    ensures ReceiversAwaited(cfg, recvs[r := op], wait, d)
  {
    hide ReceiveAwaited;
  }

  lemma ReceiverDropped(cfg: Config, recvs: map<nat, RecvOp>, r: nat, wait: Option<Wait>, d: U64)
    requires ReceiversAwaited(cfg, recvs, wait, d)
    ensures ReceiversAwaited(cfg, Without(recvs, r), wait, d)
  {
    hide ReceiveAwaited;
  }

  /** The waiting send sees its message taken. */
  lemma WaitTaken(cfg: Config, w: World, id: Id, r: nat, d: U64)
    requires AckInv(cfg, w, d) && id in w.flight && w.flight[id].place == InQueue
    ensures var wait := WaitOf(Taken(w.waits, id, r), d);
            && WaitKnown(cfg, w.sends, wait, d)
            && FlightAwaited(cfg, Moved(w.flight, id, AtReceiver(r)), wait, d)
            && ReceiversAwaited(cfg, w.recvs, wait, d)
            && AcksAwaited(cfg, WordsOn(w.queues, d), wait)
  {
    hide GoodId, SenderWaits, ReceiverAnswers, IsData, AckWord, OneWaiter;
  }

  lemma AckDequeue(cfg: Config, w: World, r: nat, q: U64, d: U64)
    requires Inv(cfg, w) && AckInv(cfg, w, d) && DoDequeue(cfg, w, r, q).Some?
    ensures AckInv(cfg, DoDequeue(cfg, w, r, q).value, d)
  {
    hide FlightsSound, SendersSound, QueuesSound, ReceiversSound, StoreExact, GoodId, Decompose, DataWord, Taken,
      Moved, WaitKnown, OneWaiter, FlightAwaited, ReceiversAwaited, AcksAwaited, WordsOn, WaitOf;
    FirstWordIsSound(cfg, w.queues, w.flight, q);
    var op := RecvOp(q, Decompose(cfg.base, w.queues[q][0]).composed, GetHead);
    if IsData(cfg, w.queues[q][0]) {
      WaitTaken(cfg, w, RecvId(op), r, d);
      var wait := WaitOf(Taken(w.waits, RecvId(op), r), d);
      WordPopped(cfg, w.queues, q, wait, d);
      ReceiverAdded(cfg, w.recvs, r, op, wait, d);
    } else {
      WordPopped(cfg, w.queues, q, WaitOf(w.waits, d), d);
      ReceiverAdded(cfg, w.recvs, r, op, WaitOf(w.waits, d), d);
    }
  }

  /** A receive that still reads concerns no acknowledgement. */
  lemma AckReadHead(cfg: Config, w: World, r: nat, d: U64)
    requires AckInv(cfg, w, d) && DoReadHead(w, r).Some?
    ensures AckInv(cfg, DoReadHead(w, r).value, d)
  {
    hide WaitKnown, OneWaiter, FlightAwaited, ReceiversAwaited, AcksAwaited, WordsOn, WaitOf;
    var w' := DoReadHead(w, r).value;
    ReceiverDropped(cfg, w.recvs, r, WaitOf(w.waits, d), d);
    if r in w'.recvs {
      ReceiverAdded(cfg, w.recvs, r, w'.recvs[r], WaitOf(w.waits, d), d);
    }
  }

  /** A message leaves flight. */
  lemma AwaitedEnds(cfg: Config, flight: Flights, id: Id, wait: Option<Wait>, d: U64)
    requires FlightAwaited(cfg, flight, wait, d)
    ensures FlightAwaited(cfg, Without(flight, id), wait, d)
  {
    hide SenderWaits, PlaceAwaited;
  }

  /** What a receive has read is awaited if it will be acknowledged. */
  lemma ReadIsAwaited(cfg: Config, w: World, r: nat, body: Option<Bytes>, d: U64)
    requires Inv(cfg, w) && AckInv(cfg, w, d) && r in w.recvs && Reading(w.recvs[r]) && w.recvs[r].pc != GetHead
    requires w.recvs[r].composed.msgid == d
    ensures ReceiveAwaited(cfg, w.recvs[r].(pc := Process(w.recvs[r].pc.head, body)), r, WaitOf(w.waits, d))
  {
    hide FlightsSound, SendersSound, QueuesSound, ReceiversSound, StoreExact, Sendable, WaitKnown, OneWaiter,
      ReceiversAwaited, AcksAwaited, WaitOf, WaitsFor;
    OnlyDataIsRead(cfg, w, r);
    BeingRead(cfg, w, r);
    var id := RecvId(w.recvs[r]);
    if ReceiverAnswers(cfg, id.term, w.recvs[r].pc.head) {
      assert Acknowledged(cfg, id, w.flight[id], d);
    }
  }

  /** A receive reads on, or has read all. */
  lemma AckReads(cfg: Config, w: World, w': World, r: nat, d: U64)
    requires Inv(cfg, w) && AckInv(cfg, w, d) && r in w.recvs && Reading(w.recvs[r]) && w.recvs[r].pc != GetHead
    requires r in w'.recvs && w'.recvs == w.recvs[r := w'.recvs[r]] && w'.recvs[r].composed == w.recvs[r].composed
    requires w'.recvs[r].queue == w.recvs[r].queue
    requires match w'.recvs[r].pc
             case Process(head, _) => head == w.recvs[r].pc.head
             case PostAck(_, _, _) => false
             case _ => true
    requires w'.flight == w.flight || w'.flight == Without(w.flight, RecvId(w.recvs[r]))
    requires w'.waits == w.waits && w'.queues == w.queues && w'.sends == w.sends
    ensures AckInv(cfg, w', d)
  {
    hide Inv, WaitKnown, OneWaiter, FlightAwaited, ReceiversAwaited, AcksAwaited, WordsOn, WaitOf, ReceiverAnswers,
      WaitsFor;
    if w.recvs[r].composed.msgid == d && w'.recvs[r].pc.Process? {
      ReadIsAwaited(cfg, w, r, w'.recvs[r].pc.found, d);
    }
    ReceiverAdded(cfg, w.recvs, r, w'.recvs[r], WaitOf(w.waits, d), d);
    AwaitedEnds(cfg, w.flight, RecvId(w.recvs[r]), WaitOf(w.waits, d), d);
  }

  lemma AckClearHead(cfg: Config, w: World, r: nat, d: U64)
    requires Inv(cfg, w) && AckInv(cfg, w, d) && DoClearHead(cfg, w, r).Some?
    ensures AckInv(cfg, DoClearHead(cfg, w, r).value, d)
  {
    hide Inv, AckInv, GoodId;
    OnlyDataIsRead(cfg, w, r);
    BeingRead(cfg, w, r);
    AckReads(cfg, w, DoClearHead(cfg, w, r).value, r, d);
  }

  lemma AckReadBody(cfg: Config, w: World, r: nat, d: U64)
    requires Inv(cfg, w) && AckInv(cfg, w, d) && DoReadBody(w, r).Some?
    ensures AckInv(cfg, DoReadBody(w, r).value, d)
  {
    hide Inv, AckInv;
    AckReads(cfg, w, DoReadBody(w, r).value, r, d);
  }

  lemma AckClearBody(cfg: Config, w: World, r: nat, d: U64)
    requires Inv(cfg, w) && AckInv(cfg, w, d) && DoClearBody(w, r).Some?
    ensures AckInv(cfg, DoClearBody(w, r).value, d)
  {
    hide Inv, AckInv;
    AckReads(cfg, w, DoClearBody(w, r).value, r, d);
  }

  // ---------------------------------------------------------------------
  // Processing and answering

  /** While receive `r` is making the awaited acknowledgement, nothing else concerns `d`:
      whatever becomes of the wait, only `r` has to agree with it. */
  lemma OnlyOneMakes(cfg: Config, w: World, r: nat, wait': Option<Wait>, d: U64)
    requires Inv(cfg, w) && AckInv(cfg, w, d) && r in w.recvs && !Reading(w.recvs[r])
    requires WaitOf(w.waits, d).Some? && WaitOf(w.waits, d).value.token == BeingMade(r)
    ensures FlightAwaited(cfg, w.flight, wait', d)
    ensures ReceiversAwaited(cfg, Without(w.recvs, r), wait', d)
    ensures forall i :: 0 <= i < |WordsOn(w.queues, d)| ==> IsData(cfg, WordsOn(w.queues, d)[i])
  {
    hide FlightsSound, SendersSound, QueuesSound, StoreExact, GoodId, ReadsSent, SenderWaits, ReceiverAnswers, IsData,
      AckWord, OneWaiter, WaitKnown;
  }

  /** The awaited message has been processed. */
  lemma AckProcessOwn(cfg: Config, w: World, r: nat, ok: bool, d: U64)
    requires Inv(cfg, w) && AckInv(cfg, w, d) && DoProcess(cfg, w, r, ok).Some?
    requires w.recvs[r].composed.msgid == d && ReceiverAnswers(cfg, w.recvs[r].queue, w.recvs[r].pc.head)
    ensures AckInv(cfg, DoProcess(cfg, w, r, ok).value, d)
    ensures WaitsFor(WaitOf(w.waits, d), RecvId(w.recvs[r]), BeingMade(r), None)
    ensures WaitsFor(WaitOf(DoProcess(cfg, w, r, ok).value.waits, d), RecvId(w.recvs[r]), BeingMade(r), Some(ok))
  {
    hide FlightsSound, SendersSound, QueuesSound, StoreExact, ReceiversSound, ReceiverAnswers, FlightAwaited,
      AckAwaited, OneWaiter, GoodId;
    OnlyDataIsRead(cfg, w, r);
    assert ReceiveAwaited(cfg, w.recvs[r], r, WaitOf(w.waits, d));
    OnlyOneMakes(cfg, w, r, WaitOf(Judged(w.waits, d, r, ok), d), d);
  }

  lemma AckProcess(cfg: Config, w: World, r: nat, ok: bool, d: U64)
    requires Inv(cfg, w) && AckInv(cfg, w, d) && DoProcess(cfg, w, r, ok).Some?
    ensures AckInv(cfg, DoProcess(cfg, w, r, ok).value, d)
  {
    hide Inv, ReceiverAnswers, OneWaiter, WaitKnown, FlightAwaited, ReceiversAwaited, AcksAwaited;
    var op := w.recvs[r];
    ReceiverDropped(cfg, w.recvs, r, WaitOf(w.waits, d), d);
    if ReceiverAnswers(cfg, op.queue, op.pc.head) {
      if op.composed.msgid == d {
        AckProcessOwn(cfg, w, r, ok, d);
      } else {
        ReceiverAdded(cfg, w.recvs, r, op.(pc := PostAck(op.pc.head, ok, 0)), WaitOf(w.waits, d), d);
      }
    }
  }

  /** The awaited acknowledgement is posted. */
  lemma AckAnswerOwn(cfg: Config, w: World, r: nat, d: U64)
    requires Inv(cfg, w) && AckInv(cfg, w, d) && DoAnswer(cfg, w, r, Sent).Some? && w.recvs[r].composed.msgid == d
    ensures AckInv(cfg, DoAnswer(cfg, w, r, Sent).value, d)
  {
    hide FlightsSound, SendersSound, QueuesSound, StoreExact, ReceiversSound, FlightAwaited, OneWaiter, GoodId,
      AckWord, IsData;
    OnlyDataIsRead(cfg, w, r);
    assert ReceiveAwaited(cfg, w.recvs[r], r, WaitOf(w.waits, d));
    OnlyOneMakes(cfg, w, r, WaitOf(Answered(w.waits, d, r), d), d);
  }

  lemma AckAnswerOther(cfg: Config, w: World, r: nat, result: PostResult, d: U64)
    requires AckInv(cfg, w, d) && DoAnswer(cfg, w, r, result).Some? && result != Error
    requires w.recvs[r].composed.msgid != d
    ensures AckInv(cfg, DoAnswer(cfg, w, r, result).value, d)
  {
    hide OneWaiter, WaitKnown, FlightAwaited, ReceiversAwaited, AcksAwaited, AckWord;
    var wait := WaitOf(w.waits, d);
    ReceiverDropped(cfg, w.recvs, r, wait, d);
    if result == Full {
      ReceiverAdded(cfg, w.recvs, r, DoAnswer(cfg, w, r, result).value.recvs[r], wait, d);
    }
  }

  lemma AckAnswerFull(cfg: Config, w: World, r: nat, d: U64)
    requires Inv(cfg, w) && AckInv(cfg, w, d) && DoAnswer(cfg, w, r, Full).Some? && w.recvs[r].composed.msgid == d
    ensures AckInv(cfg, DoAnswer(cfg, w, r, Full).value, d)
  {
    hide Inv, OneWaiter, WaitKnown, FlightAwaited, AcksAwaited, WaitOf, WaitsFor;
    OnlyDataIsRead(cfg, w, r);
    assert ReceiveAwaited(cfg, w.recvs[r], r, WaitOf(w.waits, d));
    ReceiverAdded(cfg, w.recvs, r, DoAnswer(cfg, w, r, Full).value.recvs[r], WaitOf(w.waits, d), d);
  }

  lemma AckAnswerError(cfg: Config, w: World, r: nat, d: U64)
    requires AckInv(cfg, w, d) && DoAnswer(cfg, w, r, Error).Some?
    ensures AckInv(cfg, DoAnswer(cfg, w, r, Error).value, d)
  {
    hide OneWaiter, WaitKnown, FlightAwaited, ReceiversAwaited, AcksAwaited;
    ReceiverDropped(cfg, w.recvs, r, WaitOf(w.waits, d), d);
  }

  lemma AckAnswer(cfg: Config, w: World, r: nat, result: PostResult, d: U64)
    requires Inv(cfg, w) && AckInv(cfg, w, d) && DoAnswer(cfg, w, r, result).Some?
    ensures AckInv(cfg, DoAnswer(cfg, w, r, result).value, d)
  {
    hide Inv, AckInv, AckWord, Enqueued, Answered;
    if result == Error {
      AckAnswerError(cfg, w, r, d);
    } else if w.recvs[r].composed.msgid != d {
      AckAnswerOther(cfg, w, r, result, d);
    } else if result == Full {
      AckAnswerFull(cfg, w, r, d);
    } else {
      AckAnswerOwn(cfg, w, r, d);
    }
  }

  lemma AckAnswerGivesUp(cfg: Config, w: World, r: nat, d: U64)
    requires AckInv(cfg, w, d) && DoAnswerGivesUp(cfg, w, r).Some?
    ensures AckInv(cfg, DoAnswerGivesUp(cfg, w, r).value, d)
  {
    hide OneWaiter, WaitKnown, FlightAwaited, ReceiversAwaited, AcksAwaited;
    ReceiverDropped(cfg, w.recvs, r, WaitOf(w.waits, d), d);
  }

  lemma AckAnswerOpenFails(cfg: Config, w: World, r: nat, d: U64)
    requires AckInv(cfg, w, d) && DoAnswerOpenFails(w, r).Some?
    ensures AckInv(cfg, DoAnswerOpenFails(w, r).value, d)
  {
    hide OneWaiter, WaitKnown, FlightAwaited, ReceiversAwaited, AcksAwaited;
    ReceiverDropped(cfg, w.recvs, r, WaitOf(w.waits, d), d);
  }

  // ---------------------------------------------------------------------
  // Every step, every run

  lemma AckSetHead(cfg: Config, w: World, s: nat, ok: bool, d: U64)
    requires AckInv(cfg, w, d) && DoSetHead(w, s, ok).Some?
    ensures AckInv(cfg, DoSetHead(w, s, ok).value, d)
  {
    hide AckInv;
    var w', op := DoSetHead(w, s, ok).value, w.sends[s];
    if ok {
      WriterGoesOn(cfg, w, s, op.(pc := if op.body == [] then Post(0) else WriteBody, wroteHead := true), w'.store, d);
    } else {
      WriterGoesOn(cfg, w, s, op.(pc := DropHead), w.store, d);
    }
  }

  lemma AckSetBody(cfg: Config, w: World, s: nat, ok: bool, d: U64)
    requires AckInv(cfg, w, d) && DoSetBody(w, s, ok).Some?
    ensures AckInv(cfg, DoSetBody(w, s, ok).value, d)
  {
    hide AckInv;
    var w', op := DoSetBody(w, s, ok).value, w.sends[s];
    if ok {
      WriterGoesOn(cfg, w, s, op.(pc := Post(0), wroteBody := true), w'.store, d);
    } else {
      WriterGoesOn(cfg, w, s, op.(pc := DropHead), w.store, d);
    }
  }

  lemma AckFails(cfg: Config, w: World, step: Step, d: U64)
    requires AckInv(cfg, w, d) && Next(cfg, w, step).Some? && (step.OpenFails? || step.GiveUp?)
    ensures AckInv(cfg, Next(cfg, w, step).value, d)
  {
    hide AckInv;
    WriterGoesOn(cfg, w, step.send, w.sends[step.send].(pc := DropHead), w.store, d);
  }

  lemma AckUnsets(cfg: Config, w: World, step: Step, d: U64)
    requires AckInv(cfg, w, d) && Next(cfg, w, step).Some? && (step.UnsetHead? || step.UnsetBody?)
    ensures AckInv(cfg, Next(cfg, w, step).value, d)
  {
    hide AckInv, SendOver;
    var s, id := step.send, w.sends[step.send].head.id;
    if step.UnsetBody? {
      WriterEnds(cfg, w, s, Without(w.store, BodyKey(id)), d);
    } else if w.sends[s].body == [] {
      WriterEnds(cfg, w, s, Without(w.store, HeadKey(id)), d);
    } else {
      WriterGoesOn(cfg, w, s, w.sends[s].(pc := DropBody, wroteHead := false), Without(w.store, HeadKey(id)), d);
    }
  }

  lemma AckPostWord(cfg: Config, w: World, s: nat, result: PostResult, d: U64)
    requires Inv(cfg, w) && AckInv(cfg, w, d) && DoPostWord(cfg, w, s, result).Some?
    ensures AckInv(cfg, DoPostWord(cfg, w, s, result).value, d)
  {
    hide Inv, AckInv, SenderWaits, Enqueued, DataWord;
    if result != Sent {
      WriterGoesOn(cfg, w, s, DoPostWord(cfg, w, s, result).value.sends[s], w.store, d);
    } else if Waiter(cfg, w.sends[s], d) {
      AckPostWaiter(cfg, w, s, d);
    } else {
      AckPostOther(cfg, w, s, d);
    }
  }

  lemma AckTakeSerial(cfg: Config, w: World, p: nat, d: U64)
    requires AckInv(cfg, w, d) && DoTakeSerial(w, p).Some?
    ensures AckInv(cfg, DoTakeSerial(w, p).value, d)
  {
    hide OneWaiter, WaitKnown, FlightAwaited, ReceiversAwaited, AcksAwaited;
  }

  /** Every step that leaves the acknowledgements of `d` to one waiting send keeps the invariant. */
  lemma StepKeepsAckInv(cfg: Config, w: World, step: Step, d: U64)
    requires Inv(cfg, w) && AckInv(cfg, w, d) && Next(cfg, w, step).Some? && !Disturbs(cfg, w, step, d)
    ensures AckInv(cfg, Next(cfg, w, step).value, d)
  {
    hide Inv, AckInv, DoTakeSerial, DoStartSend, DoSetHead, DoSetBody, DoOpenFails, DoPostWord, DoGiveUp, DoUnsetHead,
      DoUnsetBody, DoTakeAck, DoAckTimeout, DoDequeue, DoReadHead, DoClearHead, DoReadBody, DoClearBody, DoProcess,
      DoAnswer, DoAnswerGivesUp, DoAnswerOpenFails, Disturbs;
    match step
    case TakeSerial(p) => AckTakeSerial(cfg, w, p, d);
    case StartSend(s, issue, head, body) => AckStartSend(cfg, w, s, issue, head, body, d);
    case PostWord(s, result) => AckPostWord(cfg, w, s, result, d);
    case TakeAck(s) => AckTakeAck(cfg, w, s, d);
    case AckTimeout(s) => AckAckTimeout(cfg, w, s, d);
    case Dequeue(r, q) => AckDequeue(cfg, w, r, q, d);
    case ReadHead(r) => AckReadHead(cfg, w, r, d);
    case ClearHead(r) => AckClearHead(cfg, w, r, d);
    case ReadBody(r) => AckReadBody(cfg, w, r, d);
    case ClearBody(r) => AckClearBody(cfg, w, r, d);
    case Processed(r, ok) => AckProcess(cfg, w, r, ok, d);
    case AnswerWord(r, result) => AckAnswer(cfg, w, r, result, d);
    case AnswerGivesUp(r) => AckAnswerGivesUp(cfg, w, r, d);
    case AnswerOpenFails(r) => AckAnswerOpenFails(cfg, w, r, d);
    case SetHead(s, ok) => AckSetHead(cfg, w, s, ok, d);
    case SetBody(s, ok) => AckSetBody(cfg, w, s, ok, d);
    case OpenFails(_) => AckFails(cfg, w, step, d);
    case GiveUp(_) => AckFails(cfg, w, step, d);
    case UnsetHead(_) => AckUnsets(cfg, w, step, d);
    case UnsetBody(_) => AckUnsets(cfg, w, step, d);
  }

  /** The steps of a send. */
  predicate OfSend(step: Step) {
    !step.Dequeue? && !step.ReadHead? && !step.ClearHead? && !step.ReadBody? && !step.ClearBody? && !step.Processed?
    && !step.AnswerWord? && !step.AnswerGivesUp? && !step.AnswerOpenFails?
  }

  /** A step of the run disturbs the acknowledgements of `d`. */
  predicate RunDisturbs(cfg: Config, w: World, steps: seq<Step>, d: U64)
    requires Run(cfg, w, steps).Some?
    decreases |steps|
  {
    steps != []
    && (Disturbs(cfg, w, steps[0], d) || RunDisturbs(cfg, Next(cfg, w, steps[0]).value, steps[1..], d))
  }

  lemma {:induction false} RunKeepsAckInv(cfg: Config, w: World, steps: seq<Step>, d: U64)
    requires Inv(cfg, w) && AckInv(cfg, w, d) && Run(cfg, w, steps).Some? && !RunDisturbs(cfg, w, steps, d)
    ensures AckInv(cfg, Run(cfg, w, steps).value, d)
    decreases |steps|
  {
    hide Inv, AckInv, Next, Disturbs;
    if steps != [] {
      StepKeepsAckInv(cfg, w, steps[0], d);
      StepKeepsInv(cfg, w, steps[0]);
      RunKeepsAckInv(cfg, Next(cfg, w, steps[0]).value, steps[1..], d);
    }
  }

  // ---------------------------------------------------------------------
  // What a send returns

  /** A step processes the C2C message `id`. */
  predicate Processes(cfg: Config, w: World, step: Step, id: Id) {
    && step.Processed? && step.recv in w.recvs && RecvId(w.recvs[step.recv]) == id
    && w.recvs[step.recv].pc.Process? && ReceiverAnswers(cfg, w.recvs[step.recv].queue, w.recvs[step.recv].pc.head)
  }

  /** How the last processing of message `id` in a run ended. */
  function LastProcessed(cfg: Config, w: World, steps: seq<Step>, id: Id): Option<bool>
    requires Run(cfg, w, steps).Some?
    decreases |steps|
  {
    if steps == [] then None
    else
      var later := LastProcessed(cfg, Next(cfg, w, steps[0]).value, steps[1..], id);
      if later.Some? then later
      else if Processes(cfg, w, steps[0], id) then Some(steps[0].ok)
      else None
  }

  /** The outcome a wait knows is that of the last processing. */
  predicate OutcomeFollows(wait: Option<Wait>, wait': Option<Wait>, id: Id, judged: Option<bool>) {
    wait'.Some? && wait'.value.id == id && wait'.value.outcome.Some? ==>
      if judged.Some? then wait'.value.outcome == judged
      else wait.Some? && wait.value.id == id && wait.value.outcome == wait'.value.outcome
  }

  function Judgement(cfg: Config, w: World, step: Step, id: Id): Option<bool> {
    if Processes(cfg, w, step, id) then Some(step.ok) else None
  }

  lemma SendsJudgeNothing(cfg: Config, w: World, step: Step, d: U64, id: Id)
    requires Next(cfg, w, step).Some? && OfSend(step)
    ensures OutcomeFollows(WaitOf(w.waits, d), WaitOf(Next(cfg, w, step).value.waits, d), id, None)
  {
    hide SenderWaits, MayStart, GoodId, Sendable, Enqueued, DataWord, Moved, NextAck;
  }

  lemma ReadsJudgeNothing(cfg: Config, w: World, step: Step, d: U64, id: Id)
    requires Next(cfg, w, step).Some? && !OfSend(step) && !step.Dequeue? && !step.Processed? && !step.AnswerWord?
    ensures OutcomeFollows(WaitOf(w.waits, d), WaitOf(Next(cfg, w, step).value.waits, d), id, None)
  {
    hide Receivable;
  }

  lemma AnswersJudgeNothing(cfg: Config, w: World, step: Step, d: U64, id: Id)
    requires Next(cfg, w, step).Some? && (step.Dequeue? || step.AnswerWord?)
    ensures OutcomeFollows(WaitOf(w.waits, d), WaitOf(Next(cfg, w, step).value.waits, d), id, None)
  {
    hide Enqueued, Decompose, Compose, Moved, AckWord;
  }

  lemma ProcessingJudges(cfg: Config, w: World, r: nat, ok: bool, d: U64, id: Id)
    requires Inv(cfg, w) && AckInv(cfg, w, d) && DoProcess(cfg, w, r, ok).Some? && id.dept == d
    ensures OutcomeFollows(WaitOf(w.waits, d), WaitOf(DoProcess(cfg, w, r, ok).value.waits, d), id,
                           Judgement(cfg, w, Processed(r, ok), id))
  {
    hide Inv, OneWaiter, WaitKnown, FlightAwaited, ReceiversAwaited, AcksAwaited, ReceiverAnswers;
    var op := w.recvs[r];
    if ReceiverAnswers(cfg, op.queue, op.pc.head) && op.composed.msgid == d {
      AckProcessOwn(cfg, w, r, ok, d);
    }
  }

  lemma StepJudges(cfg: Config, w: World, step: Step, d: U64, id: Id)
    requires Inv(cfg, w) && AckInv(cfg, w, d) && Next(cfg, w, step).Some? && id.dept == d
    ensures OutcomeFollows(WaitOf(w.waits, d), WaitOf(Next(cfg, w, step).value.waits, d), id,
            Judgement(cfg, w, step, id))
  {
    if step.Processed? {
      hide Inv, AckInv, DoProcess, OutcomeFollows;
      ProcessingJudges(cfg, w, step.recv, step.ok, d, id);
    } else {
      hide Inv, AckInv, Next, OutcomeFollows;
      if step.Dequeue? || step.AnswerWord? {
        AnswersJudgeNothing(cfg, w, step, d, id);
      } else if OfSend(step) {
        SendsJudgeNothing(cfg, w, step, d, id);
      } else {
        ReadsJudgeNothing(cfg, w, step, d, id);
      }
    }
  }

  lemma {:induction false} RunJudges(cfg: Config, w: World, steps: seq<Step>, d: U64, id: Id)
    requires Inv(cfg, w) && AckInv(cfg, w, d) && Run(cfg, w, steps).Some? && !RunDisturbs(cfg, w, steps, d)
    requires id.dept == d
    ensures OutcomeFollows(WaitOf(w.waits, d), WaitOf(Run(cfg, w, steps).value.waits, d), id,
            LastProcessed(cfg, w, steps, id))
    decreases |steps|
  {
    hide Inv, AckInv, Next, WaitOf, Processes, Disturbs;
    if steps != [] {
      var w' := Next(cfg, w, steps[0]).value;
      StepKeepsAckInv(cfg, w, steps[0], d);
      StepKeepsInv(cfg, w, steps[0]);
      StepJudges(cfg, w, steps[0], d, id);
      RunJudges(cfg, w', steps[1..], d, id);
    }
  }

  // ---------------------------------------------------------------------
  // When a client's acknowledgements are its own

  /** A receive that is going to acknowledge a message of `d`, or can. */
  predicate WillAnswer(cfg: Config, op: RecvOp, d: U64) {
    && !op.composed.isAck && op.composed.msgid == d
    && match op.pc
       case Process(head, _) => ReceiverAnswers(cfg, op.queue, head)
       case PostAck(_, _, tries) => tries < cfg.retries
       case _ => false
  }

  predicate NoWaiter(cfg: Config, w: World, d: U64) {
    forall s :: s in w.sends ==> !Waiter(cfg, w.sends[s], d)
  }

  /** Nothing is left of earlier waits of `d`: no acknowledgement for it is queued, and
      no message of it is under way that will still be acknowledged. */
  predicate Drained(cfg: Config, w: World, d: U64) {
    && (forall i :: 0 <= i < |WordsOn(w.queues, d)| ==> IsData(cfg, WordsOn(w.queues, d)[i]))
    && (forall id :: id in w.flight && Acknowledged(cfg, id, w.flight[id], d) ==> w.flight[id].place.AtSender?)
    && (forall r :: r in w.recvs ==> !WillAnswer(cfg, w.recvs[r], d))
  }

  lemma InitialIsDrained(cfg: Config, w: World, d: U64)
    requires Initial(cfg, w)
    ensures NoWaiter(cfg, w, d) && Drained(cfg, w, d)
  {
  }

  /** Whoever waits is one that should, and the history knows of no other. */
  predicate WaitsSound(cfg: Config, sends: map<nat, SendOp>, waits: map<U64, Wait>) {
    && (forall s :: s in sends && !Writing(sends[s]) ==> SenderWaits(cfg, sends[s].head))
    && (forall d :: d in waits ==>
          waits[d].send in sends && !Writing(sends[waits[d].send]) && sends[waits[d].send].head.id.dept == d)
  }

  lemma WriterKeepsWaits(cfg: Config, sends: map<nat, SendOp>, waits: map<U64, Wait>, s: nat, op: SendOp)
    requires WaitsSound(cfg, sends, waits) && Writing(op) && (s in sends ==> Writing(sends[s]))
    ensures WaitsSound(cfg, sends[s := op], waits) && WaitsSound(cfg, Without(sends, s), waits)
  {
    hide SenderWaits;
  }

  lemma StartKeepsWaits(cfg: Config, w: World, s: nat, issue: nat, head: Head, body: Bytes)
    requires WaitsSound(cfg, w.sends, w.waits) && DoStartSend(cfg, w, s, issue, head, body).Some?
    ensures var w' := DoStartSend(cfg, w, s, issue, head, body).value; WaitsSound(cfg, w'.sends, w'.waits)
  {
    hide MayStart, GoodId, Sendable, WaitsSound;
    WriterKeepsWaits(cfg, w.sends, w.waits, s, SendOp(head, body, WriteHead, false, false));
  }

  lemma SetHeadKeepsWaits(cfg: Config, w: World, s: nat, ok: bool)
    requires WaitsSound(cfg, w.sends, w.waits) && DoSetHead(w, s, ok).Some?
    ensures var w' := DoSetHead(w, s, ok).value; WaitsSound(cfg, w'.sends, w'.waits)
  {
    hide WaitsSound;
    WriterKeepsWaits(cfg, w.sends, w.waits, s, DoSetHead(w, s, ok).value.sends[s]);
  }

  lemma SetBodyKeepsWaits(cfg: Config, w: World, s: nat, ok: bool)
    requires WaitsSound(cfg, w.sends, w.waits) && DoSetBody(w, s, ok).Some?
    ensures var w' := DoSetBody(w, s, ok).value; WaitsSound(cfg, w'.sends, w'.waits)
  {
    hide WaitsSound;
    WriterKeepsWaits(cfg, w.sends, w.waits, s, DoSetBody(w, s, ok).value.sends[s]);
  }

  lemma FailsKeepWaits(cfg: Config, w: World, step: Step)
    requires WaitsSound(cfg, w.sends, w.waits) && Next(cfg, w, step).Some?
    requires step.OpenFails? || step.GiveUp? || step.UnsetHead? || step.UnsetBody?
    ensures WaitsSound(cfg, Next(cfg, w, step).value.sends, Next(cfg, w, step).value.waits)
  {
    hide SenderWaits, WaitsSound;
    var op := w.sends[step.send];
    WriterKeepsWaits(cfg, w.sends, w.waits, step.send, op.(pc := DropHead));
    WriterKeepsWaits(cfg, w.sends, w.waits, step.send, op.(pc := DropBody, wroteHead := false));
  }

  lemma PostKeepsWaits(cfg: Config, w: World, s: nat, result: PostResult)
    requires WaitsSound(cfg, w.sends, w.waits) && DoPostWord(cfg, w, s, result).Some?
    ensures WaitsSound(cfg, DoPostWord(cfg, w, s, result).value.sends, DoPostWord(cfg, w, s, result).value.waits)
  {
    hide SenderWaits, Enqueued, DataWord, Moved;
  }

  lemma EndsKeepWaits(cfg: Config, w: World, step: Step)
    requires WaitsSound(cfg, w.sends, w.waits) && Next(cfg, w, step).Some? && (step.TakeAck? || step.AckTimeout?)
    ensures WaitsSound(cfg, Next(cfg, w, step).value.sends, Next(cfg, w, step).value.waits)
  {
    hide SenderWaits, NextAck;
  }

  /** The same sends wait for the same clients. */
  predicate SameWaiters(waits: map<U64, Wait>, waits': map<U64, Wait>) {
    forall d :: d in waits' ==> d in waits && waits'[d].send == waits[d].send
  }

  lemma SameWaitersSound(cfg: Config, sends: map<nat, SendOp>, waits: map<U64, Wait>, waits': map<U64, Wait>)
    requires WaitsSound(cfg, sends, waits) && SameWaiters(waits, waits')
    ensures WaitsSound(cfg, sends, waits')
  {
    hide SenderWaits;
  }

  /** The send a step belongs to. */
  function SendOf(step: Step): Option<nat> {
    match step
    case StartSend(s, _, _, _) => Some(s)
    case SetHead(s, _) => Some(s)
    case SetBody(s, _) => Some(s)
    case OpenFails(s) => Some(s)
    case PostWord(s, _) => Some(s)
    case GiveUp(s) => Some(s)
    case UnsetHead(s) => Some(s)
    case UnsetBody(s) => Some(s)
    case TakeAck(s) => Some(s)
    case AckTimeout(s) => Some(s)
    case _ => None
  }

  lemma ReadKeepsSends(cfg: Config, w: World, step: Step)
    requires Next(cfg, w, step).Some?
    requires (step.TakeSerial? || step.ReadHead? || step.ClearHead? || step.ReadBody? || step.ClearBody?)
    ensures Next(cfg, w, step).value.sends == w.sends
  {
    hide Receivable;
  }

  lemma AnswerKeepsSends(cfg: Config, w: World, step: Step)
    requires Next(cfg, w, step).Some?
    requires (step.Processed? || step.AnswerWord? || step.AnswerGivesUp? || step.AnswerOpenFails?)
    ensures Next(cfg, w, step).value.sends == w.sends
  {
    hide Enqueued, Judged, Answered, ReceiverAnswers, AckWord;
  }

  lemma ReceiveKeepsSends(cfg: Config, w: World, step: Step)
    requires Next(cfg, w, step).Some? && SendOf(step) == None
    ensures Next(cfg, w, step).value.sends == w.sends
  {
    hide Decompose, Moved, Taken, DoTakeSerial, DoReadHead, DoClearHead, DoReadBody, DoClearBody, DoProcess, DoAnswer,
      DoAnswerGivesUp, DoAnswerOpenFails;
    if step.Processed? || step.AnswerWord? || step.AnswerGivesUp? || step.AnswerOpenFails? {
      AnswerKeepsSends(cfg, w, step);
    } else if !step.Dequeue? {
      ReadKeepsSends(cfg, w, step);
    }
  }

  lemma ReadsKeepWaiters(cfg: Config, w: World, step: Step)
    requires Next(cfg, w, step).Some?
    requires step.TakeSerial? || step.ReadHead? || step.ClearHead? || step.ReadBody? || step.ClearBody?
    ensures Next(cfg, w, step).value.waits == w.waits
  {
    hide Receivable;
  }

  lemma ProcessKeepsWaiters(cfg: Config, w: World, r: nat, ok: bool)
    requires DoProcess(cfg, w, r, ok).Some?
    ensures SameWaiters(w.waits, DoProcess(cfg, w, r, ok).value.waits)
  {
    hide ReceiverAnswers;
  }

  lemma AnswerKeepsWaiters(cfg: Config, w: World, r: nat, result: PostResult)
    requires DoAnswer(cfg, w, r, result).Some?
    ensures SameWaiters(w.waits, DoAnswer(cfg, w, r, result).value.waits)
  {
    hide Enqueued, AckWord;
  }

  lemma AnswersKeepWaiters(cfg: Config, w: World, step: Step)
    requires Next(cfg, w, step).Some?
    requires step.Processed? || step.AnswerWord? || step.AnswerGivesUp? || step.AnswerOpenFails?
    ensures SameWaiters(w.waits, Next(cfg, w, step).value.waits)
  {
    hide DoProcess, DoAnswer;
    if step.Processed? {
      ProcessKeepsWaiters(cfg, w, step.recv, step.ok);
    } else if step.AnswerWord? {
      AnswerKeepsWaiters(cfg, w, step.recv, step.result);
    }
  }

  lemma DequeueKeepsWaiters(cfg: Config, w: World, r: nat, q: U64)
    requires DoDequeue(cfg, w, r, q).Some?
    ensures SameWaiters(w.waits, DoDequeue(cfg, w, r, q).value.waits)
  {
    hide Decompose, Moved;
  }

  lemma ReceivesKeepWaits(cfg: Config, w: World, step: Step)
    requires WaitsSound(cfg, w.sends, w.waits) && Next(cfg, w, step).Some? && SendOf(step) == None
    ensures WaitsSound(cfg, Next(cfg, w, step).value.sends, Next(cfg, w, step).value.waits)
  {
    hide WaitsSound, DoTakeSerial, DoDequeue, DoReadHead, DoClearHead, DoReadBody, DoClearBody, DoProcess, DoAnswer,
      DoAnswerGivesUp, DoAnswerOpenFails;
    if step.Dequeue? {
      DequeueKeepsWaiters(cfg, w, step.recv, step.queue);
    } else if step.Processed? || step.AnswerWord? || step.AnswerGivesUp? || step.AnswerOpenFails? {
      AnswersKeepWaiters(cfg, w, step);
    } else {
      ReadsKeepWaiters(cfg, w, step);
    }
    ReceiveKeepsSends(cfg, w, step);
    SameWaitersSound(cfg, w.sends, w.waits, Next(cfg, w, step).value.waits);
  }

  lemma StepKeepsWaits(cfg: Config, w: World, step: Step)
    requires WaitsSound(cfg, w.sends, w.waits) && Next(cfg, w, step).Some?
    ensures WaitsSound(cfg, Next(cfg, w, step).value.sends, Next(cfg, w, step).value.waits)
  {
    hide WaitsSound, DoTakeSerial, DoStartSend, DoSetHead, DoSetBody, DoOpenFails, DoPostWord, DoGiveUp, DoUnsetHead,
      DoUnsetBody, DoTakeAck, DoAckTimeout, DoDequeue, DoReadHead, DoClearHead, DoReadBody, DoClearBody, DoProcess,
      DoAnswer, DoAnswerGivesUp, DoAnswerOpenFails;
    match step
    case PostWord(s, result) => PostKeepsWaits(cfg, w, s, result);
    case TakeAck(_) => EndsKeepWaits(cfg, w, step);
    case AckTimeout(_) => EndsKeepWaits(cfg, w, step);
    case StartSend(s, issue, head, body) => StartKeepsWaits(cfg, w, s, issue, head, body);
    case SetHead(s, ok) => SetHeadKeepsWaits(cfg, w, s, ok);
    case SetBody(s, ok) => SetBodyKeepsWaits(cfg, w, s, ok);
    case OpenFails(_) => FailsKeepWaits(cfg, w, step);
    case GiveUp(_) => FailsKeepWaits(cfg, w, step);
    case UnsetHead(_) => FailsKeepWaits(cfg, w, step);
    case UnsetBody(_) => FailsKeepWaits(cfg, w, step);
    case _ => ReceivesKeepWaits(cfg, w, step);
  }

  lemma {:induction false} RunKeepsWaits(cfg: Config, w: World, steps: seq<Step>)
    requires WaitsSound(cfg, w.sends, w.waits) && Run(cfg, w, steps).Some?
    ensures WaitsSound(cfg, Run(cfg, w, steps).value.sends, Run(cfg, w, steps).value.waits)
    decreases |steps|
  {
    hide WaitsSound, Next;
    if steps != [] {
      StepKeepsWaits(cfg, w, steps[0]);
      RunKeepsWaits(cfg, Next(cfg, w, steps[0]).value, steps[1..]);
    }
  }

  /** What every reachable world is. */
  ghost predicate Sound(cfg: Config, w: World) {
    Inv(cfg, w) && WaitsSound(cfg, w.sends, w.waits)
  }

  lemma ReachableIsSound(cfg: Config, start: World, steps: seq<Step>)
    requires Initial(cfg, start) && Run(cfg, start, steps).Some?
    ensures Sound(cfg, Run(cfg, start, steps).value)
  {
    hide Run, Inv;
    InitialInv(cfg, start);
    RunKeepsInv(cfg, start, steps);
    RunKeepsWaits(cfg, start, steps);
  }

  /** Once a client's earlier waits have left nothing behind, whatever happened before,
      its acknowledgements are in order again. */
  lemma DrainedIsInOrder(cfg: Config, w: World, d: U64)
    requires WaitsSound(cfg, w.sends, w.waits) && NoWaiter(cfg, w, d) && Drained(cfg, w, d)
    ensures WaitOf(w.waits, d) == None && AckInv(cfg, w, d)
  {
    hide IsData, SenderWaits, ReceiverAnswers, GoodId;
  }

  /** In a run from `w` that does not disturb the acknowledgements of `d`, a send of `d`
      begins and then takes an acknowledgement that does not carry its number, or does
      not tell how its message has been processed since. */
  ghost predicate TakesForeign(cfg: Config, w: World, d: U64, sending: seq<Step>) {
    && sending != [] && sending[0].StartSend? && sending[0].head.id.dept == d && SenderWaits(cfg, sending[0].head)
    && Run(cfg, w, sending).Some? && !RunDisturbs(cfg, w, sending, d)
    && (var w', s, id := Run(cfg, w, sending).value, sending[0].send, sending[0].head.id;
        && NextAck(cfg, w', s).Some? && w'.sends[s].head.id == id
        && !(NextAck(cfg, w', s).value.number == id.serial
             && LastProcessed(cfg, w, sending, id) == Some(NextAck(cfg, w', s).value.isSuccess)))
  }

  /** The same, after a run `before` that does not disturb the acknowledgements of `d` either. */
  ghost predicate Confused(cfg: Config, w: World, d: U64, before: seq<Step>, sending: seq<Step>) {
    && Run(cfg, w, before).Some? && !RunDisturbs(cfg, w, before, d)
    && TakesForeign(cfg, Run(cfg, w, before).value, d, sending)
  }

  /** No send of `d` can be so confused. */
  ghost predicate TakesOwnOnly(cfg: Config, w: World, d: U64) {
    forall before, sending :: !Confused(cfg, w, d, before, sending)
  }

  lemma NoWaiterNoWait(cfg: Config, w: World, d: U64)
    requires AckInv(cfg, w, d) && NoWaiter(cfg, w, d)
    ensures WaitOf(w.waits, d) == None
  {
    hide SenderWaits, GoodId, FlightAwaited, ReceiversAwaited, AcksAwaited;
  }

  lemma AckSinceStart(cfg: Config, w1: World, sending: seq<Step>, d: U64)
    requires Inv(cfg, w1) && AckInv(cfg, w1, d) && Run(cfg, w1, sending).Some? && !RunDisturbs(cfg, w1, sending, d)
    requires sending != [] && sending[0].StartSend? && sending[0].head.id.dept == d && SenderWaits(cfg, sending[0].head)
    requires var w2, s := Run(cfg, w1, sending).value, sending[0].send;
             NextAck(cfg, w2, s).Some? && w2.sends[s].head.id == sending[0].head.id
    ensures var w2, s, id := Run(cfg, w1, sending).value, sending[0].send, sending[0].head.id;
            && NextAck(cfg, w2, s).value.number == id.serial
            && LastProcessed(cfg, w1, sending, id) == Some(NextAck(cfg, w2, s).value.isSuccess)
  {
    hide Run, Inv, AckInv, LastProcessed, Decompose, SenderWaits;
    NoWaiterNoWait(cfg, w1, d);
    RunKeepsAckInv(cfg, w1, sending, d);
    AckIsAwaited(cfg, Run(cfg, w1, sending).value, sending[0].send, d);
    RunJudges(cfg, w1, sending, d, sending[0].head.id);
  }

  /** From a reachable world in which nothing is left of a client's earlier waits, every
      send of it takes its own acknowledgement, until its acknowledgements are disturbed. */
  lemma DrainedTakesOwnOnly(cfg: Config, w: World, d: U64)
    requires Sound(cfg, w) && NoWaiter(cfg, w, d) && Drained(cfg, w, d)
    ensures TakesOwnOnly(cfg, w, d)
  {
    hide Run, Inv, AckInv, LastProcessed, Decompose, SenderWaits, NoWaiter, Drained, WaitsSound, RunDisturbs, NextAck;
    DrainedIsInOrder(cfg, w, d);
    forall before, sending ensures !Confused(cfg, w, d, before, sending) {
      if Confused(cfg, w, d, before, sending) {
        RunKeepsInv(cfg, w, before);
        RunKeepsAckInv(cfg, w, before, d);
        AckSinceStart(cfg, Run(cfg, w, before).value, sending, d);
      }
    }
  }

  /** In every run in which a client's acknowledgements are left to one waiting send at a
      time, the acknowledgement a send takes carries the number of its own message, and
      is a success exactly when the processing of that message succeeded: from the start,
      and again from any world in which nothing is left of its earlier waits. */
  lemma AckBelongsToSend(cfg: Config, start: World, earlier: seq<Step>, steps: seq<Step>, s: nat)
    requires Initial(cfg, start) && Run(cfg, start, earlier).Some?
    requires var w := Run(cfg, start, earlier).value;
             Run(cfg, w, steps).Some? && NextAck(cfg, Run(cfg, w, steps).value, s).Some?
    requires var w := Run(cfg, start, earlier).value;
             var d := Run(cfg, w, steps).value.sends[s].head.id.dept;
             NoWaiter(cfg, w, d) && Drained(cfg, w, d) && !RunDisturbs(cfg, w, steps, d)
    ensures var w := Run(cfg, start, earlier).value;
            var w' := Run(cfg, w, steps).value;
            var id, ack := w'.sends[s].head.id, NextAck(cfg, w', s).value;
            ack.number == id.serial && LastProcessed(cfg, w, steps, id) == Some(ack.isSuccess)
  {
    hide Run, Inv, Initial, AckInv, LastProcessed, Decompose, NoWaiter, Drained, RunDisturbs, WaitsSound;
    var w := Run(cfg, start, earlier).value;
    var w' := Run(cfg, w, steps).value;
    var id := w'.sends[s].head.id;
    ReachableIsSound(cfg, start, earlier);
    DrainedIsInOrder(cfg, w, id.dept);
    RunKeepsAckInv(cfg, w, steps, id.dept);
    AckIsAwaited(cfg, w', s, id.dept);
    RunJudges(cfg, w, steps, id.dept, id);
  }

  /** In particular from the start. */
  lemma AckBelongsFromStart(cfg: Config, start: World, steps: seq<Step>, s: nat)
    requires Initial(cfg, start) && Run(cfg, start, steps).Some? && NextAck(cfg, Run(cfg, start, steps).value, s).Some?
    requires !RunDisturbs(cfg, start, steps, Run(cfg, start, steps).value.sends[s].head.id.dept)
    ensures var w := Run(cfg, start, steps).value;
            var id, ack := w.sends[s].head.id, NextAck(cfg, w, s).value;
            ack.number == id.serial && LastProcessed(cfg, start, steps, id) == Some(ack.isSuccess)
  {
    hide Initial, AckInv, LastProcessed, Decompose, NoWaiter, Drained, RunDisturbs, Next;
    InitialIsDrained(cfg, start, Run(cfg, start, steps).value.sends[s].head.id.dept);
    assert Run(cfg, start, []) == Some(start);
    AckBelongsToSend(cfg, start, [], steps, s);
  }

  /** In every such run at most one acknowledgement is queued for the client, and at
      most one send of the client waits, or is going to. */
  lemma OneAckIsQueued(cfg: Config, start: World, earlier: seq<Step>, steps: seq<Step>, d: U64)
    requires Initial(cfg, start) && Run(cfg, start, earlier).Some?
    requires var w := Run(cfg, start, earlier).value;
             NoWaiter(cfg, w, d) && Drained(cfg, w, d) && Run(cfg, w, steps).Some? && !RunDisturbs(cfg, w, steps, d)
    ensures var w' := Run(cfg, Run(cfg, start, earlier).value, steps).value;
            var words := WordsOn(w'.queues, d);
            && (forall i, j :: 0 <= i < j < |words| && !IsData(cfg, words[i]) ==> IsData(cfg, words[j]))
            && (forall s, t :: s in w'.sends && t in w'.sends && Waiter(cfg, w'.sends[s], d)
                  && Waiter(cfg, w'.sends[t], d)
                  ==> s == t)
  {
    hide Run, Inv, Initial, IsData, AckAwaited, Waiter, NoWaiter, Drained, RunDisturbs, WaitsSound;
    var w := Run(cfg, start, earlier).value;
    ReachableIsSound(cfg, start, earlier);
    DrainedIsInOrder(cfg, w, d);
    RunKeepsAckInv(cfg, w, steps, d);
  }
}
