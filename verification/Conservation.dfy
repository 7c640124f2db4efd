/** What every run of the transfer keeps: each store entry belongs to exactly one
    message, and each message is in exactly one place. */
module Conservation {
  import opened Text
  import opened Words
  import opened MessageId
  import opened Transfer

  // ---------------------------------------------------------------------
  // The invariant

  // Each part of the invariant speaks of the parts of the world it depends on.

  type Flights = map<Id, Flight>

  predicate FlightsSound(cfg: Config, issued: map<nat, nat>, flight: Flights) {
    && (forall p :: p in cfg.seeds ==> cfg.seeds[p] <= MAX_SERIAL)
    && (forall id :: id in flight ==>
          && flight[id].head.id == id && GoodId(cfg, id)
          && Sendable(cfg, flight[id].head, flight[id].body)
          && IssuedTo(cfg, issued, id, flight[id].issue))
  }

  /** What a send has written agrees with how far it has come. */
  predicate SendPhase(op: SendOp) {
    match op.pc
    case WriteHead => !op.wroteHead && !op.wroteBody
    case WriteBody => op.wroteHead && !op.wroteBody && op.body != []
    case Post(_) => op.wroteHead && (op.wroteBody <==> op.body != [])
    case DropHead => op.wroteBody ==> op.body != []
    case DropBody => !op.wroteHead && op.body != []
    case AwaitAck => true
  }

  predicate Writing(op: SendOp) {
    op.pc != AwaitAck
  }

  predicate SendersSound(sends: map<nat, SendOp>, flight: Flights) {
    && (forall s :: s in sends && Writing(sends[s]) ==>
          var op := sends[s];
          && SendPhase(op) && op.head.id in flight
          && flight[op.head.id].place == AtSender(s)
          && flight[op.head.id].head == op.head && flight[op.head.id].body == op.body)
    && (forall id :: id in flight && flight[id].place.AtSender? ==>
          var s := flight[id].place.send;
          s in sends && Writing(sends[s]) && sends[s].head.id == id)
  }

  predicate IsData(cfg: Config, word: U64) {
    Decompose(cfg.base, word).Decoded? && !Decompose(cfg.base, word).composed.isAck
  }

  function WordId(cfg: Config, queue: U64, word: U64): Id
    requires Decompose(cfg.base, word).Decoded?
  {
    var c := Decompose(cfg.base, word).composed;
    Id(c.msgid, queue, c.number)
  }

  /** A word on a queue names a queued message, or acknowledges one sent from that queue's id. */
  predicate WordSound(cfg: Config, flight: Flights, queue: U64, word: U64) {
    && Decompose(cfg.base, word).Decoded?
    && if IsData(cfg, word) then
         var id := WordId(cfg, queue, word);
         id in flight && flight[id].place == InQueue && word == DataWord(cfg, id)
       else Decompose(cfg.base, word).composed.msgid == queue
  }

  predicate QueuesSound(cfg: Config, queues: map<U64, seq<U64>>, flight: Flights) {
    && (forall q, i :: q in queues && 0 <= i < |queues[q]| ==> WordSound(cfg, flight, q, queues[q][i]))
    && (forall q, i, j :: q in queues && 0 <= i < j < |queues[q]| && IsData(cfg, queues[q][i]) ==>
          queues[q][i] != queues[q][j])
    && (forall id :: id in flight && flight[id].place == InQueue ==>
          id.term in queues && DataWord(cfg, id) in queues[id.term])
  }

  predicate Reading(op: RecvOp) {
    op.pc.GetHead? || op.pc.RemoveHead? || op.pc.GetBody? || op.pc.RemoveBody?
  }

  /** What a receive has read is what was sent. */
  predicate ReadsSent(op: RecvOp, f: Flight) {
    match op.pc
    case GetHead => true
    case RemoveHead(head) => head == f.head
    case GetBody(head) => head == f.head && head.ctype == C2C
    case RemoveBody(head, body) => head == f.head && head.ctype == C2C && body == f.body && body != []
    case _ => false
  }

  predicate ReceiversSound(cfg: Config, recvs: map<nat, RecvOp>, flight: Flights) {
    && (forall r :: r in recvs ==>
          var op := recvs[r];
          if op.composed.isAck then op.pc == GetHead && op.composed.msgid == op.queue
          else GoodId(cfg, RecvId(op)))
    && (forall r :: r in recvs && Reading(recvs[r]) && !recvs[r].composed.isAck ==>
          var op := recvs[r];
          && RecvId(op) in flight && flight[RecvId(op)].place == AtReceiver(r)
          && ReadsSent(op, flight[RecvId(op)]))
    && (forall id :: id in flight && flight[id].place.AtReceiver? ==>
          var r := flight[id].place.recv;
          r in recvs && Reading(recvs[r]) && !recvs[r].composed.isAck && RecvId(recvs[r]) == id)
  }

  predicate HeadStored(f: Flight, sends: map<nat, SendOp>, recvs: map<nat, RecvOp>) {
    match f.place
    case AtSender(s) => s in sends && sends[s].wroteHead
    case InQueue => true
    case AtReceiver(r) => r in recvs && (recvs[r].pc.GetHead? || recvs[r].pc.RemoveHead?)
  }

  predicate BodyStored(f: Flight, sends: map<nat, SendOp>) {
    match f.place
    case AtSender(s) => s in sends && sends[s].wroteBody
    case _ => f.body != []
  }

  /** The store holds the entries of the messages in flight, as far as they are
      written and not yet removed, and nothing else. */
  ghost predicate StoreExact(store: map<Key, Value>, flight: Flights, sends: map<nat, SendOp>,
                             recvs: map<nat, RecvOp>) {
    forall id ::
      && (HeadKey(id) in store <==> id in flight && HeadStored(flight[id], sends, recvs))
      && (BodyKey(id) in store <==> id in flight && BodyStored(flight[id], sends))
      && (HeadKey(id) in store ==> store[HeadKey(id)] == HeadValue(flight[id].head))
      && (BodyKey(id) in store ==> store[BodyKey(id)] == BodyValue(flight[id].body))
  }

  ghost predicate Inv(cfg: Config, w: World) {
    && FlightsSound(cfg, w.issued, w.flight)
    && SendersSound(w.sends, w.flight)
    && QueuesSound(cfg, w.queues, w.flight)
    && ReceiversSound(cfg, w.recvs, w.flight)
    && StoreExact(w.store, w.flight, w.sends, w.recvs)
  }

  lemma InitialInv(cfg: Config, w: World)
    requires Initial(cfg, w)
    ensures Inv(cfg, w)
  {
  }

  // ---------------------------------------------------------------------
  // Words

  /** A data word comes back as the id it was made of. */
  lemma DataWordNames(cfg: Config, id: Id)
    requires GoodId(cfg, id)
    ensures IsData(cfg, DataWord(cfg, id)) && WordId(cfg, id.term, DataWord(cfg, id)) == id
    ensures Decompose(cfg.base, DataWord(cfg, id)) == Decoded(Composed(id.dept, id.serial, false, false))
  {
    hide Compose, Decompose;
    DecomposeUndoesCompose(cfg.base, Composed(id.dept, id.serial, false, false));
  }

  lemma AckWordNames(cfg: Config, id: Id, ok: bool)
    requires GoodId(cfg, id)
    ensures Decompose(cfg.base, AckWord(cfg, id, ok)) == Decoded(Composed(id.dept, id.serial, true, ok))
  {
    hide Compose, Decompose;
    DecomposeUndoesCompose(cfg.base, Composed(id.dept, id.serial, true, ok));
  }

  // ---------------------------------------------------------------------
  // Steps inside a send

  lemma KeepsTakeSerial(cfg: Config, w: World, p: nat)
    requires Inv(cfg, w) && DoTakeSerial(w, p).Some?
    ensures Inv(cfg, DoTakeSerial(w, p).value)
  {
    hide SerialAt, SendersSound, QueuesSound, ReceiversSound, StoreExact, GoodId, Sendable;
  }

  /** A send goes on with the same message. */
  lemma SendGoesOn(sends: map<nat, SendOp>, flight: Flights, s: nat, op: SendOp)
    requires SendersSound(sends, flight) && s in sends && Writing(sends[s])
    requires SendPhase(op) && Writing(op) && op.head == sends[s].head && op.body == sends[s].body
    ensures SendersSound(sends[s := op], flight)
  {
  }

  /** What the send of `id` has stored; all others have stored what they had. */
  lemma StoreFollows(store: map<Key, Value>, store': map<Key, Value>, flight: Flights,
                     sends: map<nat, SendOp>, recvs: map<nat, RecvOp>, s: nat, op: SendOp)
    requires StoreExact(store, flight, sends, recvs) && SendersSound(sends, flight) && s in sends && Writing(sends[s])
    requires op.head == sends[s].head && op.body == sends[s].body
    requires forall k: Key :: k.id != op.head.id ==>
            (k in store' <==> k in store) && (k in store ==> store'[k] == store[k])
    requires var id := op.head.id;
             && (HeadKey(id) in store' <==> op.wroteHead) && (BodyKey(id) in store' <==> op.wroteBody)
             && (op.wroteHead ==> store'[HeadKey(id)] == HeadValue(op.head))
             && (op.wroteBody ==> store'[BodyKey(id)] == BodyValue(op.body))
    ensures StoreExact(store', flight, sends[s := op], recvs)
  {
    hide SendPhase;
    forall id
      ensures HeadKey(id) in store' <==> id in flight && HeadStored(flight[id], sends[s := op], recvs)
      ensures BodyKey(id) in store' <==> id in flight && BodyStored(flight[id], sends[s := op])
      ensures HeadKey(id) in store' ==> store'[HeadKey(id)] == HeadValue(flight[id].head)
      ensures BodyKey(id) in store' ==> store'[BodyKey(id)] == BodyValue(flight[id].body)
    {
      if id != op.head.id {
        assert HeadKey(id).id == id && BodyKey(id).id == id;
        if id in flight { assert flight[id].place != AtSender(s); }
      }
    }
  }

  /** What the store holds for a message its sender is still writing. */
  lemma StoredSoFar(w: World, s: nat)
    requires StoreExact(w.store, w.flight, w.sends, w.recvs) && SendersSound(w.sends, w.flight)
    requires s in w.sends && Writing(w.sends[s])
    ensures var op := w.sends[s];
            && op.head.id in w.flight && w.flight[op.head.id].place == AtSender(s) && SendPhase(op)
            && (HeadKey(op.head.id) in w.store <==> op.wroteHead) && (BodyKey(op.head.id) in w.store <==> op.wroteBody)
            && (op.wroteHead ==> w.store[HeadKey(op.head.id)] == HeadValue(op.head))
            && (op.wroteBody ==> w.store[BodyKey(op.head.id)] == BodyValue(op.body))
  {
    hide SendPhase;
  }

  /** A step that changes one send and the store entries of its message. */
  lemma KeepsSendStep(cfg: Config, w: World, s: nat, op: SendOp, store': map<Key, Value>)
    requires Inv(cfg, w) && s in w.sends && Writing(w.sends[s])
    requires SendPhase(op) && Writing(op) && op.head == w.sends[s].head && op.body == w.sends[s].body
    requires forall k: Key :: k.id != op.head.id ==>
            (k in store' <==> k in w.store) && (k in w.store ==> store'[k] == w.store[k])
    requires var id := op.head.id;
             && (HeadKey(id) in store' <==> op.wroteHead) && (BodyKey(id) in store' <==> op.wroteBody)
             && (op.wroteHead ==> store'[HeadKey(id)] == HeadValue(op.head))
             && (op.wroteBody ==> store'[BodyKey(id)] == BodyValue(op.body))
    ensures Inv(cfg, w.(sends := w.sends[s := op], store := store'))
  {
    hide SendPhase, SendersSound, StoreExact, FlightsSound, QueuesSound, ReceiversSound;
    SendGoesOn(w.sends, w.flight, s, op);
    StoreFollows(w.store, store', w.flight, w.sends, w.recvs, s, op);
  }

  lemma KeepsSetHead(cfg: Config, w: World, s: nat, ok: bool)
    requires Inv(cfg, w) && DoSetHead(w, s, ok).Some?
    ensures Inv(cfg, DoSetHead(w, s, ok).value)
  {
    hide SendersSound, StoreExact, FlightsSound, QueuesSound, ReceiversSound;
    StoredSoFar(w, s);
    var w' := DoSetHead(w, s, ok).value;
    KeepsSendStep(cfg, w, s, w'.sends[s], w'.store);
  }

  lemma KeepsSetBody(cfg: Config, w: World, s: nat, ok: bool)
    requires Inv(cfg, w) && DoSetBody(w, s, ok).Some?
    ensures Inv(cfg, DoSetBody(w, s, ok).value)
  {
    hide SendersSound, StoreExact, FlightsSound, QueuesSound, ReceiversSound;
    StoredSoFar(w, s);
    var w' := DoSetBody(w, s, ok).value;
    KeepsSendStep(cfg, w, s, w'.sends[s], w'.store);
  }

  lemma KeepsOpenFails(cfg: Config, w: World, s: nat)
    requires Inv(cfg, w) && DoOpenFails(w, s).Some?
    ensures Inv(cfg, DoOpenFails(w, s).value)
  {
    hide SendersSound, StoreExact, FlightsSound, QueuesSound, ReceiversSound;
    StoredSoFar(w, s);
    KeepsSendStep(cfg, w, s, w.sends[s].(pc := DropHead), w.store);
  }

  lemma KeepsGiveUp(cfg: Config, w: World, s: nat)
    requires Inv(cfg, w) && DoGiveUp(cfg, w, s).Some?
    ensures Inv(cfg, DoGiveUp(cfg, w, s).value)
  {
    hide SendersSound, StoreExact, FlightsSound, QueuesSound, ReceiversSound;
    StoredSoFar(w, s);
    KeepsSendStep(cfg, w, s, w.sends[s].(pc := DropHead), w.store);
  }

  lemma KeepsPostRefused(cfg: Config, w: World, s: nat, result: PostResult)
    requires Inv(cfg, w) && DoPostWord(cfg, w, s, result).Some? && result != Sent
    ensures Inv(cfg, DoPostWord(cfg, w, s, result).value)
  {
    hide SendersSound, StoreExact, FlightsSound, QueuesSound, ReceiversSound, SenderWaits, Moved, Enqueued, DataWord;
    StoredSoFar(w, s);
    KeepsSendStep(cfg, w, s, DoPostWord(cfg, w, s, result).value.sends[s], w.store);
  }

  // ---------------------------------------------------------------------
  // Messages that change place

  /** Only messages at their senders concern the senders. */
  lemma SendersUnmoved(sends: map<nat, SendOp>, flight: Flights, flight': Flights)
    requires SendersSound(sends, flight)
    requires forall id :: id in flight && flight[id].place.AtSender? ==> id in flight' && flight'[id] == flight[id]
    requires forall id :: id in flight' && flight'[id].place.AtSender? ==> id in flight && flight'[id] == flight[id]
    ensures SendersSound(sends, flight')
  {
    hide SendPhase;
  }

  /** Only queued messages concern the queues. */
  lemma QueuesUnmoved(cfg: Config, queues: map<U64, seq<U64>>, flight: Flights, flight': Flights)
    requires QueuesSound(cfg, queues, flight)
    requires forall id :: id in flight && flight[id].place == InQueue ==> id in flight' && flight'[id].place == InQueue
    requires forall id :: id in flight' && flight'[id].place == InQueue ==> id in flight && flight[id].place == InQueue
    ensures QueuesSound(cfg, queues, flight')
  {
    hide Decompose, Compose, DataWord;
  }

  /** Only messages at their receivers concern the receivers. */
  lemma ReceiversUnmoved(cfg: Config, recvs: map<nat, RecvOp>, flight: Flights, flight': Flights)
    requires ReceiversSound(cfg, recvs, flight)
    requires forall id :: id in flight && flight[id].place.AtReceiver? ==> id in flight' && flight'[id] == flight[id]
    requires forall id :: id in flight' && flight'[id].place.AtReceiver? ==> id in flight && flight'[id] == flight[id]
    ensures ReceiversSound(cfg, recvs, flight')
  {
    hide ReadsSent, GoodId;
  }

  // ---------------------------------------------------------------------
  // A message enters flight

  /** A message with a number its process has taken has an id in use exactly if it clashes
      with one in flight. */
  lemma ClashIsExact(cfg: Config, w: World, issue: nat, id: Id)
    requires FlightsSound(cfg, w.issued, w.flight) && IssuedTo(cfg, w.issued, id, issue)
    ensures id in w.flight <==> Clashes(w.flight, issue, id)
  {
    hide SerialAt, GoodId, Sendable;
    forall i | i in w.flight && i.dept == id.dept && i.term == id.term
      ensures i == id <==> (w.flight[i].issue - issue) % TWO_30 == 0
    {
      SameSerial(cfg, w, issue, id, i);
    }
  }

  lemma SameSerial(cfg: Config, w: World, issue: nat, id: Id, i: Id)
    requires FlightsSound(cfg, w.issued, w.flight) && IssuedTo(cfg, w.issued, id, issue)
    requires i in w.flight && i.dept == id.dept && i.term == id.term
    ensures i == id <==> (w.flight[i].issue - issue) % TWO_30 == 0
  {
    hide SerialAt, GoodId, Sendable;
    var seed, other := cfg.seeds[cfg.owner[id.dept]], w.flight[i].issue;
    assert IssuedTo(cfg, w.issued, i, other);
    if issue <= other {
      SerialsRepeat(seed, issue, other);
    } else {
      SerialsRepeat(seed, other, issue);
      NegatedMultiple(other - issue);
    }
  }

  lemma NegatedMultiple(x: int)
    ensures x % TWO_30 == 0 <==> -x % TWO_30 == 0
  {
  }

  /** So a message may start, with a number its process has taken, exactly if its id, and
      hence its store entries, are those of no message in flight. */
  lemma NewIdIsFresh(cfg: Config, w: World, issue: nat, id: Id)
    requires FlightsSound(cfg, w.issued, w.flight)
    ensures MayStart(cfg, w, issue, id) <==> IssuedTo(cfg, w.issued, id, issue) && id !in w.flight
  {
    hide SerialAt, GoodId, Sendable, Clashes;
    if IssuedTo(cfg, w.issued, id, issue) {
      ClashIsExact(cfg, w, issue, id);
    }
  }

  /** A number just taken may be used at once, exactly if no message in flight between the
      two queues had its number a multiple of 2^30 numbers ago. */
  lemma NewNumberMayStart(cfg: Config, w: World, p: nat, id: Id)
    requires Inv(cfg, w) && p in w.issued && p in cfg.seeds && id.dept in cfg.owner && cfg.owner[id.dept] == p
    requires id.serial == SerialAt(cfg.seeds[p], w.issued[p])
    ensures MayStart(cfg, DoTakeSerial(w, p).value, w.issued[p], id) <==> id !in w.flight
    ensures id in w.flight <==>
              exists i :: i in w.flight && i.dept == id.dept && i.term == id.term
                          && (w.issued[p] - w.flight[i].issue) % TWO_30 == 0
  {
    hide SerialAt, SendersSound, QueuesSound, ReceiversSound, StoreExact, GoodId, Sendable, FlightsSound;
    var w' := DoTakeSerial(w, p).value;
    KeepsTakeSerial(cfg, w, p);
    ClashIsExact(cfg, w', w.issued[p], id);
    forall i | i in w.flight
      ensures (w.flight[i].issue - w.issued[p]) % TWO_30 == 0 <==> (w.issued[p] - w.flight[i].issue) % TWO_30 == 0
    {
      NegatedMultiple(w.flight[i].issue - w.issued[p]);
    }
  }

  /** A broadcast sends one serial number to one queue after another: starting to send
      to one does not keep it from being sent to the next. */
  lemma BroadcastGoesOn(cfg: Config, w: World, s: nat, issue: nat, head: Head, body: Bytes, id: Id)
    requires DoStartSend(cfg, w, s, issue, head, body).Some? && MayStart(cfg, w, issue, id)
    requires id.dept == head.id.dept && id.term != head.id.term
    ensures MayStart(cfg, DoStartSend(cfg, w, s, issue, head, body).value, issue, id)
  {
    hide SerialAt, GoodId, Sendable, SenderWaits;
  }

  lemma FlightStarts(cfg: Config, w: World, issue: nat, head: Head, body: Bytes, place: Place)
    requires FlightsSound(cfg, w.issued, w.flight) && MayStart(cfg, w, issue, head.id)
    requires Sendable(cfg, head, body) && GoodId(cfg, head.id)
    ensures FlightsSound(cfg, w.issued, w.flight[head.id := Flight(issue, head, body, place)])
  {
    hide SerialAt, GoodId, Sendable;
  }

  lemma SenderStarts(sends: map<nat, SendOp>, flight: Flights, s: nat, issue: nat, head: Head, body: Bytes)
    requires SendersSound(sends, flight) && s !in sends && head.id !in flight
    ensures SendersSound(sends[s := SendOp(head, body, WriteHead, false, false)],
                         flight[head.id := Flight(issue, head, body, AtSender(s))])
  {
  }

  lemma StoreStarts(store: map<Key, Value>, flight: Flights, sends: map<nat, SendOp>, recvs: map<nat, RecvOp>,
                    s: nat, issue: nat, head: Head, body: Bytes)
    requires StoreExact(store, flight, sends, recvs) && SendersSound(sends, flight) && s !in sends && head.id !in flight
    ensures StoreExact(store, flight[head.id := Flight(issue, head, body, AtSender(s))],
                       sends[s := SendOp(head, body, WriteHead, false, false)], recvs)
  {
    hide SendPhase;
  }

  lemma KeepsStartSend(cfg: Config, w: World, s: nat, issue: nat, head: Head, body: Bytes)
    requires Inv(cfg, w) && DoStartSend(cfg, w, s, issue, head, body).Some?
    ensures Inv(cfg, DoStartSend(cfg, w, s, issue, head, body).value)
  {
    hide SerialAt, GoodId, Sendable, SenderWaits, SendersSound, StoreExact, FlightsSound, QueuesSound, ReceiversSound,
      MayStart;
    var flight' := w.flight[head.id := Flight(issue, head, body, AtSender(s))];
    NewIdIsFresh(cfg, w, issue, head.id);
    FlightStarts(cfg, w, issue, head, body, AtSender(s));
    SenderStarts(w.sends, w.flight, s, issue, head, body);
    QueuesUnmoved(cfg, w.queues, w.flight, flight');
    ReceiversUnmoved(cfg, w.recvs, w.flight, flight');
    StoreStarts(w.store, w.flight, w.sends, w.recvs, s, issue, head, body);
  }

  // ---------------------------------------------------------------------
  // A message leaves flight

  lemma FlightEnds(cfg: Config, issued: map<nat, nat>, flight: Flights, id: Id)
    requires FlightsSound(cfg, issued, flight)
    ensures FlightsSound(cfg, issued, Without(flight, id))
  {
    hide SerialAt, GoodId, Sendable, IssuedTo;
  }

  lemma SenderEnds(sends: map<nat, SendOp>, flight: Flights, s: nat)
    requires SendersSound(sends, flight) && s in sends && Writing(sends[s])
    ensures SendersSound(Without(sends, s), Without(flight, sends[s].head.id))
  {
    hide SendPhase;
  }

  lemma StoreEnds(store: map<Key, Value>, store': map<Key, Value>, flight: Flights, sends: map<nat, SendOp>,
                  recvs: map<nat, RecvOp>, s: nat)
    requires StoreExact(store, flight, sends, recvs) && SendersSound(sends, flight) && s in sends && Writing(sends[s])
    requires forall k: Key :: k in store' <==> k in store && k.id != sends[s].head.id
    requires forall k: Key :: k in store' ==> store'[k] == store[k]
    ensures StoreExact(store', Without(flight, sends[s].head.id), Without(sends, s), recvs)
  {
    hide SendPhase;
    forall id | id != sends[s].head.id
      ensures id in flight ==> flight[id].place != AtSender(s)
    {
      assert HeadKey(id).id == id && BodyKey(id).id == id;
    }
  }

  /** A send that failed is over once its entries are gone. */
  lemma KeepsSendOver(cfg: Config, w: World, s: nat, store': map<Key, Value>)
    requires Inv(cfg, w) && s in w.sends && Writing(w.sends[s])
    requires forall k: Key :: k in store' <==> k in w.store && k.id != w.sends[s].head.id
    requires forall k: Key :: k in store' ==> store'[k] == w.store[k]
    ensures Inv(cfg, SendOver(w.(store := store'), s))
  {
    hide SendPhase, SendersSound, StoreExact, FlightsSound, QueuesSound, ReceiversSound;
    var flight' := Without(w.flight, w.sends[s].head.id);
    StoredSoFar(w, s);
    FlightEnds(cfg, w.issued, w.flight, w.sends[s].head.id);
    SenderEnds(w.sends, w.flight, s);
    QueuesUnmoved(cfg, w.queues, w.flight, flight');
    ReceiversUnmoved(cfg, w.recvs, w.flight, flight');
    StoreEnds(w.store, store', w.flight, w.sends, w.recvs, s);
  }

  lemma KeepsUnsetHead(cfg: Config, w: World, s: nat)
    requires Inv(cfg, w) && DoUnsetHead(w, s).Some?
    ensures Inv(cfg, DoUnsetHead(w, s).value)
  {
    hide SendersSound, StoreExact, FlightsSound, QueuesSound, ReceiversSound;
    StoredSoFar(w, s);
    var store' := Without(w.store, HeadKey(w.sends[s].head.id));
    if w.sends[s].body == [] {
      KeepsSendOver(cfg, w, s, store');
    } else {
      KeepsSendStep(cfg, w, s, w.sends[s].(pc := DropBody, wroteHead := false), store');
    }
  }

  lemma KeepsUnsetBody(cfg: Config, w: World, s: nat)
    requires Inv(cfg, w) && DoUnsetBody(w, s).Some?
    ensures Inv(cfg, DoUnsetBody(w, s).value)
  {
    hide SendersSound, StoreExact, FlightsSound, QueuesSound, ReceiversSound;
    StoredSoFar(w, s);
    KeepsSendOver(cfg, w, s, Without(w.store, BodyKey(w.sends[s].head.id)));
  }

  // ---------------------------------------------------------------------
  // A message is posted

  lemma FlightMoves(cfg: Config, issued: map<nat, nat>, flight: Flights, id: Id, place: Place)
    requires FlightsSound(cfg, issued, flight)
    ensures FlightsSound(cfg, issued, Moved(flight, id, place))
  {
    hide SerialAt, GoodId, Sendable, IssuedTo;
  }

  /** The sends, once `s` is over or waits for its acknowledgement. */
  predicate SendPosted(sends: map<nat, SendOp>, sends': map<nat, SendOp>, s: nat) {
    && (forall t :: t in sends && t != s ==> t in sends' && sends'[t] == sends[t])
    && (forall t :: t in sends' && t != s ==> t in sends)
    && (s in sends' ==> !Writing(sends'[s]))
  }

  lemma SenderPosts(sends: map<nat, SendOp>, sends': map<nat, SendOp>, flight: Flights, s: nat)
    requires SendersSound(sends, flight) && s in sends && Writing(sends[s]) && SendPosted(sends, sends', s)
    ensures SendersSound(sends', Moved(flight, sends[s].head.id, InQueue))
  {
    hide SendPhase;
  }

  lemma QueuePush(cfg: Config, queues: map<U64, seq<U64>>, flight: Flights, id: Id)
    requires QueuesSound(cfg, queues, flight) && id in flight && flight[id].place != InQueue && GoodId(cfg, id)
    ensures QueuesSound(cfg, Enqueued(queues, id.term, DataWord(cfg, id)), Moved(flight, id, InQueue))
  {
    hide Decompose, Compose, DataWord, GoodId;
    DataWordNames(cfg, id);
  }

  lemma StorePosts(w: World, sends': map<nat, SendOp>, s: nat)
    requires StoreExact(w.store, w.flight, w.sends, w.recvs) && SendersSound(w.sends, w.flight)
    requires s in w.sends && w.sends[s].pc.Post? && SendPosted(w.sends, sends', s)
    ensures StoreExact(w.store, Moved(w.flight, w.sends[s].head.id, InQueue), sends', w.recvs)
  {
    StoredSoFar(w, s);
    StorePostsOthers(w, sends', s);
  }

  lemma StorePostsOthers(w: World, sends': map<nat, SendOp>, s: nat)
    requires StoreExact(w.store, w.flight, w.sends, w.recvs) && SendersSound(w.sends, w.flight)
    requires s in w.sends && Writing(w.sends[s]) && SendPosted(w.sends, sends', s)
    ensures forall id :: id in w.flight && id != w.sends[s].head.id ==>
              && HeadStored(w.flight[id], w.sends, w.recvs) == HeadStored(w.flight[id], sends', w.recvs)
              && BodyStored(w.flight[id], w.sends) == BodyStored(w.flight[id], sends')
  {
    hide SendPhase, StoreExact;
  }

  lemma KeepsPostSent(cfg: Config, w: World, s: nat)
    requires Inv(cfg, w) && DoPostWord(cfg, w, s, Sent).Some?
    ensures Inv(cfg, DoPostWord(cfg, w, s, Sent).value)
  {
    hide SendPhase, SendersSound, StoreExact, QueuesSound, ReceiversSound, FlightsSound, GoodId, Sendable,
      SenderWaits, DataWord, Enqueued;
    var id := w.sends[s].head.id;
    AllGood(cfg, w.issued, w.flight);
    var w' := DoPostWord(cfg, w, s, Sent).value;
    StoredSoFar(w, s);
    FlightMoves(cfg, w.issued, w.flight, id, InQueue);
    SenderPosts(w.sends, w'.sends, w.flight, s);
    QueuePush(cfg, w.queues, w.flight, id);
    ReceiversUnmoved(cfg, w.recvs, w.flight, w'.flight);
    StorePosts(w, w'.sends, s);
  }

  lemma KeepsPostWord(cfg: Config, w: World, s: nat, result: PostResult)
    requires Inv(cfg, w) && DoPostWord(cfg, w, s, result).Some?
    ensures Inv(cfg, DoPostWord(cfg, w, s, result).value)
  {
    hide Inv, DoPostWord;
    if result == Sent {
      KeepsPostSent(cfg, w, s);
    } else {
      KeepsPostRefused(cfg, w, s, result);
    }
  }

  // ---------------------------------------------------------------------
  // Acknowledgements

  /** The first word is taken from a queue; it names no message. */
  lemma QueuePopOther(cfg: Config, queues: map<U64, seq<U64>>, flight: Flights, q: U64)
    requires QueuesSound(cfg, queues, flight) && q in queues && queues[q] != [] && !IsData(cfg, queues[q][0])
    requires forall id :: id in flight ==> GoodId(cfg, id)
    ensures QueuesSound(cfg, queues[q := queues[q][1..]], flight)
  {
    hide Decompose, Compose, DataWord, GoodId;
    var tail := queues[q][1..];
    forall i | 0 <= i < |tail| ensures tail[i] == queues[q][i + 1] {}
    forall id | id in flight && flight[id].place == InQueue && id.term == q
      ensures DataWord(cfg, id) in tail
    {
      DataWordNames(cfg, id);
      assert DataWord(cfg, id) in queues[q];
      assert queues[q] == [queues[q][0]] + tail;
    }
  }

  lemma QueuePushAck(cfg: Config, queues: map<U64, seq<U64>>, flight: Flights, id: Id, ok: bool)
    requires QueuesSound(cfg, queues, flight) && GoodId(cfg, id)
    ensures QueuesSound(cfg, Enqueued(queues, id.dept, AckWord(cfg, id, ok)), flight)
  {
    hide Decompose, Compose, DataWord, GoodId, AckWord;
    AckWordNames(cfg, id, ok);
  }

  lemma AllGood(cfg: Config, issued: map<nat, nat>, flight: Flights)
    requires FlightsSound(cfg, issued, flight)
    ensures forall id :: id in flight ==>
              GoodId(cfg, id) && flight[id].head.id == id && Sendable(cfg, flight[id].head, flight[id].body)
  {
    hide SerialAt, GoodId, Sendable, IssuedTo;
  }

  /** A send that waits is over; its message is no longer its concern. */
  lemma WaitEnds(cfg: Config, w: World, s: nat)
    requires SendersSound(w.sends, w.flight) && StoreExact(w.store, w.flight, w.sends, w.recvs)
    requires s in w.sends && !Writing(w.sends[s])
    ensures SendersSound(Without(w.sends, s), w.flight)
    ensures StoreExact(w.store, w.flight, Without(w.sends, s), w.recvs)
  {
    hide SendPhase;
  }

  lemma KeepsTakeAck(cfg: Config, w: World, s: nat)
    requires Inv(cfg, w) && DoTakeAck(cfg, w, s).Some?
    ensures Inv(cfg, DoTakeAck(cfg, w, s).value)
  {
    hide SendersSound, StoreExact, FlightsSound, QueuesSound, ReceiversSound, GoodId, Sendable;
    WaitEnds(cfg, w, s);
    AllGood(cfg, w.issued, w.flight);
    QueuePopOther(cfg, w.queues, w.flight, w.sends[s].head.id.dept);
  }

  lemma KeepsAckTimeout(cfg: Config, w: World, s: nat)
    requires Inv(cfg, w) && DoAckTimeout(w, s).Some?
    ensures Inv(cfg, DoAckTimeout(w, s).value)
  {
    hide SendersSound, StoreExact, FlightsSound, QueuesSound, ReceiversSound;
    WaitEnds(cfg, w, s);
  }

  // ---------------------------------------------------------------------
  // A message is taken from its queue

  lemma QueuePopData(cfg: Config, queues: map<U64, seq<U64>>, flight: Flights, q: U64, r: nat)
    requires QueuesSound(cfg, queues, flight) && q in queues && queues[q] != [] && IsData(cfg, queues[q][0])
    requires forall id :: id in flight ==> GoodId(cfg, id)
    ensures QueuesSound(cfg, queues[q := queues[q][1..]], Moved(flight, WordId(cfg, q, queues[q][0]), AtReceiver(r)))
  {
    hide Decompose, Compose, DataWord, GoodId;
    var id, tail := WordId(cfg, q, queues[q][0]), queues[q][1..];
    var queues', flight' := queues[q := tail], Moved(flight, id, AtReceiver(r));
    forall i | 0 <= i < |tail| ensures tail[i] == queues[q][i + 1] {}
    forall other | other in flight' && flight'[other].place == InQueue && other.term == q
      ensures DataWord(cfg, other) in tail
    {
      DataWordNames(cfg, other);
      assert DataWord(cfg, other) in queues[q];
      assert queues[q] == [queues[q][0]] + tail;
    }
  }

  /** What the first word of a queue stands for. */
  lemma FirstWordIsSound(cfg: Config, queues: map<U64, seq<U64>>, flight: Flights, q: U64)
    requires QueuesSound(cfg, queues, flight) && q in queues && queues[q] != []
    ensures WordSound(cfg, flight, q, queues[q][0])
  {
    hide Decompose, Compose, DataWord;
  }

  /** A new receive of a stray acknowledgement, which names no message. */
  lemma StrayStarts(cfg: Config, w: World, r: nat, op: RecvOp)
    requires ReceiversSound(cfg, w.recvs, w.flight) && StoreExact(w.store, w.flight, w.sends, w.recvs)
    requires r !in w.recvs && op.composed.isAck && op.pc == GetHead && op.composed.msgid == op.queue
    ensures ReceiversSound(cfg, w.recvs[r := op], w.flight)
    ensures StoreExact(w.store, w.flight, w.sends, w.recvs[r := op])
  {
    hide GoodId, ReadsSent;
  }

  lemma ReceiverStarts(cfg: Config, recvs: map<nat, RecvOp>, flight: Flights, r: nat, op: RecvOp)
    requires ReceiversSound(cfg, recvs, flight) && r !in recvs && !op.composed.isAck && op.pc == GetHead
    requires RecvId(op) in flight && flight[RecvId(op)].place == InQueue && GoodId(cfg, RecvId(op))
    ensures ReceiversSound(cfg, recvs[r := op], Moved(flight, RecvId(op), AtReceiver(r)))
  {
    hide GoodId;
  }

  lemma StoreDequeues(cfg: Config, w: World, r: nat, op: RecvOp)
    requires ReceiversSound(cfg, w.recvs, w.flight) && StoreExact(w.store, w.flight, w.sends, w.recvs)
    requires r !in w.recvs && op.pc == GetHead && RecvId(op) in w.flight && w.flight[RecvId(op)].place == InQueue
    ensures StoreExact(w.store, Moved(w.flight, RecvId(op), AtReceiver(r)), w.sends, w.recvs[r := op])
  {
    hide GoodId, ReadsSent;
  }

  lemma KeepsDequeueStray(cfg: Config, w: World, r: nat, q: U64)
    requires Inv(cfg, w) && DoDequeue(cfg, w, r, q).Some? && !IsData(cfg, w.queues[q][0])
    ensures Inv(cfg, DoDequeue(cfg, w, r, q).value)
  {
    hide SendersSound, StoreExact, FlightsSound, QueuesSound, ReceiversSound, GoodId, Sendable, Decompose, DataWord,
      Taken;
    FirstWordIsSound(cfg, w.queues, w.flight, q);
    AllGood(cfg, w.issued, w.flight);
    QueuePopOther(cfg, w.queues, w.flight, q);
    StrayStarts(cfg, w, r, RecvOp(q, Decompose(cfg.base, w.queues[q][0]).composed, GetHead));
  }

  lemma KeepsDequeueData(cfg: Config, w: World, r: nat, q: U64)
    requires Inv(cfg, w) && DoDequeue(cfg, w, r, q).Some? && IsData(cfg, w.queues[q][0])
    ensures Inv(cfg, DoDequeue(cfg, w, r, q).value)
  {
    hide SendersSound, StoreExact, FlightsSound, QueuesSound, ReceiversSound, GoodId, Sendable, Decompose, DataWord,
      Taken;
    var op := RecvOp(q, Decompose(cfg.base, w.queues[q][0]).composed, GetHead);
    FirstWordIsSound(cfg, w.queues, w.flight, q);
    AllGood(cfg, w.issued, w.flight);
    FlightMoves(cfg, w.issued, w.flight, RecvId(op), AtReceiver(r));
    SendersUnmoved(w.sends, w.flight, Moved(w.flight, RecvId(op), AtReceiver(r)));
    QueuePopData(cfg, w.queues, w.flight, q, r);
    ReceiverStarts(cfg, w.recvs, w.flight, r, op);
    StoreDequeues(cfg, w, r, op);
  }

  // ---------------------------------------------------------------------
  // A message is read

  /** The message a receive is reading, and what the store holds of it. */
  lemma BeingRead(cfg: Config, w: World, r: nat)
    requires Inv(cfg, w) && r in w.recvs && Reading(w.recvs[r]) && !w.recvs[r].composed.isAck
    ensures var op, id := w.recvs[r], RecvId(w.recvs[r]);
            && id in w.flight && w.flight[id].place == AtReceiver(r) && ReadsSent(op, w.flight[id])
            && GoodId(cfg, id) && w.flight[id].head.id == id && Sendable(cfg, w.flight[id].head, w.flight[id].body)
            && (HeadKey(id) in w.store <==> op.pc.GetHead? || op.pc.RemoveHead?)
            && (BodyKey(id) in w.store <==> w.flight[id].body != [])
            && (HeadKey(id) in w.store ==> w.store[HeadKey(id)] == HeadValue(w.flight[id].head))
            && (BodyKey(id) in w.store ==> w.store[BodyKey(id)] == BodyValue(w.flight[id].body))
  {
    hide SendersSound, QueuesSound, FlightsSound, GoodId, Sendable, ReadsSent;
    AllGood(cfg, w.issued, w.flight);
  }

  /** A stray acknowledgement finds no head. */
  lemma StrayFindsNothing(cfg: Config, w: World, r: nat)
    requires Inv(cfg, w) && r in w.recvs && w.recvs[r].composed.isAck
    ensures w.recvs[r].pc == GetHead && HeadKey(RecvId(w.recvs[r])) !in w.store
  {
    hide SendersSound, QueuesSound, FlightsSound, Sendable, ReadsSent, IssuedTo;
    AllGood(cfg, w.issued, w.flight);
  }

  /** So whatever gets past its head is no stray. */
  lemma OnlyDataIsRead(cfg: Config, w: World, r: nat)
    requires Inv(cfg, w) && r in w.recvs && w.recvs[r].pc != GetHead
    ensures !w.recvs[r].composed.isAck
  {
    hide Inv;
    if w.recvs[r].composed.isAck {
      StrayFindsNothing(cfg, w, r);
    }
  }

  lemma ReceiverGoesOn(cfg: Config, recvs: map<nat, RecvOp>, flight: Flights, r: nat, op: RecvOp)
    requires ReceiversSound(cfg, recvs, flight) && r in recvs && Reading(recvs[r]) && !recvs[r].composed.isAck
    requires op.queue == recvs[r].queue && op.composed == recvs[r].composed && Reading(op)
    requires RecvId(op) in flight ==> ReadsSent(op, flight[RecvId(op)])
    ensures ReceiversSound(cfg, recvs[r := op], flight)
  {
    hide GoodId, ReadsSent;
  }

  lemma StoreReads(cfg: Config, w: World, r: nat, op: RecvOp, store': map<Key, Value>)
    requires ReceiversSound(cfg, w.recvs, w.flight) && StoreExact(w.store, w.flight, w.sends, w.recvs)
    requires r in w.recvs && Reading(w.recvs[r]) && !w.recvs[r].composed.isAck
    requires op.queue == w.recvs[r].queue && op.composed == w.recvs[r].composed
    requires forall k: Key ::
               k in store' <==> k in w.store && (k == HeadKey(RecvId(op)) ==> op.pc.GetHead? || op.pc.RemoveHead?)
    requires forall k: Key :: k in store' ==> store'[k] == w.store[k]
    requires op.pc.GetHead? || op.pc.RemoveHead? ==> w.recvs[r].pc.GetHead? || w.recvs[r].pc.RemoveHead?
    ensures StoreExact(store', w.flight, w.sends, w.recvs[r := op])
  {
    hide GoodId, ReadsSent;
  }

  lemma KeepsReceiveStep(cfg: Config, w: World, r: nat, op: RecvOp, store': map<Key, Value>)
    requires Inv(cfg, w) && r in w.recvs && Reading(w.recvs[r]) && !w.recvs[r].composed.isAck
    requires op.queue == w.recvs[r].queue && op.composed == w.recvs[r].composed && Reading(op)
    requires RecvId(op) in w.flight ==> ReadsSent(op, w.flight[RecvId(op)])
    requires forall k: Key ::
               k in store' <==> k in w.store && (k == HeadKey(RecvId(op)) ==> op.pc.GetHead? || op.pc.RemoveHead?)
    requires forall k: Key :: k in store' ==> store'[k] == w.store[k]
    requires op.pc.GetHead? || op.pc.RemoveHead? ==> w.recvs[r].pc.GetHead? || w.recvs[r].pc.RemoveHead?
    ensures Inv(cfg, w.(store := store', recvs := w.recvs[r := op]))
  {
    hide SendersSound, StoreExact, FlightsSound, QueuesSound, ReceiversSound, ReadsSent, Reading;
    ReceiverGoesOn(cfg, w.recvs, w.flight, r, op);
    StoreReads(cfg, w, r, op, store');
  }

  /** A receive past reading, or one that names no message, may change or end. */
  lemma ReceiverDone(cfg: Config, w: World, recvs': map<nat, RecvOp>, r: nat)
    requires ReceiversSound(cfg, w.recvs, w.flight) && StoreExact(w.store, w.flight, w.sends, w.recvs)
    requires r in w.recvs && (!Reading(w.recvs[r]) || w.recvs[r].composed.isAck)
    requires forall t :: t in w.recvs && t != r ==> t in recvs' && recvs'[t] == w.recvs[t]
    requires forall t :: t in recvs' && t != r ==> t in w.recvs
    requires r in recvs' ==>
               && !w.recvs[r].composed.isAck && !Reading(recvs'[r])
               && recvs'[r].composed == w.recvs[r].composed && recvs'[r].queue == w.recvs[r].queue
    ensures ReceiversSound(cfg, recvs', w.flight)
    ensures StoreExact(w.store, w.flight, w.sends, recvs')
  {
    hide GoodId, ReadsSent;
  }

  lemma KeepsReceiverDone(cfg: Config, w: World, w': World, r: nat)
    requires Inv(cfg, w) && r in w.recvs && (!Reading(w.recvs[r]) || w.recvs[r].composed.isAck)
    requires forall t :: t in w.recvs && t != r ==> t in w'.recvs && w'.recvs[t] == w.recvs[t]
    requires forall t :: t in w'.recvs && t != r ==> t in w.recvs
    requires r in w'.recvs ==>
               && !w.recvs[r].composed.isAck && !Reading(w'.recvs[r])
               && w'.recvs[r].composed == w.recvs[r].composed && w'.recvs[r].queue == w.recvs[r].queue
    requires w'.store == w.store && w'.queues == w.queues && w'.sends == w.sends && w'.issued == w.issued
    requires w'.flight == w.flight
    ensures Inv(cfg, w')
  {
    hide SendersSound, StoreExact, FlightsSound, QueuesSound, ReceiversSound, Reading;
    ReceiverDone(cfg, w, w'.recvs, r);
  }

  lemma KeepsReadHead(cfg: Config, w: World, r: nat)
    requires Inv(cfg, w) && DoReadHead(w, r).Some?
    ensures Inv(cfg, DoReadHead(w, r).value)
  {
    hide Inv, GoodId, Sendable;
    if w.recvs[r].composed.isAck {
      StrayFindsNothing(cfg, w, r);
      KeepsReceiverDone(cfg, w, DoReadHead(w, r).value, r);
    } else {
      BeingRead(cfg, w, r);
      KeepsReceiveStep(cfg, w, r, DoReadHead(w, r).value.recvs[r], w.store);
    }
  }

  lemma ReceiverEnds(cfg: Config, recvs: map<nat, RecvOp>, flight: Flights, r: nat, op: RecvOp)
    requires ReceiversSound(cfg, recvs, flight) && r in recvs && Reading(recvs[r]) && !recvs[r].composed.isAck
    requires op.queue == recvs[r].queue && op.composed == recvs[r].composed && !Reading(op)
    ensures ReceiversSound(cfg, recvs[r := op], Without(flight, RecvId(op)))
  {
    hide GoodId, ReadsSent;
  }

  lemma StoreReadOut(cfg: Config, w: World, r: nat, op: RecvOp, store': map<Key, Value>)
    requires ReceiversSound(cfg, w.recvs, w.flight) && StoreExact(w.store, w.flight, w.sends, w.recvs)
    requires r in w.recvs && Reading(w.recvs[r]) && !w.recvs[r].composed.isAck
    requires op.queue == w.recvs[r].queue && op.composed == w.recvs[r].composed
    requires forall k: Key :: k in store' <==> k in w.store && k.id != RecvId(op)
    requires forall k: Key :: k in store' ==> store'[k] == w.store[k]
    ensures StoreExact(store', Without(w.flight, RecvId(op)), w.sends, w.recvs[r := op])
  {
    hide GoodId, ReadsSent;
  }

  lemma KeepsAllRead(cfg: Config, w: World, r: nat, head: Head, body: Option<Bytes>, store': map<Key, Value>)
    requires Inv(cfg, w) && r in w.recvs && Reading(w.recvs[r]) && !w.recvs[r].composed.isAck
    requires forall k: Key :: k in store' <==> k in w.store && k.id != RecvId(w.recvs[r])
    requires forall k: Key :: k in store' ==> store'[k] == w.store[k]
    ensures Inv(cfg, AllRead(w.(store := store'), r, head, body))
  {
    hide SendersSound, StoreExact, FlightsSound, QueuesSound, ReceiversSound, GoodId, Sendable, ReadsSent;
    var op, id := w.recvs[r].(pc := Process(head, body)), RecvId(w.recvs[r]);
    BeingRead(cfg, w, r);
    FlightEnds(cfg, w.issued, w.flight, id);
    SendersUnmoved(w.sends, w.flight, Without(w.flight, id));
    QueuesUnmoved(cfg, w.queues, w.flight, Without(w.flight, id));
    ReceiverEnds(cfg, w.recvs, w.flight, r, op);
    StoreReadOut(cfg, w, r, op, store');
  }

  lemma KeepsClearHead(cfg: Config, w: World, r: nat)
    requires Inv(cfg, w) && DoClearHead(cfg, w, r).Some?
    ensures Inv(cfg, DoClearHead(cfg, w, r).value)
  {
    hide Inv, GoodId;
    OnlyDataIsRead(cfg, w, r);
    BeingRead(cfg, w, r);
    var head, store' := w.recvs[r].pc.head, Without(w.store, HeadKey(RecvId(w.recvs[r])));
    if head.ctype == C2C {
      KeepsReceiveStep(cfg, w, r, w.recvs[r].(pc := GetBody(head)), store');
    } else {
      KeepsAllRead(cfg, w, r, head, None, store');
    }
  }

  lemma KeepsReadBody(cfg: Config, w: World, r: nat)
    requires Inv(cfg, w) && DoReadBody(w, r).Some?
    ensures Inv(cfg, DoReadBody(w, r).value)
  {
    hide Inv, GoodId, Sendable;
    OnlyDataIsRead(cfg, w, r);
    BeingRead(cfg, w, r);
    var head := w.recvs[r].pc.head;
    if BodyKey(head.id) in w.store {
      KeepsReceiveStep(cfg, w, r, DoReadBody(w, r).value.recvs[r], w.store);
    } else {
      KeepsAllRead(cfg, w, r, head, None, w.store);
    }
  }

  lemma KeepsClearBody(cfg: Config, w: World, r: nat)
    requires Inv(cfg, w) && DoClearBody(w, r).Some?
    ensures Inv(cfg, DoClearBody(w, r).value)
  {
    hide Inv, GoodId, Sendable;
    OnlyDataIsRead(cfg, w, r);
    BeingRead(cfg, w, r);
    var pc := w.recvs[r].pc;
    KeepsAllRead(cfg, w, r, pc.head, Some(pc.body), Without(w.store, BodyKey(pc.head.id)));
  }

  // ---------------------------------------------------------------------
  // A message is processed

  /** Processing changes nothing but the receive itself and what its sender waits for. */
  lemma OnlyProcessEnds(cfg: Config, w: World, r: nat, ok: bool)
    requires DoProcess(cfg, w, r, ok).Some?
    ensures var w' := DoProcess(cfg, w, r, ok).value;
            w'.store == w.store && w'.queues == w.queues && w'.sends == w.sends && w'.issued == w.issued
            && w'.flight == w.flight
  {
    hide ReceiverAnswers, Judged;
  }

  lemma KeepsProcess(cfg: Config, w: World, r: nat, ok: bool)
    requires Inv(cfg, w) && DoProcess(cfg, w, r, ok).Some?
    ensures Inv(cfg, DoProcess(cfg, w, r, ok).value)
  {
    hide Inv, ReceiverAnswers, Judged;
    OnlyDataIsRead(cfg, w, r);
    OnlyProcessEnds(cfg, w, r, ok);
    var op, w' := w.recvs[r], DoProcess(cfg, w, r, ok).value;
    if ReceiverAnswers(cfg, op.queue, op.pc.head) {
      var op' := op.(pc := PostAck(op.pc.head, ok, 0));
      assert w'.recvs == w.recvs[r := op'];
      KeepsReceiverDone(cfg, w, w', r);
    } else {
      assert w'.recvs == Without(w.recvs, r);
      KeepsReceiverDone(cfg, w, w', r);
    }
  }

  lemma KeepsAnswerGivesUp(cfg: Config, w: World, r: nat)
    requires Inv(cfg, w) && DoAnswerGivesUp(cfg, w, r).Some?
    ensures Inv(cfg, DoAnswerGivesUp(cfg, w, r).value)
  {
    hide Inv;
    KeepsReceiverDone(cfg, w, DoAnswerGivesUp(cfg, w, r).value, r);
  }

  lemma KeepsAnswerOpenFails(cfg: Config, w: World, r: nat)
    requires Inv(cfg, w) && DoAnswerOpenFails(w, r).Some?
    ensures Inv(cfg, DoAnswerOpenFails(w, r).value)
  {
    hide Inv;
    KeepsReceiverDone(cfg, w, DoAnswerOpenFails(w, r).value, r);
  }

  lemma KeepsAnswer(cfg: Config, w: World, r: nat, result: PostResult)
    requires Inv(cfg, w) && DoAnswer(cfg, w, r, result).Some?
    ensures Inv(cfg, DoAnswer(cfg, w, r, result).value)
  {
    hide SendersSound, StoreExact, FlightsSound, QueuesSound, GoodId, Answered, Enqueued, AckWord, Compose, ReadsSent;
    var w' := DoAnswer(cfg, w, r, result).value;
    KeepsReceiverDone(cfg, w, w'.(queues := w.queues), r);
    if result == Sent {
      QueuePushAck(cfg, w.queues, w.flight, RecvId(w.recvs[r]), w.recvs[r].pc.ok);
    }
  }

  // ---------------------------------------------------------------------
  // Every step, every run

  lemma SendStepKeepsInv(cfg: Config, w: World, step: Step)
    requires Inv(cfg, w) && Next(cfg, w, step).Some?
    requires step.TakeSerial? || step.StartSend? || step.SetHead? || step.SetBody? || step.OpenFails? || step.PostWord?
             || step.GiveUp? || step.UnsetHead? || step.UnsetBody? || step.TakeAck? || step.AckTimeout?
    ensures Inv(cfg, Next(cfg, w, step).value)
  {
    hide Inv, DoTakeSerial, DoStartSend, DoSetHead, DoSetBody, DoOpenFails, DoPostWord, DoGiveUp, DoUnsetHead,
      DoUnsetBody, DoTakeAck, DoAckTimeout;
    match step
    case TakeSerial(p) => KeepsTakeSerial(cfg, w, p);
    case StartSend(s, issue, head, body) => KeepsStartSend(cfg, w, s, issue, head, body);
    case SetHead(s, ok) => KeepsSetHead(cfg, w, s, ok);
    case SetBody(s, ok) => KeepsSetBody(cfg, w, s, ok);
    case OpenFails(s) => KeepsOpenFails(cfg, w, s);
    case PostWord(s, result) => KeepsPostWord(cfg, w, s, result);
    case GiveUp(s) => KeepsGiveUp(cfg, w, s);
    case UnsetHead(s) => KeepsUnsetHead(cfg, w, s);
    case UnsetBody(s) => KeepsUnsetBody(cfg, w, s);
    case TakeAck(s) => KeepsTakeAck(cfg, w, s);
    case AckTimeout(s) => KeepsAckTimeout(cfg, w, s);
  }

  lemma KeepsDequeue(cfg: Config, w: World, r: nat, q: U64)
    requires Inv(cfg, w) && DoDequeue(cfg, w, r, q).Some?
    ensures Inv(cfg, DoDequeue(cfg, w, r, q).value)
  {
    hide Inv, IsData, Decompose;
    if IsData(cfg, w.queues[q][0]) {
      KeepsDequeueData(cfg, w, r, q);
    } else {
      KeepsDequeueStray(cfg, w, r, q);
    }
  }

  /** Every step keeps the invariant. */
  lemma StepKeepsInv(cfg: Config, w: World, step: Step)
    requires Inv(cfg, w) && Next(cfg, w, step).Some?
    ensures Inv(cfg, Next(cfg, w, step).value)
  {
    hide Inv, DoTakeSerial, DoStartSend, DoSetHead, DoSetBody, DoOpenFails, DoPostWord, DoGiveUp, DoUnsetHead,
      DoUnsetBody, DoTakeAck, DoAckTimeout, DoDequeue, DoReadHead, DoClearHead, DoReadBody, DoClearBody, DoProcess,
      DoAnswer, DoAnswerGivesUp, DoAnswerOpenFails;
    match step
    case Dequeue(r, q) => KeepsDequeue(cfg, w, r, q);
    case ReadHead(r) => KeepsReadHead(cfg, w, r);
    case ClearHead(r) => KeepsClearHead(cfg, w, r);
    case ReadBody(r) => KeepsReadBody(cfg, w, r);
    case ClearBody(r) => KeepsClearBody(cfg, w, r);
    case Processed(r, ok) => KeepsProcess(cfg, w, r, ok);
    case AnswerWord(r, result) => KeepsAnswer(cfg, w, r, result);
    case AnswerGivesUp(r) => KeepsAnswerGivesUp(cfg, w, r);
    case AnswerOpenFails(r) => KeepsAnswerOpenFails(cfg, w, r);
    case _ => SendStepKeepsInv(cfg, w, step);
  }

  /** Every run keeps the invariant. */
  lemma {:induction false} RunKeepsInv(cfg: Config, w: World, steps: seq<Step>)
    requires Inv(cfg, w) && Run(cfg, w, steps).Some?
    ensures Inv(cfg, Run(cfg, w, steps).value)
    decreases |steps|
  {
    hide Inv, Next;
    if steps != [] {
      StepKeepsInv(cfg, w, steps[0]);
      RunKeepsInv(cfg, Next(cfg, w, steps[0]).value, steps[1..]);
    }
  }
}
