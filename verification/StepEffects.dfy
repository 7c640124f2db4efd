/** What the steps of one send or one receive amount to, as a whole world each. */
module StepEffects {
  import opened Text
  import opened Words
  import opened MessageId
  import opened Transfer
  import opened Conservation
  import opened Delivery
  import opened Acknowledgement

  // ---------------------------------------------------------------------
  // Maps

  lemma AddedAndRemoved<K, V>(m: map<K, V>, k: K, v: V)
    requires k !in m
    ensures Without(m[k := v], k) == m
  {
  }

  lemma UpdatedAndRemoved<K, V>(m: map<K, V>, k: K, v: V)
    ensures Without(m[k := v], k) == Without(m, k)
  {
  }

  lemma UpdatedTwice<K, V>(m: map<K, V>, k: K, v: V, v': V)
    ensures m[k := v][k := v'] == m[k := v']
  {
  }

  // ---------------------------------------------------------------------
  // Receives

  /** The store without the entries of a message. */
  function WithoutMessage(store: map<Key, Value>, id: Id): map<Key, Value> {
    map k | k in store && k.id != id :: store[k]
  }

  /** The answer has been refused `tries` times. */
  function Refused(w: World, r: nat, tries: nat): World
    requires r in w.recvs && w.recvs[r].pc.PostAck?
  {
    w.(recvs := w.recvs[r := w.recvs[r].(pc := w.recvs[r].pc.(tries := tries))])
  }

  function WithAnswer(cfg: Config, w: World, r: nat): map<U64, seq<U64>>
    requires r in w.recvs && w.recvs[r].pc.PostAck?
  {
    var op := w.recvs[r];
    Enqueued(w.queues, op.composed.msgid, AckWord(cfg, RecvId(op), op.pc.ok))
  }

  /** A receive is over; its acknowledgement is posted, or not. */
  function AnswerOver(cfg: Config, w: World, r: nat, sent: bool): World
    requires r in w.recvs && w.recvs[r].pc.PostAck?
  {
    var over := w.(recvs := Without(w.recvs, r));
    if sent then over.(queues := WithAnswer(cfg, w, r), waits := Answered(w.waits, w.recvs[r].composed.msgid, r))
    else over
  }

  lemma AnswerIs(cfg: Config, w: World, r: nat, tries: nat, result: PostResult)
    requires r in w.recvs && w.recvs[r].pc.PostAck? && tries < cfg.retries
    ensures Next(cfg, Refused(w, r, tries), AnswerWord(r, result))
         == Some(if result == Full then Refused(w, r, tries + 1) else AnswerOver(cfg, w, r, result == Sent))
  {
    hide AckWord, Enqueued, Answered;
    var op := w.recvs[r];
    UpdatedTwice(w.recvs, r, op.(pc := op.pc.(tries := tries)), op.(pc := op.pc.(tries := tries + 1)));
    assert Without(Refused(w, r, tries).recvs, r) == Without(w.recvs, r);
  }

  lemma AnswerEnds(cfg: Config, w: World, r: nat, tries: nat)
    requires r in w.recvs && w.recvs[r].pc.PostAck? && cfg.retries <= tries
    ensures Next(cfg, Refused(w, r, tries), AnswerGivesUp(r)) == Some(AnswerOver(cfg, w, r, false))
  {
    assert Without(Refused(w, r, tries).recvs, r) == Without(w.recvs, r);
  }

  lemma AnswerOpenFailsIs(cfg: Config, w: World, r: nat)
    requires r in w.recvs && w.recvs[r].pc.PostAck? && w.recvs[r].pc.tries == 0
    ensures Next(cfg, w, AnswerOpenFails(r)) == Some(AnswerOver(cfg, w, r, false))
  {
  }

  /** The receive has read all there is of its message, and removed it from the store. */
  function Read(w: World, r: nat): World
    requires r in w.recvs && RecvId(w.recvs[r]) in w.flight
  {
    var id := RecvId(w.recvs[r]);
    AllRead(w.(store := WithoutMessage(w.store, id)), r, w.flight[id].head, AsFound(w.flight[id].body))
  }

  /** The receive goes on to `pc`. */
  function Reads(w: World, r: nat, pc: RecvPc, store: map<Key, Value>): World
    requires r in w.recvs
  {
    w.(recvs := w.recvs[r := w.recvs[r].(pc := pc)], store := store)
  }

  lemma OnlyBodyLeft(cfg: Config, w: World, r: nat)
    requires Inv(cfg, w) && r in w.recvs && w.recvs[r].pc.GetBody?
    ensures var id, head := RecvId(w.recvs[r]), w.recvs[r].pc.head;
            && id in w.flight && w.flight[id].head == head && head.id == id
            && HeadKey(id) !in w.store && (BodyKey(id) in w.store <==> w.flight[id].body != [])
            && (BodyKey(id) in w.store ==> w.store[BodyKey(id)] == BodyValue(w.flight[id].body))
            && WithoutMessage(w.store, id) == Without(w.store, BodyKey(id))
  {
    hide Inv, GoodId, Sendable;
    OnlyDataIsRead(cfg, w, r);
    BeingRead(cfg, w, r);
    var id := RecvId(w.recvs[r]);
    forall k: Key | k.id == id ensures k == HeadKey(id) || k == BodyKey(id) {}
  }

  lemma BodyIs(cfg: Config, w: World, r: nat)
    requires Inv(cfg, w) && r in w.recvs && w.recvs[r].pc.GetBody?
    ensures var id, next := RecvId(w.recvs[r]), Next(cfg, w, ReadBody(r));
            && id in w.flight && next.Some? && r in next.value.recvs
            && if w.flight[id].body == [] then
                 next.value == Read(w, r) && next.value.recvs[r].pc.Process?
               else
                 && next.value.recvs[r].pc.RemoveBody?
                 && Next(cfg, next.value, ClearBody(r)) == Some(Read(w, r))
  {
    hide Inv;
    OnlyBodyLeft(cfg, w, r);
    var id, op := RecvId(w.recvs[r]), w.recvs[r];
    var f := w.flight[id];
    if f.body == [] {
      assert Without(w.store, BodyKey(id)) == w.store;
    } else {
      var taken := RemoveBody(f.head, f.body);
      assert w.recvs[r := op.(pc := taken)][r := op.(pc := Process(f.head, Some(f.body)))]
          == w.recvs[r := op.(pc := Process(f.head, Some(f.body)))];
    }
  }

  lemma HeadIs(cfg: Config, w: World, r: nat)
    requires Inv(cfg, w) && r in w.recvs && w.recvs[r].pc == GetHead
    ensures var id, next := RecvId(w.recvs[r]), Next(cfg, w, ReadHead(r));
            && next.Some?
            && if w.recvs[r].composed.isAck then next.value == w.(recvs := Without(w.recvs, r))
               else
                 && id in w.flight && r in next.value.recvs && next.value.recvs[r].pc == RemoveHead(w.flight[id].head)
                 && next.value == Reads(w, r, RemoveHead(w.flight[id].head), w.store)
  {
    hide Inv, GoodId, Sendable;
    if w.recvs[r].composed.isAck {
      StrayFindsNothing(cfg, w, r);
    } else {
      BeingRead(cfg, w, r);
    }
  }

  lemma OnlyHeadLeft(cfg: Config, w: World, r: nat)
    requires Inv(cfg, w) && r in w.recvs && w.recvs[r].pc == GetHead && !w.recvs[r].composed.isAck
    ensures var id := RecvId(w.recvs[r]);
            && id in w.flight && w.flight[id].head.id == id && Receivable(cfg, w.flight[id].head)
            && (w.flight[id].head.ctype != C2C ==>
                  w.flight[id].body == [] && WithoutMessage(w.store, id) == Without(w.store, HeadKey(id)))
  {
    hide Inv, GoodId;
    BeingRead(cfg, w, r);
    var id := RecvId(w.recvs[r]);
    forall k: Key | k.id == id ensures k == HeadKey(id) || k == BodyKey(id) {}
  }

  lemma ClearedIs(cfg: Config, w: World, r: nat)
    requires Inv(cfg, w) && r in w.recvs && w.recvs[r].pc == GetHead && !w.recvs[r].composed.isAck
    ensures var id := RecvId(w.recvs[r]);
            && id in w.flight
            && (var head := w.flight[id].head;
                Next(cfg, Reads(w, r, RemoveHead(head), w.store), ClearHead(r))
                == Some(if head.ctype == C2C then Reads(w, r, GetBody(head), Without(w.store, HeadKey(id)))
                    else Read(w, r)))
  {
    hide Inv, Receivable;
    OnlyHeadLeft(cfg, w, r);
    var id, op := RecvId(w.recvs[r]), w.recvs[r];
    var head := w.flight[id].head;
    assert w.recvs[r := op.(pc := RemoveHead(head))][r := op.(pc := GetBody(head))]
        == w.recvs[r := op.(pc := GetBody(head))];
    assert w.recvs[r := op.(pc := RemoveHead(head))][r := op.(pc := Process(head, None))]
        == w.recvs[r := op.(pc := Process(head, None))];
  }

  /** Reading on from the body ends as reading from the start does. */
  lemma ReadOn(cfg: Config, w: World, r: nat, head: Head)
    requires r in w.recvs && RecvId(w.recvs[r]) in w.flight
    ensures var id := RecvId(w.recvs[r]);
            w.flight[id].head.id == id ==>
              Read(Reads(w, r, GetBody(head), Without(w.store, HeadKey(id))), r) == Read(w, r)
  {
    var id, op, f := RecvId(w.recvs[r]), w.recvs[r], w.flight[RecvId(w.recvs[r])];
    var p := Process(f.head, AsFound(f.body));
    assert w.recvs[r := op.(pc := GetBody(head))][r := op.(pc := p)] == w.recvs[r := op.(pc := p)];
    assert WithoutMessage(Without(w.store, HeadKey(id)), id) == WithoutMessage(w.store, id);
  }

  /** A message has been received as a whole: its entries are gone, and if its sender waits
      for that, it has been told how the processing ended, unless that could not be posted. */
  function Received(cfg: Config, w: World, r: nat, processes: bool, sent: bool): World
    requires r in w.recvs && RecvId(w.recvs[r]) in w.flight
  {
    var id, op := RecvId(w.recvs[r]), w.recvs[r];
    var over := w.(store := WithoutMessage(w.store, id), flight := Without(w.flight, id), recvs := Without(w.recvs, r));
    if !ReceiverAnswers(cfg, op.queue, w.flight[id].head) then over
    else
      var judged := Judged(w.waits, id.dept, r, processes);
      if sent then
        over.(queues := Enqueued(w.queues, id.dept, AckWord(cfg, id, processes)), waits := Answered(judged, id.dept, r))
      else over.(waits := judged)
  }

  lemma ProcessIs(cfg: Config, w: World, r: nat, ok: bool)
    requires r in w.recvs && RecvId(w.recvs[r]) in w.flight
    ensures var op, head := w.recvs[r], w.flight[RecvId(w.recvs[r])].head;
            var next := Next(cfg, Read(w, r), Processed(r, ok));
            && next.Some?
            && if !ReceiverAnswers(cfg, op.queue, head) then forall sent :: next.value == Received(cfg, w, r, ok, sent)
               else
                 && r in next.value.recvs && next.value.recvs[r] == op.(pc := PostAck(head, ok, 0))
                 && forall sent :: AnswerOver(cfg, next.value, r, sent) == Received(cfg, w, r, ok, sent)
  {
    hide ReceiverAnswers, Judged, Answered, AckWord, Enqueued, WithoutMessage;
    var op, f := w.recvs[r], w.flight[RecvId(w.recvs[r])];
    var p := op.(pc := Process(f.head, AsFound(f.body)));
    UpdatedTwice(w.recvs, r, p, op.(pc := PostAck(f.head, ok, 0)));
    UpdatedAndRemoved(w.recvs, r, p);
    UpdatedAndRemoved(w.recvs, r, op.(pc := PostAck(f.head, ok, 0)));
  }

  lemma QueuedWordIsDecoded(cfg: Config, w: World, q: U64)
    requires Inv(cfg, w) && WordsOn(w.queues, q) != []
    ensures Decompose(cfg.base, w.queues[q][0]).Decoded?
  {
    hide FlightsSound, SendersSound, QueuesSound, ReceiversSound, StoreExact, Decompose;
    FirstWordIsSound(cfg, w.queues, w.flight, q);
  }

  /** The first message on a queue has been taken by receive `r`. */
  function TakenBy(cfg: Config, w: World, r: nat, q: U64): World
    requires WordsOn(w.queues, q) != [] && IsData(cfg, w.queues[q][0])
  {
    var id := WordId(cfg, q, w.queues[q][0]);
    w.(queues := w.queues[q := w.queues[q][1..]],
       recvs := w.recvs[r := RecvOp(q, Decompose(cfg.base, w.queues[q][0]).composed, GetHead)],
       flight := Moved(w.flight, id, AtReceiver(r)), waits := Taken(w.waits, id, r))
  }

  lemma DequeueIs(cfg: Config, w: World, r: nat, q: U64)
    requires Inv(cfg, w) && WordsOn(w.queues, q) != [] && IsData(cfg, w.queues[q][0]) && r !in w.recvs
    ensures Next(cfg, w, Dequeue(r, q)) == Some(TakenBy(cfg, w, r, q))
    ensures var id := WordId(cfg, q, w.queues[q][0]);
            && id in w.flight && w.flight[id].place == InQueue && id == RecvId(TakenBy(cfg, w, r, q).recvs[r])
  {
    hide FlightsSound, SendersSound, QueuesSound, ReceiversSound, StoreExact, Decompose, Moved, Taken;
    FirstWordIsSound(cfg, w.queues, w.flight, q);
  }

  /** The first message on the queue of a client has been received. */
  function Interrupted(cfg: Config, w: World, q: U64): World
    requires WordsOn(w.queues, q) != [] && IsData(cfg, w.queues[q][0])
  {
    var id := WordId(cfg, q, w.queues[q][0]);
    w.(queues := w.queues[q := w.queues[q][1..]], store := WithoutMessage(w.store, id),
       flight := Without(w.flight, id))
  }

  /** No client acknowledges, and no chmpx process waits for an acknowledgement. */
  lemma InterruptIs(cfg: Config, w: World, r: nat, q: U64, processes: bool, sent: bool)
    requires Sound(cfg, w) && q !in cfg.chmpxQueues && r !in w.recvs
    requires WordsOn(w.queues, q) != [] && IsData(cfg, w.queues[q][0])
    ensures RecvId(TakenBy(cfg, w, r, q).recvs[r]) in TakenBy(cfg, w, r, q).flight
    ensures Received(cfg, TakenBy(cfg, w, r, q), r, processes, sent) == Interrupted(cfg, w, q)
  {
    hide SendersSound, QueuesSound, ReceiversSound, StoreExact, FlightsSound, Decompose, WithoutMessage, Sendable;
    DequeueIs(cfg, w, r, q);
    AllGood(cfg, w.issued, w.flight);
    var id := WordId(cfg, q, w.queues[q][0]);
    assert id.dept !in w.waits;
    AddedAndRemoved(w.recvs, r, TakenBy(cfg, w, r, q).recvs[r]);
    UpdatedAndRemoved(w.flight, id, w.flight[id].(place := AtReceiver(r)));
  }

  // ---------------------------------------------------------------------
  // Sends

  /** The store with the entries of a message. */
  function Stored(store: map<Key, Value>, head: Head, body: Bytes): map<Key, Value> {
    var withHead := store[HeadKey(head.id) := HeadValue(head)];
    if body == [] then withHead else withHead[BodyKey(head.id) := BodyValue(body)]
  }

  /** After the removal of the head, the body is all that is left of the message, if there is one. */
  lemma UnsetHeadIs(cfg: Config, w: World, s: nat)
    requires Inv(cfg, w) && s in w.sends && w.sends[s].pc == DropHead
    ensures Next(cfg, w, UnsetHead(s)).Some?
    ensures var id, w' := w.sends[s].head.id, Next(cfg, w, UnsetHead(s)).value;
            var over := Some(SendOver(w.(store := WithoutMessage(w.store, id)), s));
            if w.sends[s].body == [] then Some(w') == over else Next(cfg, w', UnsetBody(s)) == over
  {
    hide FlightsSound, SendersSound, QueuesSound, ReceiversSound, StoreExact;
    StoredSoFar(w, s);
    var id := w.sends[s].head.id;
    forall k: Key | k.id == id ensures k == HeadKey(id) || k == BodyKey(id) {}
    var half := Without(w.store, HeadKey(id));
    if w.sends[s].body == [] {
      assert half == WithoutMessage(w.store, id);
    } else {
      assert Without(half, BodyKey(id)) == WithoutMessage(w.store, id);
      var rest := w.sends[s := w.sends[s].(pc := DropBody, wroteHead := false)];
      assert Without(rest, s) == Without(w.sends, s);
    }
  }

  function SendingAs(w: World, s: nat, op: SendOp, store: map<Key, Value>): World {
    w.(sends := w.sends[s := op], store := store)
  }

  /** The message has been refused `tries` times. */
  function Trying(w: World, s: nat, tries: nat): World
    requires s in w.sends
  {
    w.(sends := w.sends[s := w.sends[s].(pc := Post(tries))])
  }

  lemma EmptyRun(cfg: Config, w: World)
    ensures Run(cfg, w, []) == Some(w)
  {
  }

  lemma SetHeadIs(cfg: Config, w: World, s: nat, ok: bool)
    requires s in w.sends && w.sends[s].pc == WriteHead
    ensures var op := w.sends[s];
            var op' := if ok then op.(pc := if op.body == [] then Post(0) else WriteBody, wroteHead := true)
                else op.(pc := DropHead);
            var store' := if ok then w.store[HeadKey(op.head.id) := HeadValue(op.head)] else w.store;
            && Next(cfg, w, SetHead(s, ok)) == Some(SendingAs(w, s, op', store'))
            && WithoutMessage(store', op.head.id) == WithoutMessage(w.store, op.head.id)
  {
  }

  lemma StoresOwn(store: map<Key, Value>, id: Id, head: Value, body: Value)
    ensures WithoutMessage(store[HeadKey(id) := head], id) == WithoutMessage(store, id)
    ensures WithoutMessage(store[HeadKey(id) := head][BodyKey(id) := body], id) == WithoutMessage(store, id)
  {
  }

  lemma SetBodyIs(cfg: Config, w: World, s: nat, ok: bool)
    requires s in w.sends && w.sends[s].pc == WriteHead && w.sends[s].body != []
    ensures var op := w.sends[s];
            var store1 := w.store[HeadKey(op.head.id) := HeadValue(op.head)];
            var op1 := op.(pc := WriteBody, wroteHead := true);
            var op2 := if ok then op1.(pc := Post(0), wroteBody := true) else op1.(pc := DropHead);
            var store2 := if ok then store1[BodyKey(op.head.id) := BodyValue(op.body)] else store1;
            && Next(cfg, SendingAs(w, s, op1, store1), SetBody(s, ok)) == Some(SendingAs(w, s, op2, store2))
            && WithoutMessage(store2, op.head.id) == WithoutMessage(w.store, op.head.id)
  {
    hide WithoutMessage;
    var op := w.sends[s];
    var op1 := op.(pc := WriteBody, wroteHead := true);
    StoresOwn(w.store, op.head.id, HeadValue(op.head), BodyValue(op.body));
    UpdatedTwice(w.sends, s, op1, if ok then op1.(pc := Post(0), wroteBody := true) else op1.(pc := DropHead));
  }

  lemma NotTried(w: World, s: nat)
    requires s in w.sends && w.sends[s].pc == Post(0)
    ensures Trying(w, s, 0) == w
  {
    assert w.sends[s := w.sends[s]] == w.sends;
  }

  /** The message could not be posted. */
  function PostFailed(w: World, s: nat): World
    requires s in w.sends
  {
    SendingAs(w, s, w.sends[s].(pc := DropHead), w.store)
  }

  lemma OpenFailsIs(cfg: Config, w: World, s: nat)
    requires s in w.sends && w.sends[s].pc == Post(0)
    ensures Next(cfg, w, OpenFails(s)) == Some(PostFailed(w, s))
  {
  }

  /** The message is on its way, and its send is over or waits. */
  function MessagePosted(cfg: Config, w: World, s: nat): World
    requires s in w.sends
  {
    var op, id := w.sends[s], w.sends[s].head.id;
    var posted := w.(queues := Enqueued(w.queues, id.term, DataWord(cfg, id)), flight := Moved(w.flight, id, InQueue));
    if SenderWaits(cfg, op.head) then
      posted.(sends := w.sends[s := op.(pc := AwaitAck)], waits := w.waits[id.dept := Wait(s, id, AskedFor, None)])
    else posted.(sends := Without(w.sends, s))
  }

  lemma PostRefusedIs(cfg: Config, w: World, s: nat, tries: nat, result: PostResult)
    requires s in w.sends && tries < cfg.retries && result != Sent
    ensures Next(cfg, Trying(w, s, tries), PostWord(s, result))
         == Some(if result == Full then Trying(w, s, tries + 1) else PostFailed(w, s))
  {
    hide Enqueued, DataWord, SenderWaits, Moved;
    var op := w.sends[s];
    UpdatedTwice(w.sends, s, op.(pc := Post(tries)), op.(pc := Post(tries + 1)));
    UpdatedTwice(w.sends, s, op.(pc := Post(tries)), op.(pc := DropHead));
  }

  lemma PostSentIs(cfg: Config, w: World, s: nat, tries: nat)
    requires s in w.sends && tries < cfg.retries
    ensures Next(cfg, Trying(w, s, tries), PostWord(s, Sent)) == Some(MessagePosted(cfg, w, s))
  {
    hide Enqueued, DataWord, SenderWaits, Moved;
    var op := w.sends[s];
    UpdatedTwice(w.sends, s, op.(pc := Post(tries)), op.(pc := AwaitAck));
    UpdatedAndRemoved(w.sends, s, op.(pc := Post(tries)));
  }

  lemma PostWordIs(cfg: Config, w: World, s: nat, tries: nat, result: PostResult)
    requires s in w.sends && tries < cfg.retries
    ensures Next(cfg, Trying(w, s, tries), PostWord(s, result))
         == Some(match result
                 case Full => Trying(w, s, tries + 1)
                 case Error => PostFailed(w, s)
                 case Sent => MessagePosted(cfg, w, s))
  {
    hide Next, Trying, MessagePosted, PostFailed;
    if result == Sent {
      PostSentIs(cfg, w, s, tries);
    } else {
      PostRefusedIs(cfg, w, s, tries, result);
    }
  }

  lemma GiveUpIs(cfg: Config, w: World, s: nat, tries: nat)
    requires s in w.sends && cfg.retries <= tries
    ensures Next(cfg, Trying(w, s, tries), GiveUp(s)) == Some(PostFailed(w, s))
  {
    UpdatedTwice(w.sends, s, w.sends[s].(pc := Post(tries)), w.sends[s].(pc := DropHead));
  }

  /** The send has begun. */
  function Started(w: World, s: nat, issue: nat, head: Head, body: Bytes): World {
    w.(sends := w.sends[s := SendOp(head, body, WriteHead, false, false)],
       flight := w.flight[head.id := Flight(issue, head, body, AtSender(s))])
  }

  lemma StartIs(cfg: Config, w: World, s: nat, issue: nat, head: Head, body: Bytes)
    requires s !in w.sends && Sendable(cfg, head, body) && GoodId(cfg, head.id) && MayStart(cfg, w, issue, head.id)
    ensures Next(cfg, w, StartSend(s, issue, head, body)) == Some(Started(w, s, issue, head, body))
  {
    hide Sendable, GoodId, MayStart, SenderWaits;
  }

  /** The send has stored its message. */
  function Written(w: World, s: nat, head: Head, body: Bytes): World {
    SendingAs(w, s, SendOp(head, body, Post(0), true, body != []), Stored(w.store, head, body))
  }

  /** Send `s` has failed, and has still to remove what it stored since `w1`. */
  predicate HasFailed(w1: World, w3: World, s: nat, head: Head) {
    && s in w3.sends && w3.sends[s].head == head && w3.sends[s].pc == DropHead
    && w3 == SendingAs(w1, s, w3.sends[s], w3.store)
    && WithoutMessage(w3.store, head.id) == WithoutMessage(w1.store, head.id)
  }

  lemma PostFails(w1: World, s: nat, head: Head, body: Bytes)
    ensures HasFailed(w1, PostFailed(Written(w1, s, head, body), s), s, head)
  {
    hide WithoutMessage;
    var op := SendOp(head, body, Post(0), true, body != []);
    UpdatedTwice(w1.sends, s, op, op.(pc := DropHead));
    StoresOwn(w1.store, head.id, HeadValue(head), BodyValue(body));
  }

  /** Once a message that was not posted is removed, everything is as it was. */
  lemma FailureRestores(cfg: Config, w: World, w3: World, s: nat, issue: nat, head: Head, body: Bytes)
    requires Inv(cfg, w) && MayStart(cfg, w, issue, head.id) && s !in w.sends
    requires HasFailed(Started(w, s, issue, head, body), w3, s, head)
    ensures s in w3.sends && w3.sends[s].head == head && w3.sends[s].pc == DropHead
    ensures SendOver(w3.(store := WithoutMessage(w3.store, head.id)), s) == w
  {
    hide SendersSound, QueuesSound, ReceiversSound, FlightsSound, MayStart, StoreExact, WithoutMessage, Without;
    NewIdIsFresh(cfg, w, issue, head.id);
    NoEntryYet(cfg, w, head.id);
    AddedAndRemoved(w.flight, head.id, Flight(issue, head, body, AtSender(s)));
    AddedAndRemoved(w.sends, s, w3.sends[s]);
    UpdatedTwice(w.sends, s, SendOp(head, body, WriteHead, false, false), w3.sends[s]);
  }

  lemma NoEntryYet(cfg: Config, w: World, id: Id)
    requires Inv(cfg, w) && id !in w.flight
    ensures WithoutMessage(w.store, id) == w.store
  {
    hide SendersSound, QueuesSound, ReceiversSound, FlightsSound, HeadStored, BodyStored;
    forall k: Key | k in w.store ensures k.id != id {
      assert k == HeadKey(k.id) || k == BodyKey(k.id);
    }
  }

  /** The world with one more message in the store and on its queue, and with its send
      waiting, if it is one that waits. */
  function WithMessage(cfg: Config, w: World, s: nat, issue: nat, head: Head, body: Bytes): World {
    var posted := w.(store := Stored(w.store, head, body),
                     queues := Enqueued(w.queues, head.id.term, DataWord(cfg, head.id)),
                     flight := w.flight[head.id := Flight(issue, head, body, InQueue)]);
    if SenderWaits(cfg, head) then
      posted.(sends := w.sends[s := SendOp(head, body, AwaitAck, true, body != [])],
              waits := w.waits[head.id.dept := Wait(s, head.id, AskedFor, None)])
    else posted
  }

  /** After posting, everything but the new message is as it was. */
  lemma PostedSoFar(cfg: Config, w: World, s: nat, issue: nat, head: Head, body: Bytes)
    requires s !in w.sends
    ensures MessagePosted(cfg, Written(Started(w, s, issue, head, body), s, head, body), s)
         == WithMessage(cfg, w, s, issue, head, body)
  {
    hide Enqueued, DataWord, SenderWaits, Stored, Without, WithoutMessage;
    var op := SendOp(head, body, Post(0), true, body != []);
    UpdatedTwice(w.sends, s, SendOp(head, body, WriteHead, false, false), op);
    UpdatedTwice(w.sends, s, op, op.(pc := AwaitAck));
    AddedAndRemoved(w.sends, s, op);
    UpdatedTwice(w.flight, head.id, Flight(issue, head, body, AtSender(s)), Flight(issue, head, body, InQueue));
  }
}
