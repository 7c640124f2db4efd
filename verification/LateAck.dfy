/** What goes wrong when an acknowledgement comes after its sender stopped waiting. */
module LateAck {
  import opened Text
  import opened Words
  import opened MessageId
  import opened Transfer
  import opened Conservation

  /** One client queue, 1, and one chmpx queue, 2. */
  const CONFIG := Config(0, 64, 1, true, {2}, map[1 := 0], map[0 := 5])

  const START := World(map[], map[], map[], map[], map[0 := 0], map[], map[])

  const FIRST := Id(1, 2, 5)
  const SECOND := Id(1, 2, 6)

  function Packet(id: Id): Head {
    Head(C2C, id, 64, 64, [])
  }

  /** The first send stops waiting before its message is processed. */
  const SEND: seq<Step> :=
    [TakeSerial(0), TakeSerial(0), StartSend(0, 0, Packet(FIRST), []), SetHead(0, true), PostWord(0, Sent),
        AckTimeout(0)]

  const RECEIVE: seq<Step> :=
    [Dequeue(0, 2), ReadHead(0), ClearHead(0), ReadBody(0), Processed(0, true), AnswerWord(0, Sent)]

  /** The second send posts its message, which nobody has taken from its queue yet. */
  const SEND_AGAIN: seq<Step> :=
    [StartSend(1, 1, Packet(SECOND), []), SetHead(1, true), PostWord(1, Sent)]

  // The worlds in between.

  const SENT := World(
    map[HeadKey(FIRST) := HeadValue(Packet(FIRST))],
    map[2 := [DataWord(CONFIG, FIRST)]],
    map[], map[], map[0 := 2],
    map[FIRST := Flight(0, Packet(FIRST), [], InQueue)],
    map[])

  const ANSWERED := World(
    map[],
    map[2 := [], 1 := [AckWord(CONFIG, FIRST, true)]],
    map[], map[], map[0 := 2], map[], map[])

  // A send, with nothing else going on.

  function Started(w: World, s: nat, issue: nat, id: Id): World {
    w.(sends := map[s := SendOp(Packet(id), [], WriteHead, false, false)],
       flight := map[id := Flight(issue, Packet(id), [], AtSender(s))])
  }

  function Written(w: World, s: nat, issue: nat, id: Id): World {
    Started(w, s, issue, id).(store := map[HeadKey(id) := HeadValue(Packet(id))],
                              sends := map[s := SendOp(Packet(id), [], Post(0), true, false)])
  }

  function Posted(w: World, s: nat, issue: nat, id: Id): World {
    Written(w, s, issue, id).(queues := Enqueued(w.queues, 2, DataWord(CONFIG, id)),
                              sends := map[s := SendOp(Packet(id), [], AwaitAck, true, false)],
                              flight := map[id := Flight(issue, Packet(id), [], InQueue)],
                              waits := map[1 := Wait(s, id, AskedFor, None)])
  }

  predicate Alone(w: World, issue: nat, id: Id) {
    && w.store == map[] && w.sends == map[] && w.flight == map[] && w.waits == map[] && w.issued == map[0 := 2]
    && ((issue == 0 && id == FIRST) || (issue == 1 && id == SECOND))
  }

  lemma Writes(w: World, s: nat, issue: nat, id: Id)
    requires Alone(w, issue, id)
    ensures DoSetHead(Started(w, s, issue, id), s, true) == Some(Written(w, s, issue, id))
  {
    var w1, w2 := Started(w, s, issue, id), Written(w, s, issue, id);
    assert w1.store[HeadKey(id) := HeadValue(Packet(id))] == w2.store && w1.sends[s := w2.sends[s]] == w2.sends;
  }

  lemma PostsWord(w: World, s: nat, issue: nat, id: Id)
    requires Alone(w, issue, id)
    ensures DoPostWord(CONFIG, Written(w, s, issue, id), s, Sent) == Some(Posted(w, s, issue, id))
  {
    hide Compose, Enqueued, DataWord;
    var w2, w3 := Written(w, s, issue, id), Posted(w, s, issue, id);
    assert w2.sends[s := w3.sends[s]] == w3.sends && w2.waits[1 := w3.waits[1]] == w3.waits;
    assert w2.flight[id := w3.flight[id]] == w3.flight;
  }

  lemma Posts(w: World, s: nat, issue: nat, id: Id)
    requires Alone(w, issue, id)
    ensures Run(CONFIG, w, [StartSend(s, issue, Packet(id), []), SetHead(s, true), PostWord(s, Sent)])
         == Some(Posted(w, s, issue, id))
  {
    hide Run, DoStartSend, DoSetHead, DoPostWord, Started, Written, Posted;
    StartsAlone(w, s, issue, id);
    Writes(w, s, issue, id);
    PostsWord(w, s, issue, id);
    TraceIsRun(CONFIG, [w, Started(w, s, issue, id), Written(w, s, issue, id), Posted(w, s, issue, id)],
               [StartSend(s, issue, Packet(id), []), SetHead(s, true), PostWord(s, Sent)]);
  }

  lemma StartsAlone(w: World, s: nat, issue: nat, id: Id)
    requires Alone(w, issue, id)
    ensures DoStartSend(CONFIG, w, s, issue, Packet(id), []) == Some(Started(w, s, issue, id))
  {
    assert SerialAt(5, 0) == 5 && SerialAt(5, 1) == 6;
    assert MayStart(CONFIG, w, issue, id) && GoodId(CONFIG, id);
    var op, f := SendOp(Packet(id), [], WriteHead, false, false), Flight(issue, Packet(id), [], AtSender(s));
    assert w.sends[s := op] == map[s := op] && w.flight[id := f] == map[id := f];
  }

  const NUMBERED := START.(issued := map[0 := 2])

  lemma TakesSerials()
    ensures Run(CONFIG, START, [TakeSerial(0), TakeSerial(0)]) == Some(NUMBERED)
  {
    hide Run;
    var w1 := START.(issued := map[0 := 1]);
    assert START.issued[0 := 1] == w1.issued && w1.issued[0 := 2] == map[0 := 2];
    TraceIsRun(CONFIG, [START, w1, NUMBERED], [TakeSerial(0), TakeSerial(0)]);
  }

  lemma TimesOut()
    ensures Run(CONFIG, Posted(NUMBERED, 0, 0, FIRST), [AckTimeout(0)]) == Some(SENT)
  {
    hide Run, DataWord;
    var w := Posted(NUMBERED, 0, 0, FIRST);
    assert Without(w.sends, 0) == map[] && Without(w.waits, 1) == map[];
    assert Enqueued(map[], 2, DataWord(CONFIG, FIRST)) == SENT.queues by {
      assert [] + [DataWord(CONFIG, FIRST)] == [DataWord(CONFIG, FIRST)];
    }
    TraceIsRun(CONFIG, [w, SENT], [AckTimeout(0)]);
  }

  lemma SendRuns()
    ensures Run(CONFIG, START, SEND) == Some(SENT)
  {
    hide Run, Posted;
    var first, last := [TakeSerial(0), TakeSerial(0)], [AckTimeout(0)];
    var mid := [StartSend(0, 0, Packet(FIRST), []), SetHead(0, true), PostWord(0, Sent)];
    TakesSerials();
    Posts(NUMBERED, 0, 0, FIRST);
    TimesOut();
    RunsJoin(CONFIG, NUMBERED, mid, last);
    RunsJoin(CONFIG, START, first, mid + last);
    assert first + (mid + last) == SEND;
  }

  // The receive, step by step.

  const HEAD := Packet(FIRST)

  const TAKEN := RecvOp(2, Composed(1, 5, false, false), GetHead)

  const TOOK := SENT.(queues := map[2 := []], recvs := map[0 := TAKEN],
                      flight := map[FIRST := Flight(0, HEAD, [], AtReceiver(0))])

  const READ := TOOK.(recvs := map[0 := TAKEN.(pc := RemoveHead(HEAD))])

  const CLEARED := READ.(recvs := map[0 := TAKEN.(pc := GetBody(HEAD))], store := map[])

  const FOUND := CLEARED.(recvs := map[0 := TAKEN.(pc := Process(HEAD, None))], flight := map[])

  const PROCESSED := FOUND.(recvs := map[0 := TAKEN.(pc := PostAck(HEAD, true, 0))])

  lemma Takes()
    ensures Next(CONFIG, SENT, RECEIVE[0]) == Some(TOOK)
  {
    hide Compose, Decompose, DataWord;
    DataWordIs(FIRST);
    assert SENT.queues[2][1..] == [] && SENT.queues[2 := []] == TOOK.queues;
    assert SENT.recvs[0 := TAKEN] == TOOK.recvs && SENT.flight[FIRST := TOOK.flight[FIRST]] == TOOK.flight;
  }

  lemma Reads()
    ensures Next(CONFIG, TOOK, RECEIVE[1]) == Some(READ) && Next(CONFIG, READ, RECEIVE[2]) == Some(CLEARED)
  {
    assert TOOK.recvs[0 := READ.recvs[0]] == READ.recvs;
    assert READ.recvs[0 := CLEARED.recvs[0]] == CLEARED.recvs && Without(READ.store, HeadKey(FIRST)) == map[];
  }

  lemma FindsNoBody()
    ensures Next(CONFIG, CLEARED, RECEIVE[3]) == Some(FOUND)
  {
    assert CLEARED.recvs[0 := FOUND.recvs[0]] == FOUND.recvs && Without(CLEARED.flight, FIRST) == map[];
  }

  lemma Succeeds()
    ensures Next(CONFIG, FOUND, RECEIVE[4]) == Some(PROCESSED)
  {
    assert FOUND.recvs[0 := PROCESSED.recvs[0]] == PROCESSED.recvs;
  }

  lemma Answers()
    ensures Next(CONFIG, PROCESSED, RECEIVE[5]) == Some(ANSWERED)
  {
    hide Compose;
    assert Without(PROCESSED.recvs, 0) == map[];
    assert [] + [AckWord(CONFIG, FIRST, true)] == [AckWord(CONFIG, FIRST, true)];
    assert Enqueued(PROCESSED.queues, 1, AckWord(CONFIG, FIRST, true)) == ANSWERED.queues;
  }

  lemma ReceiveRuns()
    ensures Run(CONFIG, SENT, RECEIVE) == Some(ANSWERED)
  {
    hide Next;
    Takes();
    Reads();
    FindsNoBody();
    Succeeds();
    Answers();
    TraceIsRun(CONFIG, [SENT, TOOK, READ, CLEARED, FOUND, PROCESSED, ANSWERED], RECEIVE);
  }

  lemma DataWordIs(id: Id)
    requires id == FIRST
    ensures Decompose(CONFIG.base, DataWord(CONFIG, id)) == Decoded(Composed(1, 5, false, false))
  {
  }

  /** A send takes the success of an earlier message for its own, while its own
      message still lies on the queue: the number in the acknowledgement, which the
      send does not look at, is not its own. */
  lemma TakesEarlierSuccess()
    ensures var run := Run(CONFIG, START, SEND + RECEIVE + SEND_AGAIN);
            && Initial(CONFIG, START) && run.Some?
            && NextAck(CONFIG, run.value, 1).Some? && NextAck(CONFIG, run.value, 1).value.isSuccess
            && NextAck(CONFIG, run.value, 1).value.number != run.value.sends[1].head.id.serial
            && run.value.sends[1].head.id in run.value.flight
            && run.value.flight[run.value.sends[1].head.id].place == InQueue
  {
    hide Run, Compose, Decompose;
    SendRuns();
    ReceiveRuns();
    Posts(ANSWERED, 1, 1, SECOND);
    RunsJoin(CONFIG, START, SEND, RECEIVE);
    RunsJoin(CONFIG, START, SEND + RECEIVE, SEND_AGAIN);
    AckWordNames(CONFIG, FIRST, true);
  }
}
