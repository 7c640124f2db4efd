/** What the invariant of the transfer means for whole runs: what was sent is what
    is delivered, once, and nothing is left behind. */
module Delivery {
  import opened Text
  import opened Words
  import opened MessageId
  import opened Transfer
  import opened Conservation

  /** A step begins to send message `id`. */
  predicate Starts(step: Step, id: Id) {
    step.StartSend? && step.head.id == id
  }

  /** A step posts message `id`. */
  predicate Posts(w: World, step: Step, id: Id) {
    step.PostWord? && step.result == Sent && step.send in w.sends && w.sends[step.send].head.id == id
  }

  /** The receive that a step carries on. */
  function ReaderOf(step: Step): Option<nat> {
    match step
    case ClearHead(r) => Some(r)
    case ReadBody(r) => Some(r)
    case ClearBody(r) => Some(r)
    case _ => None
  }

  /** A step completes the reading of message `id` and hands it on. */
  predicate Delivers(w: World, step: Step, w': World, id: Id) {
    match ReaderOf(step)
    case None => false
    case Some(r) => r in w.recvs && r in w'.recvs && w'.recvs[r].pc.Process? && RecvId(w.recvs[r]) == id
  }

  /** What is handed on. */
  function Delivered(step: Step, w': World): RecvPc
    requires ReaderOf(step).Some? && ReaderOf(step).value in w'.recvs
  {
    w'.recvs[ReaderOf(step).value].pc
  }

  function AsFound(body: Bytes): Option<Bytes> {
    if body == [] then None else Some(body)
  }

  /** A message is on its way: posted and not yet handed on. */
  predicate OnItsWay(flight: Flights, id: Id) {
    id in flight && !flight[id].place.AtSender?
  }

  // ---------------------------------------------------------------------
  // Single steps

  /** What is handed on is what was sent, and is handed on as the message leaves flight. */
  lemma DeliversWhatWasSent(cfg: Config, w: World, step: Step, id: Id)
    requires Inv(cfg, w) && Next(cfg, w, step).Some? && Delivers(w, step, Next(cfg, w, step).value, id)
    ensures OnItsWay(w.flight, id) && id !in Next(cfg, w, step).value.flight
    ensures Delivered(step, Next(cfg, w, step).value) == Process(w.flight[id].head, AsFound(w.flight[id].body))
  {
    hide Inv, GoodId;
    var r := ReaderOf(step).value;
    OnlyDataIsRead(cfg, w, r);
    BeingRead(cfg, w, r);
  }

  /** A head put in its store entry is found there: a receive gives up reading only
      when the word it took was no message. */
  lemma HeadIsFound(cfg: Config, w: World, r: nat)
    requires Inv(cfg, w) && DoReadHead(w, r).Some?
    ensures r in DoReadHead(w, r).value.recvs <==> !w.recvs[r].composed.isAck
  {
    hide Inv, GoodId, Sendable;
    if w.recvs[r].composed.isAck {
      StrayFindsNothing(cfg, w, r);
    } else {
      BeingRead(cfg, w, r);
    }
  }

  /** A send that fails leaves no entry of its message, and touches no other. */
  lemma FailedSendLeavesNothing(cfg: Config, w: World, step: Step)
    requires Inv(cfg, w) && Next(cfg, w, step).Some? && (step.UnsetHead? || step.UnsetBody?)
    requires step.send !in Next(cfg, w, step).value.sends
    ensures var id, w' := w.sends[step.send].head.id, Next(cfg, w, step).value;
            && !OnItsWay(w.flight, id) && id !in w'.flight
            && (forall k: Key :: k in w'.store <==> k in w.store && k.id != id)
            && (forall k: Key :: k in w'.store ==> w'.store[k] == w.store[k])
  {
    hide FlightsSound, SendersSound, QueuesSound, ReceiversSound, StoreExact;
    StoredSoFar(w, step.send);
  }

  /** The places of messages change only as they should. */
  predicate FlightFollows(flight: Flights, flight': Flights, id: Id, starts: bool, posts: bool, delivers: bool) {
    && (starts ==> id !in flight && id in flight')
    && (id in flight' ==> starts || id in flight)
    && OnItsWay(flight', id) == ((OnItsWay(flight, id) && !delivers) || posts)
    && (posts ==> !OnItsWay(flight, id))
    && (delivers ==> OnItsWay(flight, id) && !posts)
    && (id in flight && id in flight' ==>
          flight'[id].head == flight[id].head && flight'[id].body == flight[id].body
          && flight'[id].issue == flight[id].issue)
  }

  lemma PostFollows(cfg: Config, w: World, s: nat, result: PostResult, id: Id)
    requires Inv(cfg, w) && DoPostWord(cfg, w, s, result).Some?
    ensures FlightFollows(w.flight, DoPostWord(cfg, w, s, result).value.flight, id,
                          false, Posts(w, PostWord(s, result), id), false)
  {
    hide FlightsSound, SendersSound, QueuesSound, ReceiversSound, StoreExact, SendPhase, SenderWaits, Enqueued,
      DataWord;
    StoredSoFar(w, s);
  }

  lemma UnsetFollows(cfg: Config, w: World, step: Step, id: Id)
    requires Inv(cfg, w) && Next(cfg, w, step).Some? && (step.UnsetHead? || step.UnsetBody?)
    ensures FlightFollows(w.flight, Next(cfg, w, step).value.flight, id, false, false, false)
  {
    hide FlightsSound, SendersSound, QueuesSound, ReceiversSound, StoreExact, SendPhase;
    StoredSoFar(w, step.send);
  }

  lemma DequeueFollows(cfg: Config, w: World, r: nat, q: U64, id: Id)
    requires Inv(cfg, w) && DoDequeue(cfg, w, r, q).Some?
    ensures FlightFollows(w.flight, DoDequeue(cfg, w, r, q).value.flight, id, false, false, false)
  {
    hide FlightsSound, SendersSound, QueuesSound, ReceiversSound, StoreExact, GoodId, Decompose, DataWord, Taken;
    FirstWordIsSound(cfg, w.queues, w.flight, q);
  }

  lemma StartFollows(cfg: Config, w: World, s: nat, issue: nat, head: Head, body: Bytes, id: Id)
    requires Inv(cfg, w) && DoStartSend(cfg, w, s, issue, head, body).Some?
    ensures FlightFollows(w.flight, DoStartSend(cfg, w, s, issue, head, body).value.flight, id,
                          head.id == id, false, false)
  {
    hide FlightsSound, SendersSound, QueuesSound, ReceiversSound, StoreExact, GoodId, Sendable, MayStart, SenderWaits;
    NewIdIsFresh(cfg, w, issue, head.id);
  }

  lemma ClearHeadFollows(cfg: Config, w: World, r: nat, id: Id)
    requires Inv(cfg, w) && DoClearHead(cfg, w, r).Some?
    ensures var w' := DoClearHead(cfg, w, r).value;
            FlightFollows(w.flight, w'.flight, id, false, false, Delivers(w, ClearHead(r), w', id))
  {
    hide Inv, GoodId;
    OnlyDataIsRead(cfg, w, r);
    BeingRead(cfg, w, r);
  }

  lemma ReadBodyFollows(cfg: Config, w: World, r: nat, id: Id)
    requires Inv(cfg, w) && DoReadBody(w, r).Some?
    ensures var w' := DoReadBody(w, r).value;
            FlightFollows(w.flight, w'.flight, id, false, false, Delivers(w, ReadBody(r), w', id))
  {
    hide Inv, GoodId, Sendable;
    OnlyDataIsRead(cfg, w, r);
    BeingRead(cfg, w, r);
  }

  lemma ClearBodyFollows(cfg: Config, w: World, r: nat, id: Id)
    requires Inv(cfg, w) && DoClearBody(w, r).Some?
    ensures var w' := DoClearBody(w, r).value;
            FlightFollows(w.flight, w'.flight, id, false, false, Delivers(w, ClearBody(r), w', id))
  {
    hide Inv, GoodId, Sendable;
    OnlyDataIsRead(cfg, w, r);
    BeingRead(cfg, w, r);
  }

  /** The steps of a send that only prepare, and those of a receive before and after reading. */
  predicate MovesNothing(step: Step) {
    step.TakeSerial? || step.SetHead? || step.SetBody? || step.OpenFails? || step.GiveUp? || step.TakeAck?
    || step.AckTimeout? || step.ReadHead? || step.Processed? || step.AnswerWord? || step.AnswerGivesUp?
    || step.AnswerOpenFails?
  }

  lemma AnswerMovesNothing(cfg: Config, w: World, r: nat, result: PostResult)
    requires DoAnswer(cfg, w, r, result).Some?
    ensures DoAnswer(cfg, w, r, result).value.flight == w.flight
  {
    hide Answered, Enqueued, AckWord;
  }

  lemma SendMovesNothing(cfg: Config, w: World, step: Step)
    requires Next(cfg, w, step).Some?
    requires step.SetHead? || step.SetBody? || step.OpenFails? || step.GiveUp? || step.TakeAck? || step.AckTimeout?
    ensures Next(cfg, w, step).value.flight == w.flight
  {
    hide NextAck;
  }

  lemma StaysInFlight(cfg: Config, w: World, step: Step)
    requires Next(cfg, w, step).Some? && MovesNothing(step)
    ensures Next(cfg, w, step).value.flight == w.flight
  {
    hide DoProcess, DoAnswer, DoSetHead, DoSetBody, DoOpenFails, DoGiveUp, DoTakeAck, DoAckTimeout;
    match step
    case Processed(r, ok) => OnlyProcessEnds(cfg, w, r, ok);
    case AnswerWord(r, result) => AnswerMovesNothing(cfg, w, r, result);
    case TakeSerial(_) =>
    case ReadHead(_) =>
    case AnswerGivesUp(_) =>
    case AnswerOpenFails(_) =>
    case _ => SendMovesNothing(cfg, w, step);
  }

  /** Every step keeps account of every message. */
  lemma StepFollows(cfg: Config, w: World, step: Step, id: Id)
    requires Inv(cfg, w) && Next(cfg, w, step).Some?
    ensures FlightFollows(w.flight, Next(cfg, w, step).value.flight, id, Starts(step, id), Posts(w, step, id),
                          Delivers(w, step, Next(cfg, w, step).value, id))
  {
    hide Inv, DoTakeSerial, DoStartSend, DoSetHead, DoSetBody, DoOpenFails, DoPostWord, DoGiveUp, DoUnsetHead,
      DoUnsetBody, DoTakeAck, DoAckTimeout, DoDequeue, DoReadHead, DoClearHead, DoReadBody, DoClearBody, DoProcess,
      DoAnswer, DoAnswerGivesUp, DoAnswerOpenFails;
    match step
    case StartSend(s, issue, head, body) => StartFollows(cfg, w, s, issue, head, body, id);
    case Dequeue(r, q) => DequeueFollows(cfg, w, r, q, id);
    case PostWord(s, result) => PostFollows(cfg, w, s, result, id);
    case UnsetHead(_) => UnsetFollows(cfg, w, step, id);
    case UnsetBody(_) => UnsetFollows(cfg, w, step, id);
    case ClearHead(r) => ClearHeadFollows(cfg, w, r, id);
    case ReadBody(r) => ReadBodyFollows(cfg, w, r, id);
    case ClearBody(r) => ClearBodyFollows(cfg, w, r, id);
    case _ => StaysInFlight(cfg, w, step);
  }

  // ---------------------------------------------------------------------
  // Whole runs

  /** How often a run posts message `id`. */
  function PostCount(cfg: Config, w: World, steps: seq<Step>, id: Id): nat
    requires Run(cfg, w, steps).Some?
    decreases |steps|
  {
    if steps == [] then 0
    else (if Posts(w, steps[0], id) then 1 else 0) + PostCount(cfg, Next(cfg, w, steps[0]).value, steps[1..], id)
  }

  /** How often a run hands on message `id`. */
  function DeliveryCount(cfg: Config, w: World, steps: seq<Step>, id: Id): nat
    requires Run(cfg, w, steps).Some?
    decreases |steps|
  {
    if steps == [] then 0
    else
      var w' := Next(cfg, w, steps[0]).value;
      (if Delivers(w, steps[0], w', id) then 1 else 0) + DeliveryCount(cfg, w', steps[1..], id)
  }

  function Pending(flight: Flights, id: Id): nat {
    if OnItsWay(flight, id) then 1 else 0
  }

  lemma {:induction false} CountsAgree(cfg: Config, w: World, steps: seq<Step>, id: Id)
    requires Inv(cfg, w) && Run(cfg, w, steps).Some?
    ensures Pending(w.flight, id) + PostCount(cfg, w, steps, id)
         == DeliveryCount(cfg, w, steps, id) + Pending(Run(cfg, w, steps).value.flight, id)
    decreases |steps|
  {
    hide Inv, Next, Posts, Delivers, OnItsWay;
    if steps != [] {
      StepFollows(cfg, w, steps[0], id);
      StepKeepsInv(cfg, w, steps[0]);
      CountsAgree(cfg, Next(cfg, w, steps[0]).value, steps[1..], id);
    }
  }

  /** Every message posted is handed on exactly once, or is still on its way; no
      message is handed on that was not posted. An id may be used again once its
      message is gone, so its messages are counted. */
  lemma PostedIsDelivered(cfg: Config, w: World, steps: seq<Step>, id: Id)
    requires Initial(cfg, w) && Run(cfg, w, steps).Some?
    ensures PostCount(cfg, w, steps, id)
         == DeliveryCount(cfg, w, steps, id) + Pending(Run(cfg, w, steps).value.flight, id)
  {
    hide Run, PostCount, DeliveryCount;
    InitialInv(cfg, w);
    CountsAgree(cfg, w, steps, id);
  }

  datatype Message = Message(head: Head, body: Bytes)

  /** What the last send of message `id` was given to send. */
  function LastSent(steps: seq<Step>, id: Id): Option<Message> {
    if steps == [] then None
    else
      var later := LastSent(steps[1..], id);
      if later.Some? then later
      else if Starts(steps[0], id) then Some(Message(steps[0].head, steps[0].body))
      else None
  }

  lemma {:induction false} FlightWasSent(cfg: Config, w: World, steps: seq<Step>, id: Id)
    requires Inv(cfg, w) && Run(cfg, w, steps).Some? && id in Run(cfg, w, steps).value.flight
    ensures var f := Run(cfg, w, steps).value.flight[id];
            match LastSent(steps, id)
            case Some(m) => m == Message(f.head, f.body)
            case None => id in w.flight && w.flight[id].head == f.head && w.flight[id].body == f.body
    decreases |steps|
  {
    hide Inv, Next, Posts, Delivers, OnItsWay;
    if steps != [] {
      var w' := Next(cfg, w, steps[0]).value;
      StepFollows(cfg, w, steps[0], id);
      StepKeepsInv(cfg, w, steps[0]);
      FlightWasSent(cfg, w', steps[1..], id);
      if Starts(steps[0], id) { StartedAs(cfg, w, steps[0]); }
    }
  }

  lemma StartedAs(cfg: Config, w: World, step: Step)
    requires Next(cfg, w, step).Some? && step.StartSend?
    ensures var flight := Next(cfg, w, step).value.flight;
            step.head.id in flight && flight[step.head.id].head == step.head && flight[step.head.id].body == step.body
  {
    hide Sendable, GoodId, MayStart, SenderWaits;
  }

  /** Whatever a run hands on under an id is, head and body, what the latest send
      under that id was given: a body is found exactly when one was sent. */
  lemma DeliveredIsLastSent(cfg: Config, w: World, steps: seq<Step>, step: Step, id: Id)
    requires Initial(cfg, w) && Run(cfg, w, steps).Some?
    requires var before := Run(cfg, w, steps).value;
             Next(cfg, before, step).Some? && Delivers(before, step, Next(cfg, before, step).value, id)
    ensures LastSent(steps, id).Some?
    ensures var m := LastSent(steps, id).value;
            Delivered(step, Next(cfg, Run(cfg, w, steps).value, step).value) == Process(m.head, AsFound(m.body))
  {
    hide Run, Inv, Next, LastSent;
    InitialInv(cfg, w);
    RunKeepsInv(cfg, w, steps);
    DeliversWhatWasSent(cfg, Run(cfg, w, steps).value, step, id);
    FlightWasSent(cfg, w, steps, id);
  }

  /** Nothing is part-way and no message is queued. */
  ghost predicate Quiet(cfg: Config, w: World) {
    && (forall s :: s in w.sends ==> !Writing(w.sends[s]))
    && (forall r :: r in w.recvs ==> !Reading(w.recvs[r]))
    && (forall q, i :: q in w.queues && 0 <= i < |w.queues[q]| ==> !IsData(cfg, w.queues[q][i]))
  }

  lemma InFlightIsNotQuiet(cfg: Config, w: World, id: Id)
    requires Inv(cfg, w) && id in w.flight
    ensures !Quiet(cfg, w)
  {
    hide Sendable, SendPhase, ReadsSent, IssuedTo, GoodId, DataWord, Decompose;
    DataWordNames(cfg, id);
    if w.flight[id].place == InQueue {
      assert DataWord(cfg, id) in w.queues[id.term];
    }
  }

  lemma NoFlightNoEntry(cfg: Config, w: World)
    requires Inv(cfg, w) && w.flight == map[]
    ensures w.store == map[]
  {
    hide FlightsSound, SendersSound, QueuesSound, ReceiversSound, HeadStored, BodyStored;
    forall k: Key ensures k !in w.store {
      assert k == HeadKey(k.id) || k == BodyKey(k.id);
    }
  }

  lemma QuietIsEmpty(cfg: Config, w: World)
    requires Inv(cfg, w) && Quiet(cfg, w)
    ensures w.flight == map[] && w.store == map[]
  {
    hide Inv, Quiet;
    forall id ensures id !in w.flight {
      if id in w.flight { InFlightIsNotQuiet(cfg, w, id); }
    }
    NoFlightNoEntry(cfg, w);
  }

  /** Once everything that was begun has come to an end, the store is empty and as
      many messages were handed on as were posted, of every id. */
  lemma NothingIsLeftBehind(cfg: Config, w: World, steps: seq<Step>)
    requires Initial(cfg, w) && Run(cfg, w, steps).Some? && Quiet(cfg, Run(cfg, w, steps).value)
    ensures Run(cfg, w, steps).value.store == map[]
    ensures forall id :: PostCount(cfg, w, steps, id) == DeliveryCount(cfg, w, steps, id)
  {
    hide Run, PostCount, DeliveryCount, Inv, Quiet, Initial;
    InitialInv(cfg, w);
    RunKeepsInv(cfg, w, steps);
    QuietIsEmpty(cfg, Run(cfg, w, steps).value);
    forall id ensures PostCount(cfg, w, steps, id) == DeliveryCount(cfg, w, steps, id) {
      PostedIsDelivered(cfg, w, steps, id);
    }
  }

  /** In every run each entry of the store belongs to exactly one message: one that
      is being sent, is queued once on the queue it goes to, or is being read. */
  lemma EveryEntryHasItsMessage(cfg: Config, w: World, steps: seq<Step>, k: Key)
    requires Initial(cfg, w) && Run(cfg, w, steps).Some? && k in Run(cfg, w, steps).value.store
    ensures var w', id := Run(cfg, w, steps).value, k.id;
            && id in w'.flight
            && w'.store[k] == (if k.HeadKey? then HeadValue(w'.flight[id].head) else BodyValue(w'.flight[id].body))
            && match w'.flight[id].place
               case AtSender(s) => s in w'.sends && Writing(w'.sends[s]) && w'.sends[s].head.id == id
               case AtReceiver(r) => r in w'.recvs && Reading(w'.recvs[r]) && RecvId(w'.recvs[r]) == id
               case InQueue => id.term in w'.queues && OnceIn(w'.queues[id.term], DataWord(cfg, id))
  {
    hide Run, Initial, GoodId, Sendable, SendPhase, ReadsSent, IssuedTo, DataWord, Decompose;
    InitialInv(cfg, w);
    RunKeepsInv(cfg, w, steps);
    var w', id := Run(cfg, w, steps).value, k.id;
    assert k == HeadKey(id) || k == BodyKey(id);
    if w'.flight[id].place == InQueue {
      DataWordNames(cfg, id);
    }
  }

  /** `x` occurs exactly once. */
  predicate OnceIn(s: seq<U64>, x: U64) {
    x in s && forall i, j :: 0 <= i < j < |s| && s[i] == x ==> s[j] != x
  }
}
