/** What is left of a client's earlier waits is exactly what a later send of it can
    take for the acknowledgement of its own message. */
module ForeignAck {
  import opened Text
  import opened Words
  import opened MessageId
  import opened Transfer
  import opened Conservation
  import opened Acknowledgement
  import opened StepEffects

  // ---------------------------------------------------------------------
  // Runs of receives

  predicate Receives(steps: seq<Step>) {
    forall i :: 0 <= i < |steps| ==> !OfSend(steps[i])
  }

  /** Messages have at most left flight or changed place. */
  predicate Fewer(flight: Flights, flight': Flights) {
    forall id :: id in flight' ==>
      id in flight && flight'[id].issue == flight[id].issue && flight'[id].head == flight[id].head
  }

  predicate SendsLeft(w: World, w': World) {
    w'.sends == w.sends && w'.issued == w.issued && Fewer(w.flight, w'.flight)
  }

  lemma StillFewer(flight: Flights, id: Id, place: Place)
    ensures Fewer(flight, flight) && Fewer(flight, Without(flight, id)) && Fewer(flight, Moved(flight, id, place))
  {
  }

  /** Receives alone lead from `w` to `w'`. */
  ghost predicate Leads(cfg: Config, w: World, steps: seq<Step>, w': World) {
    Receives(steps) && Run(cfg, w, steps) == Some(w') && Inv(cfg, w') && SendsLeft(w, w')
  }

  lemma ReadLeavesSends(cfg: Config, w: World, step: Step)
    requires Next(cfg, w, step).Some?
    requires step.ReadHead? || step.ClearHead? || step.ReadBody? || step.ClearBody?
    ensures SendsLeft(w, Next(cfg, w, step).value)
  {
    hide Receivable, DoReadHead, DoClearHead, DoReadBody, DoClearBody;
    match step
    case ReadHead(r) => ReadHeadLeavesSends(w, r);
    case ClearHead(r) => ClearHeadLeavesSends(cfg, w, r);
    case ReadBody(r) => ReadBodyLeavesSends(w, r);
    case ClearBody(r) => ClearBodyLeavesSends(w, r);
  }

  lemma ReadHeadLeavesSends(w: World, r: nat)
    requires DoReadHead(w, r).Some?
    ensures SendsLeft(w, DoReadHead(w, r).value)
  {
    hide Fewer, Without;
    StillFewer(w.flight, RecvId(w.recvs[r]), InQueue);
  }

  lemma ClearHeadLeavesSends(cfg: Config, w: World, r: nat)
    requires DoClearHead(cfg, w, r).Some?
    ensures SendsLeft(w, DoClearHead(cfg, w, r).value)
  {
    hide Fewer, Without, Receivable;
    StillFewer(w.flight, RecvId(w.recvs[r]), InQueue);
  }

  lemma ReadBodyLeavesSends(w: World, r: nat)
    requires DoReadBody(w, r).Some?
    ensures SendsLeft(w, DoReadBody(w, r).value)
  {
    hide Fewer, Without;
    StillFewer(w.flight, RecvId(w.recvs[r]), InQueue);
  }

  lemma ClearBodyLeavesSends(w: World, r: nat)
    requires DoClearBody(w, r).Some?
    ensures SendsLeft(w, DoClearBody(w, r).value)
  {
    hide Fewer, Without;
    StillFewer(w.flight, RecvId(w.recvs[r]), InQueue);
  }

  lemma AnswerLeavesSends(cfg: Config, w: World, step: Step)
    requires Next(cfg, w, step).Some?
    requires step.Processed? || step.AnswerWord? || step.AnswerGivesUp? || step.AnswerOpenFails?
    ensures SendsLeft(w, Next(cfg, w, step).value)
  {
    hide DoProcess, DoAnswer, DoAnswerGivesUp, DoAnswerOpenFails;
    match step
    case Processed(r, ok) => ProcessLeavesSends(cfg, w, r, ok);
    case AnswerWord(r, result) => AnswerWordLeavesSends(cfg, w, r, result);
    case AnswerGivesUp(r) => AnswerGivesUpLeavesSends(cfg, w, r);
    case AnswerOpenFails(r) => AnswerOpenFailsLeavesSends(w, r);
  }

  lemma ProcessLeavesSends(cfg: Config, w: World, r: nat, ok: bool)
    requires DoProcess(cfg, w, r, ok).Some?
    ensures SendsLeft(w, DoProcess(cfg, w, r, ok).value)
  {
    hide Fewer, Without, Judged, ReceiverAnswers;
    StillFewer(w.flight, RecvId(w.recvs[r]), InQueue);
  }

  lemma AnswerWordLeavesSends(cfg: Config, w: World, r: nat, result: PostResult)
    requires DoAnswer(cfg, w, r, result).Some?
    ensures SendsLeft(w, DoAnswer(cfg, w, r, result).value)
  {
    hide Fewer, Without, Enqueued, Answered, AckWord;
    StillFewer(w.flight, RecvId(w.recvs[r]), InQueue);
  }

  lemma AnswerGivesUpLeavesSends(cfg: Config, w: World, r: nat)
    requires DoAnswerGivesUp(cfg, w, r).Some?
    ensures SendsLeft(w, DoAnswerGivesUp(cfg, w, r).value)
  {
    hide Fewer, Without;
    StillFewer(w.flight, RecvId(w.recvs[r]), InQueue);
  }

  lemma AnswerOpenFailsLeavesSends(w: World, r: nat)
    requires DoAnswerOpenFails(w, r).Some?
    ensures SendsLeft(w, DoAnswerOpenFails(w, r).value)
  {
    hide Fewer, Without;
    StillFewer(w.flight, RecvId(w.recvs[r]), InQueue);
  }

  lemma DequeueLeavesSends(cfg: Config, w: World, r: nat, q: U64)
    requires DoDequeue(cfg, w, r, q).Some?
    ensures SendsLeft(w, DoDequeue(cfg, w, r, q).value)
  {
    hide Decompose, Taken, Fewer, Moved;
    var c := Decompose(cfg.base, w.queues[q][0]);
    if c.Decoded? {
      StillFewer(w.flight, Id(c.composed.msgid, q, c.composed.number), AtReceiver(r));
    } else {
      StillFewer(w.flight, Id(0, 0, 0), InQueue);
    }
  }

  lemma OneLeads(cfg: Config, w: World, step: Step)
    requires Inv(cfg, w) && Next(cfg, w, step).Some? && !OfSend(step)
    ensures Leads(cfg, w, [step], Next(cfg, w, step).value)
  {
    hide Inv, Run, DoDequeue, DoReadHead, DoClearHead, DoReadBody, DoClearBody, DoProcess, DoAnswer, DoAnswerGivesUp,
      DoAnswerOpenFails, SendsLeft;
    OneStep(cfg, w, step);
    StepKeepsInv(cfg, w, step);
    if step.Dequeue? {
      DequeueLeavesSends(cfg, w, step.recv, step.queue);
    } else if step.Processed? || step.AnswerWord? || step.AnswerGivesUp? || step.AnswerOpenFails? {
      AnswerLeavesSends(cfg, w, step);
    } else {
      ReadLeavesSends(cfg, w, step);
    }
  }

  lemma LeadsOn(cfg: Config, w: World, steps: seq<Step>, w1: World, more: seq<Step>, w2: World)
    requires Leads(cfg, w, steps, w1) && Leads(cfg, w1, more, w2)
    ensures Leads(cfg, w, steps + more, w2)
  {
    hide Run, Inv, OfSend;
    RunsJoin(cfg, w, steps, more);
  }

  lemma NoStepLeads(cfg: Config, w: World)
    requires Inv(cfg, w)
    ensures Leads(cfg, w, [], w)
  {
    hide Inv;
  }

  /** Steps that neither begin a send nor time out disturb no acknowledgements, and ones
      that process nothing judge nothing. */
  lemma {:induction false} CalmRun(cfg: Config, w: World, steps: seq<Step>, d: U64, id: Id)
    requires Run(cfg, w, steps).Some?
    requires forall i :: 0 <= i < |steps| ==> !steps[i].StartSend? && !steps[i].AckTimeout?
    ensures !RunDisturbs(cfg, w, steps, d)
    ensures (forall i :: 0 <= i < |steps| ==> !steps[i].Processed?) ==> LastProcessed(cfg, w, steps, id) == None
    decreases |steps|
  {
    hide Next;
    if steps != [] {
      CalmRun(cfg, Next(cfg, w, steps[0]).value, steps[1..], d, id);
    }
  }

  /** What could begin still can. */
  lemma StartStays(cfg: Config, w: World, w': World, s: nat, issue: nat, head: Head, body: Bytes)
    requires SendsLeft(w, w') && DoStartSend(cfg, w, s, issue, head, body).Some?
    ensures DoStartSend(cfg, w', s, issue, head, body).Some?
  {
    hide GoodId, Sendable, SerialAt;
  }

  // ---------------------------------------------------------------------
  // From what is left to an acknowledgement at the front of the queue

  lemma DequeuePops(cfg: Config, w: World, r: nat, q: U64)
    requires WordsOn(w.queues, q) != [] && r !in w.recvs
    ensures Next(cfg, w, Dequeue(r, q)).Some?
    ensures WordsOn(Next(cfg, w, Dequeue(r, q)).value.queues, q) == WordsOn(w.queues, q)[1..]
  {
    hide Decompose, Moved, Taken;
  }

  /** Receives take the first words from a queue. */
  lemma {:induction false} TakeWords(cfg: Config, w: World, q: U64, n: nat) returns (steps: seq<Step>, w': World)
    requires Inv(cfg, w) && n <= |WordsOn(w.queues, q)|
    ensures Leads(cfg, w, steps, w') && WordsOn(w'.queues, q) == WordsOn(w.queues, q)[n..]
    decreases n
  {
    hide Inv, Next, Run, WordsOn, Leads;
    if n == 0 {
      NoStepLeads(cfg, w);
      steps, w' := [], w;
    } else {
      var r := FreeIndex(w.recvs.Keys, 0);
      var step := Dequeue(r, q);
      DequeuePops(cfg, w, r, q);
      OneLeads(cfg, w, step);
      var w1 := Next(cfg, w, step).value;
      assert Inv(cfg, w1) by { StepKeepsInv(cfg, w, step); }
      var more;
      more, w' := TakeWords(cfg, w1, q, n - 1);
      LeadsOn(cfg, w, [step], w1, more, w');
      steps := [step] + more;
    }
  }

  /** How much a receive has still to read. */
  function ToRead(pc: RecvPc): nat {
    match pc
    case GetHead => 4
    case RemoveHead(_) => 3
    case GetBody(_) => 2
    case RemoveBody(_, _) => 1
    case _ => 0
  }

  function ReadStep(pc: RecvPc, r: nat): Step {
    match pc
    case GetHead => ReadHead(r)
    case RemoveHead(_) => ClearHead(r)
    case GetBody(_) => ReadBody(r)
    case _ => ClearBody(r)
  }

  /** A receive is at work on the message `id`, which is to be acknowledged. */
  predicate AtWorkOn(cfg: Config, w: World, r: nat, id: Id) {
    && r in w.recvs && !w.recvs[r].composed.isAck && RecvId(w.recvs[r]) == id
    && if Reading(w.recvs[r]) then id in w.flight && ReceiverAnswers(cfg, id.term, w.flight[id].head)
       else WillAnswer(cfg, w.recvs[r], id.dept)
  }

  lemma ReadsOn(cfg: Config, w: World, r: nat, id: Id)
    requires Inv(cfg, w) && AtWorkOn(cfg, w, r, id) && Reading(w.recvs[r])
    ensures var next := Next(cfg, w, ReadStep(w.recvs[r].pc, r));
            && next.Some? && AtWorkOn(cfg, next.value, r, id)
            && ToRead(next.value.recvs[r].pc) < ToRead(w.recvs[r].pc)
  {
    hide Inv, GoodId;
    BeingRead(cfg, w, r);
  }

  lemma {:induction false} ReadsAll(cfg: Config, w: World, r: nat, id: Id) returns (steps: seq<Step>, w': World)
    requires Inv(cfg, w) && AtWorkOn(cfg, w, r, id)
    ensures Leads(cfg, w, steps, w') && r in w'.recvs && WillAnswer(cfg, w'.recvs[r], id.dept)
    decreases ToRead(w.recvs[r].pc)
  {
    hide Inv, Next, Run, Leads, WillAnswer, ReceiverAnswers;
    if !Reading(w.recvs[r]) {
      NoStepLeads(cfg, w);
      steps, w' := [], w;
    } else {
      var step := ReadStep(w.recvs[r].pc, r);
      ReadsOn(cfg, w, r, id);
      OneLeads(cfg, w, step);
      var w1 := Next(cfg, w, step).value;
      assert Inv(cfg, w1) by { StepKeepsInv(cfg, w, step); }
      var more;
      more, w' := ReadsAll(cfg, w1, r, id);
      LeadsOn(cfg, w, [step], w1, more, w');
      steps := [step] + more;
    }
  }

  /** An acknowledgement to `d` is queued. */
  predicate AckQueued(cfg: Config, w: World, d: U64) {
    exists i :: 0 <= i < |WordsOn(w.queues, d)| && !IsData(cfg, WordsOn(w.queues, d)[i])
  }

  lemma PostsAnswer(cfg: Config, w: World, r: nat, d: U64)
    requires Inv(cfg, w) && r in w.recvs && WillAnswer(cfg, w.recvs[r], d) && w.recvs[r].pc.PostAck?
    ensures Next(cfg, w, AnswerWord(r, Sent)).Some? && AckQueued(cfg, Next(cfg, w, AnswerWord(r, Sent)).value, d)
  {
    hide FlightsSound, SendersSound, QueuesSound, StoreExact, GoodId, AckWord, Answered, Decompose;
    var id, ok := RecvId(w.recvs[r]), w.recvs[r].pc.ok;
    AckWordNames(cfg, id, ok);
    var words, words' := WordsOn(w.queues, d), WordsOn(Next(cfg, w, AnswerWord(r, Sent)).value.queues, d);
    assert words' == words + [AckWord(cfg, id, ok)];
    assert !IsData(cfg, words'[|words|]);
  }

  lemma ProcessesOn(cfg: Config, w: World, r: nat, d: U64)
    requires r in w.recvs && WillAnswer(cfg, w.recvs[r], d) && w.recvs[r].pc.Process? && 0 < cfg.retries
    ensures var next := Next(cfg, w, Processed(r, true));
            next.Some? && r in next.value.recvs && WillAnswer(cfg, next.value.recvs[r], d)
                && next.value.recvs[r].pc.PostAck?
  {
    hide Judged, ReceiverAnswers;
  }

  /** A message that will be acknowledged can be. */
  lemma AnswersNow(cfg: Config, w: World, r: nat, d: U64) returns (steps: seq<Step>, w': World)
    requires Inv(cfg, w) && r in w.recvs && WillAnswer(cfg, w.recvs[r], d) && 0 < cfg.retries
    ensures Leads(cfg, w, steps, w') && AckQueued(cfg, w', d)
  {
    hide Inv, Next, Run, Leads, AckQueued, ReceiverAnswers;
    var w1, first := w, [];
    NoStepLeads(cfg, w);
    if w.recvs[r].pc.Process? {
      ProcessesOn(cfg, w, r, d);
      OneLeads(cfg, w, Processed(r, true));
      StepKeepsInv(cfg, w, Processed(r, true));
      w1, first := Next(cfg, w, Processed(r, true)).value, [Processed(r, true)];
    }
    PostsAnswer(cfg, w1, r, d);
    OneLeads(cfg, w1, AnswerWord(r, Sent));
    w' := Next(cfg, w1, AnswerWord(r, Sent)).value;
    LeadsOn(cfg, w, first, w1, [AnswerWord(r, Sent)], w');
    steps := first + [AnswerWord(r, Sent)];
  }

  /** A message that was posted and is to be acknowledged is at work or can get there. */
  lemma TakesUp(cfg: Config, w: World, id: Id, d: U64) returns (steps: seq<Step>, w': World, r: nat)
    requires Inv(cfg, w) && id in w.flight && Acknowledged(cfg, id, w.flight[id], d) && !w.flight[id].place.AtSender?
    ensures Leads(cfg, w, steps, w') && AtWorkOn(cfg, w', r, id)
  {
    hide FlightsSound, SendersSound, ReceiversSound, StoreExact, Decompose, DataWord, Leads, Run, GoodId, WillAnswer;
    AllGood(cfg, w.issued, w.flight);
    Answerable(cfg, w, id, d);
    if w.flight[id].place.AtReceiver? {
      HeldByReceiver(cfg, w, id);
      r := w.flight[id].place.recv;
      NoStepLeads(cfg, w);
      steps, w' := [], w;
    } else {
      var words := w.queues[id.term];
      var i :| 0 <= i < |words| && words[i] == DataWord(cfg, id);
      var first, w1 := TakeWords(cfg, w, id.term, i);
      var last;
      last, w', r := TakesFirst(cfg, w, first, w1, id);
      LeadsOn(cfg, w, first, w1, last, w');
      steps := first + last;
    }
  }

  lemma Answerable(cfg: Config, w: World, id: Id, d: U64)
    requires id in w.flight && Acknowledged(cfg, id, w.flight[id], d) && GoodId(cfg, id) && w.flight[id].head.id == id
    ensures ReceiverAnswers(cfg, id.term, w.flight[id].head)
  {
  }

  lemma HeldByReceiver(cfg: Config, w: World, id: Id)
    requires Inv(cfg, w) && id in w.flight && w.flight[id].place.AtReceiver?
    ensures var r := w.flight[id].place.recv;
            r in w.recvs && Reading(w.recvs[r]) && !w.recvs[r].composed.isAck && RecvId(w.recvs[r]) == id
  {
    hide FlightsSound, SendersSound, QueuesSound, StoreExact;
  }

  /** The message whose word is first on its queue is taken. */
  lemma TakesFirst(cfg: Config, w: World, first: seq<Step>, w1: World, id: Id)
    returns (last: seq<Step>, w': World, r: nat)
    requires id in w.flight && GoodId(cfg, id) && ReceiverAnswers(cfg, id.term, w.flight[id].head)
    requires Leads(cfg, w, first, w1) && WordsOn(w1.queues, id.term) != []
    requires WordsOn(w1.queues, id.term)[0] == DataWord(cfg, id)
    ensures Leads(cfg, w1, last, w') && AtWorkOn(cfg, w', r, id)
  {
    hide Inv, Run, Decompose, DataWord, GoodId, ReceiverAnswers, WillAnswer, Taken, Next;
    DataWordNames(cfg, id);
    r := FreeIndex(w1.recvs.Keys, 0);
    DequeueIs(cfg, w1, r, id.term);
    OneLeads(cfg, w1, Dequeue(r, id.term));
    last, w' := [Dequeue(r, id.term)], TakenBy(cfg, w1, r, id.term);
  }

  /** Whatever is left of earlier waits can become an acknowledgement on the queue. */
  lemma LeftBecomesAck(cfg: Config, w: World, d: U64) returns (steps: seq<Step>, w': World)
    requires Inv(cfg, w) && !Drained(cfg, w, d) && 0 < cfg.retries
    ensures Leads(cfg, w, steps, w') && AckQueued(cfg, w', d)
  {
    hide Inv, Run, Leads, IsData, Acknowledged, WillAnswer, WordsOn;
    if AckQueued(cfg, w, d) {
      NoStepLeads(cfg, w);
      steps, w' := [], w;
    } else if r :| r in w.recvs && WillAnswer(cfg, w.recvs[r], d) {
      steps, w' := AnswersNow(cfg, w, r, d);
    } else {
      var id :| id in w.flight && Acknowledged(cfg, id, w.flight[id], d) && !w.flight[id].place.AtSender?;
      steps, w' := MessageBecomesAck(cfg, w, id, d);
    }
  }

  lemma MessageBecomesAck(cfg: Config, w: World, id: Id, d: U64) returns (steps: seq<Step>, w': World)
    requires Inv(cfg, w) && 0 < cfg.retries
    requires id in w.flight && Acknowledged(cfg, id, w.flight[id], d) && !w.flight[id].place.AtSender?
    ensures Leads(cfg, w, steps, w') && AckQueued(cfg, w', d)
  {
    hide Inv, Run, AckQueued, AtWorkOn, WillAnswer, SenderWaits, Receives, SendsLeft;
    var first, w1, r := TakesUp(cfg, w, id, d);
    var mid, w2 := ReadsAll(cfg, w1, r, id);
    var last;
    last, w' := AnswersNow(cfg, w2, r, d);
    LeadsOn(cfg, w, first, w1, mid, w2);
    LeadsOn(cfg, w, first + mid, w2, last, w');
    steps := first + mid + last;
  }

  /** And then the first word on it. */
  lemma LeftComesFirst(cfg: Config, w: World, d: U64) returns (steps: seq<Step>, w': World)
    requires Inv(cfg, w) && !Drained(cfg, w, d) && 0 < cfg.retries
    ensures Leads(cfg, w, steps, w') && WordsOn(w'.queues, d) != [] && !IsData(cfg, WordsOn(w'.queues, d)[0])
  {
    hide Inv, Run, Drained, IsData, WordsOn, Receives, SendsLeft;
    var first, w1 := LeftBecomesAck(cfg, w, d);
    var i :| 0 <= i < |WordsOn(w1.queues, d)| && !IsData(cfg, WordsOn(w1.queues, d)[i]);
    var last;
    last, w' := TakeWords(cfg, w1, d, i);
    LeadsOn(cfg, w, first, w1, last, w');
    steps := first + last;
  }

  // ---------------------------------------------------------------------
  // The send that takes it

  function Sending(s: nat, issue: nat, head: Head, body: Bytes): seq<Step> {
    [StartSend(s, issue, head, body)] + StoringAndPosting(s, body)
  }

  function StoringAndPosting(s: nat, body: Bytes): seq<Step> {
    if body == [] then [SetHead(s, true), PostWord(s, Sent)]
    else [SetHead(s, true), SetBody(s, true), PostWord(s, Sent)]
  }

  lemma StoresAndPosts(cfg: Config, w: World, s: nat, head: Head, body: Bytes)
    requires 0 < cfg.retries && s in w.sends && w.sends[s] == SendOp(head, body, WriteHead, false, false)
    ensures Run(cfg, w, StoringAndPosting(s, body)) == Some(MessagePosted(cfg, Written(w, s, head, body), s))
  {
    hide Run, Next, MessagePosted, WithoutMessage;
    var w2 := Written(w, s, head, body);
    SetHeadIs(cfg, w, s, true);
    NotTried(w2, s);
    PostSentIs(cfg, w2, s, 0);
    if body == [] {
      TraceIsRun(cfg, [w, w2, MessagePosted(cfg, w2, s)], StoringAndPosting(s, body));
    } else {
      SetBodyIs(cfg, w, s, true);
      var w1 := Next(cfg, w, SetHead(s, true)).value;
      TraceIsRun(cfg, [w, w1, w2, MessagePosted(cfg, w2, s)], StoringAndPosting(s, body));
    }
  }

  lemma SendingRuns(cfg: Config, w: World, s: nat, issue: nat, head: Head, body: Bytes)
    requires 0 < cfg.retries && DoStartSend(cfg, w, s, issue, head, body).Some?
    ensures Run(cfg, w, Sending(s, issue, head, body)) == Some(WithMessage(cfg, w, s, issue, head, body))
  {
    hide Run, Sendable, GoodId, MayStart, WithMessage, Written, MessagePosted, StoringAndPosting;
    StartIs(cfg, w, s, issue, head, body);
    OneStep(cfg, w, StartSend(s, issue, head, body));
    StoresAndPosts(cfg, Started(w, s, issue, head, body), s, head, body);
    PostedSoFar(cfg, w, s, issue, head, body);
    RunsJoin(cfg, w, [StartSend(s, issue, head, body)], StoringAndPosting(s, body));
  }

  /** A send takes an acknowledgement that was there before it began. */
  lemma TakesWhatWasThere(cfg: Config, w: World, s: nat, issue: nat, head: Head, body: Bytes)
    requires Inv(cfg, w) && 0 < cfg.retries && NoWaiter(cfg, w, head.id.dept)
    requires DoStartSend(cfg, w, s, issue, head, body).Some? && SenderWaits(cfg, head)
    requires WordsOn(w.queues, head.id.dept) != [] && !IsData(cfg, WordsOn(w.queues, head.id.dept)[0])
    ensures TakesForeign(cfg, w, head.id.dept, Sending(s, issue, head, body))
  {
    hide Inv, Run, Sendable, MayStart, Decompose, DataWord, RunDisturbs, LastProcessed, Stored;
    var d, sending := head.id.dept, Sending(s, issue, head, body);
    SendingRuns(cfg, w, s, issue, head, body);
    FirstIsAck(cfg, w, d);
    DisturbsNothing(cfg, w, s, issue, head, body);
  }

  lemma FirstIsAck(cfg: Config, w: World, d: U64)
    requires Inv(cfg, w) && WordsOn(w.queues, d) != [] && !IsData(cfg, WordsOn(w.queues, d)[0])
    ensures Decompose(cfg.base, w.queues[d][0]).Decoded? && Decompose(cfg.base, w.queues[d][0]).composed.isAck
  {
    hide FlightsSound, SendersSound, QueuesSound, ReceiversSound, StoreExact, Decompose;
    FirstWordIsSound(cfg, w.queues, w.flight, d);
  }

  lemma DisturbsNothing(cfg: Config, w: World, s: nat, issue: nat, head: Head, body: Bytes)
    requires NoWaiter(cfg, w, head.id.dept) && Run(cfg, w, Sending(s, issue, head, body)).Some?
    ensures !RunDisturbs(cfg, w, Sending(s, issue, head, body), head.id.dept)
    ensures LastProcessed(cfg, w, Sending(s, issue, head, body), head.id) == None
  {
    hide Next, SenderWaits;
    var steps := Sending(s, issue, head, body);
    assert steps[1..] == StoringAndPosting(s, body);
    CalmRun(cfg, Next(cfg, w, steps[0]).value, steps[1..], head.id.dept, head.id);
  }

  /** Where something is left of the client's earlier waits, some run leads a send of it to
      take what is left for the acknowledgement of its own message. */
  lemma LeftIsTaken(cfg: Config, w: World, s: nat, issue: nat, head: Head, body: Bytes)
    requires Inv(cfg, w) && 0 < cfg.retries && NoWaiter(cfg, w, head.id.dept) && !Drained(cfg, w, head.id.dept)
    requires DoStartSend(cfg, w, s, issue, head, body).Some? && SenderWaits(cfg, head)
    ensures !TakesOwnOnly(cfg, w, head.id.dept)
  {
    hide Inv, Run, RunDisturbs, TakesForeign, Drained, SenderWaits, DoStartSend, Waiter, OfSend;
    var before, w1 := LeftComesFirst(cfg, w, head.id.dept);
    StartStays(cfg, w, w1, s, issue, head, body);
    TakesWhatWasThere(cfg, w1, s, issue, head, body);
    CalmReceives(cfg, w, before, head.id.dept, head.id);
    assert Confused(cfg, w, head.id.dept, before, Sending(s, issue, head, body));
  }

  lemma CalmReceives(cfg: Config, w: World, steps: seq<Step>, d: U64, id: Id)
    requires Run(cfg, w, steps).Some? && Receives(steps)
    ensures !RunDisturbs(cfg, w, steps, d)
  {
    hide Run;
    CalmRun(cfg, w, steps, d, id);
  }

  /** While a send of a client could begin and none waits: its sends take their own
      acknowledgements, as long as these are not disturbed, exactly if nothing is left of
      its earlier waits. */
  lemma TakesOwnExactlyWhenDrained(cfg: Config, w: World, s: nat, issue: nat, head: Head, body: Bytes)
    requires Sound(cfg, w) && 0 < cfg.retries && NoWaiter(cfg, w, head.id.dept)
    requires DoStartSend(cfg, w, s, issue, head, body).Some? && SenderWaits(cfg, head)
    ensures TakesOwnOnly(cfg, w, head.id.dept) <==> Drained(cfg, w, head.id.dept)
  {
    hide Inv, Drained, TakesOwnOnly, SenderWaits, DoStartSend, NoWaiter, WaitsSound;
    if Drained(cfg, w, head.id.dept) {
      DrainedTakesOwnOnly(cfg, w, head.id.dept);
    } else {
      LeftIsTaken(cfg, w, s, issue, head, body);
    }
  }
}
