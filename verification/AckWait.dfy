/** What happens on a client's queue while one of its sends waits there for its
    acknowledgement: which messages the wait takes, and in what order. */
module AckWait {
  import opened Text
  import opened Words
  import opened MessageId
  import opened Transfer
  import opened Conservation
  import opened Acknowledgement
  import opened StepEffects

  /** What happens at one attempt to receive an acknowledgement: what other
      operations do meanwhile, and whether the attempt itself fails. */
  datatype Attempt = Attempt(meanwhile: seq<Step>, broken: bool)

  /** What others do is no part of send `s`, nor a number taken by process `p`. */
  predicate StepsLeaveSend(steps: seq<Step>, s: nat, p: nat) {
    forall i :: 0 <= i < |steps| ==> SendOf(steps[i]) != Some(s) && steps[i] != TakeSerial(p)
  }

  predicate LeavesSend(attempts: seq<Attempt>, s: nat, p: nat) {
    forall a :: 0 <= a < |attempts| ==> StepsLeaveSend(attempts[a].meanwhile, s, p)
  }

  /** What others do takes nothing from the queue of `d`. */
  predicate StepsLeaveQueue(steps: seq<Step>, d: U64) {
    forall i :: 0 <= i < |steps| ==> !steps[i].TakeAck? && (steps[i].Dequeue? ==> steps[i].queue != d)
  }

  predicate LeavesQueue(attempts: seq<Attempt>, d: U64) {
    forall a :: 0 <= a < |attempts| ==> StepsLeaveQueue(attempts[a].meanwhile, d)
  }

  /** Nothing else happens meanwhile. */
  predicate Undisturbed(attempts: seq<Attempt>) {
    forall a :: 0 <= a < |attempts| ==> attempts[a].meanwhile == []
  }

  predicate NeverBroken(attempts: seq<Attempt>) {
    forall a :: 0 <= a < |attempts| ==> !attempts[a].broken
  }

  /** The acknowledgement with which a run ends, if send `s`, of message `id`, takes one last. */
  function AckTaken(cfg: Config, before: World, steps: seq<Step>, s: nat, id: Id): Option<bool> {
    if steps == [] || steps[|steps| - 1] != TakeAck(s) then None
    else
      var run := Run(cfg, before, steps[..|steps| - 1]);
      if run.None? || NextAck(cfg, run.value, s).None? || run.value.sends[s].head.id != id then None
      else Some(NextAck(cfg, run.value, s).value.isSuccess)
  }

  // ---------------------------------------------------------------------
  // What others do

  predicate Writes(step: Step) {
    step.SetHead? || step.SetBody? || step.OpenFails? || step.GiveUp? || step.UnsetHead? || step.UnsetBody?
  }

  lemma UnsetKeepsSend(cfg: Config, w: World, step: Step, s: nat)
    requires Next(cfg, w, step).Some? && (step.UnsetHead? || step.UnsetBody?) && step.send != s && s in w.sends
    ensures s in Next(cfg, w, step).value.sends && Next(cfg, w, step).value.sends[s] == w.sends[s]
  {
  }

  lemma WriterKeepsSend(cfg: Config, w: World, step: Step, s: nat)
    requires Next(cfg, w, step).Some? && Writes(step) && step.send != s && s in w.sends
    ensures s in Next(cfg, w, step).value.sends && Next(cfg, w, step).value.sends[s] == w.sends[s]
  {
    if step.UnsetHead? || step.UnsetBody? {
      hide Next;
      UnsetKeepsSend(cfg, w, step, s);
    } else {
      hide DoUnsetHead, DoUnsetBody;
    }
  }

  lemma PosterKeepsSend(cfg: Config, w: World, t: nat, result: PostResult, s: nat)
    requires DoPostWord(cfg, w, t, result).Some? && t != s && s in w.sends
    ensures var w' := DoPostWord(cfg, w, t, result).value; s in w'.sends && w'.sends[s] == w.sends[s]
  {
    hide SenderWaits, Enqueued, DataWord, Moved;
  }

  lemma OtherSendKeepsSend(cfg: Config, w: World, step: Step, s: nat)
    requires Next(cfg, w, step).Some? && SendOf(step).Some? && SendOf(step) != Some(s) && s in w.sends
    ensures s in Next(cfg, w, step).value.sends && Next(cfg, w, step).value.sends[s] == w.sends[s]
  {
    hide MayStart, GoodId, Sendable, NextAck, DoSetHead, DoSetBody, DoOpenFails, DoPostWord, DoGiveUp, DoUnsetHead,
      DoUnsetBody;
    if Writes(step) {
      WriterKeepsSend(cfg, w, step, s);
    } else if step.PostWord? {
      PosterKeepsSend(cfg, w, step.send, step.result, s);
    }
  }

  /** What others do leaves a send alone. */
  lemma {:induction false} OthersLeaveSend(cfg: Config, w: World, steps: seq<Step>, s: nat)
    requires Run(cfg, w, steps).Some? && s in w.sends
    requires forall i :: 0 <= i < |steps| ==> SendOf(steps[i]) != Some(s)
    ensures s in Run(cfg, w, steps).value.sends && Run(cfg, w, steps).value.sends[s] == w.sends[s]
    decreases |steps|
  {
    hide Next, SendOf;
    if steps != [] {
      if SendOf(steps[0]) == None {
        ReceiveKeepsSends(cfg, w, steps[0]);
      } else {
        OtherSendKeepsSend(cfg, w, steps[0], s);
      }
      OthersLeaveSend(cfg, Next(cfg, w, steps[0]).value, steps[1..], s);
    }
  }

  lemma WriterKeepsIssued(cfg: Config, w: World, step: Step)
    requires Next(cfg, w, step).Some? && Writes(step)
    ensures Next(cfg, w, step).value.issued == w.issued
  {
  }

  lemma SenderKeepsIssued(cfg: Config, w: World, step: Step)
    requires Next(cfg, w, step).Some? && SendOf(step).Some?
    ensures Next(cfg, w, step).value.issued == w.issued
  {
    hide SenderWaits, MayStart, GoodId, Sendable, Enqueued, DataWord, Moved, NextAck, DoSetHead, DoSetBody,
      DoOpenFails, DoGiveUp, DoUnsetHead, DoUnsetBody;
    if Writes(step) {
      WriterKeepsIssued(cfg, w, step);
    }
  }

  lemma ReadKeepsIssued(cfg: Config, w: World, step: Step)
    requires Next(cfg, w, step).Some? && (step.ReadHead? || step.ClearHead? || step.ReadBody? || step.ClearBody?)
    ensures Next(cfg, w, step).value.issued == w.issued
  {
    hide Receivable;
  }

  lemma AnswerKeepsIssued(cfg: Config, w: World, step: Step)
    requires Next(cfg, w, step).Some?
    requires step.Dequeue? || step.Processed? || step.AnswerWord? || step.AnswerGivesUp? || step.AnswerOpenFails?
    ensures Next(cfg, w, step).value.issued == w.issued
  {
    hide Enqueued, Judged, Answered, ReceiverAnswers, AckWord, Decompose, Moved, Taken;
  }

  /** Only the process itself takes its numbers. */
  lemma StepKeepsIssued(cfg: Config, w: World, step: Step, p: nat)
    requires Next(cfg, w, step).Some? && p in w.issued && step != TakeSerial(p)
    ensures p in Next(cfg, w, step).value.issued && Next(cfg, w, step).value.issued[p] == w.issued[p]
  {
    if SendOf(step).Some? {
      hide Next;
      SenderKeepsIssued(cfg, w, step);
    } else if step.ReadHead? || step.ClearHead? || step.ReadBody? || step.ClearBody? {
      hide Next;
      ReadKeepsIssued(cfg, w, step);
    } else if !step.TakeSerial? {
      hide Next;
      AnswerKeepsIssued(cfg, w, step);
    }
  }

  lemma {:induction false} OthersLeaveIssued(cfg: Config, w: World, steps: seq<Step>, p: nat)
    requires Run(cfg, w, steps).Some? && p in w.issued
    requires forall i :: 0 <= i < |steps| ==> steps[i] != TakeSerial(p)
    ensures p in Run(cfg, w, steps).value.issued && Run(cfg, w, steps).value.issued[p] == w.issued[p]
    decreases |steps|
  {
    hide Next;
    if steps != [] {
      StepKeepsIssued(cfg, w, steps[0], p);
      OthersLeaveIssued(cfg, Next(cfg, w, steps[0]).value, steps[1..], p);
    }
  }

  // ---------------------------------------------------------------------
  // How a message is received

  predicate IsRead(step: Step, r: nat) {
    step == ReadHead(r) || step == ClearHead(r) || step == ReadBody(r) || step == ClearBody(r)
  }

  /** Receive `r` has read on since `steps`. */
  predicate AddsReads(steps: seq<Step>, steps': seq<Step>, r: nat) {
    steps <= steps' && forall i :: |steps| <= i < |steps'| ==> IsRead(steps'[i], r)
  }

  /** Receive `r` has read its message since `steps`, and had it processed last. */
  predicate AddsProcessing(steps: seq<Step>, steps': seq<Step>, r: nat, ok: bool) {
    && |steps| < |steps'| && steps'[|steps'| - 1] == Processed(r, ok)
    && AddsReads(steps, steps'[..|steps'| - 1], r)
  }

  /** A receive takes a word from the queue of `d`, reads the message and has it processed. */
  predicate IsReceipt(steps: seq<Step>, d: U64, ok: bool) {
    && 2 <= |steps| && steps[0].Dequeue? && steps[0].queue == d
    && steps[|steps| - 1] == Processed(steps[0].recv, ok)
    && forall i :: 0 < i < |steps| - 1 ==> IsRead(steps[i], steps[0].recv)
  }

  lemma ReceiptIs(steps: seq<Step>, steps': seq<Step>, r: nat, d: U64, ok: bool)
    requires AddsProcessing(steps + [Dequeue(r, d)], steps', r, ok)
    ensures steps <= steps' && IsReceipt(steps'[|steps|..], d, ok)
  {
    hide IsRead;
    var first := steps + [Dequeue(r, d)];
    assert first <= steps'[..|steps'| - 1] <= steps';
    assert steps'[|steps|] == first[|steps|];
    forall i | 0 < i < |steps'[|steps|..]| - 1 ensures IsRead(steps'[|steps|..][i], r) {
      assert steps'[|steps|..][i] == steps'[..|steps'| - 1][|steps| + i];
    }
  }

  /** After `steps` message `id` is first on the queue of `d`. */
  predicate ComesNext(cfg: Config, before: World, steps: seq<Step>, d: U64, id: Id) {
    var run := Run(cfg, before, steps);
    && run.Some? && WordsOn(run.value.queues, d) != [] && IsData(cfg, WordsOn(run.value.queues, d)[0])
    && id == WordId(cfg, d, WordsOn(run.value.queues, d)[0])
  }

  /** In the steps from number `at` up to `end` message `id`, the first on the queue of
      client `d`, was received: taken, read and processed, so that it is gone and everything
      else is as before. */
  predicate ReceivedIn(cfg: Config, before: World, steps: seq<Step>, at: nat, end: nat, d: U64, id: Id, ok: bool) {
    && at <= end <= |steps| && IsReceipt(steps[at..end], d, ok) && ComesNext(cfg, before, steps[..at], d, id)
    && Run(cfg, before, steps[..end]) == Some(Interrupted(cfg, Run(cfg, before, steps[..at]).value, d))
  }

  /** Nothing is left of a receipt: its receive is over, and its message in flight no more. */
  lemma ReceiptIsOver(cfg: Config, before: World, steps: seq<Step>, at: nat, end: nat, d: U64, id: Id, ok: bool)
    requires ReceivedIn(cfg, before, steps, at, end, d, id, ok)
    ensures var w := Run(cfg, before, steps[..end]).value;
            steps[at].recv !in w.recvs && id !in w.flight && HeadKey(id) !in w.store && BodyKey(id) !in w.store
  {
    hide Decompose, Next;
    var w, r := Run(cfg, before, steps[..at]).value, steps[at].recv;
    assert steps[at..end][0] == steps[at];
    assert steps[..end] == steps[..at] + steps[at..end];
    RunsJoin(cfg, before, steps[..at], steps[at..end]);
    OnlyNewReceives(cfg, w, r, d);
  }

  lemma OnlyNewReceives(cfg: Config, w: World, r: nat, q: U64)
    requires Next(cfg, w, Dequeue(r, q)).Some?
    ensures r !in w.recvs
  {
    hide Decompose;
  }

  // ---------------------------------------------------------------------
  // In what order

  predicate TakesWord(w: World, step: Step, d: U64) {
    match step
    case Dequeue(_, q) => q == d
    case TakeAck(s) => s in w.sends && w.sends[s].head.id.dept == d
    case _ => false
  }

  /** The words a run takes from the queue of `d`, whoever takes them. */
  function TakenWords(cfg: Config, w: World, steps: seq<Step>, d: U64): seq<U64>
    requires Run(cfg, w, steps).Some?
    decreases |steps|
  {
    if steps == [] then []
    else
      TakenBefore(w, steps[0], d) + TakenWords(cfg, Next(cfg, w, steps[0]).value, steps[1..], d)
  }

  function TakenBefore(w: World, step: Step, d: U64): seq<U64> {
    if TakesWord(w, step, d) && WordsOn(w.queues, d) != [] then [WordsOn(w.queues, d)[0]] else []
  }

  lemma WriterKeepsQueues(cfg: Config, w: World, step: Step)
    requires Next(cfg, w, step).Some? && Writes(step)
    ensures Next(cfg, w, step).value.queues == w.queues
  {
  }

  lemma StartKeepsQueues(cfg: Config, w: World, step: Step)
    requires Next(cfg, w, step).Some? && step.StartSend?
    ensures Next(cfg, w, step).value.queues == w.queues
  {
    hide SenderWaits, MayStart, GoodId, Sendable;
  }

  lemma ReadKeepsQueues(cfg: Config, w: World, step: Step)
    requires Next(cfg, w, step).Some?
    requires step.TakeSerial? || step.ReadHead? || step.ClearHead? || step.ReadBody? || step.ClearBody?
    ensures Next(cfg, w, step).value.queues == w.queues
  {
    hide Receivable;
  }

  lemma AnswerAddsWords(cfg: Config, w: World, step: Step, d: U64)
    requires Next(cfg, w, step).Some?
    requires step.Processed? || step.AnswerWord? || step.AnswerGivesUp? || step.AnswerOpenFails?
    ensures WordsOn(w.queues, d) <= WordsOn(Next(cfg, w, step).value.queues, d)
  {
    hide Judged, Answered, ReceiverAnswers, AckWord;
  }

  lemma PostAddsWords(cfg: Config, w: World, s: nat, result: PostResult, d: U64)
    requires DoPostWord(cfg, w, s, result).Some?
    ensures WordsOn(w.queues, d) <= WordsOn(DoPostWord(cfg, w, s, result).value.queues, d)
  {
    hide SenderWaits, DataWord, Moved;
  }

  lemma AckTakesFirst(cfg: Config, w: World, s: nat, d: U64)
    requires DoTakeAck(cfg, w, s).Some?
    ensures var words, words' := WordsOn(w.queues, d), WordsOn(DoTakeAck(cfg, w, s).value.queues, d);
            if TakesWord(w, TakeAck(s), d) then words != [] && words' == words[1..] else words' == words
  {
    hide Decompose;
  }

  lemma DequeueTakesFirst(cfg: Config, w: World, r: nat, q: U64, d: U64)
    requires DoDequeue(cfg, w, r, q).Some?
    ensures var words, words' := WordsOn(w.queues, d), WordsOn(DoDequeue(cfg, w, r, q).value.queues, d);
            if q == d then words != [] && words' == words[1..] else words' == words
  {
    hide Decompose, Moved, Taken;
  }

  /** Words are taken from the front of a queue and arrive at its end. */
  lemma StepIsFifo(cfg: Config, w: World, step: Step, d: U64)
    requires Next(cfg, w, step).Some?
    ensures var words, words' := WordsOn(w.queues, d), WordsOn(Next(cfg, w, step).value.queues, d);
            if TakesWord(w, step, d) then words != [] && words' == words[1..] else words <= words'
  {
    if step.Dequeue? {
      hide DoDequeue, WordsOn;
      DequeueTakesFirst(cfg, w, step.recv, step.queue, d);
    } else if step.TakeAck? {
      hide DoTakeAck, WordsOn;
      AckTakesFirst(cfg, w, step.send, d);
    } else if step.PostWord? {
      hide DoPostWord, WordsOn;
      PostAddsWords(cfg, w, step.send, step.result, d);
    } else if step.AckTimeout? {
    } else {
      hide Next, WordsOn;
      if step.StartSend? {
        StartKeepsQueues(cfg, w, step);
      } else if Writes(step) {
        WriterKeepsQueues(cfg, w, step);
      } else if step.Processed? || step.AnswerWord? || step.AnswerGivesUp? || step.AnswerOpenFails? {
        AnswerAddsWords(cfg, w, step, d);
      } else {
        ReadKeepsQueues(cfg, w, step);
      }
    }
  }

  /** In every run the words taken from a queue are those that were on it and those that
      have arrived since, in their order, up to what is left. */
  lemma {:induction false} QueueIsFifo(cfg: Config, w: World, steps: seq<Step>, d: U64)
    requires Run(cfg, w, steps).Some?
    ensures exists arrived ::
              WordsOn(w.queues, d) + arrived
              == TakenWords(cfg, w, steps, d) + WordsOn(Run(cfg, w, steps).value.queues, d)
    decreases |steps|
  {
    hide Next, WordsOn, TakesWord;
    var words := WordsOn(w.queues, d);
    if steps == [] {
      assert words + [] == [] + words;
    } else {
      var w1 := Next(cfg, w, steps[0]).value;
      var words1, left := WordsOn(w1.queues, d), WordsOn(Run(cfg, w, steps).value.queues, d);
      var first, later := TakenBefore(w, steps[0], d), TakenWords(cfg, w1, steps[1..], d);
      StepIsFifo(cfg, w, steps[0], d);
      QueueIsFifo(cfg, w1, steps[1..], d);
      var arrived :| words1 + arrived == later + left;
      FifoJoins(words, first, words1, arrived, later, left);
    }
  }

  lemma FifoJoins(words: seq<U64>, first: seq<U64>, words1: seq<U64>, arrived: seq<U64>, later: seq<U64>,
                  left: seq<U64>)
    requires words <= first + words1 && words1 + arrived == later + left
    ensures exists more :: words + more == first + later + left
  {
    var more := (first + words1)[|words|..] + arrived;
    assert words + more == first + (words1 + arrived) == first + later + left;
  }

  lemma {:induction false} TakenWordsJoin(cfg: Config, w: World, steps: seq<Step>, more: seq<Step>, d: U64)
    requires Run(cfg, w, steps).Some? && Run(cfg, Run(cfg, w, steps).value, more).Some?
    ensures Run(cfg, w, steps + more) == Run(cfg, Run(cfg, w, steps).value, more)
    ensures TakenWords(cfg, w, steps + more, d)
         == TakenWords(cfg, w, steps, d) + TakenWords(cfg, Run(cfg, w, steps).value, more, d)
    decreases |steps|
  {
    hide Next, TakenBefore;
    if steps == [] {
      assert [] + more == more;
    } else {
      TakenWordsJoin(cfg, Next(cfg, w, steps[0]).value, steps[1..], more, d);
      assert (steps + more)[1..] == steps[1..] + more;
    }
  }

  lemma {:induction false} NoneTaken(cfg: Config, w: World, steps: seq<Step>, d: U64)
    requires Run(cfg, w, steps).Some? && StepsLeaveQueue(steps, d)
    ensures TakenWords(cfg, w, steps, d) == []
    decreases |steps|
  {
    hide Next;
    if steps != [] {
      NoneTaken(cfg, Next(cfg, w, steps[0]).value, steps[1..], d);
    }
  }

  /** If the words taken are no more than the messages `handled`, they are theirs. */
  predicate TakenAre(cfg: Config, d: U64, taken: seq<U64>, handled: seq<Id>) {
    && |handled| <= |taken|
    && (|handled| == |taken| ==>
          forall i :: 0 <= i < |taken| ==> IsData(cfg, taken[i]) && handled[i] == WordId(cfg, d, taken[i]))
  }

  /** Of the words on the queue of `d` the messages `handled` were taken, all that came
      first and in their order, and then `acks` more; the rest is left. */
  predicate TakenInOrder(cfg: Config, d: U64, words: seq<U64>, handled: seq<Id>, acks: nat, left: seq<U64>) {
    && |handled| + acks <= |words| && left == words[|handled| + acks..]
    && (forall i :: 0 <= i < |handled| ==> IsData(cfg, words[i]) && handled[i] == WordId(cfg, d, words[i]))
    && (forall i :: |handled| <= i < |handled| + acks ==> !IsData(cfg, words[i]))
  }

  /** The same of the words that were there and others that have arrived since. */
  ghost predicate InOrder(cfg: Config, d: U64, words: seq<U64>, handled: seq<Id>, acks: nat, left: seq<U64>) {
    exists arrived :: TakenInOrder(cfg, d, words + arrived, handled, acks, left)
  }

  /** Whoever took all the words took them in order. */
  lemma InOrderIfAll(cfg: Config, w: World, steps: seq<Step>, d: U64, taken: seq<U64>, handled: seq<Id>, ack: seq<U64>)
    requires Run(cfg, w, steps).Some? && TakenWords(cfg, w, steps, d) == taken + ack && |taken| == |handled|
    requires TakenAre(cfg, d, taken, handled) && forall i :: 0 <= i < |ack| ==> !IsData(cfg, ack[i])
    ensures InOrder(cfg, d, WordsOn(w.queues, d), handled, |ack|, WordsOn(Run(cfg, w, steps).value.queues, d))
  {
    hide Run, IsData, WordId, WordsOn, TakenWords;
    QueueIsFifo(cfg, w, steps, d);
    var words, left := WordsOn(w.queues, d), WordsOn(Run(cfg, w, steps).value.queues, d);
    var arrived :| words + arrived == taken + ack + left;
    assert TakenInOrder(cfg, d, words + arrived, handled, |ack|, left);
  }

  // ---------------------------------------------------------------------
  // The whole wait

  /** The first `n` messages on the queue of client `d` have been received. */
  function InterruptedTimes(cfg: Config, w: World, d: U64, n: nat): World {
    if n == 0 then w
    else
      var w' := InterruptedTimes(cfg, w, d, n - 1);
      if WordsOn(w'.queues, d) != [] && IsData(cfg, w'.queues[d][0]) then Interrupted(cfg, w', d) else w'
  }

  /** A wait of send `send` for the acknowledgement of message `id`: the run before it, the
      world it begins in, and what the outside will answer. */
  datatype Task = Task(cfg: Config, before: World, first: seq<Step>, start: World, send: nat, id: Id,
                       attempts: seq<Attempt>, processes: nat -> bool)

  /** What an attempt to receive finds. */
  datatype Found = Failure | Nothing | Message(id: Id) | Acknowledgement(ok: bool)

  /** An attempt: when as many steps as `at` had been made it looked at the queue, and when as
      many as `end` had been made it was over. */
  datatype Look = Look(at: nat, end: nat, found: Found)

  /** None fails and nothing more happens once all that is known of have been made. */
  function AttemptAt(attempts: seq<Attempt>, k: nat): Attempt {
    if k < |attempts| then attempts[k] else Attempt([], false)
  }

  function HandledIn(looks: seq<Look>): seq<Id> {
    if looks == [] then []
    else
      var init, last := looks[..|looks| - 1], looks[|looks| - 1];
      HandledIn(init) + if last.found.Message? then [last.found.id] else []
  }

  /** How many of the attempts count: one that receives a message does only if it is the first. */
  function Tries(looks: seq<Look>): nat {
    if looks == [] then 0
    else
      var tries := Tries(looks[..|looks| - 1]);
      match looks[|looks| - 1].found
      case Nothing => tries + 1
      case Message(_) => if tries == 0 then 1 else tries
      case _ => tries
  }

  function EndOf(t: Task, looks: seq<Look>): nat {
    if looks == [] then |t.first| else looks[|looks| - 1].end
  }

  /** From `begin` steps on up to `at` others have done what they do meanwhile, if they could. */
  predicate Passed(t: Task, steps: seq<Step>, begin: nat, at: nat, meanwhile: seq<Step>) {
    && begin <= at <= |steps| && Run(t.cfg, t.before, steps[..begin]).Some? && Run(t.cfg, t.before, steps[..at]).Some?
    && if Run(t.cfg, Run(t.cfg, t.before, steps[..begin]).value, meanwhile).Some? then steps[begin..at] == meanwhile
       else at == begin
  }

  /** What an attempt finds is what is first on the queue, and it deals with that and nothing else. */
  predicate LookIs(t: Task, steps: seq<Step>, begin: nat, look: Look, attempt: Attempt, processes: bool) {
    && Passed(t, steps, begin, look.at, attempt.meanwhile) && look.at <= look.end <= |steps|
    && var words := WordsOn(Run(t.cfg, t.before, steps[..look.at]).value.queues, t.id.dept);
       match look.found
       case Failure => attempt.broken && look.end == look.at
       case Nothing => !attempt.broken && look.end == look.at && words == []
       case Message(id) =>
         && !attempt.broken && words != []
         && ReceivedIn(t.cfg, t.before, steps, look.at, look.end, t.id.dept, id, processes)
       case Acknowledgement(ok) =>
         && !attempt.broken && look.end == look.at + 1 && words != [] && steps[look.at] == TakeAck(t.send)
         && Decompose(t.cfg.base, words[0]).Decoded? && Decompose(t.cfg.base, words[0]).composed.isAck
         && Decompose(t.cfg.base, words[0]).composed.isSuccess == ok
  }

  /** The attempts follow each other, each when the one before is over. */
  predicate Looks(t: Task, steps: seq<Step>, looks: seq<Look>)
    decreases |looks|
  {
    looks == []
    || (var init, k := looks[..|looks| - 1], |looks| - 1;
        && Looks(t, steps, init)
        && LookIs(t, steps, EndOf(t, init), looks[k], AttemptAt(t.attempts, k), t.processes(|HandledIn(init)|)))
  }

  /** The wait goes on after each of these. */
  predicate GoesOn(looks: seq<Look>) {
    forall k :: 0 <= k < |looks| ==> looks[k].found.Nothing? || looks[k].found.Message?
  }

  /** None of these was one too many. */
  predicate Due(t: Task, looks: seq<Look>) {
    forall k :: 0 <= k < |looks| ==> Tries(looks[..k]) < t.cfg.retries
  }

  function TakenSince(t: Task, steps: seq<Step>): seq<U64>
    requires |t.first| <= |steps| && Run(t.cfg, t.start, steps[|t.first|..]).Some?
  {
    TakenWords(t.cfg, t.start, steps[|t.first|..], t.id.dept)
  }

  /** Send `t.send` has waited up to `w`. Its attempts are `looks`, one after the other, none
      too many; the last took an acknowledgement, or failed, or no more were due. */
  ghost predicate Waited(t: Task, steps: seq<Step>, w: World, looks: seq<Look>) {
    var n, handled := |looks|, HandledIn(looks);
    var acks := if n != 0 && looks[n - 1].found.Acknowledgement? then 1 else 0;
    && t.first <= steps && Looks(t, steps, looks) && Due(t, looks) && (n != 0 ==> GoesOn(looks[..n - 1]))
    && (if acks == 1 then EndOf(t, looks) == |steps|
        else
          && EndOf(t, looks) + 1 == |steps| && steps[|steps| - 1] == AckTimeout(t.send)
          && ((n != 0 && looks[n - 1].found == Failure) || (GoesOn(looks) && Tries(looks) == t.cfg.retries)))
    && Run(t.cfg, t.before, steps) == Some(w) && Run(t.cfg, t.start, steps[|t.first|..]) == Some(w)
    // the messages received are all that came before the acknowledgement, unless others took words
    && (|TakenSince(t, steps)| == |handled| + acks ==>
          InOrder(t.cfg, t.id.dept, WordsOn(t.start.queues, t.id.dept), handled, acks, WordsOn(w.queues, t.id.dept)))
    && (LeavesQueue(t.attempts, t.id.dept) ==> |TakenSince(t, steps)| == |handled| + acks)
    // nothing else has changed, if others do nothing
    && (Undisturbed(t.attempts) ==>
          Next(t.cfg, InterruptedTimes(t.cfg, t.start, t.id.dept, |handled|),
               if acks == 1 then TakeAck(t.send) else AckTimeout(t.send)) == Some(w))
  }

  /** What the wait has taken so far. */
  ghost predicate TookSoFar(t: Task, steps: seq<Step>, w: World, handled: seq<Id>) {
    && t.first <= steps && Run(t.cfg, t.before, steps) == Some(w) && Run(t.cfg, t.start, steps[|t.first|..]) == Some(w)
    && TakenAre(t.cfg, t.id.dept, TakenSince(t, steps), handled)
    && (LeavesQueue(t.attempts, t.id.dept) ==> |TakenSince(t, steps)| == |handled|)
    && (Undisturbed(t.attempts) ==> w == InterruptedTimes(t.cfg, t.start, t.id.dept, |handled|))
  }

  /** The wait goes on, and its next attempt has not begun. */
  ghost predicate Waiting(t: Task, steps: seq<Step>, w: World, looks: seq<Look>) {
    && Looks(t, steps, looks) && GoesOn(looks) && Due(t, looks) && EndOf(t, looks) == |steps|
    && TookSoFar(t, steps, w, HandledIn(looks))
  }

  /** Its next attempt is about to look at the queue. */
  ghost predicate Looking(t: Task, steps: seq<Step>, w: World, looks: seq<Look>) {
    && Looks(t, steps, looks) && GoesOn(looks) && Due(t, looks)
    && Passed(t, steps, EndOf(t, looks), |steps|, AttemptAt(t.attempts, |looks|).meanwhile)
    && TookSoFar(t, steps, w, HandledIn(looks))
  }

  /** An attempt that does not fail, before which an acknowledgement has come to be first on the
      queue, takes it, and the wait is over. */
  lemma AckIsTaken(t: Task, steps: seq<Step>, w: World, looks: seq<Look>, k: nat)
    requires Waited(t, steps, w, looks) && k < |looks| && !AttemptAt(t.attempts, k).broken
    requires looks[k].at <= |steps| && Run(t.cfg, t.before, steps[..looks[k].at]).Some?
    requires var words := WordsOn(Run(t.cfg, t.before, steps[..looks[k].at]).value.queues, t.id.dept);
             words != [] && !IsData(t.cfg, words[0])
    ensures k == |looks| - 1 && looks[k].found.Acknowledgement?
    ensures |steps| == looks[k].at + 1 && steps[looks[k].at] == TakeAck(t.send)
  {
    hide Run, InOrder, TakenWords, InterruptedTimes, Next, Decompose, Passed, Due;
    LookAt(t, steps, looks, k);
  }

  lemma {:induction false} LookAt(t: Task, steps: seq<Step>, looks: seq<Look>, k: nat)
    requires Looks(t, steps, looks) && k < |looks|
    ensures LookIs(t, steps, EndOf(t, looks[..k]), looks[k], AttemptAt(t.attempts, k),
                   t.processes(|HandledIn(looks[..k])|))
    decreases |looks|
  {
    hide LookIs, HandledIn, EndOf;
    if k < |looks| - 1 {
      LookAt(t, steps, looks[..|looks| - 1], k);
      assert looks[..|looks| - 1][..k] == looks[..k];
    }
  }

  // What follows keeps these while the wait goes on.

  lemma WaitingBegins(t: Task)
    requires Run(t.cfg, t.before, t.first) == Some(t.start)
    ensures Waiting(t, t.first, t.start, [])
  {
    assert t.first[|t.first|..] == [];
  }

  lemma PassedStays(t: Task, steps: seq<Step>, steps': seq<Step>, begin: nat, at: nat, meanwhile: seq<Step>)
    requires Passed(t, steps, begin, at, meanwhile) && steps <= steps'
    ensures Passed(t, steps', begin, at, meanwhile)
  {
    hide Run;
    assert steps'[..begin] == steps[..begin] && steps'[..at] == steps[..at] && steps'[begin..at] == steps[begin..at];
  }

  lemma ReceivedStays(cfg: Config, before: World, steps: seq<Step>, steps': seq<Step>, at: nat, end: nat, d: U64,
                      id: Id, ok: bool)
    requires ReceivedIn(cfg, before, steps, at, end, d, id, ok) && steps <= steps'
    ensures ReceivedIn(cfg, before, steps', at, end, d, id, ok)
  {
    hide Run, IsReceipt, ComesNext, Interrupted;
    assert steps'[at..end] == steps[at..end] && steps'[..at] == steps[..at] && steps'[..end] == steps[..end];
  }

  lemma LookStays(t: Task, steps: seq<Step>, steps': seq<Step>, begin: nat, look: Look, attempt: Attempt, ok: bool)
    requires LookIs(t, steps, begin, look, attempt, ok) && steps <= steps'
    ensures LookIs(t, steps', begin, look, attempt, ok)
  {
    hide Run, Decompose, WordsOn, ReceivedIn, Passed;
    PassedStays(t, steps, steps', begin, look.at, attempt.meanwhile);
    PassedIs(t, steps, begin, look.at, attempt.meanwhile);
    assert steps'[..look.at] == steps[..look.at];
    if look.found.Message? {
      ReceivedStays(t.cfg, t.before, steps, steps', look.at, look.end, t.id.dept, look.found.id, ok);
    }
  }

  lemma PassedIs(t: Task, steps: seq<Step>, begin: nat, at: nat, meanwhile: seq<Step>)
    ensures Passed(t, steps, begin, at, meanwhile) ==>
              begin <= at <= |steps| && Run(t.cfg, t.before, steps[..at]).Some?
  {
    hide Run;
  }

  lemma {:induction false} LooksStay(t: Task, steps: seq<Step>, steps': seq<Step>, looks: seq<Look>)
    requires Looks(t, steps, looks) && steps <= steps'
    ensures Looks(t, steps', looks)
    decreases |looks|
  {
    hide LookIs, HandledIn, EndOf;
    if looks != [] {
      var init, k := looks[..|looks| - 1], |looks| - 1;
      LooksStay(t, steps, steps', init);
      LookStays(t, steps, steps', EndOf(t, init), looks[k], AttemptAt(t.attempts, k), t.processes(|HandledIn(init)|));
    }
  }

  lemma OneMoreLook(t: Task, steps: seq<Step>, looks: seq<Look>, look: Look)
    requires Looks(t, steps, looks) && Due(t, looks) && Tries(looks) < t.cfg.retries
    requires LookIs(t, steps, EndOf(t, looks), look, AttemptAt(t.attempts, |looks|), t.processes(|HandledIn(looks)|))
    ensures Looks(t, steps, looks + [look]) && Due(t, looks + [look]) && EndOf(t, looks + [look]) == look.end
    ensures HandledIn(looks + [look]) == HandledIn(looks) + if look.found.Message? then [look.found.id] else []
    ensures match look.found
            case Nothing => Tries(looks + [look]) == Tries(looks) + 1
            case Message(_) => Tries(looks + [look]) == if Tries(looks) == 0 then 1 else Tries(looks)
            case _ => Tries(looks + [look]) == Tries(looks)
  {
    hide LookIs;
    var looks' := looks + [look];
    assert looks'[..|looks|] == looks;
    forall k | 0 <= k < |looks'| ensures Tries(looks'[..k]) < t.cfg.retries {
      if k < |looks| {
        assert looks'[..k] == looks[..k];
      }
    }
  }

  /** More steps are made, by which these words are taken. */
  lemma MoreSteps(t: Task, steps: seq<Step>, steps': seq<Step>, w: World, w': World)
    requires t.first <= steps <= steps' && Run(t.cfg, t.before, steps) == Some(w)
    requires Run(t.cfg, t.start, steps[|t.first|..]) == Some(w) && Run(t.cfg, w, steps'[|steps|..]) == Some(w')
    ensures t.first <= steps'
    ensures Run(t.cfg, t.before, steps') == Some(w') && Run(t.cfg, t.start, steps'[|t.first|..]) == Some(w')
    ensures TakenSince(t, steps') == TakenSince(t, steps) + TakenWords(t.cfg, w, steps'[|steps|..], t.id.dept)
  {
    hide Run, TakenWords;
    assert steps + steps'[|steps|..] == steps';
    assert steps'[|t.first|..] == steps[|t.first|..] + steps'[|steps|..];
    RunsJoin(t.cfg, t.before, steps, steps'[|steps|..]);
    TakenWordsJoin(t.cfg, t.start, steps[|t.first|..], steps'[|steps|..], t.id.dept);
  }

  /** Others do what they do, if they can. */
  predicate Goes(cfg: Config, steps: seq<Step>, steps': seq<Step>, w: World, w': World, meanwhile: seq<Step>) {
    if Run(cfg, w, meanwhile).Some? then steps' == steps + meanwhile && Run(cfg, w, meanwhile) == Some(w')
    else steps' == steps && w' == w
  }

  lemma AboutToLook(t: Task, steps: seq<Step>, steps': seq<Step>, w: World, w': World, looks: seq<Look>)
    requires Waiting(t, steps, w, looks)
    requires Goes(t.cfg, steps, steps', w, w', AttemptAt(t.attempts, |looks|).meanwhile)
    ensures Looking(t, steps', w', looks)
  {
    hide Run, InterruptedTimes, TakenAre, GoesOn, Due, Looks, EndOf, HandledIn;
    var meanwhile := AttemptAt(t.attempts, |looks|).meanwhile;
    assert steps'[..|steps|] == steps && steps'[..|steps'|] == steps' && steps'[|steps|..|steps'|] == steps'[|steps|..];
    LooksStay(t, steps, steps', looks);
    if Run(t.cfg, w, meanwhile).Some? {
      assert steps'[|steps|..] == meanwhile;
      TookMeanwhile(t, steps, steps', w, w', meanwhile, HandledIn(looks));
    }
  }

  lemma TookMeanwhile(t: Task, steps: seq<Step>, steps': seq<Step>, w: World, w': World, meanwhile: seq<Step>,
                      handled: seq<Id>)
    requires TookSoFar(t, steps, w, handled) && steps' == steps + meanwhile && Run(t.cfg, w, meanwhile) == Some(w')
    requires meanwhile == [] || exists a :: 0 <= a < |t.attempts| && t.attempts[a].meanwhile == meanwhile
    ensures TookSoFar(t, steps', w', handled)
  {
    hide InterruptedTimes, IsData, WordId, TakenWords;
    assert steps'[|steps|..] == meanwhile;
    MoreSteps(t, steps, steps', w, w');
    if LeavesQueue(t.attempts, t.id.dept) {
      NoneTaken(t.cfg, w, meanwhile, t.id.dept);
    }
  }

  lemma LooksAtNothing(t: Task, steps: seq<Step>, w: World, looks: seq<Look>)
    requires Looking(t, steps, w, looks) && Tries(looks) < t.cfg.retries && !AttemptAt(t.attempts, |looks|).broken
    requires WordsOn(w.queues, t.id.dept) == []
    ensures Waiting(t, steps, w, looks + [Look(|steps|, |steps|, Nothing)])
    ensures HandledIn(looks + [Look(|steps|, |steps|, Nothing)]) == HandledIn(looks)
    ensures Tries(looks + [Look(|steps|, |steps|, Nothing)]) == Tries(looks) + 1
  {
    hide Run, Passed, InterruptedTimes, TakenAre, TakenSince, Due, Looks, Tries, HandledIn, EndOf;
    assert steps[..|steps|] == steps;
    OneMoreLook(t, steps, looks, Look(|steps|, |steps|, Nothing));
    assert HandledIn(looks) + [] == HandledIn(looks);
  }

  /** One more message has been received. */
  lemma LooksAtMessage(t: Task, steps: seq<Step>, steps': seq<Step>, w: World, looks: seq<Look>, id: Id)
    requires Looking(t, steps, w, looks) && Tries(looks) < t.cfg.retries && !AttemptAt(t.attempts, |looks|).broken
    requires WordsOn(w.queues, t.id.dept) != [] && IsData(t.cfg, WordsOn(w.queues, t.id.dept)[0])
    requires id == WordId(t.cfg, t.id.dept, WordsOn(w.queues, t.id.dept)[0])
    requires steps <= steps' && IsReceipt(steps'[|steps|..], t.id.dept, t.processes(|HandledIn(looks)|))
    requires Run(t.cfg, t.before, steps') == Some(Interrupted(t.cfg, w, t.id.dept))
    ensures Waiting(t, steps', Interrupted(t.cfg, w, t.id.dept), looks + [Look(|steps|, |steps'|, Message(id))])
    ensures HandledIn(looks + [Look(|steps|, |steps'|, Message(id))]) == HandledIn(looks) + [id]
    ensures Tries(looks + [Look(|steps|, |steps'|, Message(id))]) == if Tries(looks) == 0 then 1 else Tries(looks)
  {
    hide Run, Passed, Interrupted, TookSoFar, IsReceipt, IsData, WordId, ReceivedIn, Due, Looks, Tries, HandledIn,
      EndOf, WordsOn;
    var d, look := t.id.dept, Look(|steps|, |steps'|, Message(id));
    var attempt, ok := AttemptAt(t.attempts, |looks|), t.processes(|HandledIn(looks)|);
    assert steps'[..|steps|] == steps;
    assert Run(t.cfg, t.before, steps) == Some(w) by { TookRun(t, steps, w, HandledIn(looks)); }
    LooksStay(t, steps, steps', looks);
    PassedStays(t, steps, steps', EndOf(t, looks), |steps|, attempt.meanwhile);
    JustReceived(t.cfg, t.before, steps, steps', w, d, id, ok);
    OneMoreLook(t, steps', looks, look);
    TookOneMore(t, steps, steps', w, HandledIn(looks), ok);
  }

  lemma TookRun(t: Task, steps: seq<Step>, w: World, handled: seq<Id>)
    requires TookSoFar(t, steps, w, handled)
    ensures Run(t.cfg, t.before, steps) == Some(w)
  {
  }

  lemma FirstWordOn(queues: map<U64, seq<U64>>, q: U64)
    requires WordsOn(queues, q) != []
    ensures q in queues && queues[q] != [] && WordsOn(queues, q)[0] == queues[q][0]
  {
  }

  lemma JustReceived(cfg: Config, before: World, steps: seq<Step>, steps': seq<Step>, w: World, d: U64, id: Id,
                     ok: bool)
    requires Run(cfg, before, steps) == Some(w) && steps <= steps' && IsReceipt(steps'[|steps|..], d, ok)
    requires WordsOn(w.queues, d) != [] && IsData(cfg, WordsOn(w.queues, d)[0])
    requires id == WordId(cfg, d, WordsOn(w.queues, d)[0])
    requires Run(cfg, before, steps') == Some(Interrupted(cfg, w, d))
    ensures ReceivedIn(cfg, before, steps', |steps|, |steps'|, d, id, ok)
  {
    hide Run, Decompose, Interrupted, IsReceipt, WordsOn;
    assert steps'[|steps|..|steps'|] == steps'[|steps|..];
    assert steps'[..|steps|] == steps && steps'[..|steps'|] == steps';
  }

  lemma TookOneMore(t: Task, steps: seq<Step>, steps': seq<Step>, w: World, handled: seq<Id>, ok: bool)
    requires TookSoFar(t, steps, w, handled) && steps <= steps' && IsReceipt(steps'[|steps|..], t.id.dept, ok)
    requires WordsOn(w.queues, t.id.dept) != [] && IsData(t.cfg, WordsOn(w.queues, t.id.dept)[0])
    requires Run(t.cfg, t.before, steps') == Some(Interrupted(t.cfg, w, t.id.dept))
    ensures TookSoFar(t, steps', Interrupted(t.cfg, w, t.id.dept),
                      handled + [WordId(t.cfg, t.id.dept, WordsOn(w.queues, t.id.dept)[0])])
  {
    hide Run, IsData, WordId, Interrupted, TakenWords, IsReceipt, WordsOn, TakenAre, InterruptedTimes, LeavesQueue,
      Undisturbed;
    var d := t.id.dept;
    FirstWordOn(w.queues, d);
    RunFrom(t.cfg, t.before, steps, steps', w);
    MoreSteps(t, steps, steps', w, Interrupted(t.cfg, w, d));
    FirstTaken(t.cfg, w, steps'[|steps|..], d, ok);
    OneMoreTaken(t.cfg, d, TakenSince(t, steps), handled, WordsOn(w.queues, d)[0]);
    if Undisturbed(t.attempts) {
      InterruptedOnce(t.cfg, t.start, d, |handled|);
    }
  }

  lemma RunFrom(cfg: Config, before: World, steps: seq<Step>, steps': seq<Step>, w: World)
    requires Run(cfg, before, steps) == Some(w) && steps <= steps'
    ensures Run(cfg, before, steps') == Run(cfg, w, steps'[|steps|..])
  {
    hide Run;
    assert steps + steps'[|steps|..] == steps';
    RunsJoin(cfg, before, steps, steps'[|steps|..]);
  }

  lemma OneMoreTaken(cfg: Config, d: U64, taken: seq<U64>, handled: seq<Id>, word: U64)
    requires TakenAre(cfg, d, taken, handled) && IsData(cfg, word)
    ensures TakenAre(cfg, d, taken + [word], handled + [WordId(cfg, d, word)])
  {
    hide Decompose;
  }

  lemma InterruptedOnce(cfg: Config, w: World, d: U64, n: nat)
    requires var w' := InterruptedTimes(cfg, w, d, n); WordsOn(w'.queues, d) != [] && IsData(cfg, w'.queues[d][0])
    ensures InterruptedTimes(cfg, w, d, n + 1) == Interrupted(cfg, InterruptedTimes(cfg, w, d, n), d)
  {
    hide Interrupted, IsData;
  }

  lemma FirstTaken(cfg: Config, w: World, steps: seq<Step>, d: U64, ok: bool)
    requires Run(cfg, w, steps).Some? && IsReceipt(steps, d, ok) && WordsOn(w.queues, d) != []
    ensures TakenWords(cfg, w, steps, d) == [WordsOn(w.queues, d)[0]]
  {
    hide Next, WordsOn;
    NoneTaken(cfg, Next(cfg, w, steps[0]).value, steps[1..], d);
  }

  /** The wait makes its last step. */
  lemma LastStep(t: Task, steps: seq<Step>, w: World, step: Step, w': World, handled: seq<Id>)
    requires TookSoFar(t, steps, w, handled) && Next(t.cfg, w, step) == Some(w')
    requires TakenBefore(w, step, t.id.dept) == []
             || (|TakenBefore(w, step, t.id.dept)| == 1 && !IsData(t.cfg, TakenBefore(w, step, t.id.dept)[0]))
    ensures var steps' := steps + [step];
            var acks := |TakenBefore(w, step, t.id.dept)|;
            && t.first <= steps' && Run(t.cfg, t.before, steps') == Some(w')
            && Run(t.cfg, t.start, steps'[|t.first|..]) == Some(w')
            && (|TakenSince(t, steps')| == |handled| + acks ==>
                  InOrder(t.cfg, t.id.dept, WordsOn(t.start.queues, t.id.dept), handled, acks,
                          WordsOn(w'.queues, t.id.dept)))
            && (LeavesQueue(t.attempts, t.id.dept) ==> |TakenSince(t, steps')| == |handled| + acks)
  {
    hide Run, Next, TakenBefore, IsData, WordId, WordsOn, TakenWords, InOrder, InterruptedTimes;
    var steps', ack := steps + [step], TakenBefore(w, step, t.id.dept);
    assert steps'[|steps|..] == [step];
    OneStep(t.cfg, w, step);
    MoreSteps(t, steps, steps', w, w');
    OneTaken(t.cfg, w, step, t.id.dept);
    if |TakenSince(t, steps)| == |handled| {
      InOrderIfAll(t.cfg, t.start, steps'[|t.first|..], t.id.dept, TakenSince(t, steps), handled, ack);
    }
  }

  lemma OneTaken(cfg: Config, w: World, step: Step, d: U64)
    requires Next(cfg, w, step).Some?
    ensures Run(cfg, w, [step]).Some? && TakenWords(cfg, w, [step], d) == TakenBefore(w, step, d)
  {
    hide Next, TakenBefore;
    assert [step][1..] == [];
    assert TakenBefore(w, step, d) + [] == TakenBefore(w, step, d);
  }

  /** The wait ends with an acknowledgement. */
  lemma LooksAtAck(t: Task, steps: seq<Step>, w: World, w': World, looks: seq<Look>, c: Composed)
    requires Looking(t, steps, w, looks) && Tries(looks) < t.cfg.retries && !AttemptAt(t.attempts, |looks|).broken
    requires t.send in w.sends && w.sends[t.send].head.id == t.id && WordsOn(w.queues, t.id.dept) != []
    requires Decompose(t.cfg.base, WordsOn(w.queues, t.id.dept)[0]) == Decoded(c) && c.isAck
    requires Next(t.cfg, w, TakeAck(t.send)) == Some(w')
    ensures Waited(t, steps + [TakeAck(t.send)], w', looks + [Look(|steps|, |steps| + 1, Acknowledgement(c.isSuccess))])
    ensures HandledIn(looks + [Look(|steps|, |steps| + 1, Acknowledgement(c.isSuccess))]) == HandledIn(looks)
  {
    hide Run, Next, Passed, Decompose, InterruptedTimes, TakenSince, TakenAre, InOrder, Due, Looks, Tries, HandledIn,
      EndOf, WordsOn, LeavesQueue;
    var look, steps' := Look(|steps|, |steps| + 1, Acknowledgement(c.isSuccess)), steps + [TakeAck(t.send)];
    assert steps'[..|steps|] == steps && (looks + [look])[..|looks|] == looks;
    LooksStay(t, steps, steps', looks);
    PassedStays(t, steps, steps', EndOf(t, looks), |steps|, AttemptAt(t.attempts, |looks|).meanwhile);
    OneMoreLook(t, steps', looks, look);
    assert HandledIn(looks) + [] == HandledIn(looks);
    LastStep(t, steps, w, TakeAck(t.send), w', HandledIn(looks));
  }

  /** It ends because an attempt failed. */
  lemma LookFails(t: Task, steps: seq<Step>, w: World, w': World, looks: seq<Look>)
    requires Looking(t, steps, w, looks) && Tries(looks) < t.cfg.retries && AttemptAt(t.attempts, |looks|).broken
    requires Next(t.cfg, w, AckTimeout(t.send)) == Some(w')
    ensures Waited(t, steps + [AckTimeout(t.send)], w', looks + [Look(|steps|, |steps|, Failure)])
    ensures HandledIn(looks + [Look(|steps|, |steps|, Failure)]) == HandledIn(looks)
  {
    hide Run, Next, Passed, Decompose, InterruptedTimes, TakenSince, TakenAre, InOrder, Due, Looks, Tries, HandledIn,
      EndOf, WordsOn, LeavesQueue;
    var look, steps' := Look(|steps|, |steps|, Failure), steps + [AckTimeout(t.send)];
    assert steps'[..|steps|] == steps && (looks + [look])[..|looks|] == looks;
    LooksStay(t, steps, steps', looks);
    PassedStays(t, steps, steps', EndOf(t, looks), |steps|, AttemptAt(t.attempts, |looks|).meanwhile);
    OneMoreLook(t, steps', looks, look);
    assert HandledIn(looks) + [] == HandledIn(looks);
    LastStep(t, steps, w, AckTimeout(t.send), w', HandledIn(looks));
  }

  /** It ends because no more attempts are due. */
  lemma WaitEndsLate(t: Task, steps: seq<Step>, w: World, w': World, looks: seq<Look>)
    requires Waiting(t, steps, w, looks) && Tries(looks) == t.cfg.retries
    requires Next(t.cfg, w, AckTimeout(t.send)) == Some(w')
    ensures Waited(t, steps + [AckTimeout(t.send)], w', looks)
  {
    hide Run, Next, InterruptedTimes, TakenSince, TakenAre, InOrder, Due, Looks, Tries, HandledIn, WordsOn, LeavesQueue;
    LooksStay(t, steps, steps + [AckTimeout(t.send)], looks);
    LastStep(t, steps, w, AckTimeout(t.send), w', HandledIn(looks));
  }

  lemma TakeAckIs(cfg: Config, w: World, s: nat, before: World, steps: seq<Step>)
    requires s in w.sends && w.sends[s].pc == AwaitAck && Run(cfg, before, steps) == Some(w)
    requires var d := w.sends[s].head.id.dept;
             WordsOn(w.queues, d) != [] && Decompose(cfg.base, w.queues[d][0]).Decoded?
             && Decompose(cfg.base, w.queues[d][0]).composed.isAck
    ensures Next(cfg, w, TakeAck(s)).Some? && s !in Next(cfg, w, TakeAck(s)).value.sends
    ensures AckTaken(cfg, before, steps + [TakeAck(s)], s, w.sends[s].head.id)
         == Some(Decompose(cfg.base, w.queues[w.sends[s].head.id.dept][0]).composed.isSuccess)
  {
    hide Decompose, Run;
    assert (steps + [TakeAck(s)])[..|steps|] == steps;
  }

  lemma AckTimeoutIs(cfg: Config, w: World, s: nat, before: World, steps: seq<Step>, id: Id)
    requires s in w.sends && w.sends[s].pc == AwaitAck
    ensures Next(cfg, w, AckTimeout(s)).Some? && s !in Next(cfg, w, AckTimeout(s)).value.sends
    ensures AckTaken(cfg, before, steps + [AckTimeout(s)], s, id) == None
  {
  }
}
