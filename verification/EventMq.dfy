/** The object through which a process sends and receives. Its methods are the
    source's, written as programs over the steps of the transfer: each call to the
    store or to a queue is one step. */
module EventMq {
  import opened Text
  import opened Words
  import opened MessageId
  import opened Transfer
  import opened Conservation
  import opened Acknowledgement
  import opened StepEffects
  import opened AckWait

  // ---------------------------------------------------------------------
  // What the world outside answers

  datatype Outside = Outside(
    setsHead: bool,             // whether the head, and the body, can be stored
    setsBody: bool,
    opens: bool,                // whether the queue to post on can be opened
    posts: nat -> PostResult,   // what becomes of each attempt to post
    attempts: seq<Attempt>,     // the attempts to receive an acknowledgement
    processes: nat -> bool      // how each processing ends
  )

  /** Whether one of `n` attempts from `k` on gets through before an error. */
  predicate GetsThrough(posts: nat -> PostResult, k: nat, n: nat)
    decreases n - k
  {
    k < n && (posts(k) == Sent || (posts(k) == Full && GetsThrough(posts, k + 1, n)))
  }

  /** Whether everything outside goes well, as far as the posted word. */
  predicate PutsThrough(cfg: Config, body: Bytes, outside: Outside) {
    outside.setsHead && (body != [] ==> outside.setsBody) && outside.opens && GetsThrough(outside.posts, 0, cfg.retries)
  }

  /** Whether a send posts its message. */
  predicate WillPost(cfg: Config, head: Head, body: Bytes, outside: Outside) {
    Sendable(cfg, head, body) && MakeKeys(head.id) != NoKeys && PutsThrough(cfg, body, outside)
  }

  // ---------------------------------------------------------------------
  // The object

  class ChmEventMq {
    const cfg: Config
    const process: nat      // this process
    var serialNum: U64      // the serial number to be taken next
    var world: World        // the store and the queues, outside this process

    ghost predicate Valid()
      reads this
    {
      && Sound(cfg, world)
      && process in cfg.seeds && process in world.issued
      && serialNum == SerialAt(cfg.seeds[process], world.issued[process])
    }

    /** A process that has taken no number yet joins what is going on. */
    constructor (cfg: Config, process: nat, w: World)
      requires Sound(cfg, w) && process in cfg.seeds && process in w.issued && w.issued[process] == 0
      ensures Valid() && this.cfg == cfg && this.process == process && world == w
    {
      this.cfg, this.process, world := cfg, process, w;
      serialNum := cfg.seeds[process];
    }

    /** One call to the store or to a queue, at the end of those made so far. */
    method Do(step: Step, ghost before: World, ghost steps: seq<Step>) returns (ghost steps': seq<Step>)
      requires Valid() && Run(cfg, before, steps) == Some(world)
      requires Next(cfg, world, step).Some? && step != TakeSerial(process)
      modifies this`world
      ensures Valid() && Next(cfg, old(world), step) == Some(world)
      ensures steps' == steps + [step] && Run(cfg, before, steps') == Some(world)
    {
      hide Inv, WaitsSound, Next, Run, SerialAt;
      StepKeepsInv(cfg, world, step);
      StepKeepsWaits(cfg, world, step);
      StepKeepsIssued(cfg, world, step, process);
      RunsJoin(cfg, before, steps, [step]);
      OneStep(cfg, world, step);
      world := Next(cfg, world, step).value;
      steps' := steps + [step];
    }

    /** The number taken is the next of the process's sequence. */
    method GetSerialNumber() returns (number: U64)
      requires Valid()
      modifies this
      ensures Valid()
      ensures number == SerialAt(cfg.seeds[process], old(world.issued[process]))
      ensures Next(cfg, old(world), TakeSerial(process)) == Some(world)
    {
      hide Inv, WaitsSound;
      number := serialNum;
      serialNum := (serialNum + 1) % TWO_64;
      if MAX_SERIAL < serialNum {
        serialNum := 0;
      }
      StepKeepsInv(cfg, world, TakeSerial(process));
      StepKeepsWaits(cfg, world, TakeSerial(process));
      world := Next(cfg, world, TakeSerial(process)).value;
    }

    /** Removes the entries of a message that could not be posted. */
    method RemoveKeys(s: nat, ghost before: World, ghost steps: seq<Step>) returns (ghost steps': seq<Step>)
      requires Valid() && Run(cfg, before, steps) == Some(world)
      requires s in world.sends && world.sends[s].pc == DropHead
      modifies this`world
      ensures Valid() && Run(cfg, before, steps') == Some(world) && steps <= steps'
      ensures var id := old(world).sends[s].head.id;
              world == SendOver(old(world).(store := WithoutMessage(old(world).store, id)), s)
    {
      hide Inv, WaitsSound, Run, Next, WithoutMessage, SendOver, SerialAt;
      var hasBody := world.sends[s].body != [];
      UnsetHeadIs(cfg, world, s);
      steps' := Do(UnsetHead(s), before, steps);
      if hasBody {
        steps' := Do(UnsetBody(s), before, steps');
      }
    }

    /** Posts an acknowledgement, trying again while the queue is full. */
    method SendAck(r: nat, outside: Outside, ghost before: World, ghost steps: seq<Step>)
      returns (sent: bool, ghost steps': seq<Step>)
      requires Valid() && Run(cfg, before, steps) == Some(world)
      requires r in world.recvs && world.recvs[r].pc.PostAck? && world.recvs[r].pc.tries == 0
      modifies this`world
      ensures Valid() && Run(cfg, before, steps') == Some(world) && steps <= steps'
      ensures sent == (outside.opens && GetsThrough(outside.posts, 0, cfg.retries))
      ensures world == AnswerOver(cfg, old(world), r, sent)
    {
      hide Inv, WaitsSound, Run, Next, AnswerOver, SerialAt;
      ghost var w := world;
      steps' := steps;
      if !outside.opens {
        AnswerOpenFailsIs(cfg, w, r);
        steps' := Do(AnswerOpenFails(r), before, steps');
        return false, steps';
      }
      var cnt := 0;
      assert world == Refused(w, r, 0) by { assert w.recvs[r := w.recvs[r]] == w.recvs; }
      while cnt < cfg.retries
        invariant 0 <= cnt <= cfg.retries
        invariant Valid() && Run(cfg, before, steps') == Some(world) && steps <= steps'
        invariant world == Refused(w, r, cnt)
        invariant GetsThrough(outside.posts, 0, cfg.retries) == GetsThrough(outside.posts, cnt, cfg.retries)
      {
        var result := outside.posts(cnt);
        AnswerIs(cfg, w, r, cnt, result);
        steps' := Do(AnswerWord(r, result), before, steps');
        if result == Sent {
          return true, steps';
        }
        if result == Error {
          return false, steps';
        }
        cnt := cnt + 1;
      }
      AnswerEnds(cfg, w, r, cnt);
      steps' := Do(AnswerGivesUp(r), before, steps');
      sent := false;
    }

    /** Reads a message's body, if it can have one, and removes it. */
    method ReceiveBody(r: nat, ghost before: World, ghost steps: seq<Step>) returns (ghost steps': seq<Step>)
      requires Valid() && Run(cfg, before, steps) == Some(world)
      requires r in world.recvs && world.recvs[r].pc.GetBody?
      modifies this`world
      ensures Valid() && Run(cfg, before, steps') == Some(world) && AddsReads(steps, steps', r)
      ensures RecvId(old(world).recvs[r]) in old(world).flight && world == Read(old(world), r)
    {
      hide Inv, WaitsSound, Run, Next, Read, SerialAt;
      BodyIs(cfg, world, r);
      steps' := Do(ReadBody(r), before, steps);
      if world.recvs[r].pc.RemoveBody? {
        steps' := Do(ClearBody(r), before, steps');
      }
    }

    /** Reads the message a receive has taken the word of, if there is one. */
    method ReceiveMessage(r: nat, ghost before: World, ghost steps: seq<Step>)
      returns (found: bool, ghost steps': seq<Step>)
      requires Valid() && Run(cfg, before, steps) == Some(world)
      requires r in world.recvs && world.recvs[r].pc == GetHead
      modifies this`world
      ensures Valid() && Run(cfg, before, steps') == Some(world) && AddsReads(steps, steps', r)
      ensures found == !old(world).recvs[r].composed.isAck
      ensures found ==> RecvId(old(world).recvs[r]) in old(world).flight && world == Read(old(world), r)
      ensures !found ==> world == old(world).(recvs := Without(old(world).recvs, r))
    {
      hide Inv, WaitsSound, Run, Next, Read, SerialAt;
      HeadIs(cfg, world, r);
      ghost var w := world;
      steps' := Do(ReadHead(r), before, steps);
      if r !in world.recvs {
        return false, steps';
      }
      var head := world.recvs[r].pc.head;
      OnlyHeadLeft(cfg, w, r);
      ClearedIs(cfg, w, r);
      steps' := Do(ClearHead(r), before, steps');
      found := true;
      if head.ctype == C2C {
        steps' := ReceiveBody(r, before, steps');
        ReadOn(cfg, w, r, head);
      }
    }

    /** Receives the message whose word was taken from a queue, has it processed, and
        acknowledges it if its sender waits for that. `processed` is the number of steps
        made up to the processing. */
    method RawReceive(r: nat, processes: bool, outside: Outside, ghost before: World, ghost steps: seq<Step>)
      returns (ok: bool, ghost steps': seq<Step>, ghost processed: nat)
      requires Valid() && Run(cfg, before, steps) == Some(world)
      requires r in world.recvs && world.recvs[r].pc == GetHead
      modifies this`world
      ensures Valid() && Run(cfg, before, steps') == Some(world) && steps <= steps'
      ensures var op, w := old(world).recvs[r], old(world);
              if op.composed.isAck then !ok && world == w.(recvs := Without(w.recvs, r))
              else
                && RecvId(op) in w.flight
                && (var answers := ReceiverAnswers(cfg, op.queue, w.flight[RecvId(op)].head);
                    var sent := outside.opens && GetsThrough(outside.posts, 0, cfg.retries);
                    && ok == (processes && (answers ==> sent))
                    && world == Received(cfg, w, r, processes, sent)
                    && |steps| <= processed <= |steps'| && (!answers ==> processed == |steps'|)
                    && AddsProcessing(steps, steps'[..processed], r, processes))
    {
      hide Inv, WaitsSound, Run, Next, ReceiverAnswers, GetsThrough, Received, AnswerOver, SerialAt;
      ghost var w := world;
      processed := 0;
      ok, steps' := ReceiveMessage(r, before, steps);
      if !ok {
        return false, steps', processed;
      }
      var head, queue := world.recvs[r].pc.head, world.recvs[r].queue;
      ProcessIs(cfg, w, r, processes);
      ghost var read := steps';
      steps' := Do(Processed(r, processes), before, steps');
      processed := |steps'|;
      assert steps'[..processed] == steps' && steps'[..processed - 1] == read;
      ok := processes;
      if ReceiverAnswers(cfg, queue, head) {
        var sent;
        ghost var soFar := steps';
        sent, steps' := SendAck(r, outside, before, steps');
        assert steps'[..processed] == soFar;
        ok := processes && sent;
      }
    }

    /** What other operations do meanwhile, if they can. */
    method Others(meanwhile: seq<Step>, s: nat, ghost before: World, ghost steps: seq<Step>)
      returns (ghost steps': seq<Step>)
      requires Valid() && Run(cfg, before, steps) == Some(world) && s in world.sends
      requires StepsLeaveSend(meanwhile, s, process)
      modifies this`world
      ensures Valid() && Run(cfg, before, steps') == Some(world)
      ensures s in world.sends && world.sends[s] == old(world).sends[s]
      ensures Goes(cfg, steps, steps', old(world), world, meanwhile)
      ensures steps <= steps' && (meanwhile == [] ==> world == old(world))
    {
      hide Inv, WaitsSound, Next, SendOf, SerialAt;
      steps' := steps;
      var run := Run(cfg, world, meanwhile);
      if run.Some? {
        OthersLeaveSend(cfg, world, meanwhile, s);
        OthersLeaveIssued(cfg, world, meanwhile, process);
        RunKeepsInv(cfg, world, meanwhile);
        RunKeepsWaits(cfg, world, meanwhile);
        RunsJoin(cfg, before, steps, meanwhile);
        world := run.value;
        steps' := steps + meanwhile;
      }
    }

    /** What goes before an attempt to receive an acknowledgement. */
    method Attempted(outside: Outside, ghost t: Task, ghost steps: seq<Step>, k: nat, s: nat, ghost looks: seq<Look>)
      returns (broken: bool, ghost steps': seq<Step>)
      requires Valid() && t.cfg == cfg && t.attempts == outside.attempts && k == |looks|
      requires Run(cfg, t.before, steps) == Some(world) && s in world.sends && LeavesSend(outside.attempts, s, process)
      requires Waiting(t, steps, world, looks)
      modifies this`world
      ensures Valid() && Run(cfg, t.before, steps') == Some(world) && steps <= steps'
      ensures s in world.sends && world.sends[s] == old(world).sends[s]
      ensures Looking(t, steps', world, looks)
      ensures broken == AttemptAt(outside.attempts, k).broken
      ensures |outside.attempts| <= k ==> world == old(world)
    {
      hide Inv, WaitsSound, SerialAt, Run, StepsLeaveSend, Waiting, Looking, Goes;
      NothingLeavesSend(s, process);
      var attempt := AttemptAt(outside.attempts, k);
      ghost var w := world;
      steps' := Others(attempt.meanwhile, s, t.before, steps);
      AboutToLook(t, steps, steps', w, world, looks);
      broken := attempt.broken;
    }

    /** Receives the message that is first on a client's queue. */
    method Interrupt(q: U64, processes: bool, outside: Outside, ghost before: World, ghost steps: seq<Step>)
      returns (ghost steps': seq<Step>)
      requires Valid() && Run(cfg, before, steps) == Some(world)
      requires q !in cfg.chmpxQueues && WordsOn(world.queues, q) != [] && IsData(cfg, world.queues[q][0])
      modifies this`world
      ensures Valid() && Run(cfg, before, steps') == Some(world)
      ensures steps <= steps' && IsReceipt(steps'[|steps|..], q, processes)
      ensures world == Interrupted(cfg, old(world), q)
    {
      hide Inv, WaitsSound, Run, Next, Decompose, GetsThrough, Received, Interrupted, TakenBy, SerialAt;
      ghost var w := world;
      var r := FreeIndex(world.recvs.Keys, 0);
      DequeueIs(cfg, w, r, q);
      TakenByIs(cfg, w, r, q);
      steps' := Do(Dequeue(r, q), before, steps);
      InterruptIs(cfg, w, r, q, processes, outside.opens && GetsThrough(outside.posts, 0, cfg.retries));
      var ok;
      ghost var processed;
      ok, steps', processed := RawReceive(r, processes, outside, before, steps');
      assert steps'[..|steps'|] == steps';
      ReceiptIs(steps, steps', r, q, processes);
    }

    /** The next word on the queue of `d`, taken apart; None if there is none. */
    method NextWord(d: U64) returns (next: Option<Composed>)
      requires Valid()
      ensures next == None <==> WordsOn(world.queues, d) == []
      ensures next.Some? ==>
                && d in world.queues && world.queues[d] != [] && WordsOn(world.queues, d)[0] == world.queues[d][0]
                && Decompose(cfg.base, world.queues[d][0]) == Decoded(next.value)
    {
      hide Inv, WaitsSound, SerialAt, Decompose;
      if WordsOn(world.queues, d) == [] {
        return None;
      }
      // a word that cannot be taken apart is never on a queue
      QueuedWordIsDecoded(cfg, world, d);
      next := Some(Decompose(cfg.base, world.queues[d][0]).composed);
    }

    /** An attempt takes the acknowledgement that is first on the queue. */
    method TakeAcknowledgement(ghost t: Task, ghost steps: seq<Step>, s: nat, c: Composed, ghost looks: seq<Look>)
      returns (ok: bool, ghost steps': seq<Step>, ghost looks': seq<Look>)
      requires Valid() && t.cfg == cfg && t.send == s && Run(cfg, t.before, steps) == Some(world)
      requires s in world.sends && world.sends[s].pc == AwaitAck && world.sends[s].head.id == t.id
      requires Looking(t, steps, world, looks) && Tries(looks) < cfg.retries && !AttemptAt(t.attempts, |looks|).broken
      requires WordsOn(world.queues, t.id.dept) != [] && c.isAck
      requires Decompose(cfg.base, WordsOn(world.queues, t.id.dept)[0]) == Decoded(c)
      modifies this`world
      ensures Valid() && Run(cfg, t.before, steps') == Some(world) && steps <= steps' && s !in world.sends
      ensures Waited(t, steps', world, looks') && HandledIn(looks') == HandledIn(looks)
      ensures |looks'| == |looks| + 1 && looks'[|looks|].found == Acknowledgement(ok)
      ensures AckTaken(cfg, t.before, steps', s, t.id) == Some(ok)
    {
      hide Inv, WaitsSound, Run, Next, Decompose, AckTaken, SerialAt, Looking, Waited, Tries, HandledIn;
      ghost var w := world;
      TakeAckIs(cfg, w, s, t.before, steps);
      steps' := Do(TakeAck(s), t.before, steps);
      LooksAtAck(t, steps, w, world, looks, c);
      ok, looks' := c.isSuccess, looks + [Look(|steps|, |steps| + 1, Acknowledgement(c.isSuccess))];
    }

    /** An attempt receives the message that is first on the queue. */
    method ReceiveFirst(ghost t: Task, ghost steps: seq<Step>, outside: Outside, d: U64, c: Composed, k: nat,
                        ghost looks: seq<Look>)
      returns (ghost steps': seq<Step>, ghost looks': seq<Look>)
      requires Valid() && t.cfg == cfg && t.id.dept == d && Run(cfg, t.before, steps) == Some(world)
      requires t.processes == outside.processes && k == |HandledIn(looks)| && d !in cfg.chmpxQueues
      requires Looking(t, steps, world, looks) && Tries(looks) < cfg.retries && !AttemptAt(t.attempts, |looks|).broken
      requires d in world.queues && WordsOn(world.queues, d) != [] && !c.isAck
      requires Decompose(cfg.base, WordsOn(world.queues, d)[0]) == Decoded(c)
      modifies this`world
      ensures Valid() && Run(cfg, t.before, steps') == Some(world) && steps <= steps'
      ensures world.sends == old(world).sends && WordsOn(world.queues, d) == WordsOn(old(world).queues, d)[1..]
      ensures Waiting(t, steps', world, looks') && |looks'| == |looks| + 1
      ensures HandledIn(looks') == HandledIn(looks) + [Id(c.msgid, d, c.number)]
      ensures Tries(looks') == if Tries(looks) == 0 then 1 else Tries(looks)
    {
      hide Inv, WaitsSound, Run, Next, Decompose, Interrupted, SerialAt, Looking, Waiting, Tries, HandledIn, IsReceipt;
      ghost var w := world;
      InterruptedIs(cfg, w, d);
      steps' := Interrupt(d, outside.processes(k), outside, t.before, steps);
      LooksAtMessage(t, steps, steps', w, looks, Id(c.msgid, d, c.number));
      looks' := looks + [Look(|steps|, |steps'|, Message(Id(c.msgid, d, c.number)))];
    }

    /** A send stops waiting: an attempt failed, or no more are due. */
    method StopWaiting(ghost t: Task, ghost steps: seq<Step>, s: nat, broken: bool, ghost looks: seq<Look>)
      returns (ghost steps': seq<Step>, ghost looks': seq<Look>)
      requires Valid() && t.cfg == cfg && t.send == s && Run(cfg, t.before, steps) == Some(world)
      requires s in world.sends && world.sends[s].pc == AwaitAck
      requires if broken then
                 Looking(t, steps, world, looks) && Tries(looks) < cfg.retries && AttemptAt(t.attempts, |looks|).broken
               else Waiting(t, steps, world, looks) && Tries(looks) == cfg.retries
      modifies this`world
      ensures Valid() && Run(cfg, t.before, steps') == Some(world) && steps <= steps' && s !in world.sends
      ensures Waited(t, steps', world, looks') && HandledIn(looks') == HandledIn(looks)
      ensures |looks'| == |looks| + (if broken then 1 else 0)
      ensures looks' != [] ==> !looks'[|looks'| - 1].found.Acknowledgement?
      ensures AckTaken(cfg, t.before, steps', s, t.id) == None
    {
      hide Inv, WaitsSound, Run, Next, AckTaken, SerialAt, Looking, Waiting, Waited, Tries, HandledIn;
      ghost var w := world;
      AckTimeoutIs(cfg, w, s, t.before, steps, t.id);
      steps' := Do(AckTimeout(s), t.before, steps);
      if broken {
        LookFails(t, steps, w, world, looks);
        looks' := looks + [Look(|steps|, |steps|, Failure)];
      } else {
        WaitEndsLate(t, steps, w, world, looks);
        GoingOnIsNoAck(t, steps, w, looks);
        looks' := looks;
      }
    }

    /** Waits for an acknowledgement, and meanwhile receives the messages that arrive
        on the same queue. */
    method ReceiveAck(s: nat, outside: Outside, ghost before: World, ghost steps: seq<Step>)
      returns (ok: bool, iterations: nat, handled: seq<Id>, ghost steps': seq<Step>, ghost looks: seq<Look>)
      requires Valid() && Run(cfg, before, steps) == Some(world)
      requires s in world.sends && world.sends[s].pc == AwaitAck && SenderWaits(cfg, world.sends[s].head)
      requires LeavesSend(outside.attempts, s, process)
      modifies this`world
      ensures Valid() && Run(cfg, before, steps') == Some(world) && steps <= steps' && s !in world.sends
      ensures var id := old(world).sends[s].head.id;
              && Waited(Task(cfg, before, steps, old(world), s, id, outside.attempts, outside.processes),
                        steps', world, looks)
              && ok == (AckTaken(cfg, before, steps', s, id) == Some(true))
      ensures ok == (looks != [] && looks[|looks| - 1].found == Acknowledgement(true))
      ensures iterations == |looks| && handled == HandledIn(looks)
      ensures iterations <= cfg.retries + |handled|
      ensures (looks == [] || !looks[|looks| - 1].found.Acknowledgement?) && NeverBroken(outside.attempts) ==>
                cfg.retries <= iterations
    {
      hide Inv, WaitsSound, Run, Next, SendOf, Decompose, WordsOn, AckTaken, Interrupted, SerialAt, LeavesSend, Waiting,
        Looking, Waited, IsReceipt, Tries, HandledIn, Sound;
      var id := world.sends[s].head.id;
      var d := id.dept;
      var cnt := 0;
      ok, iterations, handled, steps', looks := false, 0, [], steps, [];
      ghost var t := Task(cfg, before, steps, world, s, id, outside.attempts, outside.processes);
      WaitingBegins(t);
      NoLooks();
      while cnt < cfg.retries
        invariant cnt <= cfg.retries && cnt <= iterations <= cnt + |handled|
        invariant Valid() && Run(cfg, before, steps') == Some(world) && steps <= steps'
        invariant s in world.sends && world.sends[s] == old(world).sends[s]
        invariant Waiting(t, steps', world, looks)
        invariant cnt == Tries(looks) && iterations == |looks| && handled == HandledIn(looks)
        decreases if iterations < |outside.attempts| then |outside.attempts| - iterations else 0,
                  |WordsOn(world.queues, d)|, cfg.retries - cnt
      {
        var broken;
        broken, steps' := Attempted(outside, t, steps', iterations, s, looks);
        iterations := iterations + 1;
        if broken {
          steps', looks := StopWaiting(t, steps', s, true, looks);
          return false, iterations, handled, steps', looks;
        }
        var next := NextWord(d);
        if next == None {
          LooksAtNothing(t, steps', world, looks);
          looks := looks + [Look(|steps'|, |steps'|, Nothing)];
          cnt := cnt + 1;
          continue;
        }
        var c := next.value;
        if c.isAck {
          ok, steps', looks := TakeAcknowledgement(t, steps', s, c, looks);
          return ok, iterations, handled, steps', looks;
        }
        steps', looks := ReceiveFirst(t, steps', outside, d, c, |handled|, looks);
        handled := handled + [Id(c.msgid, d, c.number)];
        if 0 < cnt {
          cnt := cnt - 1;
        }
        cnt := cnt + 1;
      }
      steps', looks := StopWaiting(t, steps', s, false, looks);
    }

    /** Puts head and body into the store. */
    method WriteKeys(s: nat, outside: Outside, ghost before: World, ghost steps: seq<Step>)
      returns (wrote: bool, ghost steps': seq<Step>)
      requires Valid() && Run(cfg, before, steps) == Some(world)
      requires s in world.sends && world.sends[s].pc == WriteHead
      requires !world.sends[s].wroteHead && !world.sends[s].wroteBody
      modifies this`world
      ensures Valid() && Run(cfg, before, steps') == Some(world) && steps <= steps'
      ensures var op := old(world).sends[s];
              && wrote == (outside.setsHead && (op.body != [] ==> outside.setsBody))
              && if wrote then world == Written(old(world), s, op.head, op.body)
                 else HasFailed(old(world), world, s, op.head)
    {
      hide Inv, WaitsSound, Run, Next, WithoutMessage, SerialAt;
      ghost var w := world;
      var hasBody := world.sends[s].body != [];
      SetHeadIs(cfg, w, s, outside.setsHead);
      steps' := Do(SetHead(s, outside.setsHead), before, steps);
      wrote := outside.setsHead;
      if wrote && hasBody {
        SetBodyIs(cfg, w, s, outside.setsBody);
        steps' := Do(SetBody(s, outside.setsBody), before, steps');
        wrote := outside.setsBody;
      }
    }

    /** Posts the word of a message, trying again while the queue is full. */
    method PostMessage(s: nat, outside: Outside, ghost before: World, ghost steps: seq<Step>)
      returns (posted: bool, ghost steps': seq<Step>)
      requires Valid() && Run(cfg, before, steps) == Some(world)
      requires s in world.sends && world.sends[s].pc == Post(0)
      modifies this`world
      ensures Valid() && Run(cfg, before, steps') == Some(world) && steps <= steps'
      ensures posted == (outside.opens && GetsThrough(outside.posts, 0, cfg.retries))
      ensures world == if posted then MessagePosted(cfg, old(world), s) else PostFailed(old(world), s)
    {
      hide Inv, WaitsSound, Run, Next, MessagePosted, PostFailed, Trying, SerialAt;
      ghost var w := world;
      steps' := steps;
      if !outside.opens {
        OpenFailsIs(cfg, w, s);
        steps' := Do(OpenFails(s), before, steps);
        return false, steps';
      }
      var cnt := 0;
      NotTried(w, s);
      while cnt < cfg.retries
        invariant 0 <= cnt <= cfg.retries
        invariant Valid() && Run(cfg, before, steps') == Some(world) && steps <= steps'
        invariant world == Trying(w, s, cnt)
        invariant GetsThrough(outside.posts, 0, cfg.retries) == GetsThrough(outside.posts, cnt, cfg.retries)
      {
        var result := outside.posts(cnt);
        PostWordIs(cfg, w, s, cnt, result);
        steps' := Do(PostWord(s, result), before, steps');
        if result == Sent {
          return true, steps';
        }
        if result == Error {
          return false, steps';
        }
        cnt := cnt + 1;
      }
      GiveUpIs(cfg, w, s, cnt);
      steps' := Do(GiveUp(s), before, steps');
      posted := false;
    }

    /** Puts a message into the store and its word onto a queue, or leaves everything as it was. */
    method StoreAndPost(s: nat, issue: nat, head: Head, body: Bytes, outside: Outside)
      returns (posted: bool, ghost steps: seq<Step>)
      requires Valid() && s !in world.sends
      requires Sendable(cfg, head, body) && GoodId(cfg, head.id) && MayStart(cfg, world, issue, head.id)
      modifies this`world
      ensures Valid() && Run(cfg, old(world), steps) == Some(world)
      ensures steps != [] && steps[0] == StartSend(s, issue, head, body)
      ensures posted == PutsThrough(cfg, body, outside)
      ensures world == if posted then WithMessage(cfg, old(world), s, issue, head, body) else old(world)
    {
      hide Inv, WaitsSound, Run, Next, WithoutMessage, Sendable, GoodId, MayStart, SendOver, GetsThrough, Written,
        MessagePosted, WithMessage, PostFailed, HasFailed, SerialAt;
      ghost var w := world;
      EmptyRun(cfg, w);
      StartIs(cfg, w, s, issue, head, body);
      steps := Do(StartSend(s, issue, head, body), w, []);
      posted, steps := WriteKeys(s, outside, w, steps);
      if posted {
        WrittenIs(Started(w, s, issue, head, body), s, head, body);
        posted, steps := PostMessage(s, outside, w, steps);
        if posted {
          PostedSoFar(cfg, w, s, issue, head, body);
          return;
        }
        PostFails(Started(w, s, issue, head, body), s, head, body);
      }
      FailureRestores(cfg, w, world, s, issue, head, body);
      steps := RemoveKeys(s, w, steps);
    }

    /** Sends a message. A send that does not post its message leaves everything as it
        was; one that does, and waits, returns what the acknowledgement it takes says.
        `posted` is the number of steps it had made when the message was posted. */
    method Send(s: nat, issue: nat, head: Head, body: Bytes, outside: Outside)
      returns (ok: bool, ghost steps: seq<Step>, ghost posted: nat, ghost looks: seq<Look>)
      requires Valid() && s !in world.sends && LeavesSend(outside.attempts, s, process)
      requires Sendable(cfg, head, body) && MakeKeys(head.id) != NoKeys ==>
                 GoodId(cfg, head.id) && MayStart(cfg, world, issue, head.id)
      modifies this`world
      ensures Valid() && Run(cfg, old(world), steps) == Some(world) && s !in world.sends
      ensures !WillPost(cfg, head, body, outside) ==> !ok && world == old(world)
      ensures WillPost(cfg, head, body, outside) ==>
                && posted <= |steps| && steps != [] && steps[0] == StartSend(s, issue, head, body)
                && Run(cfg, old(world), steps[..posted]) == Some(WithMessage(cfg, old(world), s, issue, head, body))
      ensures WillPost(cfg, head, body, outside) && !SenderWaits(cfg, head) ==> ok && posted == |steps|
      ensures WillPost(cfg, head, body, outside) && SenderWaits(cfg, head) ==>
                && ok == (AckTaken(cfg, old(world), steps, s, head.id) == Some(true))
                && ok == (looks != [] && looks[|looks| - 1].found == Acknowledgement(true))
                && Waited(Task(cfg, old(world), steps[..posted], WithMessage(cfg, old(world), s, issue, head, body), s,
                               head.id, outside.attempts, outside.processes),
                          steps, world, looks)
    {
      hide Inv, WaitsSound, Run, Next, Sendable, GoodId, MayStart, SenderWaits, AckTaken, PutsThrough, MakeKeys,
        WithMessage, Waited, SerialAt, LeavesSend;
      ghost var w := world;
      ok, steps, posted, looks := false, [], 0, [];
      EmptyRun(cfg, w);
      if !Sendable(cfg, head, body) || MakeKeys(head.id) == NoKeys {
        return;
      }
      ok, steps := StoreAndPost(s, issue, head, body, outside);
      if ok {
        posted := |steps|;
        assert steps[..posted] == steps;
        WithMessageIs(cfg, w, s, issue, head, body);
        if SenderWaits(cfg, head) {
          var iterations, handled;
          ghost var first := steps;
          ok, iterations, handled, steps, looks := ReceiveAck(s, outside, w, steps);
          assert steps[..posted] == first;
        }
      }
    }
  }

  // ---------------------------------------------------------------------
  // For the proofs above

  lemma TakenByIs(cfg: Config, w: World, r: nat, q: U64)
    requires WordsOn(w.queues, q) != [] && IsData(cfg, w.queues[q][0])
    ensures var w' := TakenBy(cfg, w, r, q);
            r in w'.recvs && w'.recvs[r].pc == GetHead && !w'.recvs[r].composed.isAck
  {
    hide Decompose, Moved, Taken;
  }

  lemma InterruptedIs(cfg: Config, w: World, q: U64)
    requires WordsOn(w.queues, q) != [] && IsData(cfg, w.queues[q][0])
    ensures Interrupted(cfg, w, q).sends == w.sends
    ensures WordsOn(Interrupted(cfg, w, q).queues, q) == WordsOn(w.queues, q)[1..]
  {
    hide Decompose, WithoutMessage;
  }

  lemma NoLooks()
    ensures Tries([]) == 0 && HandledIn([]) == []
  {
  }

  lemma GoingOnIsNoAck(t: Task, steps: seq<Step>, w: World, looks: seq<Look>)
    requires Waiting(t, steps, w, looks)
    ensures looks != [] ==> !looks[|looks| - 1].found.Acknowledgement?
  {
    hide TookSoFar, Looks, Due;
  }

  lemma NothingLeavesSend(s: nat, p: nat)
    ensures StepsLeaveSend([], s, p)
  {
  }

  lemma WrittenIs(w: World, s: nat, head: Head, body: Bytes)
    ensures var w' := Written(w, s, head, body);
            s in w'.sends && w'.sends[s] == SendOp(head, body, Post(0), true, body != [])
  {
    hide Stored;
  }

  lemma WithMessageIs(cfg: Config, w: World, s: nat, issue: nat, head: Head, body: Bytes)
    requires s !in w.sends
    ensures var w' := WithMessage(cfg, w, s, issue, head, body);
            if SenderWaits(cfg, head) then s in w'.sends && w'.sends[s].pc == AwaitAck && w'.sends[s].head == head
            else s !in w'.sends
  {
    hide Stored, Enqueued, DataWord, SenderWaits;
  }

  /** What a waiting send returns after an acknowledgement is how the processing of
      its own message has ended since it began, as long as the acknowledgements to its
      client have been left to one waiting send at a time since nothing was left of
      earlier waits. */
  lemma SendReturnsOutcome(cfg: Config, start: World, earlier: seq<Step>, since: seq<Step>, steps: seq<Step>, s: nat,
                           issue: nat, head: Head, body: Bytes)
    requires Initial(cfg, start) && Run(cfg, start, earlier).Some?
    requires var w := Run(cfg, start, earlier).value;
             && NoWaiter(cfg, w, head.id.dept) && Drained(cfg, w, head.id.dept)
             && Run(cfg, w, since).Some? && !RunDisturbs(cfg, w, since, head.id.dept)
    requires var before := Run(cfg, Run(cfg, start, earlier).value, since).value;
             && AckTaken(cfg, before, steps, s, head.id).Some? && SenderWaits(cfg, head)
             && steps[0] == StartSend(s, issue, head, body)
             && !RunDisturbs(cfg, before, steps[..|steps| - 1], head.id.dept)
    ensures var before := Run(cfg, Run(cfg, start, earlier).value, since).value;
            LastProcessed(cfg, before, steps[..|steps| - 1], head.id) == AckTaken(cfg, before, steps, s, head.id)
  {
    hide Run, Inv, Initial, AckInv, LastProcessed, Decompose, NoWaiter, Drained, RunDisturbs, WaitsSound, SenderWaits;
    var w, d := Run(cfg, start, earlier).value, head.id.dept;
    ReachableIsSound(cfg, start, earlier);
    DrainedIsInOrder(cfg, w, d);
    RunKeepsInv(cfg, w, since);
    RunKeepsAckInv(cfg, w, since, d);
    AckSinceStart(cfg, Run(cfg, w, since).value, steps[..|steps| - 1], d);
  }
}
