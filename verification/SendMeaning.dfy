/** Which packets are sent, waited for and acknowledged, said field by field. */
module SendMeaning {
  import opened Text
  import opened Words
  import opened MessageId
  import opened Transfer
  import opened StepEffects
  import opened Acknowledgement
  import opened EventMq

  /** The queue takes the word at attempt `k`, and was full at all earlier ones. */
  predicate TakenAt(posts: nat -> PostResult, k: nat, n: nat) {
    k < n && posts(k) == Sent && forall j: nat :: j < k ==> posts(j) == Full
  }

  /** Posting succeeds exactly if one of the allowed attempts does, and the queue was full
      at all attempts before it. */
  lemma {:induction false} GetsThroughMeans(posts: nat -> PostResult, k: nat, n: nat)
    requires forall j: nat :: j < k ==> posts(j) == Full
    ensures GetsThrough(posts, k, n) <==> exists i: nat :: k <= i && TakenAt(posts, i, n)
    decreases n - k
  {
    if k < n {
      if posts(k) == Sent {
        assert TakenAt(posts, k, n);
      } else if posts(k) == Full {
        GetsThroughMeans(posts, k + 1, n);
      }
    }
  }

  /** What a packet must be like. */
  predicate IsPacket(cfg: Config, head: Head, body: Bytes) {
    && head.offset == cfg.headSize && !head.ctype.OTHER?
    && (head.ctype == C2C ==> head.length == cfg.headSize)
    && (head.ctype != C2C ==> cfg.headSize <= head.length && body == [])
    && head.id.dept != TWO_64 - 1 && head.id.term != TWO_64 - 1
  }

  /** A message is posted exactly if it is a packet between valid ids, its entries can be
      stored, the queue opens and takes the word at one of the allowed attempts. */
  lemma PostsMeans(cfg: Config, head: Head, body: Bytes, outside: Outside)
    ensures WillPost(cfg, head, body, outside) <==>
              && IsPacket(cfg, head, body) && outside.setsHead && (body == [] || outside.setsBody) && outside.opens
              && exists k: nat :: TakenAt(outside.posts, k, cfg.retries)
  {
    hide GetsThrough, TakenAt;
    GetsThroughMeans(outside.posts, 0, cfg.retries);
  }

  /** Every packet that is like this is posted, for each kind there is. */
  lemma PostedWhenAllIsWell(cfg: Config, id: Id, rest: Bytes, body: Bytes, more: nat, outside: Outside)
    requires id.dept != INVALID_MSGID && id.term != INVALID_MSGID && 0 < cfg.retries
    requires outside.setsHead && outside.setsBody && outside.opens && outside.posts(0) == Sent
    ensures WillPost(cfg, Head(C2C, id, cfg.headSize, cfg.headSize, rest), body, outside)
    ensures WillPost(cfg, Head(C2PX, id, cfg.headSize + more, cfg.headSize, rest), [], outside)
    ensures WillPost(cfg, Head(PX2C, id, cfg.headSize + more, cfg.headSize, rest), [], outside)
    ensures !WillPost(cfg, Head(OTHER, id, cfg.headSize + more, cfg.headSize, rest), body, outside)
  {
    assert TakenAt(outside.posts, 0, cfg.retries);
    hide WillPost;
    PostsMeans(cfg, Head(C2C, id, cfg.headSize, cfg.headSize, rest), body, outside);
    PostsMeans(cfg, Head(C2PX, id, cfg.headSize + more, cfg.headSize, rest), [], outside);
    PostsMeans(cfg, Head(PX2C, id, cfg.headSize + more, cfg.headSize, rest), [], outside);
    PostsMeans(cfg, Head(OTHER, id, cfg.headSize + more, cfg.headSize, rest), body, outside);
  }

  /** Nothing but the entries of the message is added to the store. */
  lemma StoredMeans(store: map<Key, Value>, head: Head, body: Bytes, k: Key)
    ensures var store' := Stored(store, head, body);
            if k == HeadKey(head.id) then k in store' && store'[k] == HeadValue(head)
            else if k == BodyKey(head.id) && body != [] then k in store' && store'[k] == BodyValue(body)
            else (k in store' <==> k in store) && (k in store ==> store'[k] == store[k])
  {
  }

  /** Posting puts the word of the message at the end of the receiver's queue; the send goes
      on waiting exactly if a client has sent C2C and acknowledgements are in use. */
  lemma PostedMeans(cfg: Config, w: World, s: nat, issue: nat, head: Head, body: Bytes)
    requires s !in w.sends && Addressable(cfg.base, head.id.dept) && head.id.serial <= MAX_SERIAL
    ensures var w' := WithMessage(cfg, w, s, issue, head, body);
            && w'.store == Stored(w.store, head, body)
            && WordsOn(w'.queues, head.id.term)
               == WordsOn(w.queues, head.id.term) + [head.id.serial * TWO_32 + (head.id.dept - cfg.base) % TWO_64]
            && (s in w'.sends <==> head.ctype == C2C && cfg.useAck && head.id.dept !in cfg.chmpxQueues)
            && w'.queues - {head.id.term} == w.queues - {head.id.term}
            && w'.sends - {s} == w.sends - {s}
  {
    hide Compose, Stored, Clashes;
    WordIs(cfg.base, Composed(head.id.dept, head.id.serial, false, false));
  }

  /** A message that has been processed is acknowledged exactly if it was C2C, to a chmpx
      process, and acknowledgements are in use: with bit 63 set after success, and bits 63
      and 62 after failure. */
  lemma AnswerMeans(cfg: Config, w: World, r: nat, processes: bool)
    requires r in w.recvs && RecvId(w.recvs[r]) in w.flight
    requires Addressable(cfg.base, RecvId(w.recvs[r]).dept) && RecvId(w.recvs[r]).serial <= MAX_SERIAL
    ensures var id, queue, head := RecvId(w.recvs[r]), w.recvs[r].queue, w.flight[RecvId(w.recvs[r])].head;
            var w' := Received(cfg, w, r, processes, true);
            WordsOn(w'.queues, id.dept)
            == WordsOn(w.queues, id.dept)
               + if head.ctype == C2C && cfg.useAck && queue in cfg.chmpxQueues then
                   [id.serial * TWO_32 + (id.dept - cfg.base) % TWO_64
                    + 0x8000_0000_0000_0000 + if processes then 0 else 0x4000_0000_0000_0000]
                 else []
  {
    hide Compose, Judged, Answered, WithoutMessage;
    var id := RecvId(w.recvs[r]);
    WordIs(cfg.base, Composed(id.dept, id.serial, true, processes));
  }
}
