/** Choosing the servers a message goes to. */
module Receivers {
  import opened Text
  import opened ServerStatus

  datatype Mode = Normal | Routing | Broadcast | RBroadcast

  /** The mode bits of a C2C type; whatever is not defined is taken for Normal. */
  function ModeOf(c2ctype: nat): Mode {
    match c2ctype % 8
    case 2 => Routing
    case 3 => Broadcast
    case 4 => RBroadcast
    case _ => Normal
  }

  /** The flag that excepts the sender itself. */
  predicate NotSelf(c2ctype: nat) {
    c2ctype / 0x10 % 2 == 1
  }

  /** What the ring knows, at one moment, for one hash value. */
  datatype Ring = Ring(
    self: int,
    isRandom: bool,                 // random delivery, not by hash
    random: Option<int>,            // the server a random choice falls on
    main: Option<int>,              // the server of the hash
    replicas: nat,
    byHash: Option<seq<int>>,       // the servers of the hash and its replicas
    all: seq<int>,                  // all servers
    status: int -> Status)

  // ---------------------------------------------------------------------
  // Which servers are in question

  predicate Excepted(ring: Ring, notSelf: bool, id: int) {
    notSelf && id == ring.self
  }

  /** A server the broadcasts keep. */
  predicate Keeps(ring: Ring, notSelf: bool, id: int) {
    var s := ring.status(id);
    !Excepted(ring, notSelf, id) && !((IsNoAct(s) && !IsNothing(s)) || IsAdd(s))
  }

  /** A server routing takes. */
  predicate Takes(ring: Ring, notSelf: bool, id: int) {
    var s := ring.status(id);
    !Excepted(ring, notSelf, id) && ((IsNoAct(s) && IsNothing(s)) || IsDelete(s))
  }

  /** The list without the servers the broadcasts do not keep, in its order. */
  function Kept(ring: Ring, notSelf: bool, ids: seq<int>): seq<int> {
    if ids == [] then []
    else if Keeps(ring, notSelf, ids[0]) then [ids[0]] + Kept(ring, notSelf, ids[1..])
    else Kept(ring, notSelf, ids[1..])
  }

  function FirstTaken(ring: Ring, notSelf: bool, ids: seq<int>): Option<int> {
    if ids == [] then None
    else if Takes(ring, notSelf, ids[0]) then Some(ids[0])
    else FirstTaken(ring, notSelf, ids[1..])
  }

  function OneOrNone(id: Option<int>): Option<seq<int>> {
    if id.Some? then Some([id.value]) else None
  }

  function MainServer(ring: Ring): Option<int> {
    if ring.main.Some? && IsServicing(ring.status(ring.main.value)) && !IsSuspend(ring.status(ring.main.value))
    then ring.main
    else None
  }

  /** The receivers; None when they cannot be got. */
  function Receivers(ring: Ring, c2ctype: nat): Option<seq<int>> {
    var notSelf := NotSelf(c2ctype);
    match ModeOf(c2ctype)
    case Routing =>
      if ring.isRandom then OneOrNone(ring.random)
      else if ring.byHash == None then None
      else OneOrNone(FirstTaken(ring, notSelf, ring.byHash.value))
    case Broadcast => if ring.all == [] then None else Some(Kept(ring, notSelf, ring.all))
    case RBroadcast => if ring.byHash == None then None else Some(Kept(ring, notSelf, ring.byHash.value))
    case Normal =>
      if ring.isRandom then OneOrNone(ring.random)
      else if MainServer(ring).Some? then OneOrNone(MainServer(ring))
      else if ring.replicas == 0 || ring.byHash == None then None
      else OneOrNone(FirstTaken(ring, notSelf, ring.byHash.value))
  }

  // ---------------------------------------------------------------------
  // The operation

  /** Erases from a list, while going through it, what the broadcasts do not keep. */
  method EraseUnkept(ring: Ring, notSelf: bool, ids: seq<int>) returns (list: seq<int>)
    ensures list == Kept(ring, notSelf, ids)
  {
    hide Keeps;
    list := ids;
    var i := 0;
    while i < |list|
      invariant 0 <= i <= |list|
      invariant list[..i] + Kept(ring, notSelf, list[i..]) == Kept(ring, notSelf, ids)
      decreases |list| - i
    {
      assert list[i..] == [list[i]] + list[i + 1..];
      if !Keeps(ring, notSelf, list[i]) {
        assert (list[..i] + list[i + 1..])[i..] == list[i + 1..];
        list := list[..i] + list[i + 1..];
      } else {
        assert list[..i + 1] == list[..i] + [list[i]];
        i := i + 1;
      }
    }
  }

  method FindTaken(ring: Ring, notSelf: bool, ids: seq<int>) returns (r: Option<int>)
    ensures r == FirstTaken(ring, notSelf, ids)
  {
    hide Takes;
    var i := 0;
    while i < |ids|
      invariant 0 <= i <= |ids| && FirstTaken(ring, notSelf, ids) == FirstTaken(ring, notSelf, ids[i..])
    {
      if Takes(ring, notSelf, ids[i]) {
        return Some(ids[i]);
      }
      i := i + 1;
    }
    r := None;
  }

  /** The number of receivers, or -1. */
  method GetReceiverChmpxids(ring: Ring, c2ctype: nat) returns (count: int, chmpxids: seq<int>)
    ensures match Receivers(ring, c2ctype)
            case None => count == -1
            case Some(ids) => count == |ids| && chmpxids == ids
  {
    hide Kept, FirstTaken, IsServicing;
    chmpxids := [];
    var notSelf := NotSelf(c2ctype);
    match ModeOf(c2ctype)
    case Routing =>
      if ring.isRandom {
        if ring.random == None {
          return -1, chmpxids;
        }
        chmpxids := chmpxids + [ring.random.value];
      } else {
        if ring.byHash == None {
          return -1, chmpxids;
        }
        var found := FindTaken(ring, notSelf, ring.byHash.value);
        if found == None {
          return -1, chmpxids;
        }
        chmpxids := chmpxids + [found.value];
      }
      count := |chmpxids|;
    case Broadcast =>
      chmpxids := ring.all;
      if |ring.all| == 0 {
        return -1, chmpxids;
      }
      chmpxids := EraseUnkept(ring, notSelf, chmpxids);
      count := |chmpxids|;
    case RBroadcast =>
      if ring.byHash == None {
        return -1, chmpxids;
      }
      chmpxids := EraseUnkept(ring, notSelf, ring.byHash.value);
      count := |chmpxids|;
    case Normal =>
      var id := None;
      if ring.isRandom {
        id := ring.random;
        if id == None {
          return -1, chmpxids;
        }
      } else {
        id := ring.main;
        if id != None {
          var status := ring.status(id.value);
          if !IsServicing(status) || IsSuspend(status) {
            id := None;
          }
        }
        if id == None && 0 < ring.replicas {
          if ring.byHash == None {
            return -1, chmpxids;
          }
          id := FindTaken(ring, notSelf, ring.byHash.value);
        }
      }
      if id == None {
        return -1, chmpxids;
      }
      chmpxids := chmpxids + [id.value];
      count := |chmpxids|;
  }

  // ---------------------------------------------------------------------
  // Across the modes

  /** Routing takes nothing the broadcasts do not keep, and the two differ on just the
      servers whose action is undefined. */
  lemma TakenIsKept(ring: Ring, notSelf: bool, id: int)
    ensures Takes(ring, notSelf, id) <==> Keeps(ring, notSelf, id) && HasAction(ring.status(id))
  {
  }

  lemma {:induction false} FirstTakenIsFirstKept(ring: Ring, notSelf: bool, ids: seq<int>)
    ensures var kept := Kept(ring, notSelf, ids);
            FirstTaken(ring, notSelf, ids) == (if kept == [] then None else Some(kept[0]))
            <==> (kept != [] ==> HasAction(ring.status(kept[0])))
  {
    hide Keeps, Takes, HasAction;
    if ids != [] {
      TakenIsKept(ring, notSelf, ids[0]);
      if Keeps(ring, notSelf, ids[0]) {
        assert Kept(ring, notSelf, ids)[0] == ids[0];
        if !HasAction(ring.status(ids[0])) {
          TakenHasAction(ring, notSelf, ids[1..]);
        }
      } else {
        FirstTakenIsFirstKept(ring, notSelf, ids[1..]);
      }
    }
  }

  lemma {:induction false} TakenHasAction(ring: Ring, notSelf: bool, ids: seq<int>)
    ensures FirstTaken(ring, notSelf, ids).Some? ==> HasAction(ring.status(FirstTaken(ring, notSelf, ids).value))
  {
    hide Keeps, HasAction;
    if ids != [] {
      TakenIsKept(ring, notSelf, ids[0]);
      TakenHasAction(ring, notSelf, ids[1..]);
    }
  }

  /** By hash, routing goes to the first of the servers a broadcast to the route goes
      to, and fails if there is none, exactly as long as the action of that first
      server is a defined one. */
  lemma RoutingIsFirstOfBroadcast(ring: Ring, routing: nat, broadcast: nat)
    requires ModeOf(routing) == Routing && ModeOf(broadcast) == RBroadcast && NotSelf(routing) == NotSelf(broadcast)
    requires !ring.isRandom
    ensures var one, many := Receivers(ring, routing), Receivers(ring, broadcast);
            (if many.None? || many.value == [] then one == None else one == Some([many.value[0]]))
            <==> (many.Some? && many.value != [] ==> HasAction(ring.status(many.value[0])))
  {
    hide Kept, FirstTaken, HasAction, ModeOf;
    if ring.byHash.Some? {
      FirstTakenIsFirstKept(ring, NotSelf(routing), ring.byHash.value);
    }
  }

  /** The broadcasts keep, in order and as often, just what is to be kept. */
  lemma {:induction false} KeptIsExact(ring: Ring, notSelf: bool, ids: seq<int>, id: int)
    ensures multiset(Kept(ring, notSelf, ids))[id] == if Keeps(ring, notSelf, id) then multiset(ids)[id] else 0
  {
    hide Keeps;
    if ids != [] {
      KeptIsExact(ring, notSelf, ids[1..], id);
      assert ids == [ids[0]] + ids[1..];
    }
  }

  /** Excepting the sender takes it from the list, and nothing else. */
  lemma {:induction false} NotSelfDropsSelf(ring: Ring, ids: seq<int>)
    ensures Kept(ring, true, ids) == WithoutSelf(ring, Kept(ring, false, ids))
  {
    if ids != [] {
      NotSelfDropsSelf(ring, ids[1..]);
      var kept := Kept(ring, false, ids);
      if Keeps(ring, false, ids[0]) {
        assert kept[0] == ids[0] && kept[1..] == Kept(ring, false, ids[1..]);
      }
    }
  }

  function WithoutSelf(ring: Ring, ids: seq<int>): seq<int> {
    if ids == [] then []
    else if ids[0] == ring.self then WithoutSelf(ring, ids[1..])
    else [ids[0]] + WithoutSelf(ring, ids[1..])
  }

  /** Though the sender is excepted, it is among the receivers exactly when the choice
      was random and fell on it, or the mode is Normal and it is the server of the hash
      and in service: there the flag is not looked at. */
  lemma SelfIsReceiverWhen(ring: Ring, c2ctype: nat)
    requires NotSelf(c2ctype)
    ensures Receivers(ring, c2ctype).Some? && ring.self in Receivers(ring, c2ctype).value
       <==> (match ModeOf(c2ctype)
             case Routing => ring.isRandom && ring.random == Some(ring.self)
             case Normal => if ring.isRandom then ring.random == Some(ring.self)
                            else ring.main == Some(ring.self) && Serves(ring.status(ring.self))
             case _ => false)
  {
    hide Kept, FirstTaken, ModeOf, IsServicing, IsSuspend, Serves;
    ServesMeans(ring.status(ring.self));
    SelfIsNotKept(ring, ring.all);
    if ring.byHash.Some? {
      SelfIsNotKept(ring, ring.byHash.value);
    }
  }

  lemma {:induction false} SelfIsNotKept(ring: Ring, ids: seq<int>)
    ensures ring.self !in Kept(ring, true, ids) && FirstTaken(ring, true, ids) != Some(ring.self)
  {
    if ids != [] {
      SelfIsNotKept(ring, ids[1..]);
    }
  }
}
