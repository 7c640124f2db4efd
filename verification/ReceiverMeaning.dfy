/** Which servers a message goes to, said of the bits of type and statuses. */
module ReceiverMeaning {
  import opened Text
  import opened ServerStatus
  import opened Receivers

  // ---------------------------------------------------------------------
  // Bits

  /** The flag to except the sender is set, and this is the sender. */
  predicate IsExceptedSelf(ring: Ring, c2ctype: nat, id: int) {
    c2ctype / 0x10 % 2 == 1 && id == ring.self
  }

  /** No action and nothing being done, or an action of deletion. */
  predicate MayTake(ring: Ring, c2ctype: nat, id: int) {
    var action, operate := ring.status(id) / 0x100 % 4, ring.status(id) / 0x1000 % 4;
    !IsExceptedSelf(ring, c2ctype, id) && ((action == 0 && operate == 0) || action == 2)
  }

  /** All but what is being added, or has something done to it without an action. */
  predicate MayKeep(ring: Ring, c2ctype: nat, id: int) {
    var action, operate := ring.status(id) / 0x100 % 4, ring.status(id) / 0x1000 % 4;
    !IsExceptedSelf(ring, c2ctype, id) && action != 1 && (action == 0 ==> operate == 0)
  }

  lemma TakesMeans(ring: Ring, c2ctype: nat, id: int)
    ensures Takes(ring, NotSelf(c2ctype), id) <==> MayTake(ring, c2ctype, id)
    ensures Keeps(ring, NotSelf(c2ctype), id) <==> MayKeep(ring, c2ctype, id)
  {
  }

  // ---------------------------------------------------------------------
  // One of a list

  /** The first of the list that may take the message. */
  predicate IsFirst(ring: Ring, c2ctype: nat, ids: seq<int>, k: nat) {
    k < |ids| && MayTake(ring, c2ctype, ids[k]) && forall j :: 0 <= j < k ==> !MayTake(ring, c2ctype, ids[j])
  }

  /** It is the receiver, and there is none exactly if no server may take the message. */
  ghost predicate GoesToFirst(ring: Ring, c2ctype: nat, ids: seq<int>, r: Option<seq<int>>) {
    && (r == None <==> forall k :: 0 <= k < |ids| ==> !MayTake(ring, c2ctype, ids[k]))
    && (r.Some? ==> exists k: nat :: IsFirst(ring, c2ctype, ids, k) && r == Some([ids[k]]))
  }

  lemma {:induction false} FirstIsTaken(ring: Ring, c2ctype: nat, ids: seq<int>)
    ensures GoesToFirst(ring, c2ctype, ids, OneOrNone(FirstTaken(ring, NotSelf(c2ctype), ids)))
    decreases |ids|
  {
    hide Takes, NotSelf, MayTake;
    var r := OneOrNone(FirstTaken(ring, NotSelf(c2ctype), ids));
    if ids != [] {
      TakesMeans(ring, c2ctype, ids[0]);
      if MayTake(ring, c2ctype, ids[0]) {
        assert IsFirst(ring, c2ctype, ids, 0);
      } else {
        var later := ids[1..];
        FirstIsTaken(ring, c2ctype, later);
        forall k | 0 < k < |ids| ensures ids[k] == later[k - 1] {}
        if r.Some? {
          var k: nat :| IsFirst(ring, c2ctype, later, k) && r == Some([later[k]]);
          assert IsFirst(ring, c2ctype, ids, k + 1);
        }
      }
    }
  }

  // ---------------------------------------------------------------------
  // The modes

  /** By random choice, in the two modes with one receiver. */
  lemma RandomMeans(ring: Ring, c2ctype: nat)
    requires ring.isRandom && c2ctype % 8 != 3 && c2ctype % 8 != 4
    ensures Receivers.Receivers(ring, c2ctype) == if ring.random == None then None else Some([ring.random.value])
  {
  }

  /** In the normal mode by hash the main server is the receiver exactly if it serves.
      Otherwise, with replicas, it is the first server of the hash that may take the message. */
  lemma NormalMeans(ring: Ring, c2ctype: nat)
    requires !ring.isRandom && c2ctype % 8 != 2 && c2ctype % 8 != 3 && c2ctype % 8 != 4
    ensures var r := Receivers.Receivers(ring, c2ctype);
            if ring.main.Some? && Serves(ring.status(ring.main.value)) then r == Some([ring.main.value])
            else if ring.replicas == 0 || ring.byHash == None then r == None
            else GoesToFirst(ring, c2ctype, ring.byHash.value, r)
  {
    hide IsServicing, IsSuspend, Serves, GoesToFirst, FirstTaken;
    if ring.main.Some? {
      ServesMeans(ring.status(ring.main.value));
    }
    if ring.byHash.Some? {
      FirstIsTaken(ring, c2ctype, ring.byHash.value);
    }
  }

  /** Routing by hash goes to the first server of the hash that may take the message. */
  lemma RoutingMeans(ring: Ring, c2ctype: nat)
    requires !ring.isRandom && c2ctype % 8 == 2
    ensures if ring.byHash == None then Receivers.Receivers(ring, c2ctype) == None
            else GoesToFirst(ring, c2ctype, ring.byHash.value, Receivers.Receivers(ring, c2ctype))
  {
    hide GoesToFirst, FirstTaken;
    if ring.byHash.Some? {
      FirstIsTaken(ring, c2ctype, ring.byHash.value);
    }
  }

  /** How many of the first `n` of a list may be kept. */
  function KeptOf(ring: Ring, c2ctype: nat, ids: seq<int>, n: nat): nat
    requires n <= |ids|
  {
    if n == 0 then 0
    else KeptOf(ring, c2ctype, ids, n - 1) + if MayKeep(ring, c2ctype, ids[n - 1]) then 1 else 0
  }

  /** `r` is what may be kept of the list: each server comes after as many as may be kept before it. */
  ghost predicate IsKept(ring: Ring, c2ctype: nat, ids: seq<int>, r: seq<int>) {
    && |r| == KeptOf(ring, c2ctype, ids, |ids|)
    && forall k :: 0 <= k < |ids| && MayKeep(ring, c2ctype, ids[k]) ==>
         var place := KeptOf(ring, c2ctype, ids, k);
         place < |r| && r[place] == ids[k]
  }

  lemma {:induction false} KeptAtEnd(ring: Ring, notSelf: bool, ids: seq<int>, id: int)
    ensures Kept(ring, notSelf, ids + [id]) == Kept(ring, notSelf, ids) + if Keeps(ring, notSelf, id) then [id] else []
    decreases |ids|
  {
    hide Keeps;
    if ids == [] {
      assert [] + [id] == [id];
    } else {
      KeptAtEnd(ring, notSelf, ids[1..], id);
      assert (ids + [id])[1..] == ids[1..] + [id];
    }
  }

  lemma {:induction false} KeptInOrder(ring: Ring, c2ctype: nat, ids: seq<int>, n: nat)
    requires n <= |ids|
    ensures |Kept(ring, NotSelf(c2ctype), ids[..n])| == KeptOf(ring, c2ctype, ids, n)
    ensures forall k :: 0 <= k < n && MayKeep(ring, c2ctype, ids[k]) ==>
              var place := KeptOf(ring, c2ctype, ids, k);
              place < KeptOf(ring, c2ctype, ids, n) && Kept(ring, NotSelf(c2ctype), ids[..n])[place] == ids[k]
  {
    hide Keeps, NotSelf, MayKeep;
    if n > 0 {
      KeptInOrder(ring, c2ctype, ids, n - 1);
      TakesMeans(ring, c2ctype, ids[n - 1]);
      assert ids[..n] == ids[..n - 1] + [ids[n - 1]];
      KeptAtEnd(ring, NotSelf(c2ctype), ids[..n - 1], ids[n - 1]);
    }
  }

  /** The broadcasts go to all servers of theirs that may be kept, in their order. */
  lemma BroadcastMeans(ring: Ring, c2ctype: nat)
    requires c2ctype % 8 == 3 || c2ctype % 8 == 4
    ensures var ids := if c2ctype % 8 == 4 then ring.byHash else if ring.all == [] then None else Some(ring.all);
            var r := Receivers.Receivers(ring, c2ctype);
            if ids == None then r == None else r.Some? && IsKept(ring, c2ctype, ids.value, r.value)
  {
    hide Kept, KeptOf, MayKeep;
    if c2ctype % 8 == 3 {
      KeptInOrder(ring, c2ctype, ring.all, |ring.all|);
      assert ring.all[..|ring.all|] == ring.all;
    } else if ring.byHash.Some? {
      var ids := ring.byHash.value;
      KeptInOrder(ring, c2ctype, ids, |ids|);
      assert ids[..|ids|] == ids;
    }
  }
}
