/** The queues a client receives on: which are open, under which ids, and which of
    them are held in reserve. */
module MqPool {
  import opened Text
  import opened Words
  import opened MessageId

  type IdMap = map<U64, int>

  type FdMap = map<int, U64>

  // ---------------------------------------------------------------------
  // Counts

  /** Division and remainder as in C, towards zero. */
  function CDiv(a: int, b: int): int
    requires 0 < b
  {
    if 0 <= a then a / b else -(-a / b)
  }

  function CMod(a: int, b: int): int
    requires 0 < b
  {
    a - CDiv(a, b) * b
  }

  /** How many queues the attach size lets remain. */
  function LeftCount(activated: int, perAttach: int): int
    requires 0 < perAttach
  {
    CDiv(activated, perAttach) * perAttach + if CMod(activated, perAttach) == 0 then 0 else 1
  }

  /** How many reserve queues are to be closed. */
  function CloseCount(received: nat, reserved: nat, perAttach: int): int {
    var k := if perAttach <= 0 then 1 else perAttach;
    var close := received - LeftCount(received - reserved, k);
    if reserved < close then reserved else close
  }

  lemma QuotientBelow(a: nat, b: nat)
    requires 0 < b
    ensures a / b * b <= a && (a - a / b * b == 0 || a / b * b + 1 <= a)
  {
  }

  /** No more queues may remain than are activated, so the whole reserve is closed:
      always, when the reserve is part of the queues; and beyond that exactly when the
      difference is a multiple of the attach size. */
  lemma WholeReserveIsClosed(received: nat, reserved: nat, perAttach: int)
    ensures CloseCount(received, reserved, perAttach) == reserved
       <==> reserved <= received || CMod(received - reserved, if perAttach <= 0 then 1 else perAttach) == 0
  {
    var k := if perAttach <= 0 then 1 else perAttach;
    var a := received - reserved;
    if 0 <= a {
      QuotientBelow(a, k);
    } else {
      QuotientBelow(-a, k);
      assert CDiv(a, k) * k == -(-a / k * k);
    }
  }

  /** How many are closed, without the division of C: all of the reserve, or, when it is larger
      than the queues are, what the attach size leaves of it. */
  lemma CloseCountIs(received: nat, reserved: nat, perAttach: int)
    ensures var k := if perAttach <= 0 then 1 else perAttach;
            var beyond := if reserved <= received then 0 else (reserved - received) % k;
            CloseCount(received, reserved, perAttach) == if beyond == 0 then reserved else reserved - beyond - 1
  {
    var k := if perAttach <= 0 then 1 else perAttach;
    var a := received - reserved;
    if 0 <= a {
      QuotientBelow(a, k);
    } else {
      QuotientBelow(-a, k);
      assert CDiv(a, k) * k == -(-a / k * k);
    }
  }

  // ---------------------------------------------------------------------
  // The maps

  /** The two receive maps are inverses of each other. */
  predicate Inverse(ids: IdMap, fds: FdMap) {
    && (forall id :: id in ids ==> ids[id] in fds && fds[ids[id]] == id)
    && (forall fd :: fd in fds ==> fds[fd] in ids && ids[fds[fd]] == fd)
  }

  /** The reserve is part of the queues. */
  predicate Reserved(reserve: IdMap, ids: IdMap) {
    forall id :: id in reserve ==> id in ids && reserve[id] == ids[id]
  }

  /** The maps without the queues of these descriptors. */
  function IdsWithout(ids: IdMap, closed: set<int>): IdMap {
    map id | id in ids && ids[id] !in closed :: ids[id]
  }

  function FdsWithout(fds: FdMap, closed: set<int>): FdMap {
    map fd | fd in fds && fd !in closed :: fds[fd]
  }

  lemma InverseWithout(ids: IdMap, fds: FdMap, closed: set<int>)
    requires Inverse(ids, fds)
    ensures Inverse(IdsWithout(ids, closed), FdsWithout(fds, closed))
  {
  }

  predicate IsSmallest(ids: set<U64>, id: U64) {
    id in ids && forall j :: j in ids ==> id <= j
  }

  lemma {:induction false} SmallestExists(ids: set<U64>)
    requires ids != {}
    ensures exists id :: IsSmallest(ids, id)
  {
    var x :| x in ids;
    var rest := ids - {x};
    assert ids == rest + {x};
    if rest == {} {
      assert IsSmallest(ids, x);
    } else {
      SmallestExists(rest);
      var y :| IsSmallest(rest, y);
      assert IsSmallest(ids, if x < y then x else y);
    }
  }

  lemma ReserveIsSmaller(reserve: IdMap, ids: IdMap)
    requires forall id :: id in reserve ==> id in ids
    ensures |reserve| <= |ids|
  {
    SubsetIsSmaller(reserve.Keys, ids.Keys);
  }

  lemma SubsetIsSmaller<T>(x: set<T>, y: set<T>)
    requires x <= y
    ensures |x| <= |y|
  {
    assert y == x + (y - x);
  }

  // ---------------------------------------------------------------------
  // The object

  /** The part of ChmEventMq that keeps its receive queues. */
  class QueuePool {
    var recvIds: IdMap         // the queues by id
    var recvFds: FdMap         // and by descriptor
    var reserve: IdMap         // those not activated
    const perAttach: int       // how many are opened at a time
    const onSlave: bool        // whether this is a client on a slave

    ghost predicate Valid()
      reads this
    {
      Inverse(recvIds, recvFds) && Reserved(reserve, recvIds)
    }

    constructor (perAttach: int, onSlave: bool)
      ensures Valid() && recvIds == map[] && reserve == map[]
      ensures this.perAttach == perAttach && this.onSlave == onSlave
    {
      recvIds, recvFds, reserve := map[], map[], map[];
      this.perAttach, this.onSlave := perAttach, onSlave;
    }

    /** Closes the queue of a descriptor, if there is one. */
    method EraseFd(fd: int)
      requires Inverse(recvIds, recvFds)
      modifies this`recvIds, this`recvFds
      ensures Inverse(recvIds, recvFds)
      ensures recvIds == IdsWithout(old(recvIds), {fd}) && recvFds == FdsWithout(old(recvFds), {fd})
    {
      InverseWithout(recvIds, recvFds, {fd});
      if fd in recvFds {
        var id := recvFds[fd];
        recvIds := map i | i in recvIds && i != id :: recvIds[i];
        recvFds := map f | f in recvFds && f != fd :: recvFds[f];
      }
      assert recvIds == IdsWithout(old(recvIds), {fd});
      assert recvFds == FdsWithout(old(recvFds), {fd});
    }

    /** Opens up to `perAttach` queues, one after the other, until one cannot be opened; a
        client on a slave puts them in reserve, where none is overwritten. Ids and
        descriptors that are handed out are not in use. */
    method SetEventQueue(more: seq<Option<(U64, int)>>) returns (ok: bool, ghost added: nat)
      requires Inverse(recvIds, recvFds) && AreNew(more, perAttach, recvIds, recvFds)
      modifies this`recvIds, this`recvFds, this`reserve
      ensures Inverse(recvIds, recvFds) && (old(Valid()) ==> Valid())
      ensures added <= |more| && forall i :: 0 <= i < added ==> more[i].Some?
      ensures if ok then added == (if perAttach < 0 then 0 else perAttach) else added < perAttach && more[added] == None
      ensures recvIds == Opened(old(recvIds), more, added) && recvFds == OpenedFds(old(recvFds), more, added)
      ensures reserve == if onSlave then PutBy(old(reserve), more, added) else old(reserve)
    {
      hide Inverse, Reserved;
      added := 0;
      var cnt := 0;
      while cnt < perAttach
        invariant cnt == added && (0 <= perAttach ==> cnt <= perAttach) && (perAttach < 0 ==> cnt == 0)
        invariant Inverse(recvIds, recvFds) && (old(Valid()) ==> Valid())
        invariant added <= |more| && forall i :: 0 <= i < added ==> more[i].Some?
        invariant recvIds == Opened(old(recvIds), more, added) && recvFds == OpenedFds(old(recvFds), more, added)
        invariant reserve == if onSlave then PutBy(old(reserve), more, added) else old(reserve)
        invariant forall i :: cnt <= i < |more| && more[i].Some? ==>
                    more[i].value.0 !in recvIds && more[i].value.1 !in recvFds
      {
        if more[cnt] == None {
          return false, added;
        }
        var (id, fd) := more[cnt].value;
        OneMoreOpened(recvIds, recvFds, reserve, id, fd);
        recvIds := recvIds[id := fd];
        recvFds := recvFds[fd := id];
        if onSlave && id !in reserve {
          reserve := reserve[id := fd];
        }
        cnt, added := cnt + 1, added + 1;
      }
      ok := true;
    }

    /** Takes the queue with the smallest id out of the reserve. */
    method TakeReserve(activates: bool) returns (msgid: Option<U64>)
      modifies this`reserve
      ensures Takes(old(reserve), activates, msgid, reserve)
    {
      if reserve == map[] {
        return None;
      }
      SmallestExists(reserve.Keys);
      var id :| id in reserve.Keys && IsSmallest(reserve.Keys, id);
      if id == INVALID_MSGID || !activates {
        return None;
      }
      reserve := Left(reserve, [id]);
      msgid := Some(id);
    }

    /** Activates a queue: one in reserve or, if there is none, one newly opened. `added` is how
        many were. */
    method ActivatedMsgId(more: seq<Option<(U64, int)>>, activates: bool)
      returns (msgid: Option<U64>, ghost added: nat)
      requires Inverse(recvIds, recvFds) && AreNew(more, perAttach, recvIds, recvFds)
      modifies this`recvIds, this`recvFds, this`reserve
      ensures Inverse(recvIds, recvFds) && (old(Valid()) ==> Valid())
      ensures msgid.Some? ==> onSlave && activates && msgid.value !in reserve
      ensures msgid.Some? && old(Valid()) ==>
                msgid.value in recvIds && (msgid.value in old(recvIds) ==> msgid.value in old(reserve))
      ensures !onSlave ==> msgid == None && reserve == old(reserve)
      ensures onSlave && old(reserve) != map[] ==> Takes(old(reserve), activates, msgid, reserve)
      ensures !onSlave || old(reserve) != map[] ==> added == 0
      ensures AllOpen(more, added) && recvIds == Opened(old(recvIds), more, added)
      ensures recvFds == OpenedFds(old(recvFds), more, added)
      ensures onSlave && old(reserve) == map[] ==>
                if perAttach <= added then Takes(PutBy(map[], more, added), activates, msgid, reserve)
                else more[added] == None && msgid == None && reserve == PutBy(map[], more, added)
      ensures forall id :: id in old(recvIds) ==> id in recvIds && recvIds[id] == old(recvIds)[id]
    {
      added := 0;
      if !onSlave {
        return None, added;
      }
      if |reserve| == 0 {
        ghost var ids, fds := recvIds, recvFds;
        var ok;
        ok, added := SetEventQueue(more);
        OpenedAdds(ids, fds, more, perAttach, added);
        if !ok || |reserve| == 0 {
          return None, added;
        }
      }
      msgid := TakeReserve(activates);
    }

    method CloseSmallest() returns (id: U64)
      requires Inverse(recvIds, recvFds) && reserve != map[]
      modifies this`recvIds, this`recvFds, this`reserve
      ensures Inverse(recvIds, recvFds) && IsSmallest(old(reserve).Keys, id)
      ensures reserve == Left(old(reserve), [id])
      ensures recvIds == IdsWithout(old(recvIds), {old(reserve)[id]})
      ensures recvFds == FdsWithout(old(recvFds), {old(reserve)[id]})
    {
      hide Inverse, IdsWithout, FdsWithout, Left;
      SmallestExists(reserve.Keys);
      id :| id in reserve.Keys && IsSmallest(reserve.Keys, id);
      EraseFd(reserve[id]);
      reserve := Left(reserve, [id]);
    }

    /** Closes reserve queues, those with the smallest ids first, and what their
        entries in the reserve name; tells which. Only a client on a slave has any. */
    method FreeReserveMsgIds() returns (freed: seq<U64>)
      requires Inverse(recvIds, recvFds)
      modifies this`recvIds, this`recvFds, this`reserve
      ensures Inverse(recvIds, recvFds)
      ensures |reserve| + |freed| == |old(reserve)| && forall id :: id in freed ==> id in old(reserve)
      ensures var n := CloseCount(|old(recvIds)|, |old(reserve)|, perAttach);
              |freed| == if !onSlave || n < 0 then 0 else n
      ensures reserve == Left(old(reserve), freed) && forall id, j :: id in freed && j in reserve ==> id < j
      ensures recvIds == IdsWithout(old(recvIds), DescriptorsOf(old(reserve), freed))
      ensures recvFds == FdsWithout(old(recvFds), DescriptorsOf(old(reserve), freed))
      ensures onSlave && Reserved(old(reserve), old(recvIds)) ==>
                reserve == map[] && forall id :: id in recvIds <==> id in old(recvIds) && id !in old(reserve)
    {
      hide Reserved, Inverse, IdsWithout, FdsWithout, Left, DescriptorsOf, CloseCount;
      freed := [];
      ghost var ids, fds, all := recvIds, recvFds, reserve;
      NothingClosed(ids, fds, all);
      if !onSlave {
        return;
      }
      CloseCountBelow(|recvIds|, |reserve|, perAttach);
      var toClose := CloseCount(|recvIds|, |reserve|, perAttach);
      ghost var n := if toClose < 0 then 0 else toClose;
      while reserve != map[] && 0 < toClose
        invariant Inverse(recvIds, recvFds)
        invariant |reserve| + |freed| == |all| && n <= |all|
        invariant (if toClose < 0 then 0 else toClose) + |freed| == n
        invariant reserve == Left(all, freed) && forall id :: id in freed ==> id in all
        invariant forall id, j :: id in freed && j in reserve ==> id < j
        invariant recvIds == IdsWithout(ids, DescriptorsOf(all, freed))
        invariant recvFds == FdsWithout(fds, DescriptorsOf(all, freed))
        decreases |reserve|
      {
        ghost var was := reserve;
        var id := CloseSmallest();
        OneMoreClosed(ids, fds, all, freed, id);
        LeftIsSmaller(was, id);
        freed := freed + [id];
        toClose := toClose - 1;
      }
      if Reserved(all, ids) {
        OnlyReserveIsClosed(ids, fds, all, freed, perAttach);
      }
    }

    /** Gives a queue back. The descriptor put into the reserve is not the queue's, but
        1 if there is such a queue and 0 if not: it is looked up by the wrong operation. */
    method DisactivatedMsgId(msgid: U64, disactivates: bool) returns (ok: bool, freed: seq<U64>)
      requires Inverse(recvIds, recvFds)
      modifies this`recvIds, this`recvFds, this`reserve
      ensures Inverse(recvIds, recvFds)
      ensures ok == (msgid != INVALID_MSGID && onSlave && disactivates)
      ensures !ok ==> freed == [] && recvIds == old(recvIds) && recvFds == old(recvFds) && reserve == old(reserve)
      ensures ok ==>
                var all := old(reserve)[msgid := if msgid in old(recvIds) then 1 else 0];
                var n := CloseCount(|old(recvIds)|, |all|, perAttach);
                && |freed| == (if n < 0 then 0 else n) && reserve == Left(all, freed)
                && (forall id :: id in freed ==> id in all) && (forall id, j :: id in freed && j in reserve ==> id < j)
                && recvIds == IdsWithout(old(recvIds), DescriptorsOf(all, freed))
                && recvFds == FdsWithout(old(recvFds), DescriptorsOf(all, freed))
                && (reserve == map[] <==>
                      |all| <= |old(recvIds)|
                      || CMod(|old(recvIds)| - |all|, if perAttach <= 0 then 1 else perAttach) == 0)
      ensures ok && old(Valid()) && msgid in old(recvIds) ==>
                && reserve == map[] && (forall id :: id in freed <==> id in old(reserve) || id == msgid)
                && (msgid in recvIds <==> old(recvIds)[msgid] != 1)
    {
      hide Inverse, IdsWithout, FdsWithout, DescriptorsOf, CloseCount, CMod;
      freed := [];
      if msgid == INVALID_MSGID || !onSlave || !disactivates {
        return false, freed;
      }
      var mqfd := if msgid in recvIds then 1 else 0;
      ghost var known := msgid in recvIds && Reserved(reserve, recvIds);
      reserve := reserve[msgid := mqfd];
      if known {
        ReserveIsSmaller(reserve, recvIds);
      }
      WholeReserveIsClosed(|recvIds|, |reserve|, perAttach);
      ghost var all := reserve;
      freed := FreeReserveMsgIds();
      assert |reserve| == 0 <==> reserve == map[];
      if known {
        AllLeft(all, freed);
        GivenBackStaysOpen(old(recvIds), old(recvFds), old(reserve), msgid, freed);
      }
      ok := true;
    }
  }

  // ---------------------------------------------------------------------
  // What closing leaves

  function Left(reserve: IdMap, freed: seq<U64>): (r: IdMap)
    ensures forall id :: id in r <==> id in reserve && id !in freed
    ensures forall id :: id in r ==> r[id] == reserve[id]
  {
    map id | id in reserve && id !in freed :: reserve[id]
  }

  /** What taking a queue out of a reserve gives, and what is left: the smallest id, unless there
      is none, it is the invalid one, or it cannot be activated. */
  ghost predicate Takes(reserve: IdMap, activates: bool, msgid: Option<U64>, left: IdMap) {
    match msgid
    case None => left == reserve && (reserve == map[] || !activates || IsSmallest(reserve.Keys, INVALID_MSGID))
    case Some(id) =>
      && activates && id != INVALID_MSGID && IsSmallest(reserve.Keys, id)
      && forall i :: (i in left <==> i in reserve && i != id) && (i in left ==> left[i] == reserve[i])
  }

  /** The descriptors the reserve has for these ids. */
  function DescriptorsOf(reserve: IdMap, freed: seq<U64>): set<int> {
    set id | id in freed && id in reserve :: reserve[id]
  }

  /** Queues newly opened: as many as are opened at a time, unless one fails. */
  predicate AreNew(more: seq<Option<(U64, int)>>, perAttach: int, ids: IdMap, fds: FdMap) {
    && perAttach <= |more|
    && (forall i :: 0 <= i < |more| && more[i].Some? ==> more[i].value.0 !in ids && more[i].value.1 !in fds)
    && (forall i, j :: 0 <= i < j < |more| && more[i].Some? && more[j].Some? ==>
          more[i].value.0 != more[j].value.0 && more[i].value.1 != more[j].value.1)
  }

  lemma OneMoreOpened(ids: IdMap, fds: FdMap, reserve: IdMap, id: U64, fd: int)
    requires Inverse(ids, fds) && id !in ids && fd !in fds
    ensures Inverse(ids[id := fd], fds[fd := id])
    ensures Reserved(reserve, ids) ==> Reserved(reserve, ids[id := fd]) && Reserved(reserve[id := fd], ids[id := fd])
  {
  }

  predicate AllOpen(more: seq<Option<(U64, int)>>, n: nat) {
    n <= |more| && forall i :: 0 <= i < n ==> more[i].Some?
  }

  /** The maps with the first `n` of the queues newly opened. */
  function Opened(ids: IdMap, more: seq<Option<(U64, int)>>, n: nat): IdMap
    requires AllOpen(more, n)
  {
    if n == 0 then ids else Opened(ids, more, n - 1)[more[n - 1].value.0 := more[n - 1].value.1]
  }

  function OpenedFds(fds: FdMap, more: seq<Option<(U64, int)>>, n: nat): FdMap
    requires AllOpen(more, n)
  {
    if n == 0 then fds else OpenedFds(fds, more, n - 1)[more[n - 1].value.1 := more[n - 1].value.0]
  }

  /** The reserve with them, but for ids it had. */
  function PutBy(reserve: IdMap, more: seq<Option<(U64, int)>>, n: nat): IdMap
    requires AllOpen(more, n)
  {
    if n == 0 then reserve
    else
      var before, id := PutBy(reserve, more, n - 1), more[n - 1].value.0;
      if id in before then before else before[id := more[n - 1].value.1]
  }

  predicate HasId(more: seq<Option<(U64, int)>>, n: nat, id: U64)
    requires AllOpen(more, n)
  {
    exists i :: 0 <= i < n && more[i].value.0 == id
  }

  predicate HasFd(more: seq<Option<(U64, int)>>, n: nat, fd: int)
    requires AllOpen(more, n)
  {
    exists i :: 0 <= i < n && more[i].value.1 == fd
  }

  /** An id is that of an open queue afterwards exactly if it was before, or is one of those
      opened, and a queue opened has its own descriptor. */
  lemma {:induction false} OpenedMeans(ids: IdMap, fds: FdMap, more: seq<Option<(U64, int)>>, perAttach: int, n: nat,
                                       id: U64)
    requires AreNew(more, perAttach, ids, fds) && AllOpen(more, n)
    ensures var ids', put := Opened(ids, more, n), PutBy(map[], more, n);
            && (id in ids' <==> id in ids || HasId(more, n, id)) && (id in ids ==> ids'[id] == ids[id])
            && (id in put <==> HasId(more, n, id))
            && forall i :: 0 <= i < n && more[i].value.0 == id ==> ids'[id] == put[id] == more[i].value.1
  {
    if n != 0 {
      OpenedMeans(ids, fds, more, perAttach, n - 1, id);
    }
  }

  /** And so with descriptors. */
  lemma {:induction false} OpenedFdsMean(ids: IdMap, fds: FdMap, more: seq<Option<(U64, int)>>, perAttach: int, n: nat,
                                         fd: int)
    requires AreNew(more, perAttach, ids, fds) && AllOpen(more, n)
    ensures var fds' := OpenedFds(fds, more, n);
            && (fd in fds' <==> fd in fds || HasFd(more, n, fd)) && (fd in fds ==> fds'[fd] == fds[fd])
            && forall i :: 0 <= i < n && more[i].value.1 == fd ==> fds'[fd] == more[i].value.0
  {
    if n != 0 {
      OpenedFdsMean(ids, fds, more, perAttach, n - 1, fd);
    }
  }

  /** Opening leaves all that was open and adds the queues opened. */
  lemma {:induction false} OpenedAdds(ids: IdMap, fds: FdMap, more: seq<Option<(U64, int)>>, perAttach: int, n: nat)
    requires AreNew(more, perAttach, ids, fds) && AllOpen(more, n)
    ensures forall id :: id in ids ==> id in Opened(ids, more, n) && Opened(ids, more, n)[id] == ids[id]
    ensures forall id :: id in Opened(ids, more, n) && id !in ids ==> id in PutBy(map[], more, n)
    ensures forall id :: id in PutBy(map[], more, n) ==> id !in ids
  {
    if n != 0 {
      OpenedAdds(ids, fds, more, perAttach, n - 1);
    }
  }

  lemma CloseCountBelow(received: nat, reserved: nat, perAttach: int)
    ensures CloseCount(received, reserved, perAttach) <= reserved
  {
  }

  lemma NothingClosed(ids: IdMap, fds: FdMap, reserve: IdMap)
    ensures Left(reserve, []) == reserve
    ensures IdsWithout(ids, DescriptorsOf(reserve, [])) == ids && FdsWithout(fds, DescriptorsOf(reserve, [])) == fds
  {
  }

  lemma OneMoreClosed(ids: IdMap, fds: FdMap, reserve: IdMap, freed: seq<U64>, id: U64)
    requires id in reserve
    ensures Left(Left(reserve, freed), [id]) == Left(reserve, freed + [id])
    ensures id in Left(reserve, freed) ==> Left(reserve, freed)[id] == reserve[id]
    ensures DescriptorsOf(reserve, freed + [id]) == DescriptorsOf(reserve, freed) + {reserve[id]}
    ensures IdsWithout(IdsWithout(ids, DescriptorsOf(reserve, freed)), {reserve[id]})
         == IdsWithout(ids, DescriptorsOf(reserve, freed + [id]))
    ensures FdsWithout(FdsWithout(fds, DescriptorsOf(reserve, freed)), {reserve[id]})
         == FdsWithout(fds, DescriptorsOf(reserve, freed + [id]))
  {
  }

  lemma LeftIsSmaller(reserve: IdMap, id: U64)
    requires id in reserve
    ensures |Left(reserve, [id])| + 1 == |reserve|
  {
    assert Left(reserve, [id]).Keys == reserve.Keys - {id};
  }

  lemma AllLeft(reserve: IdMap, freed: seq<U64>)
    requires |Left(reserve, freed)| == 0
    ensures Left(reserve, freed) == map[] && forall id :: id in reserve ==> id in freed
  {
    forall id | id in reserve ensures id in freed || id in Left(reserve, freed) {}
  }

  /** Of a reserve that is part of the queues nothing is left, and no other queue is closed. */
  lemma OnlyReserveIsClosed(ids: IdMap, fds: FdMap, reserve: IdMap, freed: seq<U64>, perAttach: int)
    requires Inverse(ids, fds) && Reserved(reserve, ids)
    requires |Left(reserve, freed)| + |freed| == |reserve| && (forall id :: id in freed ==> id in reserve)
    requires var n := CloseCount(|ids|, |reserve|, perAttach); |freed| == if n < 0 then 0 else n
    ensures Left(reserve, freed) == map[]
    ensures forall id :: id in IdsWithout(ids, DescriptorsOf(reserve, freed)) <==> id in ids && id !in reserve
  {
    hide CloseCount, Left;
    ReserveIsSmaller(reserve, ids);
    WholeReserveIsClosed(|ids|, |reserve|, perAttach);
    AllLeft(reserve, freed);
  }

  /** A queue given back is closed exactly when its descriptor happens to be 1; any
      other stays open, and is taken for activated from then on. */
  lemma GivenBackStaysOpen(ids: IdMap, fds: FdMap, reserve: IdMap, msgid: U64, freed: seq<U64>)
    requires Inverse(ids, fds) && Reserved(reserve, ids) && msgid in ids
    requires forall id :: id in freed <==> id in reserve || id == msgid
    ensures msgid in IdsWithout(ids, DescriptorsOf(reserve[msgid := 1], freed)) <==> ids[msgid] != 1
  {
    var closed := DescriptorsOf(reserve[msgid := 1], freed);
    assert 1 in closed by { assert msgid in freed && reserve[msgid := 1][msgid] == 1; }
  }
}
