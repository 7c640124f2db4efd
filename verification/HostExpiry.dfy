/** When the entries of the host cache expire: the time of an entry, over any additions. */
module HostExpiry {
  import opened Text
  import opened HostCache

  function TimeOf(cache: Cache, k: string): Option<nat> {
    if k in cache then Some(cache[k].cachedTime) else None
  }

  // ---------------------------------------------------------------------
  // Which entries an addition touches

  /** A host given addresses touches its own entry, and those of the addresses that it did
      not list yet, with and without zone index. */
  predicate HostTouches(cache: Cache, host: string, ips: seq<string>, k: string) {
    || k == host
    || exists p ::
         p in ips && Named(p) && p !in Ips(cache, host) && (k == p || (HasZone(p) && k == NoZone(p)))
  }

  /** An address given hosts touches its own entry, and those of the hosts it did not list yet. */
  predicate AddressTouches(cache: Cache, ipaddr: string, hosts: seq<string>, k: string) {
    k == ipaddr || (k in hosts && Named(k) && k !in Hosts(cache, ipaddr))
  }

  predicate Touches(cache: Cache, a: Addition, k: string) {
    match a
    case AddHost(host, ips, _, _) => HostTouches(cache, host, ips, k)
    case AddAddress(ipaddr, hosts, noexp, now) =>
      if HasZone(ipaddr) then
        || AddressTouches(cache, NoZone(ipaddr), hosts, k)
        || AddressTouches(Applied(cache, AddAddress(NoZone(ipaddr), hosts, noexp, now)), ipaddr, hosts, k)
      else AddressTouches(cache, ipaddr, hosts, k)
  }

  /** The additions that touch the entry of `k`, in their order. */
  function TouchedBy(cache: Cache, additions: seq<Addition>, k: string): seq<Addition>
    decreases |additions|
  {
    if additions == [] then []
    else
      (if Touches(cache, additions[0], k) then [additions[0]] else [])
      + TouchedBy(Applied(cache, additions[0]), additions[1..], k)
  }

  // ---------------------------------------------------------------------
  // One addition

  /** What touching makes of a time. */
  predicate Restamped(was: Option<nat>, time: Option<nat>, touched: bool, noexp: bool, now: nat) {
    time == if !touched then was else if noexp && (was == None || was == Some(0)) then Some(0) else Some(now)
  }

  lemma RestampedTwice(t0: Option<nat>, t1: Option<nat>, t2: Option<nat>, first: bool, second: bool, noexp: bool,
      now: nat)
    requires 0 < now && Restamped(t0, t1, first, noexp, now) && Restamped(t1, t2, second, noexp, now)
    ensures Restamped(t0, t2, first || second, noexp, now)
  {
  }

  lemma TouchRestamps(cache: Cache, target: string, adds: seq<string>, noexp: bool, isHost: bool, now: nat, k: string)
    ensures Restamped(TimeOf(cache, k), TimeOf(Touched(cache, target, adds, noexp, isHost, now), k), k
         == target, noexp, now)
  {
    hide AddAllUnique, AddUnique;
  }

  predicate AmongAddresses(ips: seq<string>, k: string) {
    exists p :: p in ips && (k == p || (HasZone(p) && k == NoZone(p)))
  }

  lemma {:induction false} AddressesRestamp(cache: Cache, host: string, ips: seq<string>, noexp: bool, now: nat,
      k: string)
    requires 0 < now
    ensures Restamped(TimeOf(cache, k), TimeOf(HostInAddresses(cache, host, ips, noexp, now), k),
                      AmongAddresses(ips, k), noexp, now)
    decreases |ips|
  {
    hide Touched, NoZone, HasZone, TimeOf;
    if ips != [] {
      var p, t0 := ips[0], TimeOf(cache, k);
      var one := Touched(cache, p, [host], noexp, false, now);
      var both := if HasZone(p) then Touched(one, NoZone(p), [host], noexp, false, now) else one;
      var mine := k == p || (HasZone(p) && k == NoZone(p));
      TouchRestamps(cache, p, [host], noexp, false, now, k);
      TouchRestamps(one, NoZone(p), [host], noexp, false, now, k);
      if HasZone(p) {
        RestampedTwice(t0, TimeOf(one, k), TimeOf(both, k), k == p, k == NoZone(p), noexp, now);
      }
      AddressesRestamp(both, host, ips[1..], noexp, now, k);
      RestampedTwice(t0, TimeOf(both, k), TimeOf(HostInAddresses(cache, host, ips, noexp, now), k), mine,
                     AmongAddresses(ips[1..], k), noexp, now);
      AmongOneMore(ips, k);
    }
  }

  lemma AmongOneMore(ips: seq<string>, k: string)
    requires ips != []
    ensures var p := ips[0];
            AmongAddresses(ips, k) <==> k == p || (HasZone(p) && k == NoZone(p)) || AmongAddresses(ips[1..], k)
  {
    hide NoZone, HasZone;
    var p := ips[0];
    assert p in ips;
    if q :| q in ips && (k == q || (HasZone(q) && k == NoZone(q))) {
      assert q == p || q in ips[1..];
    }
    if q :| q in ips[1..] && (k == q || (HasZone(q) && k == NoZone(q))) {
      assert q in ips;
    }
  }

  lemma {:induction false} HostsRestamp(cache: Cache, ipaddr: string, hosts: seq<string>, noexp: bool, now: nat,
      k: string)
    requires 0 < now
    ensures Restamped(TimeOf(cache, k), TimeOf(AddressInHosts(cache, ipaddr, hosts, noexp, now), k), k in hosts,
         noexp, now)
    decreases |hosts|
  {
    hide Touched, TimeOf;
    if hosts != [] {
      var one := Touched(cache, hosts[0], [ipaddr], noexp, true, now);
      TouchRestamps(cache, hosts[0], [ipaddr], noexp, true, now, k);
      HostsRestamp(one, ipaddr, hosts[1..], noexp, now, k);
      RestampedTwice(TimeOf(cache, k), TimeOf(one, k), TimeOf(AddressInHosts(cache, ipaddr, hosts, noexp, now), k),
                     k == hosts[0], k in hosts[1..], noexp, now);
      assert hosts == [hosts[0]] + hosts[1..];
    }
  }

  /** What an addition adds is what was to be added and was not there. */
  lemma {:induction false} NewOnes(list: seq<string>, adds: seq<string>)
    ensures forall x :: x in AddAllUnique(list, adds)[|list|..] <==> x in adds && Named(x) && x !in list
    decreases |adds|
  {
    if adds != [] {
      var one, all := AddUnique(list, adds[0]), AddAllUnique(list, adds);
      NewOnes(one, adds[1..]);
      assert all[|list|..] == one[|list|..] + all[|one|..];
      assert adds == [adds[0]] + adds[1..];
    }
  }

  lemma HostRestamps(cache: Cache, host: string, ips: seq<string>, noexp: bool, now: nat, k: string)
    requires 0 < now
    ensures Restamped(TimeOf(cache, k), TimeOf(HostAdded(cache, host, ips, noexp, now), k),
                      HostTouches(cache, host, ips, k), noexp, now)
  {
    hide Touched, TimeOf, AddAllUnique, HostInAddresses, NoZone, HasZone, Ips, Named, Restamped;
    var one, list := Touched(cache, host, ips, noexp, true, now), Fresh(cache, host, ips, true);
    TouchRestamps(cache, host, ips, noexp, true, now, k);
    AddressesRestamp(one, host, list, noexp, now, k);
    NewOnes(Ips(cache, host), ips);
    RestampedTwice(TimeOf(cache, k), TimeOf(one, k), TimeOf(HostInAddresses(one, host, list, noexp, now), k), k == host,
                   AmongAddresses(list, k), noexp, now);
  }

  lemma AddressRestamps(cache: Cache, ipaddr: string, hosts: seq<string>, noexp: bool, now: nat, k: string)
    requires 0 < now
    ensures Restamped(TimeOf(cache, k), TimeOf(AddressAdded(cache, ipaddr, hosts, noexp, now), k),
                      AddressTouches(cache, ipaddr, hosts, k), noexp, now)
  {
    hide Touched, TimeOf, AddAllUnique, AddressInHosts, Hosts, Named, Restamped;
    var one, list := Touched(cache, ipaddr, hosts, noexp, false, now), Fresh(cache, ipaddr, hosts, false);
    TouchRestamps(cache, ipaddr, hosts, noexp, false, now, k);
    HostsRestamp(one, ipaddr, list, noexp, now, k);
    NewOnes(Hosts(cache, ipaddr), hosts);
    RestampedTwice(TimeOf(cache, k), TimeOf(one, k), TimeOf(AddressInHosts(one, ipaddr, list, noexp, now), k),
                   k == ipaddr, k in list, noexp, now);
  }

  lemma AdditionRestamps(cache: Cache, a: Addition, k: string)
    requires 0 < a.now
    ensures Restamped(TimeOf(cache, k), TimeOf(Applied(cache, a), k), Touches(cache, a, k), a.noexp, a.now)
  {
    hide TimeOf, HostAdded, AddressAdded, HostTouches, AddressTouches, NoZone, Restamped;
    match a
    case AddHost(host, ips, noexp, now) =>
      HostRestamps(cache, host, ips, noexp, now, k);
    case AddAddress(ipaddr, hosts, noexp, now) =>
      if HasZone(ipaddr) {
        NoZoneHasNone(ipaddr);
        var one := AddressAdded(cache, NoZone(ipaddr), hosts, noexp, now);
        AddressRestamps(cache, NoZone(ipaddr), hosts, noexp, now, k);
        AddressRestamps(one, ipaddr, hosts, noexp, now, k);
        RestampedTwice(TimeOf(cache, k), TimeOf(one, k), TimeOf(Applied(cache, a), k),
                       AddressTouches(cache, NoZone(ipaddr), hosts, k), AddressTouches(one, ipaddr, hosts, k),
                           noexp, now);
      } else {
        AddressRestamps(cache, ipaddr, hosts, noexp, now, k);
      }
  }

  // ---------------------------------------------------------------------
  // All additions

  predicate NoneExpires(additions: seq<Addition>) {
    forall i :: 0 <= i < |additions| ==> additions[i].noexp
  }

  lemma OneMoreFirst(a: Addition, later: seq<Addition>)
    ensures NoneExpires([a] + later) <==> a.noexp && NoneExpires(later)
    ensures var all := [a] + later; all[|all| - 1] == if later == [] then a else later[|later| - 1]
  {
    var all := [a] + later;
    assert all[0] == a && forall i :: 0 <= i < |later| ==> all[i + 1] == later[i];
  }

  /** A time that has been 0, or not there, before these additions touched it. */
  predicate TimeFollows(was: Option<nat>, time: Option<nat>, touched: seq<Addition>) {
    if touched == [] then time == was
    else
      && time.Some?
      && (time.value == 0 <==> (was == None || was == Some(0)) && NoneExpires(touched))
      && (time.value != 0 ==> time.value == touched[|touched| - 1].now)
  }

  lemma TimeFollowsOn(t0: Option<nat>, t1: Option<nat>, t2: Option<nat>, a: Addition, touches: bool,
      later: seq<Addition>)
    requires 0 < a.now && Restamped(t0, t1, touches, a.noexp, a.now) && TimeFollows(t1, t2, later)
    ensures TimeFollows(t0, t2, (if touches then [a] else []) + later)
  {
    hide NoneExpires;
    OneMoreFirst(a, later);
    if !touches {
      assert [] + later == later;
    } else if later == [] {
      assert NoneExpires([]) by { NothingExpires(); }
    }
  }

  lemma NothingExpires()
    ensures NoneExpires([])
  {
  }

  lemma {:induction false} TimesFollow(cache: Cache, additions: seq<Addition>, k: string)
    requires forall i :: 0 <= i < |additions| ==> 0 < additions[i].now
    ensures TimeFollows(TimeOf(cache, k), TimeOf(AllApplied(cache, additions), k), TouchedBy(cache, additions, k))
    decreases |additions|
  {
    hide TimeOf, Applied, Touches, Restamped, TimeFollows;
    if additions != [] {
      var a, one := additions[0], Applied(cache, additions[0]);
      AdditionRestamps(cache, a, k);
      TimesFollow(one, additions[1..], k);
      TimeFollowsOn(TimeOf(cache, k), TimeOf(one, k), TimeOf(AllApplied(cache, additions), k), a, Touches(cache, a, k),
                    TouchedBy(one, additions[1..], k));
    } else {
      NothingFollows(TimeOf(cache, k));
    }
  }

  lemma NothingFollows(time: Option<nat>)
    ensures TimeFollows(time, time, [])
  {
  }

  /** After any additions to an empty cache: there is an entry exactly if one touched it; it
      never expires exactly if all that touched it were to be without expiry; otherwise its
      time is that of the last that touched it. */
  lemma ExpiryIsExact(additions: seq<Addition>, k: string)
    requires forall i :: 0 <= i < |additions| ==> 0 < additions[i].now
    ensures var cache, touched := AllApplied(map[], additions), TouchedBy(map[], additions, k);
            && (k in cache <==> touched != [])
            && (k in cache ==>
                  && (cache[k].cachedTime == 0 <==> NoneExpires(touched))
                  && (cache[k].cachedTime != 0 ==> cache[k].cachedTime == touched[|touched| - 1].now))
  {
    hide AllApplied, TouchedBy;
    TimesFollow(map[], additions, k);
  }
}
