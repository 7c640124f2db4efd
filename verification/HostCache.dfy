/** The cache of host names and addresses. One map is its own inverse index: the
    entry of a host lists its addresses, the entry of an address lists its hosts. */
module HostCache {
  import opened Text

  datatype Entry = Entry(ipaddresses: seq<string>, hostnames: seq<string>, cachedTime: nat)

  type Cache = map<string, Entry>

  // ---------------------------------------------------------------------
  // Lists without duplicates

  function AddUnique(list: seq<string>, s: string): seq<string> {
    if s == "" || s in list then list else list + [s]
  }

  function AddAllUnique(list: seq<string>, adds: seq<string>): (r: seq<string>)
    ensures list <= r
    decreases |adds|
  {
    if adds == [] then list else AddAllUnique(AddUnique(list, adds[0]), adds[1..])
  }

  predicate Named(s: string) {
    s != ""
  }

  predicate NoDuplicates(list: seq<string>) {
    forall i, j :: 0 <= i < j < |list| ==> list[i] != list[j]
  }

  /** Adding is the union, as far as there is something to add. */
  lemma {:induction false} AddAllIsUnion(list: seq<string>, adds: seq<string>)
    ensures forall x :: x in AddAllUnique(list, adds) <==> x in list || (x in adds && Named(x))
    ensures NoDuplicates(list) ==> NoDuplicates(AddAllUnique(list, adds))
    decreases |adds|
  {
    if adds != [] {
      AddAllIsUnion(AddUnique(list, adds[0]), adds[1..]);
      assert adds == [adds[0]] + adds[1..];
    }
  }

  /** What was new was to be added. */
  lemma {:induction false} NewOnesWereAdded(list: seq<string>, adds: seq<string>)
    ensures forall x :: x in AddAllUnique(list, adds)[|list|..] ==> x in adds && Named(x)
    decreases |adds|
  {
    if adds != [] {
      var one, all := AddUnique(list, adds[0]), AddAllUnique(list, adds);
      NewOnesWereAdded(one, adds[1..]);
      assert all[|list|..] == one[|list|..] + all[|one|..];
      assert adds == [adds[0]] + adds[1..];
    }
  }

  lemma {:induction false} AddAllAppends(list: seq<string>, adds: seq<string>, s: string)
    ensures AddAllUnique(list, adds + [s]) == AddUnique(AddAllUnique(list, adds), s)
    decreases |adds|
  {
    if adds == [] {
      assert adds + [s] == [s];
    } else {
      assert (adds + [s])[0] == adds[0] && (adds + [s])[1..] == adds[1..] + [s];
      AddAllAppends(AddUnique(list, adds[0]), adds[1..], s);
    }
  }

  // ---------------------------------------------------------------------
  // Addresses with a zone index

  predicate HasZone(ipaddr: string) {
    '%' in ipaddr
  }

  /** The address up to the zone index. */
  function NoZone(ipaddr: string): string {
    ipaddr[..Find(ipaddr, '%')]
  }

  lemma NoZoneHasNone(ipaddr: string)
    ensures !HasZone(NoZone(ipaddr)) && NoZone(NoZone(ipaddr)) == NoZone(ipaddr)
    ensures !HasZone(ipaddr) ==> NoZone(ipaddr) == ipaddr
  {
  }

  /** It is all that stands before the first '%'. */
  lemma ZoneIsDropped(address: string, zone: string)
    requires '%' !in address
    ensures HasZone(address + "%" + zone) && NoZone(address + "%" + zone) == address
  {
    var all := address + "%" + zone;
    assert all[|address|] == '%';
    FindIs(all, '%', |address|);
  }

  // ---------------------------------------------------------------------
  // Additions

  function Ips(cache: Cache, key: string): seq<string> {
    if key in cache then cache[key].ipaddresses else []
  }

  function Hosts(cache: Cache, key: string): seq<string> {
    if key in cache then cache[key].hostnames else []
  }

  /** An entry that never expires stays so as long as it is only added to without expiry. */
  function Stamp(cache: Cache, key: string, noexp: bool, now: nat): nat {
    if noexp && (key in cache ==> cache[key].cachedTime == 0) then 0 else now
  }

  /** The cache with `adds` in the entry of `target`, and `target` in its own entry. */
  function Touched(cache: Cache, target: string, adds: seq<string>, noexp: bool, isHost: bool, now: nat): Cache {
    var ips, hosts := Ips(cache, target), Hosts(cache, target);
    cache[target :=
      if isHost then Entry(AddAllUnique(ips, adds), AddUnique(hosts, target), Stamp(cache, target, noexp, now))
      else Entry(AddUnique(ips, target), AddAllUnique(hosts, adds), Stamp(cache, target, noexp, now))]
  }

  /** What an addition adds to the entry of `target` that was not there. */
  function Fresh(cache: Cache, target: string, adds: seq<string>, isHost: bool): seq<string> {
    if isHost then AddAllUnique(Ips(cache, target), adds)[|Ips(cache, target)|..]
    else AddAllUnique(Hosts(cache, target), adds)[|Hosts(cache, target)|..]
  }

  /** The cache with `host` in the entries of these addresses, with and without zone index. */
  function HostInAddresses(cache: Cache, host: string, ips: seq<string>, noexp: bool, now: nat): Cache
    decreases |ips|
  {
    if ips == [] then cache
    else
      var one := Touched(cache, ips[0], [host], noexp, false, now);
      var both := if HasZone(ips[0]) then Touched(one, NoZone(ips[0]), [host], noexp, false, now) else one;
      HostInAddresses(both, host, ips[1..], noexp, now)
  }

  /** The cache with `ipaddr` in the entries of these hosts. */
  function AddressInHosts(cache: Cache, ipaddr: string, hosts: seq<string>, noexp: bool, now: nat): Cache
    decreases |hosts|
  {
    if hosts == [] then cache
    else AddressInHosts(Touched(cache, hosts[0], [ipaddr], noexp, true, now), ipaddr, hosts[1..], noexp, now)
  }

  function HostAdded(cache: Cache, host: string, ips: seq<string>, noexp: bool, now: nat): Cache {
    HostInAddresses(Touched(cache, host, ips, noexp, true, now), host, Fresh(cache, host, ips, true), noexp, now)
  }

  function AddressAdded(cache: Cache, ipaddr: string, hosts: seq<string>, noexp: bool, now: nat): Cache {
    AddressInHosts(Touched(cache, ipaddr, hosts, noexp, false, now), ipaddr, Fresh(cache, ipaddr, hosts, false),
        noexp, now)
  }

  /** Adding an address with a zone index adds it without one first. */
  function BothAdded(cache: Cache, ipaddr: string, hosts: seq<string>, noexp: bool, now: nat): Cache {
    var first := if HasZone(ipaddr) then AddressAdded(cache, NoZone(ipaddr), hosts, noexp, now) else cache;
    AddressAdded(first, ipaddr, hosts, noexp, now)
  }

  datatype Addition =
    | AddHost(host: string, ips: seq<string>, noexp: bool, now: nat)
    | AddAddress(ipaddr: string, hosts: seq<string>, noexp: bool, now: nat)

  function Applied(cache: Cache, a: Addition): Cache {
    match a
    case AddHost(host, ips, noexp, now) => HostAdded(cache, host, ips, noexp, now)
    case AddAddress(ipaddr, hosts, noexp, now) => BothAdded(cache, ipaddr, hosts, noexp, now)
  }

  function AllApplied(cache: Cache, additions: seq<Addition>): Cache
    decreases |additions|
  {
    if additions == [] then cache else AllApplied(Applied(cache, additions[0]), additions[1..])
  }

  // ---------------------------------------------------------------------
  // The object

  class ChmNetDb {
    var cachemap: Cache

    constructor ()
      ensures cachemap == map[]
    {
      cachemap := map[];
    }

    static method AddUniqueStringToList(s: string, list: seq<string>) returns (r: seq<string>)
      ensures r == AddUnique(list, s)
    {
      if s == "" {
        return list;
      }
      var i := 0;
      while i < |list|
        invariant 0 <= i <= |list| && s !in list[..i]
      {
        if list[i] == s {
          return list;
        }
        i := i + 1;
      }
      r := list + [s];
    }

    static method AddUniqueStringListToList(adds: seq<string>, list: seq<string>) returns (r: seq<string>)
      ensures r == AddAllUnique(list, adds)
    {
      r := list;
      var i := 0;
      assert adds[..|adds|] == adds;
      while i < |adds|
        invariant 0 <= i <= |adds| && r == AddAllUnique(list, adds[..i])
      {
        assert adds[..i + 1] == adds[..i] + [adds[i]];
        AddAllAppends(list, adds[..i], adds[i]);
        if adds[i] != "" {
          var found, j := false, 0;
          while j < |r| && !found
            invariant 0 <= j <= |r| && (found ==> adds[i] in r) && (!found ==> adds[i] !in r[..j])
            decreases |r| - j, !found
          {
            if adds[i] == r[j] {
              found := true;
            } else {
              j := j + 1;
            }
          }
          if !found {
            r := r + [adds[i]];
          }
        }
        i := i + 1;
      }
    }

    /** Merges `adds` into a list and tells what was new. */
    static method Merge(adds: seq<string>, list: seq<string>) returns (r: seq<string>, added: seq<string>)
      ensures r == AddAllUnique(list, adds) && added == r[|list|..]
    {
      r, added := list, [];
      var i := 0;
      assert adds[..|adds|] == adds;
      while i < |adds|
        invariant 0 <= i <= |adds| && r == AddAllUnique(list, adds[..i])
        invariant r == list + added
      {
        assert adds[..i + 1] == adds[..i] + [adds[i]];
        AddAllAppends(list, adds[..i], adds[i]);
        if adds[i] != "" && adds[i] !in r {
          r := AddUniqueStringToList(adds[i], r);
          added := AddUniqueStringToList(adds[i], added);
        }
        i := i + 1;
      }
    }

    /** Adds to the entry of one host or address, and, unless it is itself called for
        that, to the entries of what was new there. */
    method RawAddCache(target: string, addlist: seq<string>, noexp: bool, isHostname: bool, reentrant: bool, now: nat)
      returns (result: bool)
      modifies this
      ensures result
      ensures cachemap == (if reentrant then Touched(old(cachemap), target, addlist, noexp, isHostname, now)
                           else if isHostname then HostAdded(old(cachemap), target, addlist, noexp, now)
                           else AddressAdded(old(cachemap), target, addlist, noexp, now))
      decreases !reentrant
    {
      hide HostInAddresses, AddressInHosts, AddAllUnique;
      result := true;
      var newcomers;
      if target in cachemap {
        var entry := cachemap[target];
        var stamp := if noexp && entry.cachedTime == 0 then 0 else now;
        if isHostname {
          var ips;
          ips, newcomers := Merge(addlist, entry.ipaddresses);
          var hosts := AddUniqueStringToList(target, entry.hostnames);
          cachemap := cachemap[target := Entry(ips, hosts, stamp)];
        } else {
          var hosts;
          hosts, newcomers := Merge(addlist, entry.hostnames);
          var ips := AddUniqueStringToList(target, entry.ipaddresses);
          cachemap := cachemap[target := Entry(ips, hosts, stamp)];
        }
      } else {
        var list := AddUniqueStringListToList(addlist, []);
        var own := AddUniqueStringToList(target, []);
        newcomers := list;
        var stamp := if noexp then 0 else now;
        cachemap := cachemap[target := if isHostname then Entry(list, own, stamp) else Entry(own, list, stamp)];
      }
      if !reentrant {
        if isHostname {
          result := AddToAddresses(target, newcomers, noexp, now);
        } else {
          result := AddToHosts(target, newcomers, noexp, now);
        }
      }
    }

    method AddToAddresses(host: string, ips: seq<string>, noexp: bool, now: nat) returns (result: bool)
      modifies this
      ensures result
      ensures cachemap == HostInAddresses(old(cachemap), host, ips, noexp, now)
      decreases true, 0
    {
      result := true;
      var i := 0;
      while i < |ips|
        invariant 0 <= i <= |ips| && result
        invariant HostInAddresses(cachemap, host, ips[i..], noexp, now)
             == HostInAddresses(old(cachemap), host, ips, noexp, now)
      {
        var ok := RawAddCache(ips[i], [host], noexp, false, true, now);
        if !ok {
          result := false;
        }
        if HasZone(ips[i]) {
          ok := RawAddCache(NoZone(ips[i]), [host], noexp, false, true, now);
          if !ok {
            result := false;
          }
        }
        i := i + 1;
      }
    }

    method AddToHosts(ipaddr: string, hosts: seq<string>, noexp: bool, now: nat) returns (result: bool)
      modifies this
      ensures result
      ensures cachemap == AddressInHosts(old(cachemap), ipaddr, hosts, noexp, now)
      decreases true, 0
    {
      result := true;
      var i := 0;
      while i < |hosts|
        invariant 0 <= i <= |hosts| && result
        invariant AddressInHosts(cachemap, ipaddr, hosts[i..], noexp, now)
             == AddressInHosts(old(cachemap), ipaddr, hosts, noexp, now)
      {
        var ok := RawAddCache(hosts[i], [ipaddr], noexp, true, true, now);
        if !ok {
          result := false;
        }
        i := i + 1;
      }
    }

    method HostnameAddCache(hostname: string, ipaddrs: seq<string>, noexp: bool, now: nat) returns (result: bool)
      modifies this
      ensures result && cachemap == Applied(old(cachemap), AddHost(hostname, ipaddrs, noexp, now))
    {
      result := RawAddCache(hostname, ipaddrs, noexp, true, false, now);
    }

    method IpAddressAddCache(ipaddr: string, hostnames: seq<string>, noexp: bool, now: nat) returns (result: bool)
      modifies this
      ensures result && cachemap == Applied(old(cachemap), AddAddress(ipaddr, hostnames, noexp, now))
    {
      result := true;
      if HasZone(ipaddr) {
        result := RawAddCache(NoZone(ipaddr), hostnames, noexp, false, false, now);
      }
      var ok := RawAddCache(ipaddr, hostnames, noexp, false, false, now);
      if !ok {
        result := false;
      }
    }
  }

  // ---------------------------------------------------------------------
  // The invariant

  // What is a host name and what an address is for the caller to tell: `isHost`.

  /** An address without its zone index is an address still. */
  ghost predicate TellsApart(isHost: string -> bool) {
    forall p :: !isHost(p) ==> !isHost(NoZone(p))
  }

  /** The entry of a host lists addresses and itself, the entry of an address hosts and itself. */
  ghost predicate EntryTyped(k: string, ips: seq<string>, hosts: seq<string>, isHost: string -> bool) {
    && (forall x :: x in hosts ==> Named(x) && isHost(x) && (isHost(k) ==> x == k))
    && (forall x :: x in ips ==> Named(x) && !isHost(x) && (!isHost(k) ==> x == k))
    && NoDuplicates(ips) && NoDuplicates(hosts)
  }

  ghost predicate Typed(cache: Cache, isHost: string -> bool) {
    forall k :: EntryTyped(k, Ips(cache, k), Hosts(cache, k), isHost)
  }

  /** A list has `p`, or an address that becomes `p` without its zone index. */
  ghost predicate Lists(ips: seq<string>, p: string) {
    exists q :: q in ips && (q == p || NoZone(q) == p)
  }

  /** What a host lists lists the host, save for what is still to be done. */
  ghost predicate Forward(cache: Cache, isHost: string -> bool, h0: string, todo: seq<string>) {
    forall h, p :: isHost(h) && p in Ips(cache, h) && !(h == h0 && p in todo) ==>
      h in Hosts(cache, p) && h in Hosts(cache, NoZone(p))
  }

  /** What an address lists lists the address, save for what is still to be done. */
  ghost predicate Backward(cache: Cache, isHost: string -> bool, p0: string, todo: seq<string>) {
    forall p, h :: !isHost(p) && h in Hosts(cache, p) && !(p == p0 && h in todo) ==> Lists(Ips(cache, h), p)
  }

  ghost predicate Consistent(cache: Cache, isHost: string -> bool) {
    Typed(cache, isHost) && Forward(cache, isHost, "", []) && Backward(cache, isHost, "", [])
  }

  /** What can be added: non-empty names of the right kind; empty list items are passed over. */
  ghost predicate Addable(a: Addition, isHost: string -> bool) {
    match a
    case AddHost(host, ips, _, _) => Named(host) && isHost(host) && forall p :: p in ips && Named(p) ==> !isHost(p)
    case AddAddress(ipaddr, hosts, _, _) =>
      Named(NoZone(ipaddr)) && !isHost(ipaddr) && forall h :: h in hosts && Named(h) ==> isHost(h)
  }

  // ---------------------------------------------------------------------
  // Single entries

  /** From `cache` to `c` the entry of `target` has got these and no other has changed. */
  ghost predicate Grown(cache: Cache, c: Cache, target: string, adds: seq<string>, isHost: bool) {
    && (forall k :: k != target ==> Ips(c, k) == Ips(cache, k) && Hosts(c, k) == Hosts(cache, k))
    && (forall x :: x in Ips(c, target) <==>
          x in Ips(cache, target) || (Named(x) && if isHost then x in adds else x == target))
    && (forall x :: x in Hosts(c, target) <==>
          x in Hosts(cache, target) || (Named(x) && if isHost then x == target else x in adds))
    && (NoDuplicates(Ips(cache, target)) ==> NoDuplicates(Ips(c, target)))
    && (NoDuplicates(Hosts(cache, target)) ==> NoDuplicates(Hosts(c, target)))
  }

  lemma TouchingGrows(cache: Cache, target: string, adds: seq<string>, noexp: bool, isHost: bool, now: nat)
    ensures Grown(cache, Touched(cache, target, adds, noexp, isHost, now), target, adds, isHost)
  {
    hide AddAllUnique;
    AddAllIsUnion(Ips(cache, target), adds);
    AddAllIsUnion(Hosts(cache, target), adds);
  }

  lemma StaysTyped(cache: Cache, c: Cache, target: string, adds: seq<string>, isHost: string -> bool)
    requires Typed(cache, isHost) && Grown(cache, c, target, adds, isHost(target))
    requires forall x :: x in adds && Named(x) ==> isHost(x) != isHost(target)
    ensures Typed(c, isHost)
  {
    hide NoDuplicates, Hosts, Ips, Named;
    forall k ensures EntryTyped(k, Ips(c, k), Hosts(c, k), isHost) {
      assert EntryTyped(k, Ips(cache, k), Hosts(cache, k), isHost);
      if k != target {
        assert Ips(c, k) == Ips(cache, k) && Hosts(c, k) == Hosts(cache, k);
      }
    }
  }

  /** Putting a host into the entry of an address it lists, with or without zone index. */
  lemma AddressLearns(cache: Cache, isHost: string -> bool, p: string, q: string, h: string, todo: seq<string>,
                      noexp: bool, now: nat)
    requires Typed(cache, isHost) && Forward(cache, isHost, h, todo) && Backward(cache, isHost, "", [])
    requires isHost(h) && Named(h) && !isHost(p) && q in Ips(cache, h) && (q == p || NoZone(q) == p)
    ensures var c := Touched(cache, p, [h], noexp, false, now);
            && Typed(c, isHost) && Forward(c, isHost, h, todo) && Backward(c, isHost, "", [])
            && h in Hosts(c, p) && Ips(c, h) == Ips(cache, h)
            && forall k :: h in Hosts(cache, k) ==> h in Hosts(c, k)
  {
    hide Touched, NoZone, NoDuplicates, Hosts, Ips;
    var c := Touched(cache, p, [h], noexp, false, now);
    TouchingGrows(cache, p, [h], noexp, false, now);
    assert h in Hosts(c, p);
    forall k, x | x in Hosts(cache, k) ensures x in Hosts(c, k) {
      if k != p { assert Hosts(c, k) == Hosts(cache, k); }
    }
    StaysTyped(cache, c, p, [h], isHost);
    assert Ips(c, h) == Ips(cache, h);
    forall p', h' | !isHost(p') && h' in Hosts(c, p') ensures Lists(Ips(c, h'), p') {
      assert EntryTyped(p', Ips(c, p'), Hosts(c, p'), isHost);
      assert isHost(h') && Ips(c, h') == Ips(cache, h');
      if p' == p && h' == h {
        assert Lists(Ips(c, h), p);
      } else {
        assert h' in Hosts(cache, p');
      }
    }
  }

  lemma {:induction false} AddressesLearn(cache: Cache, isHost: string -> bool, h: string, ips: seq<string>,
                                          noexp: bool, now: nat)
    requires TellsApart(isHost) && Typed(cache, isHost) && Forward(cache, isHost, h, ips)
    requires Backward(cache, isHost, "", [])
    requires isHost(h) && Named(h) && forall p :: p in ips ==> p in Ips(cache, h)
    ensures Consistent(HostInAddresses(cache, h, ips, noexp, now), isHost)
    decreases |ips|
  {
    hide Touched, NoDuplicates, Hosts, Ips, Backward, Named, Find;
    if ips == [] {
      assert Forward(cache, isHost, "", []);
    } else {
      var p := ips[0];
      assert EntryTyped(h, Ips(cache, h), Hosts(cache, h), isHost);
      NoZoneHasNone(p);
      AddressLearns(cache, isHost, p, p, h, ips, noexp, now);
      var one := Touched(cache, p, [h], noexp, false, now);
      if HasZone(p) {
        AddressLearns(one, isHost, NoZone(p), p, h, ips, noexp, now);
      }
      var both := if HasZone(p) then Touched(one, NoZone(p), [h], noexp, false, now) else one;
      assert h in Hosts(both, p) && h in Hosts(both, NoZone(p));
      OneLess(both, isHost, h, ips);
      AddressesLearn(both, isHost, h, ips[1..], noexp, now);
    }
  }

  lemma OneLess(cache: Cache, isHost: string -> bool, h: string, ips: seq<string>)
    requires ips != [] && Forward(cache, isHost, h, ips) && h in Hosts(cache, ips[0])
    requires h in Hosts(cache, NoZone(ips[0]))
    ensures Forward(cache, isHost, h, ips[1..])
  {
    hide Hosts, Ips, NoZone;
    assert ips == [ips[0]] + ips[1..];
  }

  /** Putting an address into the entry of a host it lists. */
  lemma HostLearns(cache: Cache, isHost: string -> bool, p: string, h: string, todo: seq<string>, noexp: bool, now: nat)
    requires Typed(cache, isHost) && Forward(cache, isHost, "", []) && Backward(cache, isHost, p, todo)
    requires isHost(h) && !isHost(p) && Named(p) && h in Hosts(cache, p) && h in Hosts(cache, NoZone(p))
    ensures var c := Touched(cache, h, [p], noexp, true, now);
            && Typed(c, isHost) && Forward(c, isHost, "", []) && Backward(c, isHost, p, todo)
            && Lists(Ips(c, h), p) && forall k :: k != h ==> Hosts(c, k) == Hosts(cache, k)
  {
    hide Touched, NoZone, NoDuplicates, Hosts, Ips, Named;
    var c := Touched(cache, h, [p], noexp, true, now);
    TouchingGrows(cache, h, [p], noexp, true, now);
    StaysTyped(cache, c, h, [p], isHost);
    assert p in Ips(c, h);
    forall k, x | x in Hosts(cache, k) ensures x in Hosts(c, k) {
      if k != h { assert Hosts(c, k) == Hosts(cache, k); }
    }
    ForwardStays(cache, c, isHost, p, h);
    forall p', h' | !isHost(p') && h' in Hosts(c, p') && !(p' == p && h' in todo) ensures Lists(Ips(c, h'), p') {
      assert h' in Hosts(cache, p');
      if h' == h {
        var q :| q in Ips(cache, h) && (q == p' || NoZone(q) == p');
        assert q in Ips(c, h);
      } else {
        assert Ips(c, h') == Ips(cache, h');
      }
    }
  }

  lemma ForwardStays(cache: Cache, c: Cache, isHost: string -> bool, p: string, h: string)
    requires Forward(cache, isHost, "", []) && Grown(cache, c, h, [p], true)
    requires h in Hosts(cache, p) && h in Hosts(cache, NoZone(p))
    requires forall k, x :: x in Hosts(cache, k) ==> x in Hosts(c, k)
    ensures Forward(c, isHost, "", [])
  {
    hide NoZone, NoDuplicates, Hosts, Ips, Named;
    forall h', q | isHost(h') && q in Ips(c, h') ensures h' in Hosts(c, q) && h' in Hosts(c, NoZone(q)) {
      if h' == h && q == p {
      } else {
        assert q in Ips(cache, h');
      }
    }
  }

  lemma {:induction false} HostsLearn(cache: Cache, isHost: string -> bool, p: string, hosts: seq<string>, noexp: bool,
                                      now: nat)
    requires Typed(cache, isHost) && Forward(cache, isHost, "", []) && Backward(cache, isHost, p, hosts)
    requires !isHost(p) && Named(p) && !isHost(NoZone(p))
    requires forall h :: h in hosts ==> h in Hosts(cache, p) && h in Hosts(cache, NoZone(p))
    ensures Consistent(AddressInHosts(cache, p, hosts, noexp, now), isHost)
    decreases |hosts|
  {
    hide Touched, NoZone, NoDuplicates, Hosts, Ips, Named, Forward, Lists;
    if hosts == [] {
      assert Backward(cache, isHost, "", []);
    } else {
      var h := hosts[0];
      assert EntryTyped(p, Ips(cache, p), Hosts(cache, p), isHost);
      HostLearns(cache, isHost, p, h, hosts, noexp, now);
      var c := Touched(cache, h, [p], noexp, true, now);
      assert hosts == [h] + hosts[1..];
      assert Backward(c, isHost, p, hosts[1..]);
      HostsLearn(c, isHost, p, hosts[1..], noexp, now);
    }
  }

  // ---------------------------------------------------------------------
  // Additions, and runs of them

  lemma HostAddedKeeps(cache: Cache, isHost: string -> bool, host: string, ips: seq<string>, noexp: bool, now: nat)
    requires TellsApart(isHost) && Consistent(cache, isHost) && Addable(AddHost(host, ips, noexp, now), isHost)
    ensures Consistent(HostAdded(cache, host, ips, noexp, now), isHost)
  {
    hide NoZone, NoDuplicates, Hosts, Named, Touched, HostInAddresses, AddAllUnique;
    var c, list := Touched(cache, host, ips, noexp, true, now), Fresh(cache, host, ips, true);
    TouchingGrows(cache, host, ips, noexp, true, now);
    StaysTyped(cache, c, host, ips, isHost);
    FreshIsAdded(cache, host, ips, noexp, true, now);
    MainHost(cache, c, isHost, host, ips, list);
    AddressesLearn(c, isHost, host, list, noexp, now);
  }

  /** The entry of the target is what it was, and what is new. */
  lemma FreshIsAdded(cache: Cache, target: string, adds: seq<string>, noexp: bool, isHost: bool, now: nat)
    ensures var c, list := Touched(cache, target, adds, noexp, isHost, now), Fresh(cache, target, adds, isHost);
            && (forall x :: x in list ==> x in adds && Named(x))
            && if isHost then Ips(c, target) == Ips(cache, target) + list
               else Hosts(c, target) == Hosts(cache, target) + list
  {
    hide AddAllUnique, Named;
    NewOnesWereAdded(Ips(cache, target), adds);
    NewOnesWereAdded(Hosts(cache, target), adds);
  }

  lemma MainHost(cache: Cache, c: Cache, isHost: string -> bool, host: string, ips: seq<string>, list: seq<string>)
    requires Consistent(cache, isHost) && Grown(cache, c, host, ips, true) && isHost(host)
    requires Ips(c, host) == Ips(cache, host) + list
    ensures Forward(c, isHost, host, list) && Backward(c, isHost, "", [])
  {
    hide NoZone, NoDuplicates, Hosts, Ips, Named;
    forall k, x | x in Hosts(cache, k) ensures x in Hosts(c, k) {
      if k != host { assert Hosts(c, k) == Hosts(cache, k); }
    }
    forall h, p | isHost(h) && p in Ips(c, h) && !(h == host && p in list)
      ensures h in Hosts(c, p) && h in Hosts(c, NoZone(p))
    {
      assert p in Ips(cache, h);
    }
    forall p, h | !isHost(p) && h in Hosts(c, p) ensures Lists(Ips(c, h), p) {
      assert h in Hosts(cache, p);
      var q :| q in Ips(cache, h) && (q == p || NoZone(q) == p);
      assert q in Ips(c, h);
    }
  }

  lemma AddressAddedKeeps(cache: Cache, isHost: string -> bool, p: string, hosts: seq<string>, noexp: bool, now: nat)
    requires Consistent(cache, isHost) && !isHost(p) && !isHost(NoZone(p)) && Named(p)
    requires forall h :: h in hosts && Named(h) ==> isHost(h)
    requires NoZone(p) != p ==> forall h :: h in hosts && Named(h) ==> h in Hosts(cache, NoZone(p))
    ensures Consistent(AddressAdded(cache, p, hosts, noexp, now), isHost)
    ensures forall h :: h in hosts && Named(h) ==> h in Hosts(AddressAdded(cache, p, hosts, noexp, now), p)
  {
    hide NoZone, NoDuplicates, Ips, Hosts, Named, Touched, AddressInHosts, AddAllUnique, Fresh, EntryTyped, Forward,
      Backward;
    var c, list := Touched(cache, p, hosts, noexp, false, now), Fresh(cache, p, hosts, false);
    TouchingGrows(cache, p, hosts, noexp, false, now);
    StaysTyped(cache, c, p, hosts, isHost);
    FreshIsAdded(cache, p, hosts, noexp, false, now);
    MainAddress(cache, c, isHost, p, hosts, list);
    HostsLearn(c, isHost, p, list, noexp, now);
    HostsStay(c, isHost, p, list, noexp, now);
  }

  lemma MainAddress(cache: Cache, c: Cache, isHost: string -> bool, p: string, hosts: seq<string>, list: seq<string>)
    requires Consistent(cache, isHost) && Grown(cache, c, p, hosts, false) && !isHost(p) && Typed(c, isHost)
    requires Hosts(c, p) == Hosts(cache, p) + list
    ensures Forward(c, isHost, "", []) && Backward(c, isHost, p, list)
    ensures forall k, x :: x in Hosts(cache, k) ==> x in Hosts(c, k)
  {
    hide NoZone, NoDuplicates, Hosts, Ips, Named;
    forall k, x | x in Hosts(cache, k) ensures x in Hosts(c, k) {
      if k != p { assert Hosts(c, k) == Hosts(cache, k); }
    }
    forall p', h | !isHost(p') && h in Hosts(c, p') && !(p' == p && h in list) ensures Lists(Ips(c, h), p') {
      assert h in Hosts(cache, p');
      assert EntryTyped(p', Ips(c, p'), Hosts(c, p'), isHost);
      assert Ips(c, h) == Ips(cache, h);
    }
  }

  /** The entries of hosts are no entries of addresses. */
  lemma {:induction false} HostsStay(cache: Cache, isHost: string -> bool, p: string, hosts: seq<string>, noexp: bool,
                                     now: nat)
    requires forall h :: h in hosts ==> isHost(h)
    ensures forall k :: !isHost(k) ==> Hosts(AddressInHosts(cache, p, hosts, noexp, now), k) == Hosts(cache, k)
    decreases |hosts|
  {
    hide AddAllUnique;
    if hosts != [] {
      HostsStay(Touched(cache, hosts[0], [p], noexp, true, now), isHost, p, hosts[1..], noexp, now);
    }
  }

  lemma AddressKeeps(cache: Cache, isHost: string -> bool, a: Addition)
    requires TellsApart(isHost) && Consistent(cache, isHost) && a.AddAddress? && Addable(a, isHost)
    ensures Consistent(Applied(cache, a), isHost)
  {
    hide Consistent, AddressAdded, NoDuplicates, Ips, Hosts;
    NoZoneHasNone(a.ipaddr);
    var nozi := NoZone(a.ipaddr);
    if HasZone(a.ipaddr) {
      AddressAddedKeeps(cache, isHost, nozi, a.hosts, a.noexp, a.now);
    }
    var first := if HasZone(a.ipaddr) then AddressAdded(cache, nozi, a.hosts, a.noexp, a.now) else cache;
    AddressAddedKeeps(first, isHost, a.ipaddr, a.hosts, a.noexp, a.now);
  }

  /** Every run of additions keeps the map its own inverse index. */
  lemma {:induction false} AdditionsKeepConsistent(cache: Cache, isHost: string -> bool, additions: seq<Addition>)
    requires TellsApart(isHost) && Consistent(cache, isHost)
    requires forall i :: 0 <= i < |additions| ==> Addable(additions[i], isHost)
    ensures Consistent(AllApplied(cache, additions), isHost)
    decreases |additions|
  {
    hide Consistent, Applied, TellsApart, HostAdded;
    if additions != [] {
      var a := additions[0];
      if a.AddAddress? {
        AddressKeeps(cache, isHost, a);
      } else {
        HostKeeps(cache, isHost, a);
      }
      AdditionsKeepConsistent(Applied(cache, a), isHost, additions[1..]);
    }
  }

  lemma HostKeeps(cache: Cache, isHost: string -> bool, a: Addition)
    requires TellsApart(isHost) && Consistent(cache, isHost) && a.AddHost? && Addable(a, isHost)
    ensures Consistent(Applied(cache, a), isHost)
  {
    hide Consistent, HostAdded;
    HostAddedKeeps(cache, isHost, a.host, a.ips, a.noexp, a.now);
  }

  /** After any run of additions to an empty cache: the lists have no duplicates; an
      address listed under a host lists that host, and so does the address without its
      zone index; and a host listed under an address lists that address, or one that
      becomes it without its zone index. */
  lemma CacheIsItsOwnInverse(isHost: string -> bool, additions: seq<Addition>, h: string, p: string)
    requires TellsApart(isHost) && isHost(h) && !isHost(p)
    requires forall i :: 0 <= i < |additions| ==> Addable(additions[i], isHost)
    ensures var c := AllApplied(map[], additions);
            && (p in Ips(c, h) ==> h in Hosts(c, p) && h in Hosts(c, NoZone(p)))
            && (h in Hosts(c, p) ==> exists q :: q in Ips(c, h) && (q == p || NoZone(q) == p))
            && NoDuplicates(Ips(c, h)) && NoDuplicates(Hosts(c, p))
  {
    hide AllApplied, Addable, NoZone, Ips, Hosts, NoDuplicates;
    EmptyIsConsistent(isHost);
    AdditionsKeepConsistent(map[], isHost, additions);
    var c := AllApplied(map[], additions);
    assert EntryTyped(h, Ips(c, h), Hosts(c, h), isHost);
    assert EntryTyped(p, Ips(c, p), Hosts(c, p), isHost);
  }

  lemma EmptyIsConsistent(isHost: string -> bool)
    ensures Consistent(map[], isHost)
  {
  }

  // ---------------------------------------------------------------------
  // What an addition adds

  lemma {:induction false} IpsStay(cache: Cache, isHost: string -> bool, host: string, ips: seq<string>, noexp: bool,
                                   now: nat)
    requires TellsApart(isHost) && forall p :: p in ips ==> !isHost(p)
    ensures forall k :: isHost(k) ==> Ips(HostInAddresses(cache, host, ips, noexp, now), k) == Ips(cache, k)
    decreases |ips|
  {
    hide AddAllUnique, NoZone;
    if ips != [] {
      var one := Touched(cache, ips[0], [host], noexp, false, now);
      var both := if HasZone(ips[0]) then Touched(one, NoZone(ips[0]), [host], noexp, false, now) else one;
      IpsStay(both, isHost, host, ips[1..], noexp, now);
    }
  }

  /** Adding addresses to a host adds just those to it, and no address to another host. */
  lemma HostAdditionIsExact(cache: Cache, isHost: string -> bool, host: string, ips: seq<string>, noexp: bool, now: nat,
                            h: string, p: string)
    requires TellsApart(isHost) && Addable(AddHost(host, ips, noexp, now), isHost) && isHost(h)
    ensures p in Ips(HostAdded(cache, host, ips, noexp, now), h)
       <==> p in Ips(cache, h) || (h == host && p in ips && p != "")
  {
    hide NoZone, NoDuplicates, Hosts, Ips, Touched, HostInAddresses, AddAllUnique, Fresh;
    TouchingGrows(cache, host, ips, noexp, true, now);
    FreshIsAdded(cache, host, ips, noexp, true, now);
    IpsStay(Touched(cache, host, ips, noexp, true, now), isHost, host, Fresh(cache, host, ips, true), noexp, now);
  }

  /** Adding hosts to an address adds just those to it and, if it has a zone index, to
      the address without it. */
  lemma AddressAdditionIsExact(cache: Cache, isHost: string -> bool, ipaddr: string, hosts: seq<string>, noexp: bool,
                               now: nat,
                               p: string, h: string)
    requires TellsApart(isHost) && Addable(AddAddress(ipaddr, hosts, noexp, now), isHost) && !isHost(p)
    ensures h in Hosts(BothAdded(cache, ipaddr, hosts, noexp, now), p)
       <==> h in Hosts(cache, p) || ((p == ipaddr || p == NoZone(ipaddr)) && h in hosts && h != "")
  {
    hide NoZone, Hosts, AddressAdded;
    NoZoneHasNone(ipaddr);
    var nozi := NoZone(ipaddr);
    if HasZone(ipaddr) {
      OneAddressIsExact(cache, isHost, nozi, hosts, noexp, now, p, h);
    }
    var first := if HasZone(ipaddr) then AddressAdded(cache, nozi, hosts, noexp, now) else cache;
    OneAddressIsExact(first, isHost, ipaddr, hosts, noexp, now, p, h);
  }

  lemma OneAddressIsExact(cache: Cache, isHost: string -> bool, ipaddr: string, hosts: seq<string>, noexp: bool,
                          now: nat,
                          p: string, h: string)
    requires !isHost(ipaddr) && !isHost(p) && forall x :: x in hosts && Named(x) ==> isHost(x)
    ensures h in Hosts(AddressAdded(cache, ipaddr, hosts, noexp, now), p)
       <==> h in Hosts(cache, p) || (p == ipaddr && h in hosts && Named(h))
  {
    hide NoDuplicates, Hosts, Ips, Touched, AddressInHosts, AddAllUnique, Fresh;
    TouchingGrows(cache, ipaddr, hosts, noexp, false, now);
    FreshIsAdded(cache, ipaddr, hosts, noexp, false, now);
    HostsStay(Touched(cache, ipaddr, hosts, noexp, false, now), isHost, ipaddr, Fresh(cache, ipaddr, hosts, false),
        noexp, now);
  }
}
