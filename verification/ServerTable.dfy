/** Comparing two tables of servers. */
module ServerTable {
  import opened ServerStatus

  datatype HostPort = HostPort(name: string, port: int)

  /** The endpoints and peers of a server; unused places hold an empty name. */
  type Pairs = s: seq<HostPort> | |s| == 4 witness [HostPort("", 0), HostPort("", 0), HostPort("", 0), HostPort("", 0)]

  datatype Ssl = Ssl(isSsl: bool, verifyPeer: bool)

  datatype Server = Server(
    chmpxid: int, name: string, cuk: string, customSeed: string, ssl: Ssl,
    endpoints: Pairs, ctlEndpoints: Pairs, forwardPeers: Pairs, reversePeers: Pairs,
    port: int, ctlPort: int, baseHash: int, pendingHash: int, status: Status)

  /** A table may be missing altogether. */
  datatype Table = Missing | Table(servers: seq<Server>)

  /** How tables are compared; `hostnames` is what the name service knows of a name. */
  datatype Options = Options(
    checkCustomSeed: bool, checkStatus: bool, ignoreDown: bool, hostnames: string -> seq<string>)

  // ---------------------------------------------------------------------
  // Two servers

  predicate SameSsl(x: Ssl, y: Ssl) {
    x.isSsl == y.isSsl && (x.isSsl ==> x.verifyPeer == y.verifyPeer)
  }

  /** Every pair of `x` is one of `y`. */
  predicate Covered(x: seq<HostPort>, y: seq<HostPort>) {
    forall p :: p in x ==> p in y
  }

  predicate SameName(o: Options, x: Server, y: Server) {
    || x.name == y.name
    || (o.checkCustomSeed
        && (x.name == y.customSeed || y.name == x.customSeed
            || exists h :: h in o.hostnames(x.name) && h in o.hostnames(y.name)))
  }

  /** What the comparison asks of two servers of the same id, but for their pairs. */
  predicate SameFields(o: Options, x: Server, y: Server) {
    && SameName(o, x, y) && x.cuk == y.cuk && x.customSeed == y.customSeed && SameSsl(x.ssl, y.ssl)
    && x.port == y.port && x.ctlPort == y.ctlPort
    && (o.checkStatus ==> x.baseHash == y.baseHash && x.pendingHash == y.pendingHash && x.status == y.status)
  }

  predicate PairsCovered(x: Server, y: Server) {
    && Covered(x.endpoints, y.endpoints) && Covered(x.ctlEndpoints, y.ctlEndpoints)
    && Covered(x.forwardPeers, y.forwardPeers) && Covered(x.reversePeers, y.reversePeers)
  }

  /** The comparison of two servers; only the pairs of the first are looked up in the second. */
  predicate Agrees(o: Options, x: Server, y: Server) {
    SameFields(o, x, y) && PairsCovered(x, y)
  }

  /** A server that may be missing from a table. */
  predicate IsOut(s: Server) {
    IsDown(s.status) && IsServiceOut(s.status) && IsNoAct(s.status) && IsNothing(s.status)
  }

  method CompareHostportPairs(x: Pairs, y: Pairs) returns (same: bool)
    ensures same == Covered(x, y)
  {
    var i := 0;
    while i < 4
      invariant 0 <= i <= 4 && forall k :: 0 <= k < i ==> x[k] in y
    {
      var found, j := false, 0;
      while j < 4 && !found
        invariant 0 <= j <= 4 && (found ==> x[i] in y) && (!found ==> forall k :: 0 <= k < j ==> x[i] != y[k])
        decreases 4 - j, !found
      {
        if x[i].name == y[j].name && x[i].port == y[j].port {
          found := true;
        } else {
          j := j + 1;
        }
      }
      if !found {
        assert x[i] in x && x[i] !in y;
        return false;
      }
      i := i + 1;
    }
    same := true;
  }

  method CompareNameAndCustomSeed(o: Options, x: Server, y: Server) returns (same: bool)
    ensures same == SameName(o, x, y)
  {
    if x.name == y.name {
      return true;
    }
    if !o.checkCustomSeed {
      return false;
    }
    if x.name == y.customSeed || y.name == x.customSeed {
      return true;
    }
    var xs, ys := o.hostnames(x.name), o.hostnames(y.name);
    var i := 0;
    while i < |xs|
      invariant 0 <= i <= |xs| && forall k :: 0 <= k < i ==> xs[k] !in ys
    {
      var j := 0;
      while j < |ys|
        invariant 0 <= j <= |ys| && forall k :: 0 <= k < j ==> xs[i] != ys[k]
      {
        if xs[i] == ys[j] {
          assert xs[i] in xs && xs[i] in ys;
          return true;
        }
        j := j + 1;
      }
      i := i + 1;
    }
    same := false;
  }

  method CompareServers(o: Options, x: Server, y: Server) returns (same: bool)
    ensures same == Agrees(o, x, y)
  {
    hide SameName, Covered;
    same := CompareNameAndCustomSeed(o, x, y);
    if !same || x.cuk != y.cuk || x.customSeed != y.customSeed || !SameSsl(x.ssl, y.ssl) {
      return false;
    }
    same := CompareHostportPairs(x.endpoints, y.endpoints);
    if !same {
      return;
    }
    same := CompareHostportPairs(x.ctlEndpoints, y.ctlEndpoints);
    if !same {
      return;
    }
    same := CompareHostportPairs(x.forwardPeers, y.forwardPeers);
    if !same {
      return;
    }
    same := CompareHostportPairs(x.reversePeers, y.reversePeers);
    if !same || x.port != y.port || x.ctlPort != y.ctlPort {
      return false;
    }
    if o.checkStatus && (x.baseHash != y.baseHash || x.pendingHash != y.pendingHash || x.status != y.status) {
      return false;
    }
  }

  // ---------------------------------------------------------------------
  // Two tables

  /** The first server of this id, or the length of the table. */
  function IndexOf(t: seq<Server>, id: int): (i: nat)
    ensures i <= |t| && (i < |t| ==> t[i].chmpxid == id)
    ensures forall k :: 0 <= k < i ==> t[k].chmpxid != id
  {
    if t == [] || t[0].chmpxid == id then 0 else 1 + IndexOf(t[1..], id)
  }

  /** Whether a server of the one table passes the look-up in the other. */
  predicate Passes(o: Options, other: seq<Server>, s: Server) {
    var i := IndexOf(other, s.chmpxid);
    if i == |other| then o.ignoreDown && IsOut(s) else Agrees(o, other[i], s)
  }

  /** One pass: every server of `t` is looked up in `other`. */
  predicate AllPass(o: Options, other: seq<Server>, t: seq<Server>) {
    forall j :: 0 <= j < |t| ==> Passes(o, other, t[j])
  }

  predicate Compared(o: Options, base: Table, merge: Table) {
    if base == Missing && merge == Missing then true
    else if base == Missing || merge == Missing || base.servers == [] || merge.servers == [] then false
    else
      && (!o.ignoreDown ==> |base.servers| == |merge.servers|)
      && AllPass(o, base.servers, merge.servers)
      && (o.ignoreDown ==> AllPass(o, merge.servers, base.servers))
  }

  method LookUpAll(o: Options, other: seq<Server>, t: seq<Server>) returns (ok: bool)
    ensures ok == AllPass(o, other, t)
  {
    hide Agrees, IsOut;
    var j := 0;
    while j < |t|
      invariant 0 <= j <= |t| && forall k :: 0 <= k < j ==> Passes(o, other, t[k])
    {
      var i := 0;
      while i < |other| && other[i].chmpxid != t[j].chmpxid
        invariant 0 <= i <= |other| && forall k :: 0 <= k < i ==> other[k].chmpxid != t[j].chmpxid
      {
        i := i + 1;
      }
      assert i == IndexOf(other, t[j].chmpxid);
      if |other| <= i {
        if !o.ignoreDown || !IsOut(t[j]) {
          return false;
        }
      } else {
        var same := CompareServers(o, other[i], t[j]);
        if !same {
          return false;
        }
      }
      j := j + 1;
    }
    ok := true;
  }

  method CompareChmpxSvrs(o: Options, base: Table, merge: Table) returns (same: bool)
    ensures same == Compared(o, base, merge)
  {
    hide AllPass;
    if base == Missing && merge == Missing {
      return true;
    }
    if base == Missing || merge == Missing || |base.servers| == 0 || |merge.servers| == 0 {
      return false;
    }
    if !o.ignoreDown && |base.servers| != |merge.servers| {
      return false;
    }
    same := LookUpAll(o, base.servers, merge.servers);
    if same && o.ignoreDown {
      same := LookUpAll(o, merge.servers, base.servers);
    }
  }

  // ---------------------------------------------------------------------
  // What the comparison means

  predicate DistinctIds(t: seq<Server>) {
    forall i, j :: 0 <= i < j < |t| ==> t[i].chmpxid != t[j].chmpxid
  }

  predicate HasId(t: seq<Server>, id: int) {
    exists i :: 0 <= i < |t| && t[i].chmpxid == id
  }

  /** The servers of `x` that `y` has too. */
  predicate CommonAgree(o: Options, x: seq<Server>, y: seq<Server>) {
    forall i, j :: 0 <= i < |x| && 0 <= j < |y| && x[i].chmpxid == y[j].chmpxid ==> Agrees(o, x[i], y[j])
  }

  predicate OthersAreOut(x: seq<Server>, y: seq<Server>) {
    forall i :: 0 <= i < |x| && !HasId(y, x[i].chmpxid) ==> IsOut(x[i])
  }

  /** A pass, without the look-up. */
  lemma PassMeans(o: Options, other: seq<Server>, t: seq<Server>)
    requires DistinctIds(other)
    ensures AllPass(o, other, t) <==>
              && CommonAgree(o, other, t)
              && forall j :: 0 <= j < |t| && !HasId(other, t[j].chmpxid) ==> o.ignoreDown && IsOut(t[j])
  {
    hide Agrees, IsOut;
    forall j | 0 <= j < |t|
      ensures Passes(o, other, t[j]) <==>
                && (forall i :: 0 <= i < |other| && other[i].chmpxid == t[j].chmpxid ==> Agrees(o, other[i], t[j]))
                && (!HasId(other, t[j].chmpxid) ==> o.ignoreDown && IsOut(t[j]))
    {
      var i := IndexOf(other, t[j].chmpxid);
      if i < |other| { assert HasId(other, t[j].chmpxid); }
    }
  }

  /** Ignoring servers that are out: the servers of the same id agree, both ways, and
      every other server is out. So it does not matter which table is the base. */
  lemma IgnoringDownMeans(o: Options, base: seq<Server>, merge: seq<Server>)
    requires o.ignoreDown && base != [] && merge != [] && DistinctIds(base) && DistinctIds(merge)
    ensures Compared(o, Table(base), Table(merge)) <==>
              && CommonAgree(o, base, merge) && CommonAgree(o, merge, base)
              && OthersAreOut(base, merge) && OthersAreOut(merge, base)
    ensures Compared(o, Table(base), Table(merge)) == Compared(o, Table(merge), Table(base))
  {
    hide Agrees, IsOut, AllPass, HasId, CommonAgree;
    PassMeans(o, base, merge);
    PassMeans(o, merge, base);
  }

  // ---------------------------------------------------------------------
  // Without ignoring servers that are out

  function Ids(t: seq<Server>): set<int> {
    set i | 0 <= i < |t| :: t[i].chmpxid
  }

  lemma {:induction false} DistinctIdsCount(t: seq<Server>)
    requires DistinctIds(t)
    ensures |Ids(t)| == |t|
  {
    if t != [] {
      DistinctIdsCount(t[1..]);
      assert Ids(t) == {t[0].chmpxid} + Ids(t[1..]) by {
        forall id | id in Ids(t) ensures id in {t[0].chmpxid} + Ids(t[1..]) {
          var i :| 0 <= i < |t| && t[i].chmpxid == id;
          if i > 0 { assert t[1..][i - 1].chmpxid == id; }
        }
        forall id | id in Ids(t[1..]) ensures id in Ids(t) {
          var i :| 0 <= i < |t[1..]| && t[1..][i].chmpxid == id;
          assert t[i + 1].chmpxid == id;
        }
      }
      assert t[0].chmpxid !in Ids(t[1..]);
    }
  }

  lemma SubsetOfSameSize<T>(x: set<T>, y: set<T>)
    requires x <= y && |x| == |y|
    ensures x == y
  {
    var rest := y - x;
    assert y == x + rest && |y| == |x| + |rest|;
  }

  lemma IdsAreHad(t: seq<Server>, id: int)
    ensures id in Ids(t) <==> HasId(t, id)
  {
    if HasId(t, id) {
      var i :| 0 <= i < |t| && t[i].chmpxid == id;
    }
  }

  /** The ids of one pass, with equal counts, are the ids of the other: it is enough to
      look up the servers of one table. */
  lemma OnePassFindsAll(base: seq<Server>, merge: seq<Server>)
    requires DistinctIds(base) && DistinctIds(merge) && |base| == |merge|
    requires forall j :: 0 <= j < |merge| ==> HasId(base, merge[j].chmpxid)
    ensures Ids(base) == Ids(merge)
  {
    hide HasId;
    DistinctIdsCount(base);
    DistinctIdsCount(merge);
    forall id | id in Ids(merge) ensures id in Ids(base) {
      IdsAreHad(base, id);
    }
    SubsetOfSameSize(Ids(merge), Ids(base));
  }

  /** Not ignoring servers that are out: the tables have the same ids, and the base's
      servers agree with the others, one way. */
  lemma NotIgnoringDownMeans(o: Options, base: seq<Server>, merge: seq<Server>)
    requires !o.ignoreDown && base != [] && merge != [] && DistinctIds(base) && DistinctIds(merge)
    ensures Compared(o, Table(base), Table(merge)) <==> Ids(base) == Ids(merge) && CommonAgree(o, base, merge)
  {
    hide Agrees, IsOut, AllPass, HasId, CommonAgree, DistinctIds, Ids;
    PassMeans(o, base, merge);
    DistinctIdsCount(base);
    DistinctIdsCount(merge);
    if Compared(o, Table(base), Table(merge)) {
      OnePassFindsAll(base, merge);
    }
    if Ids(base) == Ids(merge) {
      forall j | 0 <= j < |merge| ensures HasId(base, merge[j].chmpxid) {
        OwnId(merge, j);
        IdsAreHad(base, merge[j].chmpxid);
      }
    }
  }

  lemma OwnId(t: seq<Server>, j: nat)
    requires j < |t|
    ensures t[j].chmpxid in Ids(t)
  {
  }

  // Where the comparison is not symmetric.

  function PairSet(x: seq<HostPort>): set<HostPort> {
    set p | p in x
  }

  /** How many different pairs each list of a server has. */
  function PairCounts(s: Server): (int, int, int, int) {
    (|PairSet(s.endpoints)|, |PairSet(s.ctlEndpoints)|, |PairSet(s.forwardPeers)|, |PairSet(s.reversePeers)|)
  }

  lemma CoveredBack(x: seq<HostPort>, y: seq<HostPort>)
    requires Covered(x, y)
    ensures Covered(y, x) <==> |PairSet(x)| == |PairSet(y)|
  {
    assert PairSet(x) <= PairSet(y);
    if Covered(y, x) {
      assert PairSet(x) == PairSet(y);
    }
    if |PairSet(x)| == |PairSet(y)| {
      SubsetOfSameSize(PairSet(x), PairSet(y));
      forall p | p in y ensures p in x {
        assert p in PairSet(x);
      }
    }
  }

  lemma AgreesBack(o: Options, x: Server, y: Server)
    requires Agrees(o, x, y)
    ensures Agrees(o, y, x) <==> PairCounts(x) == PairCounts(y)
  {
    hide Covered, PairSet;
    CoveredBack(x.endpoints, y.endpoints);
    CoveredBack(x.ctlEndpoints, y.ctlEndpoints);
    CoveredBack(x.forwardPeers, y.forwardPeers);
    CoveredBack(x.reversePeers, y.reversePeers);
  }

  /** A comparison that succeeds would succeed with the tables exchanged exactly when
      servers of the same id list equally many different pairs. */
  lemma ExchangedSucceedsWhen(o: Options, base: seq<Server>, merge: seq<Server>)
    requires !o.ignoreDown && DistinctIds(base) && DistinctIds(merge) && base != [] && merge != []
    requires Compared(o, Table(base), Table(merge))
    ensures Compared(o, Table(merge), Table(base)) <==>
              forall i, j :: 0 <= i < |base| && 0 <= j < |merge| && base[i].chmpxid == merge[j].chmpxid ==>
                PairCounts(base[i]) == PairCounts(merge[j])
  {
    hide Agrees, Compared, DistinctIds, PairCounts, Ids;
    NotIgnoringDownMeans(o, base, merge);
    NotIgnoringDownMeans(o, merge, base);
    forall i, j | 0 <= i < |base| && 0 <= j < |merge| && base[i].chmpxid == merge[j].chmpxid
      ensures Agrees(o, base[i], merge[j])
      ensures Agrees(o, merge[j], base[i]) <==> PairCounts(base[i]) == PairCounts(merge[j])
    {
      AgreesBack(o, base[i], merge[j]);
    }
  }

  const NO_PAIR := HostPort("", 0)

  function SampleServer(endpoints: Pairs): Server {
    var none: Pairs := [NO_PAIR, NO_PAIR, NO_PAIR, NO_PAIR];
    Server(1, "a", "", "", Ssl(false, false), endpoints, none, none, none, 8020, 8021, 0, 0, 0x21)
  }

  /** Such a pair of tables: one server, without and with an endpoint. */
  lemma ComparisonIsNotSymmetric(o: Options)
    requires !o.ignoreDown
    ensures var plain := Table([SampleServer([NO_PAIR, NO_PAIR, NO_PAIR, NO_PAIR])]);
            var more := Table([SampleServer([HostPort("b", 80), NO_PAIR, NO_PAIR, NO_PAIR])]);
            Compared(o, plain, more) && !Compared(o, more, plain)
  {
    var x, y := SampleServer([NO_PAIR, NO_PAIR, NO_PAIR, NO_PAIR]),
        SampleServer([HostPort("b", 80), NO_PAIR, NO_PAIR, NO_PAIR]);
    assert y.endpoints[0] in y.endpoints && y.endpoints[0] !in x.endpoints;
    assert y.endpoints[1] == NO_PAIR;
    assert Agrees(o, x, y) && !Agrees(o, y, x);
    assert Passes(o, [x], [y][0]) && !Passes(o, [y], [x][0]);
  }
}
