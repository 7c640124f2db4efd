/** What the comparison of two tables looks at, one field and one server at a time. */
module ServerMeaning {
  import opened ServerStatus
  import opened ServerTable

  /** Two servers that differ in a compared field do not agree, whatever else they have. */
  lemma DifferenceIsSeen(o: Options, x: Server, y: Server)
    requires || (x.name != y.name && !o.checkCustomSeed)
             || x.cuk != y.cuk || x.customSeed != y.customSeed || x.port != y.port || x.ctlPort != y.ctlPort
             || x.ssl.isSsl != y.ssl.isSsl || (x.ssl.isSsl && x.ssl.verifyPeer != y.ssl.verifyPeer)
             || (o.checkStatus && x.baseHash != y.baseHash) || (o.checkStatus && x.pendingHash != y.pendingHash)
             || (o.checkStatus && x.status != y.status)
             || exists p :: || (p in x.endpoints && p !in y.endpoints) || (p in x.ctlEndpoints && p !in y.ctlEndpoints)
                            || (p in x.forwardPeers && p !in y.forwardPeers)
                            || (p in x.reversePeers && p !in y.reversePeers)
    ensures !Agrees(o, x, y)
  {
  }

  /** A server agrees with itself, and it still does after the change of one field exactly
      if the field is the same, or the change is one the comparison does not look at. */
  lemma ChangeIsSeen(o: Options, s: Server)
    ensures Agrees(o, s, s)
    ensures forall v :: Agrees(o, s, s.(name := v)) <==>
              || v == s.name
              || (o.checkCustomSeed && (s.customSeed == s.name || s.customSeed == v
                                        || exists h :: h in o.hostnames(s.name) && h in o.hostnames(v)))
    ensures forall v :: Agrees(o, s, s.(cuk := v)) <==> v == s.cuk
    ensures forall v :: Agrees(o, s, s.(customSeed := v)) <==> v == s.customSeed
    ensures forall v :: Agrees(o, s, s.(ssl := v)) <==> v == s.ssl || (!v.isSsl && !s.ssl.isSsl)
    ensures forall v :: Agrees(o, s, s.(port := v)) <==> v == s.port
    ensures forall v :: Agrees(o, s, s.(ctlPort := v)) <==> v == s.ctlPort
    ensures forall v :: Agrees(o, s, s.(baseHash := v)) <==> !o.checkStatus || v == s.baseHash
    ensures forall v :: Agrees(o, s, s.(pendingHash := v)) <==> !o.checkStatus || v == s.pendingHash
    ensures forall v :: Agrees(o, s, s.(status := v)) <==> !o.checkStatus || v == s.status
    ensures forall v :: Agrees(o, s, s.(endpoints := v)) <==> forall i :: 0 <= i < 4 ==> s.endpoints[i] in v
    ensures forall v :: Agrees(o, s, s.(ctlEndpoints := v)) <==> forall i :: 0 <= i < 4 ==> s.ctlEndpoints[i] in v
    ensures forall v :: Agrees(o, s, s.(forwardPeers := v)) <==> forall i :: 0 <= i < 4 ==> s.forwardPeers[i] in v
    ensures forall v :: Agrees(o, s, s.(reversePeers := v)) <==> forall i :: 0 <= i < 4 ==> s.reversePeers[i] in v
  {
  }

  /** In a table, the change of one server is seen exactly as between the two servers. */
  lemma TableChangeIsSeen(o: Options, t: seq<Server>, i: nat, s: Server)
    requires DistinctIds(t) && i < |t| && s.chmpxid == t[i].chmpxid
    ensures Compared(o, Table(t), Table(t[i := s])) <==> Agrees(o, t[i], s) && (o.ignoreDown ==> Agrees(o, s, t[i]))
  {
    hide Agrees, IsOut, IndexOf, AllPass, HasId, CommonAgree, Compared, Ids;
    var t' := t[i := s];
    SameIds(t, t');
    forall x: Server ensures Agrees(o, x, x) {
      ChangeIsSeen(o, x);
    }
    assert CommonAgree(o, t, t') <==> Agrees(o, t[i], s) by { CommonOfChange(o, t, t', i); }
    assert CommonAgree(o, t', t) <==> Agrees(o, s, t[i]) by { CommonOfChange(o, t', t, i); }
    if o.ignoreDown {
      IgnoringDownMeans(o, t, t');
    } else {
      NotIgnoringDownMeans(o, t, t');
    }
  }

  lemma SameIds(t: seq<Server>, t': seq<Server>)
    requires |t| == |t'| && forall k :: 0 <= k < |t| ==> t[k].chmpxid == t'[k].chmpxid
    ensures Ids(t) == Ids(t') && OthersAreOut(t, t') && OthersAreOut(t', t)
  {
    forall k | 0 <= k < |t| ensures HasId(t, t'[k].chmpxid) && HasId(t', t[k].chmpxid) {}
    forall id ensures id in Ids(t) <==> id in Ids(t') {
      IdsAreHad(t, id);
      IdsAreHad(t', id);
    }
  }

  /** Two tables that differ in one place. */
  lemma CommonOfChange(o: Options, t: seq<Server>, t': seq<Server>, i: nat)
    requires DistinctIds(t) && i < |t| == |t'| && t[i].chmpxid == t'[i].chmpxid
    requires forall k :: 0 <= k < |t| && k != i ==> t[k] == t'[k]
    requires forall x: Server :: Agrees(o, x, x)
    ensures CommonAgree(o, t, t') <==> Agrees(o, t[i], t'[i])
  {
    hide Agrees;
    forall j, k | 0 <= j < |t| && 0 <= k < |t'| && t[j].chmpxid == t'[k].chmpxid ensures j == k {
      assert t'[k].chmpxid == t[k].chmpxid;
    }
  }

  /** A server is missed in a table exactly if servers that are out are not ignored, or it
      is up, not out of service, or has an action or something being done to it. */
  lemma MissingIsSeen(o: Options, t: seq<Server>, i: nat)
    requires DistinctIds(t) && i < |t| && |t| > 1
    ensures var status := t[i].status;
            Compared(o, Table(t), Table(t[..i] + t[i + 1..])) <==>
              && o.ignoreDown && status % 2 == 0 && status / 0x10 % 4 == 1
              && status / 0x100 % 4 == 0 && status / 0x1000 % 4 == 0
  {
    var rest := t[..i] + t[i + 1..];
    if o.ignoreDown {
      MissingMeans(o, t, i, rest);
      IgnoringDownMeans(o, t, rest);
    }
  }

  lemma MissingMeans(o: Options, t: seq<Server>, i: nat, rest: seq<Server>)
    requires DistinctIds(t) && i < |t| && rest == t[..i] + t[i + 1..]
    ensures DistinctIds(rest) && CommonAgree(o, t, rest) && CommonAgree(o, rest, t)
    ensures OthersAreOut(rest, t) && (OthersAreOut(t, rest) <==> IsOut(t[i]))
  {
    hide Agrees, IsOut;
    forall x: Server ensures Agrees(o, x, x) {
      ChangeIsSeen(o, x);
    }
    forall k | 0 <= k < |rest| ensures HasId(t, rest[k].chmpxid) {
      assert rest[k] == t[if k < i then k else k + 1];
    }
    forall k | 0 <= k < |t| && k != i ensures HasId(rest, t[k].chmpxid) {
      assert rest[if k < i then k else k - 1] == t[k];
    }
    assert !HasId(rest, t[i].chmpxid);
  }
}
