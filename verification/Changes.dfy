/** What changed between a network's Spec and the snapshots in its Status
    (getChanges in controllers/fabricnetwork_controller.go). */
module Changes {
  import opened Api

  datatype Change = Change(topology: bool, channel: bool, chaincode: bool, chaincodes: seq<string>,
                           ordererOrgs: bool, peerOrgs: bool,
                           peerCountIncrease: bool, peerCountDecrease: bool, version: bool)
  {
    predicate Any() { topology || channel || chaincode }

    predicate NeedsCertificates() { ordererOrgs || peerOrgs || peerCountIncrease }
  }

  // Organization p of the Spec has more (fewer) peers than its first namesake in olds.
  predicate Grew(p: PeerOrg, olds: seq<PeerOrg>) {
    var q := FirstPeer(olds, p.name);
    q.Some? && p.peerCount > q.value.peerCount
  }

  predicate Shrank(p: PeerOrg, olds: seq<PeerOrg>) {
    var q := FirstPeer(olds, p.name);
    q.Some? && p.peerCount < q.value.peerCount
  }

  predicate Aligned(news: seq<Chaincode>, olds: seq<Chaincode>) {
    |news| == |olds| && forall i :: 0 <= i < |news| ==> news[i].name == olds[i].name
  }

  function ChangedNames(news: seq<Chaincode>, olds: seq<Chaincode>): seq<string>
    requires |news| == |olds|
  {
    if news == [] then []
    else
      var n := |news| - 1;
      ChangedNames(news[..n], olds[..n]) + if news[n] != olds[n] then [news[n].name] else []
  }

  ghost function IncludeList(spec: Snapshot, status: Snapshot): seq<string> {
    if spec.chaincode == status.chaincode && Aligned(spec.chaincodes, status.chaincodes)
    then ChangedNames(spec.chaincodes, status.chaincodes)
    else []
  }

  // The change record, one declarative clause a field.
  ghost function Diff(spec: Snapshot, status: Snapshot): Change {
    var t, u := spec.topology, status.topology;
    var topo := t != u;
    Change(topo,
           spec.channels != status.channels,
           spec.chaincode != status.chaincode || spec.chaincodes != status.chaincodes,
           IncludeList(spec, status),
           topo && OrdererNames(t) != OrdererNames(u),
           topo && PeerNames(t) != PeerNames(u),
           topo && exists p :: p in t.peerOrgs && Grew(p, u.peerOrgs),
           topo && exists p :: p in t.peerOrgs && Shrank(p, u.peerOrgs),
           topo && t.version != u.version)
  }

  /* ---- What the flags mean, told of the two topologies themselves ---- */

  predicate HasPeerOrg(t: Topology, name: string) { exists p :: p in t.peerOrgs && p.name == name }

  predicate HasOrdererOrg(t: Topology, name: string) { exists o :: o in t.ordererOrgs && o.name == name }

  // Some organization is in one of them only.
  ghost predicate PeerOrgsDiffer(t: Topology, u: Topology) {
    exists name :: HasPeerOrg(t, name) != HasPeerOrg(u, name)
  }

  ghost predicate OrdererOrgsDiffer(t: Topology, u: Topology) {
    exists name :: HasOrdererOrg(t, name) != HasOrdererOrg(u, name)
  }

  // q is the first of its name.
  predicate Leads(orgs: seq<PeerOrg>, q: PeerOrg) {
    exists j :: 0 <= j < |orgs| && orgs[j] == q && forall k :: 0 <= k < j ==> orgs[k].name != q.name
  }

  // Some organization of t has more peers than its namesake in u.
  ghost predicate MorePeers(t: Topology, u: Topology) {
    exists p, q :: p in t.peerOrgs && Leads(u.peerOrgs, q) && q.name == p.name && p.peerCount > q.peerCount
  }

  ghost predicate FewerPeers(t: Topology, u: Topology) {
    exists p, q :: p in t.peerOrgs && Leads(u.peerOrgs, q) && q.name == p.name && p.peerCount < q.peerCount
  }

  // Each flag is raised for exactly that difference of a Spec and a Status.
  ghost predicate Flagged(ch: Change, spec: Spec, status: Status) {
    var t, u := spec.topology, status.topology;
    (ch.topology <==> t != u) && (ch.channel <==> spec.channels != status.channels) &&
    (ch.chaincode <==> spec.chaincode != status.chaincode || spec.chaincodes != status.chaincodes) &&
    (ch.ordererOrgs <==> OrdererOrgsDiffer(t, u)) && (ch.peerOrgs <==> PeerOrgsDiffer(t, u)) &&
    (ch.peerCountIncrease <==> t != u && MorePeers(t, u)) && (ch.peerCountDecrease <==> t != u && FewerPeers(t, u)) &&
    (ch.version <==> t.version != u.version)
  }

  lemma {:induction false} FirstPeerLeads(orgs: seq<PeerOrg>, q: PeerOrg)
    ensures Leads(orgs, q) <==> FirstPeer(orgs, q.name) == Some(q)
  {
    if orgs != [] {
      FirstPeerLeads(orgs[1..], q);
      if orgs[0].name == q.name {
        assert orgs[0] == q ==> Leads(orgs, q);
      } else {
        LeadsBehind(orgs, q);
      }
    }
  }

  lemma LeadsBehind(orgs: seq<PeerOrg>, q: PeerOrg)
    requires orgs != [] && orgs[0].name != q.name
    ensures Leads(orgs, q) <==> Leads(orgs[1..], q)
  {
    var rest := orgs[1..];
    if Leads(rest, q) {
      var j :| 0 <= j < |rest| && rest[j] == q && forall k :: 0 <= k < j ==> rest[k].name != q.name;
      assert orgs[j + 1] == q;
      forall k | 0 <= k < j + 1
        ensures orgs[k].name != q.name
      {
        assert k > 0 ==> orgs[k] == rest[k - 1];
      }
    }
    if Leads(orgs, q) {
      var j :| 0 <= j < |orgs| && orgs[j] == q && forall k :: 0 <= k < j ==> orgs[k].name != q.name;
      assert rest[j - 1] == q && forall k :: 0 <= k < j - 1 ==> rest[k] == orgs[k + 1];
    }
  }

  lemma CountsMean(t: Topology, u: Topology)
    ensures (exists p :: p in t.peerOrgs && Grew(p, u.peerOrgs)) <==> MorePeers(t, u)
    ensures (exists p :: p in t.peerOrgs && Shrank(p, u.peerOrgs)) <==> FewerPeers(t, u)
  {
    forall q
      ensures Leads(u.peerOrgs, q) <==> FirstPeer(u.peerOrgs, q.name) == Some(q)
    {
      FirstPeerLeads(u.peerOrgs, q);
    }
  }

  lemma NamesMean(t: Topology, u: Topology)
    ensures PeerNames(t) != PeerNames(u) <==> PeerOrgsDiffer(t, u)
    ensures OrdererNames(t) != OrdererNames(u) <==> OrdererOrgsDiffer(t, u)
  {
    assert forall x: Topology, name :: HasPeerOrg(x, name) <==> name in PeerNames(x);
    assert forall x: Topology, name :: HasOrdererOrg(x, name) <==> name in OrdererNames(x);
  }

  // The difference asks for certificates.
  ghost predicate AsksForCertificates(t: Topology, u: Topology) {
    OrdererOrgsDiffer(t, u) || PeerOrgsDiffer(t, u) || (t != u && MorePeers(t, u))
  }

  lemma CertificatesMean(spec: Snapshot, status: Snapshot)
    ensures Diff(spec, status).NeedsCertificates() <==> AsksForCertificates(spec.topology, status.topology)
  {
    CountsMean(spec.topology, status.topology);
    NamesMean(spec.topology, status.topology);
  }

  /** Every flag of the record says what it is named for. */
  lemma FlagsMean(spec: Spec, status: Status)
    ensures Flagged(Diff(spec.Project(), status.Copy()), spec, status)
  {
    CountsMean(spec.topology, status.topology);
    NamesMean(spec.topology, status.topology);
  }

  method GetChanges(network: FabricNetwork) returns (ch: Change)
    ensures ch == Diff(network.spec.Project(), network.status.Copy())
    ensures Flagged(ch, network.spec, network.status)
  {
    var spec, status := network.spec, network.status;
    var ccSpecChanged := spec.chaincode != status.chaincode;
    ch := Change(spec.topology != status.topology, spec.channels != status.channels,
                 ccSpecChanged || spec.chaincodes != status.chaincodes, [],
                 false, false, false, false, false);
    if ch.chaincode {
      var selected := ChangedChaincodes(ccSpecChanged, spec.chaincodes, status.chaincodes);
      ch := ch.(chaincodes := selected);
    } else {
      EqualMeansNoNames(spec.chaincodes);
    }
    if ch.topology {
      var version, orderers, peers := NameChanges(spec.topology, status.topology);
      var grown, shrunk := CountChanges(spec.topology, status.topology);
      ch := ch.(version := version, ordererOrgs := orderers, peerOrgs := peers,
                peerCountIncrease := grown, peerCountDecrease := shrunk);
    }
    assert ch == Diff(spec.Project(), status.Copy());
    FlagsMean(spec, status);
  }

  method NameChanges(t: Topology, u: Topology) returns (version: bool, orderers: bool, peers: bool)
    ensures version <==> t.version != u.version
    ensures orderers <==> OrdererNames(t) != OrdererNames(u)
    ensures peers <==> PeerNames(t) != PeerNames(u)
  {
    version := t.version != u.version;
    var newOrderers := OrdererOrgNames(t);
    var oldOrderers := OrdererOrgNames(u);
    orderers := newOrderers != oldOrderers;
    var newPeers := PeerOrgNames(t);
    var oldPeers := PeerOrgNames(u);
    peers := newPeers != oldPeers;
  }

  method CountChanges(t: Topology, u: Topology) returns (increase: bool, decrease: bool)
    ensures increase <==> exists p :: p in t.peerOrgs && Grew(p, u.peerOrgs)
    ensures decrease <==> exists p :: p in t.peerOrgs && Shrank(p, u.peerOrgs)
  {
    increase, decrease := false, false;
    for i := 0 to |t.peerOrgs|
      invariant increase <==> exists k :: 0 <= k < i && Grew(t.peerOrgs[k], u.peerOrgs)
      invariant decrease <==> exists k :: 0 <= k < i && Shrank(t.peerOrgs[k], u.peerOrgs)
    {
      var p := t.peerOrgs[i];
      var p2 := PeerOrgByName(u, p.name);
      if p2.Some? {
        if p.peerCount > p2.value.peerCount {
          increase := true;
        }
        if p.peerCount < p2.value.peerCount {
          decrease := true;
        }
      }
    }
  }

  // The chaincode part of getChanges: a name that moved empties the list and ends the loop.
  method ChangedChaincodes(ccSpecChanged: bool, news: seq<Chaincode>, olds: seq<Chaincode>)
    returns (selected: seq<string>)
    ensures selected == if !ccSpecChanged && Aligned(news, olds) then ChangedNames(news, olds) else []
  {
    selected := [];
    if !ccSpecChanged && |news| == |olds| {
      for i := 0 to |news|
        invariant Aligned(news[..i], olds[..i])
        invariant selected == ChangedNames(news[..i], olds[..i])
      {
        assert news[..i + 1][..i] == news[..i] && olds[..i + 1][..i] == olds[..i];
        if news[i].name != olds[i].name {
          selected := [];
          break;
        }
        if news[i] != olds[i] {
          selected := selected + [news[i].name];
        }
      }
      assert news[..|news|] == news && olds[..|olds|] == olds;
    }
  }

  lemma {:induction false} EqualMeansNoNames(ccs: seq<Chaincode>)
    ensures ChangedNames(ccs, ccs) == []
  {
    if ccs != [] {
      EqualMeansNoNames(ccs[..|ccs| - 1]);
    }
  }

  /* ---- The include list ---- */

  // chaincode-flow reads an empty list as every chaincode.
  predicate Selected(names: seq<string>, name: string) {
    names == [] || name in names
  }

  // picks are the positions, in order, at which the two lists differ.
  ghost predicate PicksOut(picks: seq<nat>, news: seq<Chaincode>, olds: seq<Chaincode>)
    requires |news| == |olds|
  {
    (forall k :: 0 <= k < |picks| ==> picks[k] < |news|) &&
    (forall j, k :: 0 <= j < k < |picks| ==> picks[j] < picks[k]) &&
    (forall i :: 0 <= i < |news| ==> (i in picks <==> news[i] != olds[i]))
  }

  // The names are those at the picked positions.
  ghost predicate NamesAt(names: seq<string>, picks: seq<nat>, news: seq<Chaincode>) {
    |names| == |picks| && forall k :: 0 <= k < |picks| ==> picks[k] < |news| && names[k] == news[picks[k]].name
  }

  lemma OnePickMore(init: seq<nat>, news: seq<Chaincode>, olds: seq<Chaincode>)
    requires |news| == |olds| > 0 && PicksOut(init, news[..|news| - 1], olds[..|olds| - 1])
    ensures var n := |news| - 1;
            PicksOut(init + if news[n] != olds[n] then [n] else [], news, olds)
  {
    var n := |news| - 1;
    forall i | 0 <= i < n
      ensures i in init <==> news[i] != olds[i]
    {
      assert news[..n][i] == news[i] && olds[..n][i] == olds[i];
    }
  }

  lemma OneNameMore(names: seq<string>, init: seq<nat>, news: seq<Chaincode>, picked: bool)
    requires |news| > 0 && NamesAt(names, init, news[..|news| - 1])
    ensures var n := |news| - 1;
            NamesAt(names + if picked then [news[n].name] else [], init + if picked then [n] else [], news)
  {
  }

  lemma {:induction false} NamesArePicked(news: seq<Chaincode>, olds: seq<Chaincode>) returns (picks: seq<nat>)
    requires |news| == |olds|
    ensures PicksOut(picks, news, olds) && NamesAt(ChangedNames(news, olds), picks, news)
  {
    picks := [];
    if news != [] {
      var n := |news| - 1;
      var init := NamesArePicked(news[..n], olds[..n]);
      OnePickMore(init, news, olds);
      picks := init + if news[n] != olds[n] then [n] else [];
      OneNameMore(ChangedNames(news[..n], olds[..n]), init, news, news[n] != olds[n]);
    }
  }

  /** Every entry that is new or differs is selected, and all of them when the global settings changed. */
  lemma IncludeCoversChanges(spec: Snapshot, status: Snapshot, i: nat)
    requires i < |spec.chaincodes|
    requires || spec.chaincode != status.chaincode
             || i >= |status.chaincodes|
             || spec.chaincodes[i] != status.chaincodes[i]
    ensures Diff(spec, status).chaincode
    ensures Selected(Diff(spec, status).chaincodes, spec.chaincodes[i].name)
  {
    if spec.chaincode == status.chaincode && Aligned(spec.chaincodes, status.chaincodes) {
      var picks := NamesArePicked(spec.chaincodes, status.chaincodes);
      assert i in picks;
      var k :| 0 <= k < |picks| && picks[k] == i;
      assert ChangedNames(spec.chaincodes, status.chaincodes)[k] == spec.chaincodes[i].name;
    }
  }

  /** Among pending chaincode changes the list is non-empty exactly when settings, lengths and names
      agree; it then holds the names at the differing positions, in order. */
  lemma IncludeIsExact(spec: Snapshot, status: Snapshot) returns (picks: seq<nat>)
    requires Diff(spec, status).chaincode
    ensures Diff(spec, status).chaincodes != [] <==>
            spec.chaincode == status.chaincode && Aligned(spec.chaincodes, status.chaincodes)
    ensures Diff(spec, status).chaincodes != [] ==>
              |spec.chaincodes| == |status.chaincodes| &&
              PicksOut(picks, spec.chaincodes, status.chaincodes) &&
              |Diff(spec, status).chaincodes| == |picks| &&
              forall k :: 0 <= k < |picks| ==> Diff(spec, status).chaincodes[k] == spec.chaincodes[picks[k]].name
  {
    picks := [];
    if spec.chaincode == status.chaincode && Aligned(spec.chaincodes, status.chaincodes) {
      picks := NamesArePicked(spec.chaincodes, status.chaincodes);
      assert exists i :: 0 <= i < |spec.chaincodes| && spec.chaincodes[i] != status.chaincodes[i];
    }
  }

  /* ---- Classification of topology changes ---- */

  predicate Classified(ch: Change) {
    ch.ordererOrgs || ch.peerOrgs || ch.peerCountIncrease || ch.peerCountDecrease || ch.version
  }

  function Sizes(orgs: seq<PeerOrg>): (r: seq<(string, int)>)
    ensures |r| == |orgs|
  {
    seq(|orgs|, i requires 0 <= i < |orgs| => (orgs[i].name, orgs[i].peerCount))
  }

  lemma {:induction false} DistinctOnce<T>(s: seq<T>)
    requires forall i, j :: 0 <= i < j < |s| ==> s[i] != s[j]
    ensures forall x :: multiset(s)[x] == if x in s then 1 else 0
  {
    if s != [] {
      var n := |s| - 1;
      assert s == s[..n] + [s[n]];
      DistinctOnce(s[..n]);
    }
  }

  lemma SameSizesMeansSameElements(a: seq<PeerOrg>, b: seq<PeerOrg>)
    requires multiset(Sizes(a)) == multiset(Sizes(b))
    ensures forall p :: p in a ==> exists q :: q in b && q.name == p.name && q.peerCount == p.peerCount
  {
    forall p | p in a
      ensures exists q :: q in b && q.name == p.name && q.peerCount == p.peerCount
    {
      var i :| 0 <= i < |a| && a[i] == p;
      assert Sizes(a)[i] in multiset(Sizes(a));
      assert (p.name, p.peerCount) in Sizes(b);
      var j :| 0 <= j < |b| && Sizes(b)[j] == (p.name, p.peerCount);
      assert b[j] in b;
    }
  }

  lemma SameElementsMeansSameSizes(t: Topology, u: Topology)
    requires UniquePeers(t) && UniquePeers(u)
    requires forall x :: x in Sizes(t.peerOrgs) <==> x in Sizes(u.peerOrgs)
    ensures multiset(Sizes(t.peerOrgs)) == multiset(Sizes(u.peerOrgs))
  {
    var a, b := Sizes(t.peerOrgs), Sizes(u.peerOrgs);
    assert forall i, j :: 0 <= i < j < |a| ==> a[i].0 != a[j].0;
    assert forall i, j :: 0 <= i < j < |b| ==> b[i].0 != b[j].0;
    DistinctOnce(a);
    DistinctOnce(b);
    forall x
      ensures multiset(a)[x] == multiset(b)[x]
    {
      assert x in a <==> x in b;
    }
  }

  // Equal names and no grown or shrunk organization: each pair of t occurs in u.
  lemma SizesAgree(t: Topology, u: Topology, x: (string, int))
    requires UniquePeers(u)
    requires PeerNames(t) == PeerNames(u)
    requires forall p :: p in t.peerOrgs ==> !Grew(p, u.peerOrgs) && !Shrank(p, u.peerOrgs)
    requires x in Sizes(t.peerOrgs)
    ensures x in Sizes(u.peerOrgs)
  {
    var i :| 0 <= i < |t.peerOrgs| && Sizes(t.peerOrgs)[i] == x;
    var p := t.peerOrgs[i];
    assert p.name in PeerNames(t);
    var q :| q in u.peerOrgs && q.name == p.name;
    FirstPeerIsTheOne(u.peerOrgs, q);
    assert !Grew(p, u.peerOrgs) && !Shrank(p, u.peerOrgs);
    var j :| 0 <= j < |u.peerOrgs| && u.peerOrgs[j] == q;
    assert Sizes(u.peerOrgs)[j] == x;
  }

  lemma SizesAgreeBack(t: Topology, u: Topology, x: (string, int))
    requires UniquePeers(t) && UniquePeers(u)
    requires PeerNames(t) == PeerNames(u)
    requires forall p :: p in t.peerOrgs ==> !Grew(p, u.peerOrgs) && !Shrank(p, u.peerOrgs)
    requires x in Sizes(u.peerOrgs)
    ensures x in Sizes(t.peerOrgs)
  {
    var j :| 0 <= j < |u.peerOrgs| && Sizes(u.peerOrgs)[j] == x;
    var q := u.peerOrgs[j];
    assert q.name in PeerNames(u);
    var p :| p in t.peerOrgs && p.name == q.name;
    FirstPeerIsTheOne(u.peerOrgs, q);
    assert !Grew(p, u.peerOrgs) && !Shrank(p, u.peerOrgs);
    var i :| 0 <= i < |t.peerOrgs| && t.peerOrgs[i] == p;
    assert Sizes(t.peerOrgs)[i] == x;
  }

  lemma UnchangedSizesRaiseNoFlag(t: Topology, u: Topology, p: PeerOrg)
    requires UniquePeers(u)
    requires multiset(Sizes(t.peerOrgs)) == multiset(Sizes(u.peerOrgs))
    requires p in t.peerOrgs
    ensures p.name in PeerNames(u) && !Grew(p, u.peerOrgs) && !Shrank(p, u.peerOrgs)
  {
    SameSizesMeansSameElements(t.peerOrgs, u.peerOrgs);
    var q :| q in u.peerOrgs && q.name == p.name && q.peerCount == p.peerCount;
    FirstPeerIsTheOne(u.peerOrgs, q);
  }

  /** A changed topology raises no flag exactly when the version, the set of orderer organizations and
      the bag of peer organizations with their sizes all stayed the same: the rest (TLS and domain
      switches, domains, hosts, order) is what the reconciler calls unexpected. */
  lemma UnclassifiedExactly(spec: Snapshot, status: Snapshot)
    requires UniquePeers(spec.topology) && UniquePeers(status.topology)
    requires spec.topology != status.topology
    ensures !Classified(Diff(spec, status)) <==>
            spec.topology.version == status.topology.version &&
            OrdererNames(spec.topology) == OrdererNames(status.topology) &&
            multiset(Sizes(spec.topology.peerOrgs)) == multiset(Sizes(status.topology.peerOrgs))
  {
    var t, u := spec.topology, status.topology;
    if !Classified(Diff(spec, status)) {
      forall x
        ensures x in Sizes(t.peerOrgs) <==> x in Sizes(u.peerOrgs)
      {
        if x in Sizes(t.peerOrgs) { SizesAgree(t, u, x); }
        if x in Sizes(u.peerOrgs) { SizesAgreeBack(t, u, x); }
      }
      SameElementsMeansSameSizes(t, u);
    }
    if multiset(Sizes(t.peerOrgs)) == multiset(Sizes(u.peerOrgs)) {
      forall p | p in t.peerOrgs
        ensures p.name in PeerNames(u) && !Grew(p, u.peerOrgs) && !Shrank(p, u.peerOrgs)
      {
        UnchangedSizesRaiseNoFlag(t, u, p);
      }
      forall p | p in u.peerOrgs
        ensures p.name in PeerNames(t)
      {
        UnchangedSizesRaiseNoFlag(u, t, p);
      }
      assert PeerNames(t) == PeerNames(u);
    }
  }
}
