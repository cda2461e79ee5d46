/** What the operator derives from a Spec for its tools: the crypto-config file
    (controllers/fabric_util.go) and the host aliases of the chart (controllers/helm_util.go). */
module HelmValues {
  import opened Api

  /* ---- crypto-config.yaml ---- */

  datatype OrdererConfig = OrdererConfig(name: string, domain: string, enableNodeOUs: bool, specs: seq<string>)

  datatype PeerConfig = PeerConfig(name: string, domain: string, enableNodeOUs: bool, template: int, users: int)

  datatype CryptoConfig = CryptoConfig(ordererOrgs: seq<OrdererConfig>, peerOrgs: seq<PeerConfig>)

  // Each organization of the topology, in order, with its hosts or its number of peers.
  predicate Describes(c: CryptoConfig, t: Topology) {
    |c.ordererOrgs| == |t.ordererOrgs| && |c.peerOrgs| == |t.peerOrgs| &&
    (forall i :: 0 <= i < |t.ordererOrgs| ==>
       var o := t.ordererOrgs[i];
       c.ordererOrgs[i] == OrdererConfig(o.name, o.domain, true, o.hosts)) &&
    (forall i :: 0 <= i < |t.peerOrgs| ==>
       var p := t.peerOrgs[i];
       c.peerOrgs[i] == PeerConfig(p.name, p.domain, true, p.peerCount, 1))
  }

  method HostSpecs(hosts: seq<string>) returns (specs: seq<string>)
    ensures specs == hosts
  {
    var filled := new string[|hosts|](_ => "");
    for j := 0 to |hosts|
      invariant filled[..j] == hosts[..j]
    {
      filled[j] := hosts[j];
    }
    specs := filled[..];
  }

  method OrdererConfigs(orgs: seq<OrdererOrg>) returns (r: seq<OrdererConfig>)
    ensures |r| == |orgs|
    ensures forall i :: 0 <= i < |orgs| ==>
      r[i] == OrdererConfig(orgs[i].name, orgs[i].domain, true, orgs[i].hosts)
  {
    var orderers := new OrdererConfig[|orgs|](_ => OrdererConfig("", "", false, []));
    for i := 0 to |orgs|
      invariant forall k :: 0 <= k < i ==>
        orderers[k] == OrdererConfig(orgs[k].name, orgs[k].domain, true, orgs[k].hosts)
    {
      var specs := HostSpecs(orgs[i].hosts);
      orderers[i] := OrdererConfig(orgs[i].name, orgs[i].domain, true, specs);
    }
    r := orderers[..];
  }

  method PeerConfigs(orgs: seq<PeerOrg>) returns (r: seq<PeerConfig>)
    ensures |r| == |orgs|
    ensures forall i :: 0 <= i < |orgs| ==>
      r[i] == PeerConfig(orgs[i].name, orgs[i].domain, true, orgs[i].peerCount, 1)
  {
    var peers := new PeerConfig[|orgs|](_ => PeerConfig("", "", false, 0, 0));
    for i := 0 to |orgs|
      invariant forall k :: 0 <= k < i ==>
        peers[k] == PeerConfig(orgs[k].name, orgs[k].domain, true, orgs[k].peerCount, 1)
    {
      peers[i] := PeerConfig(orgs[i].name, orgs[i].domain, true, orgs[i].peerCount, 1);
    }
    r := peers[..];
  }

  method NewCryptoConfig(t: Topology) returns (c: CryptoConfig)
    ensures Describes(c, t)
    ensures |c.ordererOrgs| == |t.ordererOrgs| && |c.peerOrgs| == |t.peerOrgs|
    ensures forall i :: 0 <= i < |t.ordererOrgs| ==>
      c.ordererOrgs[i].name == t.ordererOrgs[i].name && c.ordererOrgs[i].domain == t.ordererOrgs[i].domain &&
      c.ordererOrgs[i].specs == t.ordererOrgs[i].hosts && c.ordererOrgs[i].enableNodeOUs
    ensures forall i :: 0 <= i < |t.peerOrgs| ==>
      c.peerOrgs[i].name == t.peerOrgs[i].name && c.peerOrgs[i].domain == t.peerOrgs[i].domain &&
      c.peerOrgs[i].template == t.peerOrgs[i].peerCount && c.peerOrgs[i].users == 1 && c.peerOrgs[i].enableNodeOUs
  {
    var orderers := OrdererConfigs(t.ordererOrgs);
    var peers := PeerConfigs(t.peerOrgs);
    c := CryptoConfig(orderers, peers);
  }

  /* ---- Host aliases ---- */

  datatype Service = Service(clusterIP: string, labels: map<string, string>)

  // A missing label reads as the empty text.
  function Label(s: Service, key: string): string {
    if key in s.labels then s.labels[key] else ""
  }

  function AliasOf(s: Service): HostAlias { HostAlias(s.clusterIP, [Label(s, "fqdn")]) }

  function Labelled(services: seq<Service>): seq<Service> {
    if services == [] then []
    else
      var n := |services| - 1;
      Labelled(services[..n]) + if Label(services[n], "addToHostAliases") == "true" then [services[n]] else []
  }

  // The user's aliases and, with actual domains, one for each labelled service after them.
  function AliasesFor(user: seq<HostAlias>, actualDomains: bool, services: seq<Service>): seq<HostAlias> {
    if !actualDomains then user
    else
      var ls := Labelled(services);
      user + seq(|ls|, i requires 0 <= i < |ls| => AliasOf(ls[i]))
  }

  method ListLabelled(services: seq<Service>) returns (list: seq<Service>)
    ensures list == Labelled(services)
  {
    list := [];
    for i := 0 to |services|
      invariant list == Labelled(services[..i])
    {
      assert services[..i + 1][..i] == services[..i];
      if Label(services[i], "addToHostAliases") == "true" {
        list := list + [services[i]];
      }
    }
    assert services[..|services|] == services;
  }

  /* ---- What the aliases say, told of the services' own fields ---- */

  predicate AsksForAlias(s: Service) { "addToHostAliases" in s.labels && s.labels["addToHostAliases"] == "true" }

  // The alias resolves the service's name to its address; a missing fqdn label makes the name empty.
  predicate Resolves(a: HostAlias, s: Service) {
    a.ip == s.clusterIP && |a.hostnames| == 1 &&
    if "fqdn" in s.labels then a.hostnames[0] == s.labels["fqdn"] else a.hostnames[0] == ""
  }

  // picks are the positions, in order, of the services that ask for an alias.
  ghost predicate PicksAsking(picks: seq<nat>, services: seq<Service>) {
    (forall k :: 0 <= k < |picks| ==> picks[k] < |services|) &&
    (forall j, k :: 0 <= j < k < |picks| ==> picks[j] < picks[k]) &&
    (forall i :: 0 <= i < |services| ==> (i in picks <==> AsksForAlias(services[i])))
  }

  // The list holds the picked services.
  predicate ArePicked(list: seq<Service>, picks: seq<nat>, services: seq<Service>) {
    |list| == |picks| && forall k :: 0 <= k < |picks| ==> picks[k] < |services| && list[k] == services[picks[k]]
  }

  lemma OneServiceMore(list: seq<Service>, init: seq<nat>, services: seq<Service>)
    requires |services| > 0 && PicksAsking(init, services[..|services| - 1])
    requires ArePicked(list, init, services[..|services| - 1])
    ensures var n := |services| - 1;
            var asks := AsksForAlias(services[n]);
            PicksAsking(init + if asks then [n] else [], services) &&
            ArePicked(list + if asks then [services[n]] else [], init + if asks then [n] else [], services)
  {
    var n := |services| - 1;
    forall i | 0 <= i < n
      ensures i in init <==> AsksForAlias(services[i])
    {
      assert services[..n][i] == services[i];
    }
  }

  lemma {:induction false} LabelledArePicked(services: seq<Service>) returns (picks: seq<nat>)
    ensures PicksAsking(picks, services) && ArePicked(Labelled(services), picks, services)
  {
    picks := [];
    if services != [] {
      var n := |services| - 1;
      var init := LabelledArePicked(services[..n]);
      OneServiceMore(Labelled(services[..n]), init, services);
      picks := init + if AsksForAlias(services[n]) then [n] else [];
    }
  }

  // The list is the user's, followed with actual domains by one alias for each service that asks, in order.
  ghost predicate ListsAliases(all: seq<HostAlias>, user: seq<HostAlias>, actualDomains: bool, services: seq<Service>) {
    if !actualDomains then all == user
    else exists picks :: PicksAsking(picks, services) && ListsPicked(all, user, services, picks)
  }

  predicate ListsPicked(all: seq<HostAlias>, user: seq<HostAlias>, services: seq<Service>, picks: seq<nat>) {
    |all| == |user| + |picks| && all[..|user|] == user &&
    forall k :: 0 <= k < |picks| ==> picks[k] < |services| && Resolves(all[|user| + k], services[picks[k]])
  }

  lemma AliasesMean(user: seq<HostAlias>, actualDomains: bool, services: seq<Service>)
    ensures ListsAliases(AliasesFor(user, actualDomains, services), user, actualDomains, services)
  {
    if actualDomains {
      var picks := LabelledArePicked(services);
      assert ListsPicked(AliasesFor(user, actualDomains, services), user, services, picks);
    }
  }

  method GetHostAliases(user: seq<HostAlias>, actualDomains: bool, services: seq<Service>)
    returns (all: seq<HostAlias>)
    ensures all == AliasesFor(user, actualDomains, services)
    ensures ListsAliases(all, user, actualDomains, services)
  {
    AliasesMean(user, actualDomains, services);
    all := user;
    if actualDomains {
      var list := ListLabelled(services);
      var aliases := new HostAlias[|list|](_ => HostAlias("", []));
      for i := 0 to |list|
        invariant forall k :: 0 <= k < i ==> aliases[k] == AliasOf(list[k])
      {
        aliases[i] := HostAlias(list[i].clusterIP, [Label(list[i], "fqdn")]);
      }
      all := all + aliases[..];
    }
  }

  /* ---- One and two updates of the chart ---- */

  // The deployed release: its topology and its aliases.
  datatype Deployed = Deployed(topology: Topology, aliases: seq<HostAlias>)

  // The namespace's services are those the chart creates for a topology; their addresses are stable.
  type Chart = Topology -> seq<Service>

  // Installing renders the aliases of the services that are there before the chart is.
  function Deploy(spec: Spec, present: seq<Service>): Deployed {
    Deployed(spec.topology, AliasesFor(spec.hostAliases, spec.topology.useActualDomains, present))
  }

  function Redeploy(chart: Chart, spec: Spec, d: Deployed): Deployed {
    Deployed(spec.topology, AliasesFor(spec.hostAliases, spec.topology.useActualDomains, chart(d.topology)))
  }

  // The aliases name every labelled service that the deployed chart has.
  predicate Complete(chart: Chart, spec: Spec, d: Deployed) {
    d.topology == spec.topology &&
    d.aliases == AliasesFor(spec.hostAliases, spec.topology.useActualDomains, chart(d.topology))
  }

  /** Complete aliases resolve the name of every service of the chart that asks for it to its address, and
      behind the user's own list they name nothing else. */
  lemma CompleteHasEveryService(chart: Chart, spec: Spec, d: Deployed, s: Service)
    requires Complete(chart, spec, d) && spec.topology.useActualDomains
    requires s in chart(spec.topology) && AsksForAlias(s) && "fqdn" in s.labels
    ensures spec.hostAliases <= d.aliases && HostAlias(s.clusterIP, [s.labels["fqdn"]]) in d.aliases
  {
    var services, n := chart(spec.topology), |spec.hostAliases|;
    AliasesMean(spec.hostAliases, true, services);
    var picks :| PicksAsking(picks, services) && ListsPicked(d.aliases, spec.hostAliases, services, picks);
    var i :| 0 <= i < |services| && services[i] == s;
    assert i in picks;
    var k :| 0 <= k < |picks| && picks[k] == i;
    var a := d.aliases[n + k];
    assert Resolves(a, s);
    assert a.hostnames == [s.labels["fqdn"]];
    assert a == HostAlias(s.clusterIP, [s.labels["fqdn"]]);
  }

  lemma CompleteHasNoOther(chart: Chart, spec: Spec, d: Deployed, k: nat)
    requires Complete(chart, spec, d) && spec.topology.useActualDomains
    requires |spec.hostAliases| <= k < |d.aliases|
    ensures exists s :: s in chart(spec.topology) && AsksForAlias(s) && Resolves(d.aliases[k], s)
  {
    var services, n := chart(spec.topology), |spec.hostAliases|;
    AliasesMean(spec.hostAliases, true, services);
    var picks :| PicksAsking(picks, services) && ListsPicked(d.aliases, spec.hostAliases, services, picks);
    assert picks[k - n] in picks;
    assert services[picks[k - n]] in services && Resolves(d.aliases[n + (k - n)], services[picks[k - n]]);
  }

  function Entries(services: seq<Service>): seq<HostAlias> {
    var ls := Labelled(services);
    seq(|ls|, i requires 0 <= i < |ls| => AliasOf(ls[i]))
  }

  // The aliases do not depend on the services, or those deployed before read like those of the Spec.
  predicate ReadsTheSame(chart: Chart, spec: Spec, d: Deployed) {
    spec.topology.useActualDomains ==> Entries(chart(d.topology)) == Entries(chart(spec.topology))
  }

  /** A single update, which is all that more peers get, completes the aliases exactly when the chart's
      labelled services read the same before and after it. */
  lemma SingleUpdateCompletesExactly(chart: Chart, spec: Spec, d: Deployed)
    ensures Complete(chart, spec, Redeploy(chart, spec, d)) <==> ReadsTheSame(chart, spec, d)
  {
    var u := spec.hostAliases;
    var x, y := Entries(chart(d.topology)), Entries(chart(spec.topology));
    assert AliasesFor(u, true, chart(d.topology)) == u + x;
    assert AliasesFor(u, true, chart(spec.topology)) == u + y;
    assert (u + x)[|u|..] == x && (u + y)[|u|..] == y;
  }
}
