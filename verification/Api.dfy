/** The FabricNetwork resource: its Spec, its Status and the topology lookups
    (api/v1alpha1/fabricnetwork_types.go). Empty strings of enumerated fields
    have their own constructors here. */
module Api {
  datatype Option<+T> = None | Some(value: T)

  // StateUnset is the empty string; Unknown stands for any text that is no constant.
  datatype State =
    | StateUnset | StateNew | StateReady | StateRejected | StateInvalid | StateFailed
    | StateHelmChartInstalled | StateHelmChartNeedsUpdate | StateHelmChartNeedsDoubleUpdate
    | StateHelmChartReady
    | StateChannelFlowSubmitted | StateChannelFlowCompleted
    | StateChaincodeFlowSubmitted | StateChaincodeFlowCompleted
    | StatePeerOrgFlowSubmitted | StatePeerOrgFlowCompleted
    | Unknown(text: string)

  datatype NextFlow = NextFlowUnset | NextFlowNone | NextFlowPeerOrgFlow

  datatype OrdererOrg = OrdererOrg(name: string, domain: string, hosts: seq<string>)

  datatype PeerOrg = PeerOrg(name: string, domain: string, peerCount: int)

  datatype Topology = Topology(version: string, tlsEnabled: bool, useActualDomains: bool,
                               ordererOrgs: seq<OrdererOrg>, peerOrgs: seq<PeerOrg>)

  datatype Channel = Channel(name: string, orgs: seq<string>)

  datatype CcChannel = CcChannel(name: string, orgs: seq<string>, policy: string)

  datatype Chaincode = Chaincode(name: string, version: string, language: string,
                                 orgs: seq<string>, channels: seq<CcChannel>)

  datatype ChaincodeConfig = ChaincodeConfig(version: string, language: string, folder: string)

  datatype HostAlias = HostAlias(ip: string, hostnames: seq<string>)

  // The four parts of a Spec that Status keeps a copy of.
  datatype Snapshot = Snapshot(topology: Topology, channels: seq<Channel>,
                               chaincode: ChaincodeConfig, chaincodes: seq<Chaincode>)

  datatype Spec = Spec(genesisSecret: string, cryptoSecret: string, hostAliases: seq<HostAlias>,
                       topology: Topology, channels: seq<Channel>,
                       chaincode: ChaincodeConfig, chaincodes: seq<Chaincode>,
                       forceState: State)
  {
    function Project(): Snapshot { Snapshot(topology, channels, chaincode, chaincodes) }
  }

  // workflow numbers the Argo workflow the state waits for; None is the empty name.
  datatype Status = Status(state: State, message: string, workflow: Option<nat>, nextFlow: NextFlow,
                           topology: Topology, channels: seq<Channel>,
                           chaincode: ChaincodeConfig, chaincodes: seq<Chaincode>)
  {
    function Copy(): Snapshot { Snapshot(topology, channels, chaincode, chaincodes) }
  }

  const INITIAL_STATUS := Status(StateUnset, "", None, NextFlowUnset,
                                 Topology("", false, false, [], []), [],
                                 ChaincodeConfig("", "", ""), [])

  // The copy of a resource that one Reconcile call reads, changes and throws away.
  class FabricNetwork {
    const name: string
    var spec: Spec
    var status: Status

    constructor (name: string, spec: Spec, status: Status)
      ensures this.name == name && this.spec == spec && this.status == status
    {
      this.name := name;
      this.spec := spec;
      this.status := status;
    }

    method SetSnapshots()
      modifies this`status
      ensures status.Copy() == spec.Project()
      ensures status == old(status).(topology := spec.topology, channels := spec.channels,
                                     chaincode := spec.chaincode, chaincodes := spec.chaincodes)
    {
      status := status.(topology := spec.topology);
      status := status.(channels := spec.channels);
      status := status.(chaincode := spec.chaincode);
      status := status.(chaincodes := spec.chaincodes);
    }
  }

  // The values the schema admits for spec.forceState; the three Submitted states are not among them.
  predicate Forceable(s: State) {
    s in {StateNew, StateReady, StateHelmChartInstalled, StateHelmChartNeedsUpdate,
          StateHelmChartNeedsDoubleUpdate, StateHelmChartReady, StateChannelFlowCompleted,
          StateChaincodeFlowCompleted, StatePeerOrgFlowCompleted}
  }

  ghost function OrdererNames(t: Topology): set<string> { set o | o in t.ordererOrgs :: o.name }

  ghost function PeerNames(t: Topology): set<string> { set p | p in t.peerOrgs :: p.name }

  predicate UniquePeers(t: Topology) {
    forall i, j :: 0 <= i < j < |t.peerOrgs| ==> t.peerOrgs[i].name != t.peerOrgs[j].name
  }

  // The first organization of that name, as the early-return loop finds it.
  function FirstPeer(orgs: seq<PeerOrg>, name: string): (r: Option<PeerOrg>)
    ensures r.None? <==> forall p :: p in orgs ==> p.name != name
    ensures r.Some? ==> r.value in orgs && r.value.name == name
  {
    if orgs == [] then None
    else if orgs[0].name == name then Some(orgs[0])
    else FirstPeer(orgs[1..], name)
  }

  lemma {:induction false} FirstPeerIsTheOne(orgs: seq<PeerOrg>, p: PeerOrg)
    requires p in orgs
    requires forall i, j :: 0 <= i < j < |orgs| ==> orgs[i].name != orgs[j].name
    ensures FirstPeer(orgs, p.name) == Some(p)
  {
  }

  method OrdererOrgNames(t: Topology) returns (names: map<string, bool>)
    ensures names.Keys == OrdererNames(t)
    ensures forall n :: n in names ==> names[n]
  {
    names := map[];
    for i := 0 to |t.ordererOrgs|
      invariant names.Keys == set o | o in t.ordererOrgs[..i] :: o.name
      invariant forall n :: n in names ==> names[n]
    {
      assert t.ordererOrgs[..i + 1] == t.ordererOrgs[..i] + [t.ordererOrgs[i]];
      names := names[t.ordererOrgs[i].name := true];
    }
    assert t.ordererOrgs[..|t.ordererOrgs|] == t.ordererOrgs;
  }

  method PeerOrgNames(t: Topology) returns (names: map<string, bool>)
    ensures names.Keys == PeerNames(t)
    ensures forall n :: n in names ==> names[n]
  {
    names := map[];
    for i := 0 to |t.peerOrgs|
      invariant names.Keys == set p | p in t.peerOrgs[..i] :: p.name
      invariant forall n :: n in names ==> names[n]
    {
      assert t.peerOrgs[..i + 1] == t.peerOrgs[..i] + [t.peerOrgs[i]];
      names := names[t.peerOrgs[i].name := true];
    }
    assert t.peerOrgs[..|t.peerOrgs|] == t.peerOrgs;
  }

  method PeerOrgByName(t: Topology, name: string) returns (r: Option<PeerOrg>)
    ensures r == FirstPeer(t.peerOrgs, name)
  {
    for i := 0 to |t.peerOrgs|
      invariant FirstPeer(t.peerOrgs, name) == FirstPeer(t.peerOrgs[i..], name)
    {
      if t.peerOrgs[i].name == name {
        return Some(t.peerOrgs[i]);
      }
    }
    return None;
  }
}
