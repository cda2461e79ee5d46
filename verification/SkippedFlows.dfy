/** Which changes run their flows before the network is Ready again, and which do not. */
module SkippedFlows {
  import opened Api
  import opened Archive
  import opened Changes
  import opened Cluster
  import opened Diagram
  import opened Refinement
  import opened Runs
  import opened Safety
  import opened Ownership
  import opened Milestones
  import opened Effects
  import opened Convergence

  // The topology change is classified in a way that sets NextFlow to None.
  predicate SetsNone(ch: Change) {
    !ch.peerOrgs && (ch.ordererOrgs || (!ch.peerCountIncrease && (ch.peerCountDecrease || ch.version)))
  }

  /* ---- The premises, told of the resource itself ---- */

  // The topology change is such that its flows are skipped.
  ghost predicate DropsFlows(n: Resource) {
    var t, u := n.spec.topology, n.status.topology;
    t != u && !PeerOrgsDiffer(t, u) &&
    (OrdererOrgsDiffer(t, u) || (!MorePeers(t, u) && (FewerPeers(t, u) || t.version != u.version)))
  }

  predicate ChaincodesDiffer(n: Resource) {
    n.spec.chaincode != n.status.chaincode || n.spec.chaincodes != n.status.chaincodes
  }

  // Nothing of the Spec is missing in the Status.
  predicate UpToDate(n: Resource) {
    n.spec.topology == n.status.topology && n.spec.channels == n.status.channels && !ChaincodesDiffer(n)
  }

  lemma PendingMeans(n: Resource)
    ensures Flagged(Pending(n), n.spec, n.status)
    ensures SetsNone(Pending(n)) <==> DropsFlows(n)
    ensures !Pending(n).Any() <==> UpToDate(n)
  {
    FlagsMean(n.spec, n.status);
  }

  // The call wrote the status.
  predicate Moved(v: View, r: View) { r.net.status != v.net.status }

  lemma ReadyMoves(v: View, env: Env)
    requires v.net.status.state.StateReady? && Moved(v, StepReady(v, env).view)
    ensures var ch, st, r := Pending(v.net), TakeSnapshots(v.net.status, v.net.spec), StepReady(v, env).view;
            ch.Any() && r.net.spec == v.net.spec &&
            if Classified(ch) then r.net.status == AfterTopologyChange(st, ch)
            else
              r.workflows == v.workflows + [Workflow(ReadyFlow(ch), v.name, OtherPhase(""), false)] &&
              r.net.status == To(st, ReadyFlowState(ch), "", Some(|v.workflows|))
  {
    MakeCryptoIsQuiet(v, v, env);
  }

  function ReadyFlow(ch: Change): Flow {
    if ch.channel then ChannelFlow else ChaincodeFlow(ch.chaincodes)
  }

  function ReadyFlowState(ch: Change): State {
    if ch.channel then StateChannelFlowSubmitted else StateChaincodeFlowSubmitted
  }

  /** A write from Ready takes every pending change into the snapshots, so none is found again. */
  lemma ReadyForgetsChanges(v: View, env: Env)
    requires v.net.status.state.StateReady? && Moved(v, StepReady(v, env).view)
    ensures UpToDate(StepReady(v, env).view.net) && !Pending(StepReady(v, env).view.net).Any()
  {
    ReadyMoves(v, env);
  }

  /** Changed channels found in Ready get their channel-flow exactly when the topology change that may
      come with them does not set NextFlow to None; otherwise they are saved as done without it. */
  lemma ChannelFlowIsToDoExactly(v: View, env: Env)
    requires v.net.status.state.StateReady? && !v.net.status.nextFlow.NextFlowNone? && Pending(v.net).channel
    requires Moved(v, StepReady(v, env).view)
    ensures var r := StepReady(v, env).view;
            Succeeded(ChannelFlow) in ToDo(r.net.status, r.workflows) <==> !SetsNone(Pending(v.net))
  {
    ReadyMoves(v, env);
    NoFlowsWithoutNone();
  }

  // The list for changed chaincodes alone, told of Spec and Status: the names of those that differ, in order, if
  // settings, length and the names at each position agree, and otherwise none, which stands for all.
  ghost predicate ChoosesChanged(n: Resource, chosen: seq<string>) {
    var news, olds := n.spec.chaincodes, n.status.chaincodes;
    if n.spec.chaincode == n.status.chaincode && |news| == |olds| &&
       forall i :: 0 <= i < |news| ==> news[i].name == olds[i].name
    then exists picks :: PicksOut(picks, news, olds) && NamesAt(chosen, picks, news)
    else chosen == []
  }

  lemma PendingChoosesChanged(n: Resource)
    requires ChaincodesDiffer(n)
    ensures ChoosesChanged(n, Pending(n).chaincodes)
  {
    var spec, status := n.spec.Project(), n.status.Copy();
    FlagsMean(n.spec, n.status);
    var picks := IncludeIsExact(spec, status);
    if spec.chaincode == status.chaincode && Aligned(spec.chaincodes, status.chaincodes) {
      assert NamesAt(Diff(spec, status).chaincodes, picks, spec.chaincodes);
    }
  }

  // Nothing in the topologies asks for another chart.
  ghost predicate ChartStays(n: Resource) {
    var t, u := n.spec.topology, n.status.topology;
    t == u || !(PeerOrgsDiffer(t, u) || OrdererOrgsDiffer(t, u) || MorePeers(t, u) || FewerPeers(t, u) ||
                t.version != u.version)
  }

  /** The flow that a write out of Ready waits for, if the chart stays: the channel-flow for other channels, and
      otherwise a chaincode-flow for exactly the chaincodes that differ, under this network's label. */
  lemma ReadySubmits(v: View, env: Env)
    requires v.net.status.state.StateReady? && ChartStays(v.net)
    requires Moved(v, StepReady(v, env).view)
    ensures var r, i := StepReady(v, env).view, |v.workflows|;
            |r.workflows| == i + 1 && r.workflows[..i] == v.workflows && r.workflows[i].owner == v.name &&
            r.net.status.workflow == Some(i) &&
            if v.net.spec.channels != v.net.status.channels then
              r.workflows[i].flow == ChannelFlow && r.net.status.state.StateChannelFlowSubmitted?
            else
              ChaincodesDiffer(v.net) && r.workflows[i].flow.ChaincodeFlow? &&
              ChoosesChanged(v.net, r.workflows[i].flow.chosen) && r.net.status.state.StateChaincodeFlowSubmitted?
  {
    FlagsMean(v.net.spec, v.net.status);
    ReadyMoves(v, env);
    if !Pending(v.net).channel {
      PendingChoosesChanged(v.net);
    }
  }

  // The lists of each NextFlow, spelled out.
  lemma NoFlowsWithoutNone()
    ensures Succeeded(ChannelFlow) in FlowsFor(NextFlowUnset) && Succeeded(ALL_CHAINCODES) in FlowsFor(NextFlowUnset)
    ensures Succeeded(ChannelFlow) in FlowsFor(NextFlowPeerOrgFlow)
    ensures Succeeded(ALL_CHAINCODES) in FlowsFor(NextFlowPeerOrgFlow)
    ensures forall e :: e in [Launched, AllReady] + FlowsFor(NextFlowNone) ==> e in [Launched, AllReady]
  {
  }

  // Every chaincode that is new or changed, and all if the global settings changed, are chosen.
  ghost predicate CoversPending(n: Resource, chosen: seq<string>) {
    forall i :: 0 <= i < |n.spec.chaincodes| &&
                (n.spec.chaincode != n.status.chaincode || i >= |n.status.chaincodes| ||
                 n.spec.chaincodes[i] != n.status.chaincodes[i])
                ==> Selected(chosen, n.spec.chaincodes[i].name)
  }

  lemma PendingIsCovered(n: Resource)
    ensures CoversPending(n, Pending(n).chaincodes) && CoversPending(n, [])
  {
    forall i | 0 <= i < |n.spec.chaincodes| &&
               (n.spec.chaincode != n.status.chaincode || i >= |n.status.chaincodes| ||
                n.spec.chaincodes[i] != n.status.chaincodes[i])
      ensures Selected(Pending(n).chaincodes, n.spec.chaincodes[i].name)
    {
      IncludeCoversChanges(n.spec.Project(), n.status.Copy(), i);
    }
  }

  /** Changed chaincodes found in Ready lead to a chaincode-flow that covers them, exactly unless the
      topology change beside them sets NextFlow to None. */
  lemma ChaincodeFlowIsToDoExactly(v: View, env: Env)
    requires v.net.status.state.StateReady? && !v.net.status.nextFlow.NextFlowNone? && Pending(v.net).chaincode
    requires Moved(v, StepReady(v, env).view)
    ensures var r := StepReady(v, env).view;
            (exists chosen :: Succeeded(ChaincodeFlow(chosen)) in ToDo(r.net.status, r.workflows) &&
                              CoversPending(v.net, chosen))
            <==> !SetsNone(Pending(v.net))
  {
    ReadyMoves(v, env);
    NoFlowsWithoutNone();
    PendingIsCovered(v.net);
    var r, ch := StepReady(v, env).view, Pending(v.net);
    if !SetsNone(ch) {
      if !Classified(ch) && !ch.channel {
        assert Succeeded(ChaincodeFlow(ch.chaincodes)) in ToDo(r.net.status, r.workflows);
      } else {
        assert Succeeded(ChaincodeFlow([])) in ToDo(r.net.status, r.workflows);
      }
    }
  }

  // More peers, and not only orderer organizations changed besides.
  ghost predicate RunsFlowsForPeers(n: Resource) {
    var t, u := n.spec.topology, n.status.topology;
    t != u && MorePeers(t, u) && (OrdererOrgsDiffer(t, u) ==> PeerOrgsDiffer(t, u))
  }

  lemma FlaggedForPeers(n: Resource)
    requires RunsFlowsForPeers(n)
    ensures Pending(n).peerCountIncrease && (Pending(n).ordererOrgs ==> Pending(n).peerOrgs)
  {
    PendingMeans(n);
  }

  // By the flags: such a change leads to channel-flow and a chaincode-flow over all chaincodes.
  lemma MorePeersRunFlows(v: View, env: Env)
    requires v.net.status.state.StateReady? && !v.net.status.nextFlow.NextFlowNone?
    requires Pending(v.net).peerCountIncrease && (Pending(v.net).ordererOrgs ==> Pending(v.net).peerOrgs)
    requires Moved(v, StepReady(v, env).view)
    ensures var r := StepReady(v, env).view;
            Within([Launched, AllReady, Succeeded(ChannelFlow), Succeeded(ALL_CHAINCODES)],
                   ToDo(r.net.status, r.workflows))
  {
    ReadyMoves(v, env);
    BothFlowsWithin();
  }

  lemma BothFlowsWithin()
    ensures forall f: NextFlow :: !f.NextFlowNone? ==>
      Within([Launched, AllReady, Succeeded(ChannelFlow), Succeeded(ALL_CHAINCODES)],
             [Launched, AllReady] + FlowsFor(f))
  {
    var flows := FlowsFor(NextFlowUnset);
    WithinSame(flows);
    WithinLonger(flows, [Succeeded(PeerOrgFlow)], flows);
    assert FlowsFor(NextFlowPeerOrgFlow) == [Succeeded(PeerOrgFlow)] + flows;
    WithinFront([Launched, AllReady], flows, flows);
    WithinFront([Launched, AllReady], flows, FlowsFor(NextFlowPeerOrgFlow));
    assert [Launched, AllReady, Succeeded(ChannelFlow), Succeeded(ALL_CHAINCODES)] == [Launched, AllReady] + flows;
  }

  /* ---- Until Ready comes back ---- */

  // A call found this network Ready and wrote its status.
  ghost predicate LeftReady(c: Cluster, name: string, env: Env) {
    Orderly(c) && AllWaitForOwn(c) && name in c.networks && env.readable &&
    c.networks[name].status.state.StateReady? &&
    Step(ViewOf(c, name), env).view.net.status != c.networks[name].status
  }

  // A run that follows, without the network's deletion, at the end of which it is Ready again.
  ghost predicate ReadyAgain(c: Cluster, acts: seq<Action>, name: string) {
    AllForceFree(acts) && Delete(name) !in acts && name in Run(c, acts).networks &&
    Run(c, acts).networks[name].status.state.StateReady?
  }

  // What happened to the network in that run.
  ghost function Between(c: Cluster, acts: seq<Action>, name: string): seq<Event>
    requires name in c.networks && name in Run(c, acts).networks
  {
    Since(c.networks[name], Run(c, acts).networks[name])
  }

  lemma LeavesOrderly(c: Cluster, name: string, env: Env)
    requires LeftReady(c, name, env)
    ensures var d := Next(c, Call(name, env));
            Orderly(d) && AllWaitForOwn(d) && name in d.networks &&
            d.networks[name].status == Step(ViewOf(c, name), env).view.net.status &&
            d.workflows == Step(ViewOf(c, name), env).view.workflows
  {
    NextKeepsOrderly(c, Call(name, env));
    NextKeepsWaiting(c, Call(name, env));
  }

  lemma {:induction false} WithinIn<T>(a: seq<T>, b: seq<T>, x: T)
    requires Within(a, b) && x in a
    ensures x in b
  {
    if a[0] != b[0] {
      WithinIn(a, b[1..], x);
    } else if x != a[0] {
      WithinIn(a[1..], b[1..], x);
    }
  }

  /** Changed peer organizations, once a call acted on them: before Ready comes back the chart is updated
      and ready, and peer-org-flow, channel-flow and a full chaincode-flow have succeeded, in this order. */
  lemma ChangedPeerOrgsRunAllFlows(c: Cluster, name: string, env: Env, acts: seq<Action>)
    requires LeftReady(c, name, env)
    requires PeerOrgsDiffer(c.networks[name].spec.topology, c.networks[name].status.topology)
    requires ReadyAgain(Next(c, Call(name, env)), acts, name)
    ensures Within([Launched, AllReady, Succeeded(PeerOrgFlow), Succeeded(ChannelFlow), Succeeded(ALL_CHAINCODES)],
                   Between(Next(c, Call(name, env)), acts, name))
  {
    PendingMeans(c.networks[name]);
    LeavesOrderly(c, name, env);
    ReadyMoves(Reconstruct(ViewOf(c, name), env).view, env);
    PeerOrgsRunAllFlows(Next(c, Call(name, env)), acts, name);
  }

  /** The same for more peers, without peer-org-flow, unless only orderer organizations changed besides. */
  lemma MorePeersRunFlowsUntilReady(c: Cluster, name: string, env: Env, acts: seq<Action>)
    requires LeftReady(c, name, env) && RunsFlowsForPeers(c.networks[name])
    requires ReadyAgain(Next(c, Call(name, env)), acts, name)
    ensures Within([Launched, AllReady, Succeeded(ChannelFlow), Succeeded(ALL_CHAINCODES)],
                   Between(Next(c, Call(name, env)), acts, name))
  {
    var d, m := Next(c, Call(name, env)), Reconstruct(ViewOf(c, name), env).view;
    FlaggedForPeers(c.networks[name]);
    LeavesOrderly(c, name, env);
    MorePeersRunFlows(m, env);
    ReadyHasDoneAll(d, acts, name);
    WithinTrans([Launched, AllReady, Succeeded(ChannelFlow), Succeeded(ALL_CHAINCODES)],
                ToDo(d.networks[name].status, d.workflows), Between(d, acts, name));
  }

  /** Changed channels have had a channel-flow when Ready comes back, if no flag beside them set None. */
  lemma ChannelsHaveTheirFlow(c: Cluster, name: string, env: Env, acts: seq<Action>)
    requires LeftReady(c, name, env)
    requires c.networks[name].spec.channels != c.networks[name].status.channels && !DropsFlows(c.networks[name])
    requires ReadyAgain(Next(c, Call(name, env)), acts, name)
    ensures Succeeded(ChannelFlow) in Between(Next(c, Call(name, env)), acts, name)
  {
    var d, m := Next(c, Call(name, env)), Reconstruct(ViewOf(c, name), env).view;
    PendingMeans(c.networks[name]);
    LeavesOrderly(c, name, env);
    ChannelFlowIsToDoExactly(m, env);
    ReadyHasDoneAll(d, acts, name);
    WithinIn(ToDo(d.networks[name].status, d.workflows), Between(d, acts, name), Succeeded(ChannelFlow));
  }

  /** And changed chaincodes a chaincode-flow that covers all of them. */
  lemma ChaincodesHaveTheirFlow(c: Cluster, name: string, env: Env, acts: seq<Action>)
    requires LeftReady(c, name, env)
    requires ChaincodesDiffer(c.networks[name]) && !DropsFlows(c.networks[name])
    requires ReadyAgain(Next(c, Call(name, env)), acts, name)
    ensures exists chosen :: Succeeded(ChaincodeFlow(chosen)) in Between(Next(c, Call(name, env)), acts, name) &&
                             CoversPending(c.networks[name], chosen)
  {
    var d, m := Next(c, Call(name, env)), Reconstruct(ViewOf(c, name), env).view;
    PendingMeans(c.networks[name]);
    LeavesOrderly(c, name, env);
    ChaincodeFlowIsToDoExactly(m, env);
    var chosen :| Succeeded(ChaincodeFlow(chosen)) in ToDo(d.networks[name].status, d.workflows) &&
                  CoversPending(c.networks[name], chosen);
    ReadyHasDoneAll(d, acts, name);
    WithinIn(ToDo(d.networks[name].status, d.workflows), Between(d, acts, name), Succeeded(ChaincodeFlow(chosen)));
  }

  /* ---- PeerOrgFlow ---- */

  // A call in Ready that gets to its write of a change that sets None.
  ghost predicate WritesNone(v: View, env: Env) {
    v.net.status.state.StateReady? && DropsFlows(v.net) && Reconstruct(v, env).ok && env.valuesWritten &&
    Certify(Reconstruct(v, env).view, Pending(v.net), env).ok && !env.save1.NotWritten?
  }

  lemma NoneIsWritten(v: View, env: Env)
    requires v.net.status.state.StateReady? && SetsNone(Pending(v.net))
    ensures Moved(v, StepReady(v, env).view) <==>
            env.valuesWritten && Certify(v, Pending(v.net), env).ok && !env.save1.NotWritten?
  {
    MakeCryptoIsQuiet(v, v, env);
  }

  /** PeerOrgFlow sticks: only a call in Ready that gets to write a change which sets None takes it away. */
  lemma PeerOrgFlowSticks(v: View, env: Env)
    requires v.net.spec.forceState.StateUnset? && Sane(v.net) && v.net.status.nextFlow.NextFlowPeerOrgFlow?
    ensures Step(v, env).view.net.status.nextFlow.NextFlowPeerOrgFlow? <==> !WritesNone(v, env)
  {
    PendingMeans(v.net);
    StepMoves(v, env);
    if v.net.status.state.StateReady? {
      var m := Reconstruct(v, env).view;
      if SetsNone(Pending(v.net)) {
        NoneIsWritten(m, env);
      }
      if Moved(v, Step(v, env).view) {
        ReadyMoves(m, env);
      }
    }
  }

  /* ---- Ready without any flow ---- */

  // Everything outside works.
  function Smooth(tree: Listing): Env {
    Env(true, true, Written, Written, Written, true, ChartDirCreated, true, true, true, tree, Written, true,
        UninstallOk, DeleteAll, InstallOk, UpgradeOk, UpgradeOk, Some([]), Some([]), true, true, true, SubmitOk)
  }

  ghost function Smoothly(v: View, tree: Listing): View { Step(v, Smooth(tree)).view }

  ghost predicate NoFlowSince(a: Resource, b: Resource) {
    Grows(a, b) && forall f :: Succeeded(f) !in Since(a, b)
  }

  lemma NoFlowOf(a: Resource, b: Resource, notes: seq<Event>)
    requires b.journal == a.journal + notes && forall e :: e in notes ==> !e.Succeeded?
    ensures NoFlowSince(a, b)
  {
    assert Since(a, b) == notes;
  }

  lemma NoFlowTrans(a: Resource, b: Resource, c: Resource)
    requires NoFlowSince(a, b) && NoFlowSince(b, c)
    ensures NoFlowSince(a, c)
  {
  }

  // How many smooth calls are left to Ready with NextFlow None.
  function CallsLeft(s: State, actualDomains: bool): nat {
    match s
    case StateNew => if actualDomains then 4 else 3
    case StateHelmChartNeedsUpdate => 3
    case StateHelmChartNeedsDoubleUpdate => 3
    case StateHelmChartInstalled => 2
    case StateHelmChartReady => 1
    case _ => 0
  }

  // A Secret that the user provides can be extracted.
  ghost predicate Installable(v: View) {
    v.net.spec.cryptoSecret != "" ==> Download(v.(dir := Some(map[])), Smooth(End)).ok
  }

  // On its way to Ready with NextFlow None, its own release and its directory.
  ghost predicate Skips(v: View) {
    v.net.spec.forceState.StateUnset? && v.net.status.nextFlow.NextFlowNone? && !Pending(v.net).topology &&
    MaySkip(v.net.status.state) && v.dir.Some? && OwnedBy(v.release, v.name) &&
    (v.net.status.state.StateNew? ==> Installable(v))
  }

  // One call closer, with the same Spec and snapshots and no flow.
  ghost predicate SkipsOn(v: View, r: View) {
    r.net.spec == v.net.spec && r.net.status.Copy() == v.net.status.Copy() && NoFlowSince(v.net, r.net) &&
    r.dir.Some? && OwnedBy(r.release, r.name) && r.name == v.name &&
    if v.net.status.state.StateHelmChartReady? then r.net.status.state.StateReady?
    else
      r.net.status.nextFlow.NextFlowNone? && MaySkip(r.net.status.state) && !r.net.status.state.StateNew? &&
      CallsLeft(r.net.status.state, v.net.spec.topology.useActualDomains) + 1 ==
      CallsLeft(v.net.status.state, v.net.spec.topology.useActualDomains)
  }

  // A smooth start from scratch up to the install.
  ghost function Prepared(v: View): Tried {
    Prepare(v.(release := None, workflows := DeleteWorkflows(v.workflows, v.name, DeleteAll)), Smooth(End))
  }

  // It succeeds, and notes at most a store.
  lemma PreparedIsReady(v: View)
    requires Installable(v)
    ensures var p := Prepared(v);
            p.ok && p.view.release.None? && p.view.name == v.name && p.view.dir.Some? &&
            (p.view.net == v.net || p.view.net == v.net.(journal := v.net.journal + [Stored(End)]))
  {
    var d := v.(release := None, workflows := DeleteWorkflows(v.workflows, v.name, DeleteAll));
    assert Download(d.(dir := Some(map[])), Smooth(End)).ok == Download(v.(dir := Some(map[])), Smooth(End)).ok;
  }

  // What the install and its write note.
  function InstallNotes(n: Resource, st: Status): seq<Event> {
    (if n.spec.topology.useActualDomains then [Installed] else [Installed, Launched]) + [Wrote(n.status, st)]
  }

  lemma InstallsAndSaves(p: View, st: Status)
    requires p.release.None?
    ensures var r := Save(InstallRelease(p, InstallOk).view, st, Written);
            r.net == p.net.(status := st, journal := p.net.journal + InstallNotes(p.net, st)) &&
            r.name == p.name && r.dir == p.dir && OwnedBy(r.release, p.name)
  {
  }

  lemma SmoothNew(v: View)
    requires Skips(v) && v.net.status.state.StateNew?
    ensures Smoothly(v, End) ==
            Save(InstallRelease(Prepared(v).view, InstallOk).view,
                 To(v.net.status, AfterInstall(v.net.spec), "", None), Written)
  {
    PreparedIsReady(v);
  }

  lemma NewSkipsOn(v: View)
    requires Skips(v) && v.net.status.state.StateNew?
    ensures SkipsOn(v, Smoothly(v, End))
  {
    var p, st := Prepared(v).view, To(v.net.status, AfterInstall(v.net.spec), "", None);
    PreparedIsReady(v);
    SmoothNew(v);
    InstallsAndSaves(p, st);
    NewRunsNoFlow(v.net, p.net, Smoothly(v, End).net, st);
  }

  lemma NewRunsNoFlow(a: Resource, p: Resource, b: Resource, st: Status)
    requires p == a || p == a.(journal := a.journal + [Stored(End)])
    requires b.journal == p.journal + InstallNotes(p, st)
    ensures NoFlowSince(a, b)
  {
    var notes := if p == a then InstallNotes(p, st) else [Stored(End)] + InstallNotes(p, st);
    NoFlowOf(a, b, notes);
  }

  // After one or two upgrades.
  lemma UpdateSkipsOn(v: View)
    requires Skips(v)
    requires v.net.status.state in {StateHelmChartNeedsUpdate, StateHelmChartNeedsDoubleUpdate}
    ensures SkipsOn(v, Smoothly(v, End))
  {
    var st := To(v.net.status, StateHelmChartInstalled, "", None);
    var u := UpgradeRelease(v, UpgradeOk).view;
    UpgradeNotes(v);
    UpgradeNotes(u);
    NoFlowOf(v.net, u.net, [Upgraded(v.name), Launched]);
    var twice := v.net.status.state.StateHelmChartNeedsDoubleUpdate? && v.net.spec.topology.useActualDomains;
    var w := if twice then UpgradeRelease(u, UpgradeOk).view else u;
    NoFlowOf(u.net, w.net, if twice then [Upgraded(v.name), Launched] else []);
    NoFlowOf(w.net, Save(w, st, Written).net, [Wrote(v.net.status, st)]);
    NoFlowTrans(v.net, u.net, w.net);
    NoFlowTrans(v.net, w.net, Save(w, st, Written).net);
  }

  lemma UpgradeNotes(v: View)
    requires OwnedBy(v.release, v.name)
    ensures UpgradeRelease(v, UpgradeOk) ==
            Tried(true, v.(release := Some(Release(CHART, v.name, true)),
                           net := v.net.(journal := v.net.journal + [Upgraded(v.name), Launched])))
  {
  }

  lemma LastSkipsOn(v: View)
    requires Skips(v) && v.net.status.state in {StateHelmChartInstalled, StateHelmChartReady}
    ensures SkipsOn(v, Smoothly(v, End))
  {
    var r := Smoothly(v, End);
    if v.net.status.state.StateHelmChartInstalled? {
      assert Since(v.net, r.net) == [AllReady, Wrote(v.net.status, r.net.status)];
    } else {
      assert Since(v.net, r.net) == [Wrote(v.net.status, r.net.status)];
    }
  }

  lemma StepSkipsOn(v: View)
    requires Skips(v)
    ensures SkipsOn(v, Smoothly(v, End))
  {
    match v.net.status.state
    case StateNew => NewSkipsOn(v);
    case StateHelmChartNeedsUpdate => UpdateSkipsOn(v);
    case StateHelmChartNeedsDoubleUpdate => UpdateSkipsOn(v);
    case _ => LastSkipsOn(v);
  }

  function Again(name: string, n: nat): seq<Action> {
    if n == 0 then [] else [Call(name, Smooth(End))] + Again(name, n - 1)
  }

  /** A network on its way with NextFlow None is Ready after at most four calls in which nothing fails, and
      no flow has run. */
  lemma {:induction false} ReadyWithoutFlow(c: Cluster, name: string, n: nat)
    requires name in c.networks && Skips(ViewOf(c, name))
    requires n == CallsLeft(c.networks[name].status.state, c.networks[name].spec.topology.useActualDomains)
    ensures var r := Run(c, Again(name, n));
            name in r.networks && r.networks[name].status.state.StateReady? &&
            r.networks[name].spec == c.networks[name].spec &&
            r.networks[name].status.Copy() == c.networks[name].status.Copy() &&
            NoFlowSince(c.networks[name], r.networks[name])
    decreases n
  {
    var v, d := ViewOf(c, name), Next(c, Call(name, Smooth(End)));
    StepSkipsOn(v);
    CallView(c, name, Smooth(End));
    assert Again(name, n)[1..] == Again(name, n - 1);
    if !v.net.status.state.StateHelmChartReady? {
      ReadyWithoutFlow(d, name, n - 1);
      NoFlowTrans(c.networks[name], d.networks[name], Run(d, Again(name, n - 1)).networks[name]);
    }
  }

  lemma {:induction false} AgainOnlyCalls(name: string, n: nat)
    ensures AllForceFree(Again(name, n)) && Delete(name) !in Again(name, n)
  {
    if n > 0 {
      AgainOnlyCalls(name, n - 1);
    }
  }

  /* ---- Dropped changes ---- */

  lemma ReadyKeepsDir(m: View, env: Env)
    requires m.net.status.state.StateReady? && m.dir.Some?
    ensures StepReady(m, env).view.dir.Some? && StepReady(m, env).view.release == m.release
  {
    ReadyLeaves(m, env);
  }

  lemma StepTakesTheShortWay(m: View, env: Env)
    requires m.net.spec.forceState.StateUnset? && m.net.status.state.StateReady? && SetsNone(Pending(m.net))
    requires m.dir.Some? && OwnedBy(m.release, m.name) && Moved(m, StepReady(m, env).view)
    ensures var r := StepReady(m, env).view;
            Skips(r) && !Pending(r.net).Any() &&
            r.net.status.state in {StateHelmChartNeedsUpdate, StateHelmChartNeedsDoubleUpdate}
  {
    ReadyMoves(m, env);
    ReadyForgetsChanges(m, env);
    ReadyKeepsDir(m, env);
  }

  // The view with which the call entered the case of Ready.
  lemma EntersReady(v: View, env: Env)
    requires v.net.spec.forceState.StateUnset? && v.net.status.state.StateReady?
    requires HoldsRelease(v.release, v.name, v.net.status.state) && Moved(v, Step(v, env).view)
    ensures var m := Reconstruct(v, env).view;
            m.net == v.net && m.dir.Some? && OwnedBy(m.release, m.name) &&
            Step(v, env).view == StepReady(m, env).view
  {
  }

  // On the short way with nothing pending, three smooth calls from Ready.
  ghost predicate ThreeCallsAway(v: View) {
    Skips(v) && !Pending(v.net).Any() && !v.net.status.state.StateNew? &&
    CallsLeft(v.net.status.state, v.net.spec.topology.useActualDomains) == 3
  }

  lemma StepLeavesOnTheShortWay(v: View, env: Env)
    requires v.net.spec.forceState.StateUnset? && v.net.status.state.StateReady? && SetsNone(Pending(v.net))
    requires HoldsRelease(v.release, v.name, v.net.status.state) && Moved(v, Step(v, env).view)
    ensures ThreeCallsAway(Step(v, env).view)
  {
    EntersReady(v, env);
    StepTakesTheShortWay(Reconstruct(v, env).view, env);
  }

  lemma CrowdedDoesNotMatter(r: View, w: View)
    requires ThreeCallsAway(r) && w == r.(crowded := w.crowded)
    ensures ThreeCallsAway(w)
  {
  }

  // The call that acted on a change which sets None leaves the network on that way, with nothing pending.
  lemma LeavesOnTheShortWay(c: Cluster, name: string, env: Env)
    requires LeftReady(c, name, env) && AllSettled(c) && SetsNone(Pending(c.networks[name]))
    ensures ThreeCallsAway(ViewOf(Next(c, Call(name, env)), name))
  {
    StepLeavesOnTheShortWay(ViewOf(c, name), env);
    CallView(c, name, env);
    CrowdedDoesNotMatter(Step(ViewOf(c, name), env).view, ViewOf(Next(c, Call(name, env)), name));
  }

  // Three calls in which nothing fails, from there.
  lemma ThreeCallsLater(d: Cluster, name: string)
    requires name in d.networks && ThreeCallsAway(ViewOf(d, name))
    ensures ReadyAgain(d, Again(name, 3), name) && UpToDate(Run(d, Again(name, 3)).networks[name])
    ensures forall f :: Succeeded(f) !in Between(d, Again(name, 3), name)
  {
    AgainOnlyCalls(name, 3);
    ReadyWithoutFlow(d, name, 3);
    PendingMeans(d.networks[name]);
  }

  /** Such a network is Ready again after three calls in which nothing fails: no change is pending any
      more, and no flow has run. */
  lemma DroppedChangesStayDropped(c: Cluster, name: string, env: Env) returns (acts: seq<Action>)
    requires LeftReady(c, name, env) && AllSettled(c) && DropsFlows(c.networks[name])
    ensures var d := Next(c, Call(name, env));
            |acts| == 3 && ReadyAgain(d, acts, name) && UpToDate(Run(d, acts).networks[name]) &&
            forall f :: Succeeded(f) !in Between(d, acts, name)
  {
    acts := Again(name, 3);
    PendingMeans(c.networks[name]);
    AgainIsThatLong(name, 3);
    LeavesOnTheShortWay(c, name, env);
    ThreeCallsLater(Next(c, Call(name, env)), name);
  }

  lemma {:induction false} AgainIsThatLong(name: string, n: nat)
    ensures |Again(name, n)| == n
  {
    if n > 0 {
      AgainIsThatLong(name, n - 1);
    }
  }

  /** Changed channels on which a call in Ready acted have had a channel-flow at the next Ready, on every
      run, if and only if the topology change that may have come with them does not set NextFlow to None. */
  lemma ChannelsGetTheirFlowExactly(c: Cluster, name: string, env: Env)
    requires LeftReady(c, name, env) && AllSettled(c)
    requires c.networks[name].spec.channels != c.networks[name].status.channels
    ensures var d := Next(c, Call(name, env));
            (forall acts :: ReadyAgain(d, acts, name) ==> Succeeded(ChannelFlow) in Between(d, acts, name))
            <==> !DropsFlows(c.networks[name])
  {
    if DropsFlows(c.networks[name]) {
      var acts := DroppedChangesStayDropped(c, name, env);
      assert ReadyAgain(Next(c, Call(name, env)), acts, name);
    } else {
      forall acts | ReadyAgain(Next(c, Call(name, env)), acts, name)
        ensures Succeeded(ChannelFlow) in Between(Next(c, Call(name, env)), acts, name)
      {
        ChannelsHaveTheirFlow(c, name, env, acts);
      }
    }
  }

  // In that run a chaincode-flow succeeded that covers every changed chaincode.
  ghost predicate CoveringFlowIn(n: Resource, events: seq<Event>) {
    exists chosen :: Succeeded(ChaincodeFlow(chosen)) in events && CoversPending(n, chosen)
  }

  /** The same for changed chaincodes and a chaincode-flow that covers all of them. */
  lemma ChaincodesGetTheirFlowExactly(c: Cluster, name: string, env: Env)
    requires LeftReady(c, name, env) && AllSettled(c) && ChaincodesDiffer(c.networks[name])
    ensures var d := Next(c, Call(name, env));
            (forall acts :: ReadyAgain(d, acts, name) ==> CoveringFlowIn(c.networks[name], Between(d, acts, name)))
            <==> !DropsFlows(c.networks[name])
  {
    if DropsFlows(c.networks[name]) {
      var acts := DroppedChangesStayDropped(c, name, env);
      assert ReadyAgain(Next(c, Call(name, env)), acts, name);
    } else {
      forall acts | ReadyAgain(Next(c, Call(name, env)), acts, name)
        ensures CoveringFlowIn(c.networks[name], Between(Next(c, Call(name, env)), acts, name))
      {
        ChaincodesHaveTheirFlow(c, name, env, acts);
      }
    }
  }

  /* ---- Restarts that survive ---- */

  // A call found a topology change at HelmChartReady, and the restart it saved was not overwritten.
  ghost predicate RestartSurvives(c: Cluster, name: string, env: Env) {
    Orderly(c) && AllWaitForOwn(c) && AllSettled(c) && name in c.networks && env.readable &&
    var v := ViewOf(c, name);
    v.net.status.state.StateHelmChartReady? && v.net.spec.topology != v.net.status.topology &&
    Reconstruct(v, env).ok &&
    (env.save1.ReplyLost? || (env.save1.Written? && !SwitchWrites(v.net.status.nextFlow, env)))
  }

  lemma RestartStays(v: View, env: Env)
    requires v.net.spec.forceState.StateUnset? && v.net.status.state.StateHelmChartReady? && Pending(v.net).topology
    requires Reconstruct(v, env).ok
    requires env.save1.ReplyLost? || (env.save1.Written? && !SwitchWrites(v.net.status.nextFlow, env))
    ensures var r := Step(v, env).view;
            r.net.status == Restarted(v.net) && r.net.spec == v.net.spec && r.release == v.release &&
            r.dir.Some? && r.name == v.name
  {
    var m := Reconstruct(v, env).view;
    HelmReadyLeaves(m, env);
    if env.save1.Written? {
      SwitchStays(Save(m, Restarted(m.net), env.save1), Restarted(m.net), env);
    }
  }

  lemma SwitchStays(v: View, st: Status, env: Env)
    requires !SwitchWrites(st.nextFlow, env)
    ensures StepNextFlow(v, st, env).view.net == v.net
  {
  }

  lemma RestartIsSaved(c: Cluster, name: string, env: Env)
    requires RestartSurvives(c, name, env)
    ensures var d := Next(c, Call(name, env));
            name in d.networks && name in d.dirs && d.release == c.release &&
            d.networks[name].spec == c.networks[name].spec &&
            d.networks[name].status == Restarted(c.networks[name])
  {
    RestartStays(ViewOf(c, name), env);
  }

  // What a restart has to do before Ready, without NextFlow None.
  lemma RestartedRunsFlows(d: Cluster, name: string, acts: seq<Action>)
    requires Orderly(d) && AllWaitForOwn(d) && name in d.networks && d.networks[name].status.state.StateNew?
    requires !d.networks[name].status.nextFlow.NextFlowNone? && ReadyAgain(d, acts, name)
    ensures Within([Succeeded(ChannelFlow), Succeeded(ALL_CHAINCODES)], Between(d, acts, name))
  {
    var st := d.networks[name].status;
    var flows := FlowsFor(NextFlowUnset);
    ReadyHasDoneAll(d, acts, name);
    WithinSame(flows);
    WithinLonger(flows, [Succeeded(PeerOrgFlow)], flows);
    assert FlowsFor(NextFlowPeerOrgFlow) == [Succeeded(PeerOrgFlow)] + flows;
    WithinLonger(flows, [Installed, Launched, AllReady], FlowsFor(st.nextFlow));
    WithinTrans(flows, ToDo(st, d.workflows), Between(d, acts, name));
  }

  // With NextFlow None there is a run to Ready without a flow, on crypto material of the network's own.
  lemma RestartedSkipsFlows(d: Cluster, name: string) returns (acts: seq<Action>)
    requires name in d.networks && name in d.dirs && OwnedBy(d.release, name)
    requires d.networks[name].spec.forceState.StateUnset? && d.networks[name].status.state.StateNew?
    requires d.networks[name].status.nextFlow.NextFlowNone? && !Pending(d.networks[name]).topology
    ensures ReadyAgain(d, acts, name) && forall f :: Succeeded(f) !in Between(d, acts, name)
  {
    var spec := d.networks[name].spec.(cryptoSecret := "");
    var e := Next(d, Edit(name, spec));
    var n := CallsLeft(StateNew, spec.topology.useActualDomains);
    assert Skips(ViewOf(e, name));
    ReadyWithoutFlow(e, name, n);
    AgainOnlyCalls(name, n);
    acts := [Edit(name, spec)] + Again(name, n);
    assert acts[1..] == Again(name, n);
    assert Since(d.networks[name], Run(d, acts).networks[name]) == Since(e.networks[name], Run(d, acts).networks[name]);
  }

  /** A restart that survives its own call has run channel-flow and a full chaincode-flow at the next Ready,
      on every run, if and only if NextFlow was not None when it was saved. */
  lemma RestartRunsFlowsExactly(c: Cluster, name: string, env: Env)
    requires RestartSurvives(c, name, env)
    ensures var d := Next(c, Call(name, env));
            name in d.networks &&
            ((forall acts :: ReadyAgain(d, acts, name) ==>
                Within([Succeeded(ChannelFlow), Succeeded(ALL_CHAINCODES)], Between(d, acts, name)))
             <==> !c.networks[name].status.nextFlow.NextFlowNone?)
  {
    var d := Next(c, Call(name, env));
    RestartIsSaved(c, name, env);
    NextKeepsOrderly(c, Call(name, env));
    NextKeepsWaiting(c, Call(name, env));
    if c.networks[name].status.nextFlow.NextFlowNone? {
      var acts := RestartedSkipsFlows(d, name);
      assert ReadyAgain(d, acts, name);
      NotWithin(Between(d, acts, name));
    } else {
      forall acts | ReadyAgain(d, acts, name)
        ensures Within([Succeeded(ChannelFlow), Succeeded(ALL_CHAINCODES)], Between(d, acts, name))
      {
        RestartedRunsFlows(d, name, acts);
      }
    }
  }

  lemma NotWithin(events: seq<Event>)
    requires Succeeded(ChannelFlow) !in events
    ensures !Within([Succeeded(ChannelFlow), Succeeded(ALL_CHAINCODES)], events)
  {
    if Within([Succeeded(ChannelFlow), Succeeded(ALL_CHAINCODES)], events) {
      WithinIn([Succeeded(ChannelFlow), Succeeded(ALL_CHAINCODES)], events, Succeeded(ChannelFlow));
    }
  }
}
