/** The documented state machine (docs/state-diagram.txt) and how Reconcile's status writes relate to it. */
module Diagram {
  import opened Api
  import opened Changes
  import opened Cluster

  predicate Waits(s: State) {
    s.StateChannelFlowSubmitted? || s.StateChaincodeFlowSubmitted? || s.StatePeerOrgFlowSubmitted?
  }

  // Only state, message and workflow differ.
  predicate SameRest(a: Status, b: Status) {
    b.nextFlow == a.nextFlow && b.Copy() == a.Copy()
  }

  predicate Saves(spec: Spec, b: Status) { b.Copy() == spec.Project() }

  // What the guards of the diagram ask about besides the status itself.
  datatype Guards = Guards(spec: Spec, crowded: bool, ready: bool, phase: Option<Phase>)

  // Both lists could be read, and no workload of the release lacks a replica.
  predicate EveryReplicaReady(env: Env) {
    env.statefulSets.Some? && env.deployments.Some? &&
    forall w :: w in env.statefulSets.value + env.deployments.value && w.release == CHART ==>
      w.readyReplicas == w.replicas
  }

  function GuardsOf(v: View, env: Env): Guards {
    var id := v.net.status.workflow;
    Guards(v.net.spec, v.crowded, EveryReplicaReady(env),
           if id.Some? && id.value < |v.workflows| then Some(v.workflows[id.value].phase) else None)
  }

  ghost function Changed(spec: Spec, st: Status): Change { Diff(spec.Project(), st.Copy()) }

  /** An arrow of the diagram, with its guard and what it saves. */
  ghost predicate Documented(g: Guards, a: Status, b: Status) {
    (b.workflow.Some? <==> Waits(b.state)) &&
    match a.state
    case StateUnset =>
      || (b.state.StateRejected? && g.crowded && SameRest(a, b))
      || (b.state.StateNew? && !g.crowded && Saves(g.spec, b) && b.nextFlow == a.nextFlow)
    case StateNew =>
      SameRest(a, b) &&
      if g.spec.topology.useActualDomains then b.state.StateHelmChartNeedsUpdate?
      else b.state.StateHelmChartInstalled?
    case StateHelmChartNeedsUpdate => b.state.StateHelmChartInstalled? && SameRest(a, b)
    case StateHelmChartNeedsDoubleUpdate => b.state.StateHelmChartInstalled? && SameRest(a, b)
    case StateHelmChartInstalled => b.state.StateHelmChartReady? && SameRest(a, b) && g.ready
    case StateHelmChartReady =>
      if Changed(g.spec, a).topology
      then b.state.StateNew? && Saves(g.spec, b) && b.nextFlow == a.nextFlow
      else FollowsNextFlow(a, b)
    case StateChannelFlowSubmitted =>
      SameRest(a, b) && FlowEnded(g, b, b.state.StateChannelFlowCompleted?)
    case StateChannelFlowCompleted => SameRest(a, b) && b.state.StateChaincodeFlowSubmitted?
    case StateChaincodeFlowSubmitted =>
      SameRest(a, b) && FlowEnded(g, b, b.state.StateChaincodeFlowCompleted?)
    case StateChaincodeFlowCompleted => SameRest(a, b) && b.state.StateReady?
    case StatePeerOrgFlowSubmitted =>
      SameRest(a, b) && FlowEnded(g, b, b.state.StatePeerOrgFlowCompleted?)
    case StatePeerOrgFlowCompleted => SameRest(a, b) && b.state.StateChannelFlowSubmitted?
    case StateReady => Saves(g.spec, b) && LeavesReady(Changed(g.spec, a), a, b)
    case _ => false
  }

  predicate FlowEnded(g: Guards, b: Status, completed: bool) {
    || (completed && g.phase == Some(WorkflowSucceeded))
    || (b.state.StateFailed? && g.phase == Some(WorkflowFailed))
  }

  // The three arrows that leave HelmChartReady by NextFlow.
  predicate FollowsNextFlow(a: Status, b: Status) {
    b.Copy() == a.Copy() &&
    match a.nextFlow
    case NextFlowUnset => b.state.StateChannelFlowSubmitted? && b.nextFlow == a.nextFlow
    case NextFlowNone => b.state.StateReady? && b.nextFlow.NextFlowUnset?
    case NextFlowPeerOrgFlow => b.state.StatePeerOrgFlowSubmitted? && b.nextFlow == a.nextFlow
  }

  predicate LeavesReady(ch: Change, a: Status, b: Status) {
    || (b.state.StateChannelFlowSubmitted? && ch.channel && b.nextFlow == a.nextFlow)
    || (b.state.StateChaincodeFlowSubmitted? && ch.chaincode && b.nextFlow == a.nextFlow)
    || (b.state.StateHelmChartNeedsUpdate? && ch.peerCountIncrease && b.nextFlow == a.nextFlow)
    || (b.state.StateHelmChartNeedsUpdate? && (ch.peerCountDecrease || ch.version) && b.nextFlow.NextFlowNone?)
    || (b.state.StateHelmChartNeedsDoubleUpdate? && ch.peerOrgs && b.nextFlow.NextFlowPeerOrgFlow?)
    || (b.state.StateHelmChartNeedsDoubleUpdate? && ch.ordererOrgs && b.nextFlow.NextFlowNone?)
  }

  /** No arrow of the diagram: the restart just saved is left by NextFlow in the same call. */
  predicate Shortcut(a: Status, b: Status) {
    a.state.StateNew? && FollowsNextFlow(a, b) && (b.workflow.Some? <==> Waits(b.state))
  }

  // What one force-free call can make of the status: nothing, one arrow, or restart and shortcut.
  ghost predicate Moves(g: Guards, a: Status, b: Status) {
    || b == a
    || Documented(g, a, b)
    || (a.state.StateHelmChartReady? && Documented(g, a, Restarted(Resource(g.spec, a, []))) &&
        Shortcut(Restarted(Resource(g.spec, a, [])), b))
  }

  // The writes of journal entries from index k on: each an arrow, but for a shortcut after a restart.
  ghost predicate WritesFollow(g: Guards, j: seq<Event>, k: nat, shortcut: bool) {
    forall i :: k <= i < |j| && j[i].Wrote? ==>
      Documented(g, j[i].before, j[i].after) || (shortcut && Shortcut(j[i].before, j[i].after))
  }

  // The call left the diagram.
  ghost predicate CutShort(a: Resource, b: Resource) {
    a.status.state.StateHelmChartReady? && Pending(a).topology &&
    !b.status.state.StateHelmChartReady? && !b.status.state.StateNew?
  }

  ghost predicate Grows(a: Resource, b: Resource) {
    |a.journal| <= |b.journal| && b.journal[..|a.journal|] == a.journal
  }

  ghost predicate Continues(a: Resource, b: Resource) { a.spec == b.spec && Grows(a, b) }

  // The journal of b goes on where that of a ended, and the states follow the diagram.
  ghost predicate Follows(g: Guards, a: Resource, b: Resource) {
    Continues(a, b) && Moves(g, a.status, b.status) && WritesFollow(g, b.journal, |a.journal|, CutShort(a, b))
  }
}
