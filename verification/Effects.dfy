/** Which steps touch the release, the crypto material and the directory: all but those of New, Ready and
    the two update states leave them alone. */
module Effects {
  import opened Api
  import opened Cluster
  import opened Diagram

  predicate Plain(e: Event) { e.Wrote? || e.AllReady? || e.Succeeded? }

  // Release, Secret and directory stayed, and the journal tells of nothing else.
  ghost predicate Untouched(v: View, r: View) {
    SameNetwork(v, r) && r.release == v.release && r.secret == v.secret && r.dir == v.dir &&
    Continues(v.net, r.net) &&
    forall i :: |v.net.journal| <= i < |r.net.journal| ==> Plain(r.net.journal[i])
  }

  lemma SaveLeaves(v: View, m: View, st: Status, w: Write)
    requires Untouched(v, m)
    ensures Untouched(v, Save(m, st, w))
  {
  }

  lemma SubmitLeaves(v: View, m: View, flow: Flow, st: Status, state: State, submit: Submit, save: Write)
    requires Untouched(v, m)
    ensures Untouched(v, SubmitAndSave(m, flow, st, state, submit, save).view)
  {
  }

  lemma AwaitLeaves(v: View, env: Env, completed: State, failure: string)
    ensures Untouched(v, AwaitFlow(v, env, completed, failure).view)
  {
  }

  lemma NextFlowLeaves(v: View, m: View, st: Status, env: Env)
    requires Untouched(v, m)
    ensures Untouched(v, StepNextFlow(m, st, env).view)
  {
    SubmitLeaves(v, m, ChannelFlow, st, StateChannelFlowSubmitted, env.submit, env.save2);
    SubmitLeaves(v, m, PeerOrgFlow, st, StatePeerOrgFlowSubmitted, env.submit, env.save2);
    SaveLeaves(v, m, To(st.(nextFlow := NextFlowUnset), StateReady, READY_MESSAGE, None), env.save2);
  }

  lemma HelmReadyLeaves(v: View, env: Env)
    ensures Untouched(v, StepHelmReady(v, env).view)
  {
    SaveLeaves(v, v, Restarted(v.net), env.save1);
    NextFlowLeaves(v, Save(v, Restarted(v.net), env.save1), Restarted(v.net), env);
    NextFlowLeaves(v, v, v.net.status, env);
  }

  // What Ready does after it made the material.
  ghost function AfterCertify(v: View, env: Env): View {
    if env.valuesWritten && Pending(v.net).Any() then Certify(v, Pending(v.net), env).view else v
  }

  lemma ReadyLeaves(v: View, env: Env)
    requires v.net.status.state.StateReady?
    ensures Untouched(AfterCertify(v, env), StepReady(v, env).view)
  {
    var ch, st := Pending(v.net), TakeSnapshots(v.net.status, v.net.spec);
    var e := Certify(v, ch, env).view;
    SaveLeaves(e, e, AfterTopologyChange(st, ch), env.save1);
    SubmitLeaves(e, e, ChannelFlow, st, StateChannelFlowSubmitted, env.submit, env.save2);
    SubmitLeaves(e, e, ChaincodeFlow(ch.chaincodes), st, StateChaincodeFlowSubmitted, env.submit, env.save2);
  }

  lemma CompletedLeaves(v: View, env: Env)
    requires v.net.status.state in {StateChaincodeFlowCompleted, StateChannelFlowCompleted, StatePeerOrgFlowCompleted}
    ensures Untouched(v, StepByState(v, env).view)
  {
    var st := v.net.status;
    match st.state
    case StateChaincodeFlowCompleted => SaveLeaves(v, v, To(st, StateReady, READY_MESSAGE, None), env.save1);
    case StateChannelFlowCompleted =>
      SubmitLeaves(v, v, ChaincodeFlow([]), st, StateChaincodeFlowSubmitted, env.submit, env.save1);
    case StatePeerOrgFlowCompleted =>
      SubmitLeaves(v, v, ChannelFlow, st, StateChannelFlowSubmitted, env.submit, env.save1);
  }

  predicate Touches(s: State) {
    s.StateNew? || s.StateReady? || s.StateHelmChartNeedsUpdate? || s.StateHelmChartNeedsDoubleUpdate?
  }

  // In every other state a step leaves release, Secret and directory as they are.
  lemma OthersLeave(v: View, env: Env)
    requires !Touches(v.net.status.state)
    ensures Untouched(v, StepByState(v, env).view)
  {
    var st := v.net.status;
    match st.state
    case StateHelmChartReady => HelmReadyLeaves(v, env);
    case StateHelmChartInstalled => SaveLeaves(v, Note(v, AllReady), To(st, StateHelmChartReady, "", None), env.save1);
    case StateChannelFlowSubmitted => AwaitLeaves(v, env, StateChannelFlowCompleted, "channel-flow failed");
    case StateChaincodeFlowSubmitted => AwaitLeaves(v, env, StateChaincodeFlowCompleted, "chaincode-flow failed");
    case StatePeerOrgFlowSubmitted => AwaitLeaves(v, env, StatePeerOrgFlowCompleted, "peer-org-flow failed");
    case StateChannelFlowCompleted => CompletedLeaves(v, env);
    case StateChaincodeFlowCompleted => CompletedLeaves(v, env);
    case StatePeerOrgFlowCompleted => CompletedLeaves(v, env);
    case _ =>
  }

  /** Apart from a forced state, a call in any other state changes neither release nor Secret nor stored
      material, and the directory only by reconstructing a missing one. */
  lemma CallLeaves(v: View, env: Env)
    requires v.net.spec.forceState.StateUnset? && !Touches(v.net.status.state)
    ensures var r := Step(v, env).view;
            Untouched(v.(dir := r.dir), r) && r.dir == Reconstruct(v, env).view.dir &&
            (v.dir.Some? || v.net.status.state.StateFailed? ==> r.dir == v.dir)
  {
    var t := Reconstruct(v, env);
    if t.ok {
      OthersLeave(t.view, env);
    }
  }
}
