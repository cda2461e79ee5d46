/** Workflows that no network waits for: a flow was submitted, but its name or the status that holds it was
    lost. The next call submits the flow again while the first one runs. */
module Orphans {
  import opened Api
  import opened Changes
  import opened Cluster
  import opened Refinement
  import opened Runs
  import opened Safety
  import opened Convergence

  // The call gets as far as submitting a flow.
  ghost predicate Submits(v: View, env: Env) {
    var ch := Pending(v.net);
    match v.net.status.state
    case StateHelmChartReady => !v.net.status.nextFlow.NextFlowNone? && (ch.topology ==> env.save1.Written?)
    case StateChannelFlowCompleted => true
    case StatePeerOrgFlowCompleted => true
    case StateReady => !Classified(ch) && (ch.channel || ch.chaincode) && env.valuesWritten && env.networkFile
    case _ => false
  }

  // The flow it submits.
  ghost function FlowOf(n: Resource): Flow {
    match n.status.state
    case StateHelmChartReady => if n.status.nextFlow.NextFlowPeerOrgFlow? then PeerOrgFlow else ChannelFlow
    case StateChannelFlowCompleted => ChaincodeFlow([])
    case StateReady => if Pending(n).channel then ChannelFlow else ChaincodeFlow(Pending(n).chaincodes)
    case _ => ChannelFlow
  }

  // The answer to the write of the status that waits for it.
  function WaitWrite(s: State, env: Env): Write {
    if s.StateChannelFlowCompleted? || s.StatePeerOrgFlowCompleted? then env.save1 else env.save2
  }

  ghost predicate Orphans(v: View, env: Env) {
    Submits(v, env) && !env.submit.SubmitNothing? &&
    (env.submit.SubmitOk? ==> WaitWrite(v.net.status.state, env).NotWritten?)
  }

  // The workflow just submitted runs, and the status does not wait for it.
  ghost predicate LeftAlone(v: View, r: View) {
    r.workflows == v.workflows + [Workflow(FlowOf(v.net), v.name, OtherPhase(""), false)] &&
    r.net.status.workflow != Some(|v.workflows|)
  }

  // Waiting for the workflow just submitted.
  ghost predicate WaitsForIt(v: View, r: View) {
    r.workflows == v.workflows + [Workflow(FlowOf(v.net), v.name, OtherPhase(""), false)] &&
    r.net.status.workflow == Some(|v.workflows|)
  }

  // Submitting with either answer.
  lemma SubmitLeaves(v: View, m: View, flow: Flow, st: Status, state: State, submit: Submit, save: Write)
    requires SameNetwork(v, m) && m.workflows == v.workflows && m.net.status.workflow.None? && flow == FlowOf(v.net)
    ensures var r := SubmitAndSave(m, flow, st, state, submit, save).view;
            (LeftAlone(v, r) <==> !submit.SubmitNothing? && (submit.SubmitOk? ==> save.NotWritten?)) &&
            (WaitsForIt(v, r) <==> submit.SubmitOk? && !save.NotWritten?) &&
            (LeftAlone(v, r) ==> r.net == m.net && r.dir == m.dir)
  {
  }

  ghost predicate SubmitsExactly(v: View, env: Env, r: View) {
    (LeftAlone(v, r) <==> Orphans(v, env)) &&
    (WaitsForIt(v, r) <==>
       Submits(v, env) && env.submit.SubmitOk? && !WaitWrite(v.net.status.state, env).NotWritten?)
  }

  lemma HelmReadySubmits(v: View, env: Env)
    requires Sane(v.net) && v.net.status.state.StateHelmChartReady?
    ensures SubmitsExactly(v, env, StepHelmReady(v, env).view)
  {
    var restart := Pending(v.net).topology;
    var m := if restart then Save(v, Restarted(v.net), env.save1) else v;
    var st := if restart then Restarted(v.net) else v.net.status;
    if !v.net.status.nextFlow.NextFlowNone? {
      var state := if st.nextFlow.NextFlowPeerOrgFlow? then StatePeerOrgFlowSubmitted else StateChannelFlowSubmitted;
      SubmitLeaves(v, m, FlowOf(v.net), st, state, env.submit, env.save2);
    }
  }

  lemma ReadySubmits(v: View, env: Env)
    requires Sane(v.net) && v.net.status.state.StateReady?
    ensures SubmitsExactly(v, env, StepReady(v, env).view)
  {
    var ch, st := Pending(v.net), TakeSnapshots(v.net.status, v.net.spec);
    if Classified(ch) || !ch.Any() || !env.valuesWritten {
      MakeCryptoIsQuiet(v, v, env);
    } else {
      assert Certify(v, ch, env) == Tried(true, v);
      var state := if ch.channel then StateChannelFlowSubmitted else StateChaincodeFlowSubmitted;
      SubmitLeaves(v, v, FlowOf(v.net), st, state, env.submit, env.save2);
    }
  }

  lemma CompletedSubmits(v: View, env: Env)
    requires Sane(v.net) && v.net.status.state in {StateChannelFlowCompleted, StatePeerOrgFlowCompleted}
    ensures SubmitsExactly(v, env, StepByState(v, env).view)
  {
    var st := v.net.status;
    var state := if st.state.StateChannelFlowCompleted? then StateChaincodeFlowSubmitted else StateChannelFlowSubmitted;
    SubmitLeaves(v, v, FlowOf(v.net), st, state, env.submit, env.save1);
  }

  // The other states submit nothing.
  lemma InstallKeepsWorkflows(v: View, i: Install)
    ensures InstallRelease(v, i).view.workflows == v.workflows
  {
  }

  lemma NewSubmitsNothing(v: View, env: Env)
    ensures |StepNew(v, env).view.workflows| == |v.workflows|
  {
    var u := v.(release := UninstallRelease(v.release, v.name, env.uninstall));
    var d := u.(workflows := DeleteWorkflows(v.workflows, v.name, env.deletes));
    var p := Prepare(d, env);
    InstallKeepsWorkflows(p.view, env.install);
    assert StartOver(v, env).view.workflows in {v.workflows, d.workflows};
  }

  lemma UpdatesSubmitNothing(v: View, env: Env)
    ensures StepNeedsUpdate(v, env).view.workflows == v.workflows
    ensures StepNeedsDoubleUpdate(v, env).view.workflows == v.workflows
  {
    UpgradeIsQuiet(v, v, env.upgrade1);
  }

  lemma OthersSubmitNothing(v: View, env: Env)
    requires !v.net.status.state.StateHelmChartReady? && !v.net.status.state.StateReady?
    requires v.net.status.state !in {StateChannelFlowCompleted, StatePeerOrgFlowCompleted}
    ensures |StepByState(v, env).view.workflows| == |v.workflows|
  {
    match v.net.status.state
    case StateNew => NewSubmitsNothing(v, env);
    case StateHelmChartNeedsUpdate => UpdatesSubmitNothing(v, env);
    case StateHelmChartNeedsDoubleUpdate => UpdatesSubmitNothing(v, env);
    case _ =>
  }

  lemma StepByStateSubmits(v: View, env: Env)
    requires Sane(v.net)
    ensures SubmitsExactly(v, env, StepByState(v, env).view)
  {
    match v.net.status.state
    case StateHelmChartReady => HelmReadySubmits(v, env);
    case StateReady => ReadySubmits(v, env);
    case StateChannelFlowCompleted => CompletedSubmits(v, env);
    case StatePeerOrgFlowCompleted => CompletedSubmits(v, env);
    case _ => OthersSubmitNothing(v, env);
  }

  /** A call leaves a workflow alone, running and awaited by no one, exactly if it gets to submit a flow and
      either the name does not come back or the status that holds it is not written. */
  lemma OrphansExactly(v: View, env: Env)
    requires v.net.spec.forceState.StateUnset? && Sane(v.net)
    ensures LeftAlone(v, Step(v, env).view) <==> Reconstruct(v, env).ok && Orphans(Reconstruct(v, env).view, env)
  {
    var t := Reconstruct(v, env);
    if t.ok {
      StepByStateSubmits(t.view, env);
      assert LeftAlone(t.view, Step(v, env).view) == LeftAlone(v, Step(v, env).view);
    }
  }

  // Such a call that was not one of a restart changes nothing else that the next one goes by.
  lemma OrphaningKeepsStatus(v: View, env: Env)
    requires v.net.spec.forceState.StateUnset? && Sane(v.net) && v.dir.Some? && Orphans(v, env)
    requires !(v.net.status.state.StateHelmChartReady? && Pending(v.net).topology)
    ensures var r := Step(v, env).view;
            r == v.(workflows := r.workflows)
  {
  }

  // The call after it, on what that call left.
  lemma NextCallSubmitsAgain(v: View, env: Env, w: View, again: Env)
    requires v.net.spec.forceState.StateUnset? && Sane(v.net) && v.dir.Some? && Orphans(v, env)
    requires !(v.net.status.state.StateHelmChartReady? && Pending(v.net).topology)
    requires w == Step(v, env).view.(crowded := w.crowded)
    requires Submits(v, again) && again.submit.SubmitOk? && !WaitWrite(v.net.status.state, again).NotWritten?
    ensures LeftAlone(v, w) && FlowOf(w.net) == FlowOf(v.net) && w.name == v.name
    ensures WaitsForIt(w, Step(w, again).view)
  {
    OrphansExactly(v, env);
    OrphaningKeepsStatus(v, env);
    assert w.net == v.net && w.dir == v.dir;
    StepByStateSubmits(w, again);
  }

  // Two live workflows of one network for one and the same flow, the later one awaited.
  ghost predicate TwiceUnderWay(c: Cluster, name: string, i: nat) {
    i + 1 < |c.workflows| && name in c.networks && c.networks[name].status.workflow == Some(i + 1) &&
    c.workflows[i] == c.workflows[i + 1] == Workflow(c.workflows[i].flow, name, OtherPhase(""), false)
  }

  /** After a lost name or a lost status the next call that submits and saves runs the same flow of the same
      network a second time beside the first. */
  lemma FlowRunsTwice(c: Cluster, name: string, env: Env, again: Env)
    requires AllSane(c) && name in c.networks && name in c.dirs && c.networks[name].spec.forceState.StateUnset?
    requires env.readable && again.readable
    requires var v := ViewOf(c, name);
             Orphans(v, env) && !(v.net.status.state.StateHelmChartReady? && Pending(v.net).topology) &&
             Submits(v, again) && again.submit.SubmitOk? && !WaitWrite(v.net.status.state, again).NotWritten?
    ensures TwiceUnderWay(Next(Next(c, Call(name, env)), Call(name, again)), name, |c.workflows|)
  {
    var v, d := ViewOf(c, name), Next(c, Call(name, env));
    CallView(c, name, env);
    NextCallSubmitsAgain(v, env, ViewOf(d, name), again);
  }
}
