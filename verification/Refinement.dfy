/** Every status write of a call without a forced state is an arrow of the documented diagram, except
    when a topology change is found at HelmChartReady. */
module Refinement {
  import opened Api
  import opened Changes
  import opened Cluster
  import opened Diagram

  ghost predicate Fine(v: View, env: Env, r: View) { Follows(GuardsOf(v, env), v.net, r.net) }

  // The resource of r is that of v but for journal entries that are no writes.
  ghost predicate Quiet(v: View, r: View) {
    Continues(v.net, r.net) && r.net.status == v.net.status &&
    forall i :: |v.net.journal| <= i < |r.net.journal| ==> !r.net.journal[i].Wrote?
  }

  lemma QuietIsFine(v: View, env: Env, r: View)
    requires Quiet(v, r)
    ensures Fine(v, env, r)
  {
  }

  // One write, of an arrow, that may not take effect.
  lemma SaveIsFine(v: View, env: Env, m: View, st: Status, w: Write)
    requires Quiet(v, m) && Documented(GuardsOf(v, env), v.net.status, st)
    ensures Fine(v, env, Save(m, st, w))
  {
  }

  lemma UpgradeIsQuiet(v: View, m: View, u: Upgrade)
    requires Quiet(v, m)
    ensures Quiet(v, UpgradeRelease(m, u).view)
  {
  }

  lemma InstallIsQuiet(v: View, m: View, i: Install)
    requires Quiet(v, m)
    ensures Quiet(v, InstallRelease(m, i).view)
  {
  }

  lemma MakeCryptoIsQuiet(v: View, m: View, env: Env)
    requires Quiet(v, m)
    ensures Quiet(v, MakeCrypto(m, env).view)
  {
  }

  lemma PrepareIsQuiet(v: View, m: View, env: Env)
    requires Quiet(v, m)
    ensures Quiet(v, Prepare(m, env).view)
  {
    MakeCryptoIsQuiet(v, m.(dir := Some(map[])), env);
  }

  lemma StartOverIsQuiet(v: View, env: Env)
    ensures Quiet(v, StartOver(v, env).view)
  {
    var u := v.(release := UninstallRelease(v.release, v.name, env.uninstall));
    var d := u.(workflows := DeleteWorkflows(v.workflows, v.name, env.deletes));
    PrepareIsQuiet(v, d, env);
    InstallIsQuiet(v, Prepare(d, env).view, env.install);
  }

  lemma ReconstructIsQuiet(v: View, env: Env)
    ensures Quiet(v, Reconstruct(v, env).view)
  {
  }

  lemma SubmitIsFine(v: View, env: Env, m: View, flow: Flow, st: Status, state: State, submit: Submit, save: Write)
    requires Quiet(v, m)
    requires Documented(GuardsOf(v, env), v.net.status, To(st, state, "", Some(|m.workflows|)))
    ensures Fine(v, env, SubmitAndSave(m, flow, st, state, submit, save).view)
  {
  }

  lemma UnsetIsFine(v: View, env: Env)
    requires v.net.status.state.StateUnset?
    ensures Fine(v, env, StepUnset(v, env).view)
  {
  }

  lemma NewIsFine(v: View, env: Env)
    requires v.net.status.state.StateNew?
    ensures Fine(v, env, StepNew(v, env).view)
  {
    StartOverIsQuiet(v, env);
    var s := StartOver(v, env).view;
    QuietIsFine(v, env, s);
    SaveIsFine(v, env, s, To(v.net.status, AfterInstall(v.net.spec), "", None), env.save1);
  }

  lemma UpdateIsFine(v: View, env: Env)
    requires v.net.status.state in {StateHelmChartNeedsUpdate, StateHelmChartNeedsDoubleUpdate}
    ensures Fine(v, env, StepNeedsUpdate(v, env).view)
    ensures Fine(v, env, StepNeedsDoubleUpdate(v, env).view)
  {
    var st := To(v.net.status, StateHelmChartInstalled, "", None);
    var u := UpgradeRelease(v, env.upgrade1).view;
    var w := UpgradeRelease(u, env.upgrade2).view;
    UpgradeIsQuiet(v, v, env.upgrade1);
    UpgradeIsQuiet(v, u, env.upgrade2);
    QuietIsFine(v, env, u);
    QuietIsFine(v, env, w);
    SaveIsFine(v, env, u, st, env.save1);
    SaveIsFine(v, env, w, st, env.save1);
  }

  lemma ReadyExactly(env: Env)
    ensures ChartReady(env) == Some(true) <==> EveryReplicaReady(env)
  {
    if EveryReplicaReady(env) {
      forall w | w in env.statefulSets.value || w in env.deployments.value
        ensures w in env.statefulSets.value + env.deployments.value
      {
      }
    }
  }

  lemma InstalledIsFine(v: View, env: Env)
    requires v.net.status.state.StateHelmChartInstalled?
    ensures Fine(v, env, StepInstalled(v, env).view)
  {
    ReadyExactly(env);
  }

  lemma AwaitIsFine(v: View, env: Env, completed: State, failure: string)
    requires var s := v.net.status.state;
             || (s.StateChannelFlowSubmitted? && completed.StateChannelFlowCompleted?)
             || (s.StateChaincodeFlowSubmitted? && completed.StateChaincodeFlowCompleted?)
             || (s.StatePeerOrgFlowSubmitted? && completed.StatePeerOrgFlowCompleted?)
    ensures Fine(v, env, AwaitFlow(v, env, completed, failure).view)
  {
    var st := v.net.status;
    QuietIsFine(v, env, v);
    if st.workflow.Some? && st.workflow.value < |v.workflows| {
      var w := v.workflows[st.workflow.value];
      if w.phase.WorkflowSucceeded? {
        SaveIsFine(v, env, Note(v, Succeeded(w.flow)), To(st, completed, "", None), env.save1);
      } else if w.phase.WorkflowFailed? {
        SaveIsFine(v, env, v, To(st, StateFailed, failure, None), env.save1);
      }
    }
  }

  lemma ReadyIsFine(v: View, env: Env)
    requires v.net.status.state.StateReady?
    ensures Fine(v, env, StepReady(v, env).view)
  {
    var ch, st := Pending(v.net), TakeSnapshots(v.net.status, v.net.spec);
    var e := Certify(v, ch, env).view;
    MakeCryptoIsQuiet(v, v, env);
    QuietIsFine(v, env, v);
    QuietIsFine(v, env, e);
    if Classified(ch) {
      SaveIsFine(v, env, e, AfterTopologyChange(st, ch), env.save1);
    } else if ch.channel {
      SubmitIsFine(v, env, e, ChannelFlow, st, StateChannelFlowSubmitted, env.submit, env.save2);
    } else if ch.chaincode {
      SubmitIsFine(v, env, e, ChaincodeFlow(ch.chaincodes), st, StateChaincodeFlowSubmitted, env.submit, env.save2);
    }
  }

  // Without a topology change the switch on NextFlow is three arrows.
  lemma NextFlowIsFine(v: View, env: Env)
    requires v.net.status.state.StateHelmChartReady? && !Pending(v.net).topology
    ensures Fine(v, env, StepNextFlow(v, v.net.status, env).view)
  {
    var st := v.net.status;
    match st.nextFlow
    case NextFlowUnset =>
      SubmitIsFine(v, env, v, ChannelFlow, st, StateChannelFlowSubmitted, env.submit, env.save2);
    case NextFlowNone =>
      SaveIsFine(v, env, v, To(st.(nextFlow := NextFlowUnset), StateReady, READY_MESSAGE, None), env.save2);
    case NextFlowPeerOrgFlow =>
      SubmitIsFine(v, env, v, PeerOrgFlow, st, StatePeerOrgFlowSubmitted, env.submit, env.save2);
  }

  // After the restart was written, the switch adds at most one write, the shortcut.
  lemma SwitchAfterRestart(v: View, st: Status, env: Env)
    requires st.state.StateNew?
    ensures var r := StepNextFlow(v, st, env).view.net;
            || r == v.net
            || (r == v.net.(status := r.status, journal := v.net.journal + [Wrote(v.net.status, r.status)]) &&
                Shortcut(st, r.status))
  {
  }

  lemma HelmReadyIsFine(v: View, env: Env)
    requires v.net.status.state.StateHelmChartReady?
    ensures Fine(v, env, StepHelmReady(v, env).view)
  {
    if Pending(v.net).topology {
      var st := Restarted(v.net);
      assert Documented(GuardsOf(v, env), v.net.status, st);
      SaveIsFine(v, env, v, st, env.save1);
      SwitchAfterRestart(Save(v, st, env.save1), st, env);
    } else {
      NextFlowIsFine(v, env);
    }
  }

  lemma StepByStateIsFine(v: View, env: Env)
    requires !v.net.status.state.StateInvalid?
    ensures Fine(v, env, StepByState(v, env).view)
  {
    var st := v.net.status;
    QuietIsFine(v, env, v);
    match st.state
    case StateUnset => UnsetIsFine(v, env);
    case StateNew => NewIsFine(v, env);
    case StateReady => ReadyIsFine(v, env);
    case StateHelmChartInstalled => InstalledIsFine(v, env);
    case StateHelmChartNeedsUpdate => UpdateIsFine(v, env);
    case StateHelmChartNeedsDoubleUpdate => UpdateIsFine(v, env);
    case StateHelmChartReady => HelmReadyIsFine(v, env);
    case StateChannelFlowSubmitted => AwaitIsFine(v, env, StateChannelFlowCompleted, "channel-flow failed");
    case StateChannelFlowCompleted =>
      SubmitIsFine(v, env, v, ChaincodeFlow([]), st, StateChaincodeFlowSubmitted, env.submit, env.save1);
    case StateChaincodeFlowSubmitted => AwaitIsFine(v, env, StateChaincodeFlowCompleted, "chaincode-flow failed");
    case StateChaincodeFlowCompleted => SaveIsFine(v, env, v, To(st, StateReady, READY_MESSAGE, None), env.save1);
    case StatePeerOrgFlowSubmitted => AwaitIsFine(v, env, StatePeerOrgFlowCompleted, "peer-org-flow failed");
    case StatePeerOrgFlowCompleted =>
      SubmitIsFine(v, env, v, ChannelFlow, st, StateChannelFlowSubmitted, env.submit, env.save1);
    case _ =>
  }

  /** A call on a network whose state is not forced: its writes are arrows of the diagram with their
      guards, save for the shortcut of the calls that CutShort names. */
  lemma StepFollowsDiagram(v: View, env: Env)
    requires v.net.spec.forceState.StateUnset? && !v.net.status.state.StateInvalid?
    ensures Fine(v, env, Step(v, env).view)
  {
    ReconstructIsQuiet(v, env);
    QuietIsFine(v, env, Reconstruct(v, env).view);
    StepByStateIsFine(Reconstruct(v, env).view, env);
  }

  // A restart that did not stay was left by the shortcut, which no arrow allows.
  lemma CutShortShows(v: View, env: Env)
    requires CutShort(v.net, StepHelmReady(v, env).view.net)
    ensures var r := StepHelmReady(v, env).view.net;
            |r.journal| > |v.net.journal| &&
            r.journal[|r.journal| - 1] == Wrote(Restarted(v.net), r.status) &&
            forall g :: !Documented(g, Restarted(v.net), r.status)
  {
    var st := Restarted(v.net);
    SwitchAfterRestart(Save(v, st, env.save1), st, env);
  }

  // The switch on NextFlow gets as far as its own write.
  predicate SwitchWrites(nextFlow: NextFlow, env: Env) {
    !env.save2.NotWritten? && (nextFlow.NextFlowNone? || env.submit.SubmitOk?)
  }

  // A restart is due at HelmChartReady, and the call gets past its write to that of the switch.
  ghost predicate LeavesDiagram(v: View, env: Env) {
    v.net.status.state.StateHelmChartReady? && v.net.spec.topology != v.net.status.topology &&
    Reconstruct(v, env).ok && env.save1.Written? && SwitchWrites(v.net.status.nextFlow, env)
  }

  lemma CutShortExactly(v: View, env: Env)
    requires v.net.spec.forceState.StateUnset?
    ensures CutShort(v.net, Step(v, env).view.net) <==> LeavesDiagram(v, env)
  {
  }

  /** Which calls leave the diagram: exactly those that get from a restart at HelmChartReady to the write
      of the switch on NextFlow. */
  lemma LeavesDiagramExactly(v: View, env: Env)
    requires v.net.spec.forceState.StateUnset? && !v.net.status.state.StateInvalid?
    ensures var r := Step(v, env).view.net;
            WritesFollow(GuardsOf(v, env), r.journal, |v.net.journal|, false) <==> !LeavesDiagram(v, env)
  {
    StepFollowsDiagram(v, env);
    ReconstructIsQuiet(v, env);
    CutShortExactly(v, env);
    if LeavesDiagram(v, env) {
      CutShortShows(Reconstruct(v, env).view, env);
    }
  }

  /** The restart that a topology change asks for at HelmChartReady stays in the status exactly when it
      is written and the switch behind it, if reached, writes nothing. */
  lemma RestartSurvivesExactly(v: View, env: Env)
    requires v.net.status.state.StateHelmChartReady? && v.net.spec.topology != v.net.status.topology
    ensures StepHelmReady(v, env).view.net.status.state.StateNew? <==>
            || env.save1.ReplyLost?
            || (env.save1.Written? && !SwitchWrites(v.net.status.nextFlow, env))
  {
  }
}
