/** What the status tells a user: its message in every state. */
module Messages {
  import opened Api
  import opened Changes
  import opened Cluster
  import opened Diagram
  import opened Refinement
  import opened Runs
  import opened Safety
  import opened Ownership

  // The text for a failed workflow.
  function FailureOf(flow: Flow): string {
    match flow
    case ChannelFlow => "channel-flow failed"
    case ChaincodeFlow(_) => "chaincode-flow failed"
    case PeerOrgFlow => "peer-org-flow failed"
  }

  predicate Says(st: Status) {
    match st.state
    case StateReady => st.message == "HL Fabric Network is ready"
    case StateRejected => st.message == "More than one FabricNetwork per namespace is not allowed"
    case StateFailed => st.message in {"channel-flow failed", "chaincode-flow failed", "peer-org-flow failed"}
    case _ => st.message == ""
  }

  // The failed state was written from one that waited for this workflow, and the workflow failed.
  predicate Blames(b: Status, st: Status, ws: seq<Workflow>, name: string) {
    b.workflow.Some? && b.workflow.value < |ws| &&
    var w := ws[b.workflow.value];
    w.owner == name && w.phase.WorkflowFailed? && st.message == FailureOf(w.flow)
  }

  ghost predicate HasReason(n: Resource, ws: seq<Workflow>, name: string) {
    exists b :: Wrote(b, n.status) in n.journal && Blames(b, n.status, ws, name)
  }

  ghost predicate Tells(n: Resource, ws: seq<Workflow>, name: string) {
    Says(n.status) && (n.status.state.StateFailed? ==> HasReason(n, ws, name))
  }

  ghost predicate AllTell(c: Cluster) {
    forall n :: n in c.networks ==> Tells(c.networks[n], c.workflows, n)
  }

  /* ---- One call ---- */

  ghost predicate SaysOn(v: View, r: View) {
    r.net.status == v.net.status || (Says(r.net.status) && !r.net.status.state.StateFailed?)
  }

  lemma SubmitSays(v: View, m: View, flow: Flow, st: Status, state: State, submit: Submit, save: Write)
    requires SaysOn(v, m) && Says(To(st, state, "", None)) && !state.StateFailed?
    ensures SaysOn(v, SubmitAndSave(m, flow, st, state, submit, save).view)
  {
  }

  lemma NewSays(v: View, env: Env)
    ensures SaysOn(v, StepNew(v, env).view)
  {
    StartOverIsQuiet(v, env);
  }

  lemma UpdatesSay(v: View, env: Env)
    ensures SaysOn(v, StepNeedsUpdate(v, env).view) && SaysOn(v, StepNeedsDoubleUpdate(v, env).view)
  {
    UpgradeIsQuiet(v, v, env.upgrade1);
    UpgradeIsQuiet(v, UpgradeRelease(v, env.upgrade1).view, env.upgrade2);
  }

  lemma SwitchSays(v: View, m: View, st: Status, env: Env)
    requires SaysOn(v, m)
    ensures SaysOn(v, StepNextFlow(m, st, env).view)
  {
  }

  lemma HelmReadySays(v: View, env: Env)
    ensures SaysOn(v, StepHelmReady(v, env).view)
  {
    SwitchSays(v, v, v.net.status, env);
    SwitchSays(v, Save(v, Restarted(v.net), env.save1), Restarted(v.net), env);
  }

  lemma FlowsSay(v: View, m: View, st: Status, ch: Change, env: Env)
    requires SaysOn(v, m)
    ensures SaysOn(v, StepReadyFlows(m, st, ch, env).view)
  {
    SubmitSays(v, m, ChannelFlow, st, StateChannelFlowSubmitted, env.submit, env.save2);
    SubmitSays(v, m, ChaincodeFlow(ch.chaincodes), st, StateChaincodeFlowSubmitted, env.submit, env.save2);
  }

  lemma ChangeSays(v: View, m: View, st: Status, ch: Change, w: Write)
    requires SaysOn(v, m)
    ensures SaysOn(v, Save(m, AfterTopologyChange(st, ch), w))
  {
  }

  lemma ReadySays(v: View, env: Env)
    ensures SaysOn(v, StepReady(v, env).view)
  {
    var ch, st := Pending(v.net), TakeSnapshots(v.net.status, v.net.spec);
    var e := Certify(v, ch, env).view;
    assert SaysOn(v, e) by {
      MakeCryptoIsQuiet(v, v, env);
    }
    FlowsSay(v, e, st, ch, env);
    ChangeSays(v, e, st, ch, env.save1);
  }

  // A workflow that did not fail leads on.
  lemma AwaitSays(v: View, env: Env, completed: State, failure: string)
    requires Says(To(v.net.status, completed, "", None)) && !completed.StateFailed?
    requires v.net.status.workflow.Some? && v.net.status.workflow.value < |v.workflows|
    requires !v.workflows[v.net.status.workflow.value].phase.WorkflowFailed?
    ensures SaysOn(v, AwaitFlow(v, env, completed, failure).view)
  {
  }

  // One that failed does so with its own text.
  lemma AwaitBlames(v: View, env: Env)
    requires Waits(v.net.status.state) && WaitsForOwn(v.workflows, v.name, v.net.status)
    requires v.net.status.workflow.Some? && v.workflows[v.net.status.workflow.value].phase.WorkflowFailed?
    ensures var r := StepByState(v, env).view;
            r.workflows == v.workflows &&
            (r.net.status == v.net.status || (r.net.status.state.StateFailed? && Says(r.net.status) &&
             Wrote(v.net.status, r.net.status) in r.net.journal &&
             Blames(v.net.status, r.net.status, r.workflows, v.name)))
  {
    var st := v.net.status;
    var e := Wrote(st, To(st, StateFailed, FailureOf(v.workflows[st.workflow.value].flow), None));
    assert e in v.net.journal + [e];
  }

  lemma StepByStateSays(v: View, env: Env)
    requires Sane(v.net) && WaitsForOwn(v.workflows, v.name, v.net.status)
    requires Waits(v.net.status.state) ==> !v.workflows[v.net.status.workflow.value].phase.WorkflowFailed?
    ensures SaysOn(v, StepByState(v, env).view)
  {
    match v.net.status.state
    case StateNew => NewSays(v, env);
    case StateReady => ReadySays(v, env);
    case StateHelmChartNeedsUpdate => UpdatesSay(v, env);
    case StateHelmChartNeedsDoubleUpdate => UpdatesSay(v, env);
    case StateHelmChartReady => HelmReadySays(v, env);
    case StateChannelFlowSubmitted => AwaitSays(v, env, StateChannelFlowCompleted, "channel-flow failed");
    case StateChaincodeFlowSubmitted => AwaitSays(v, env, StateChaincodeFlowCompleted, "chaincode-flow failed");
    case StatePeerOrgFlowSubmitted => AwaitSays(v, env, StatePeerOrgFlowCompleted, "peer-org-flow failed");
    case _ =>
  }

  lemma StepTells(v: View, env: Env)
    requires v.net.spec.forceState.StateUnset? && Sane(v.net) && WaitsForOwn(v.workflows, v.name, v.net.status)
    requires Tells(v.net, v.workflows, v.name)
    ensures Tells(Step(v, env).view.net, Step(v, env).view.workflows, v.name)
  {
    var t, st := Reconstruct(v, env), v.net.status;
    if t.ok && !st.state.StateFailed? {
      if Waits(st.state) && v.workflows[st.workflow.value].phase.WorkflowFailed? {
        AwaitBlames(t.view, env);
      } else {
        StepByStateSays(t.view, env);
      }
    }
  }

  /* ---- Whole runs ---- */

  // A failed workflow stays failed, whoever deletes it.
  lemma ReasonStays(n: Resource, ws: seq<Workflow>, us: seq<Workflow>, name: string)
    requires HasReason(n, ws, name) && |ws| <= |us|
    requires forall i :: 0 <= i < |ws| && ws[i].phase.WorkflowFailed? ==>
               us[i].flow == ws[i].flow && us[i].owner == ws[i].owner && us[i].phase == ws[i].phase
    ensures HasReason(n, us, name)
  {
    var b :| Wrote(b, n.status) in n.journal && Blames(b, n.status, ws, name);
    assert Blames(b, n.status, us, name);
  }

  lemma WorkflowsKeepFailures(c: Cluster, a: Action)
    requires AllSane(c)
    ensures var ws, us := c.workflows, Next(c, a).workflows;
            |ws| <= |us| &&
            forall i :: 0 <= i < |ws| && ws[i].phase.WorkflowFailed? ==>
              us[i].flow == ws[i].flow && us[i].owner == ws[i].owner && us[i].phase == ws[i].phase
  {
    if a.Call? && a.name in c.networks {
      StepFlowResult(ViewOf(c, a.name), a.env);
    }
  }

  lemma OthersTell(c: Cluster, a: Action, name: string)
    requires AllSane(c) && AllTell(c) && name in c.networks && a != Delete(name) && !(a.Call? && a.name == name)
    ensures Tells(Next(c, a).networks[name], Next(c, a).workflows, name)
  {
    var n, r := c.networks[name], Next(c, a).networks[name];
    OthersKeepResource(c, a, name);
    WorkflowsKeepFailures(c, a);
    assert Tells(n, c.workflows, name);
    if n.status.state.StateFailed? {
      ReasonStays(n, c.workflows, Next(c, a).workflows, name);
      var b :| Wrote(b, n.status) in n.journal && Blames(b, n.status, Next(c, a).workflows, name);
      assert Wrote(b, r.status) in r.journal;
    }
  }

  lemma NextTells(c: Cluster, a: Action)
    requires Orderly(c) && AllWaitForOwn(c) && AllTell(c) && ForceFree(a)
    ensures AllTell(Next(c, a))
  {
    var r := Next(c, a);
    forall n | n in r.networks
      ensures Tells(r.networks[n], r.workflows, n)
    {
      if n in c.networks {
        if a.Call? && a.name == n {
          CallTells(c, n, a.env);
        } else {
          OthersTell(c, a, n);
        }
      }
    }
  }

  lemma CallTells(c: Cluster, name: string, env: Env)
    requires Orderly(c) && AllWaitForOwn(c) && AllTell(c) && name in c.networks
    ensures Tells(Next(c, Call(name, env)).networks[name], Next(c, Call(name, env)).workflows, name)
  {
    assert WaitsForOwn(c.workflows, name, c.networks[name].status);
    assert Tells(c.networks[name], c.workflows, name);
    StepTells(ViewOf(c, name), env);
  }

  lemma {:induction false} RunTells(c: Cluster, acts: seq<Action>)
    requires Orderly(c) && AllWaitForOwn(c) && AllTell(c) && AllForceFree(acts)
    ensures AllTell(Run(c, acts))
    decreases |acts|
  {
    if acts != [] {
      NextTells(c, acts[0]);
      NextKeepsOrderly(c, acts[0]);
      NextKeepsWaiting(c, acts[0]);
      RunTells(Next(c, acts[0]), acts[1..]);
    }
  }

  /** In every run without forced states the message says what the state means: Ready that the network is
      ready, Rejected that it is one too many, Failed which workflow of its own failed, and all other
      states say nothing. */
  lemma MessagesFit(c: Cluster, acts: seq<Action>, name: string)
    requires Fresh(c) && AllForceFree(acts) && name in Run(c, acts).networks
    ensures var r := Run(c, acts);
            var n := r.networks[name];
            (n.status.state.StateReady? ==> n.status.message == "HL Fabric Network is ready") &&
            (n.status.state.StateRejected? ==>
               n.status.message == "More than one FabricNetwork per namespace is not allowed") &&
            (n.status.state.StateFailed? ==>
               exists b :: Wrote(b, n.status) in n.journal && Blames(b, n.status, r.workflows, name)) &&
            (n.status.state !in {StateReady, StateRejected, StateFailed} ==> n.status.message == "")
  {
    RunTells(c, acts);
  }
}
