/** What must have happened, and in which order, before a network is Ready. */
module Milestones {
  import opened Api
  import opened Cluster
  import opened Diagram
  import opened Refinement
  import opened Runs
  import opened Safety
  import opened Ownership

  /* ---- One list inside another, in order ---- */

  predicate Within<T(==)>(a: seq<T>, b: seq<T>) {
    a == [] || (b != [] && if a[0] == b[0] then Within(a[1..], b[1..]) else Within(a, b[1..]))
  }

  lemma {:induction false} WithinLonger<T>(a: seq<T>, d: seq<T>, b: seq<T>)
    requires Within(a, b)
    ensures Within(a, d + b)
    decreases |b|, |a|, |d|
  {
    if d == [] {
      assert d + b == b;
    } else if a != [] {
      assert (d + b)[1..] == d[1..] + b;
      if a[0] == d[0] {
        WithinRest(a, b);
        WithinLonger(a[1..], d[1..], b);
      } else {
        WithinLonger(a, d[1..], b);
      }
    }
  }

  lemma {:induction false} WithinRest<T>(a: seq<T>, b: seq<T>)
    requires a != [] && Within(a, b)
    ensures Within(a[1..], b)
    decreases |b|, |a|, 0
  {
    if a[0] == b[0] {
      WithinLonger(a[1..], [b[0]], b[1..]);
      assert [b[0]] + b[1..] == b;
    } else {
      WithinRest(a, b[1..]);
      WithinLonger(a[1..], [b[0]], b[1..]);
      assert [b[0]] + b[1..] == b;
    }
  }

  lemma {:induction false} WithinSame<T>(a: seq<T>)
    ensures Within(a, a)
  {
    if a != [] {
      WithinSame(a[1..]);
    }
  }

  lemma {:induction false} WithinAppend<T>(a: seq<T>, b: seq<T>, c: seq<T>)
    requires Within(a, b)
    ensures Within(a + c, b + c)
    decreases |b|
  {
    if a == [] {
      assert a + c == c;
      WithinSame(c);
      WithinLonger(c, b, c);
    } else {
      assert (b + c)[1..] == b[1..] + c && (a + c)[1..] == a[1..] + c;
      WithinAppend(if a[0] == b[0] then a[1..] else a, b[1..], c);
    }
  }

  lemma {:induction false} WithinFront<T>(x: seq<T>, a: seq<T>, b: seq<T>)
    requires Within(a, b)
    ensures Within(x + a, x + b)
  {
    if x == [] {
      assert x + a == a && x + b == b;
    } else {
      assert (x + a)[1..] == x[1..] + a && (x + b)[1..] == x[1..] + b;
      WithinFront(x[1..], a, b);
    }
  }

  lemma {:induction false} WithinTrans<T>(a: seq<T>, b: seq<T>, c: seq<T>)
    requires Within(a, b) && Within(b, c)
    ensures Within(a, c)
    decreases |c|
  {
    if a != [] {
      if b[0] == c[0] {
        if a[0] == b[0] {
          WithinTrans(a[1..], b[1..], c[1..]);
        } else {
          WithinTrans(a, b[1..], c[1..]);
        }
      } else {
        WithinTrans(a, b, c[1..]);
        if a[0] == c[0] {
          WithinRest(a, c[1..]);
        }
      }
    }
  }

  // One step done d, and what is left afterwards is r: what was to do before is covered.
  lemma Covered<T>(done: seq<T>, left: seq<T>, d: seq<T>)
    requires Within(done, d)
    ensures Within(done + left, d + left)
  {
    WithinAppend(done, d, left);
  }

  /* ---- What is still to be done ---- */

  const ALL_CHAINCODES := ChaincodeFlow([])

  function FlowsFor(nextFlow: NextFlow): seq<Event> {
    match nextFlow
    case NextFlowUnset => [Succeeded(ChannelFlow), Succeeded(ALL_CHAINCODES)]
    case NextFlowNone => []
    case NextFlowPeerOrgFlow => [Succeeded(PeerOrgFlow), Succeeded(ChannelFlow), Succeeded(ALL_CHAINCODES)]
  }

  predicate Dead(s: State) { s.StateRejected? || s.StateFailed? }

  // The events that a network in this status has before it until it is Ready.
  function ToDo(st: Status, ws: seq<Workflow>): seq<Event> {
    match st.state
    case StateUnset => [Installed, Launched, AllReady] + FlowsFor(st.nextFlow)
    case StateNew => [Installed, Launched, AllReady] + FlowsFor(st.nextFlow)
    case StateHelmChartNeedsUpdate => [Launched, AllReady] + FlowsFor(st.nextFlow)
    case StateHelmChartNeedsDoubleUpdate => [Launched, AllReady] + FlowsFor(st.nextFlow)
    case StateHelmChartInstalled => [AllReady] + FlowsFor(st.nextFlow)
    case StateHelmChartReady => FlowsFor(st.nextFlow)
    case StatePeerOrgFlowSubmitted => FlowsFor(NextFlowPeerOrgFlow)
    case StatePeerOrgFlowCompleted => FlowsFor(NextFlowUnset)
    case StateChannelFlowSubmitted => FlowsFor(NextFlowUnset)
    case StateChannelFlowCompleted => [Succeeded(ALL_CHAINCODES)]
    case StateChaincodeFlowSubmitted =>
      if st.workflow.Some? && st.workflow.value < |ws| then [Succeeded(ws[st.workflow.value].flow)] else []
    case _ => []
  }

  function Since(a: Resource, b: Resource): seq<Event> {
    if |a.journal| <= |b.journal| then b.journal[|a.journal|..] else []
  }

  // From v to r nothing that was to do got lost: each item happened in between or is still to do.
  ghost predicate Keeps(v: View, r: View) {
    Continues(v.net, r.net) &&
    (Dead(v.net.status.state) ==> Dead(r.net.status.state)) &&
    (Dead(r.net.status.state) ||
     Within(ToDo(v.net.status, v.workflows), Since(v.net, r.net) + ToDo(r.net.status, r.workflows)))
  }

  // Status and the workflows in question as before: nothing is lost, whatever was noted.
  lemma StillToDo(v: View, r: View)
    requires Continues(v.net, r.net) && r.net.status == v.net.status
    requires ToDo(r.net.status, r.workflows) == ToDo(v.net.status, v.workflows)
    ensures Keeps(v, r)
  {
    WithinSame(ToDo(v.net.status, v.workflows));
    WithinLonger(ToDo(v.net.status, v.workflows), Since(v.net, r.net), ToDo(r.net.status, r.workflows));
  }

  // Nothing is lost up to m, and nothing if the write of st takes effect on top of that.
  lemma SaveKeeps(v: View, m: View, st: Status, w: Write, noted: seq<Event>)
    requires Keeps(v, m) && m.net.journal == v.net.journal + noted && !Dead(v.net.status.state)
    requires Dead(st.state) || Within(ToDo(v.net.status, v.workflows), noted + ToDo(st, m.workflows))
    ensures Keeps(v, Save(m, st, w))
  {
    var r := Save(m, st, w);
    if !w.NotWritten? && !Dead(st.state) {
      var write := [Wrote(m.net.status, st)];
      var left := ToDo(st, m.workflows);
      assert noted + write + left == noted + (write + left);
      WithinSame(left);
      WithinLonger(left, write, left);
      WithinFront(noted, left, write + left);
      WithinTrans(ToDo(v.net.status, v.workflows), noted + left, noted + (write + left));
      assert Since(v.net, r.net) == noted + write;
    }
  }

  // The usual step: v noted some events, among them those done, and moves to st.
  lemma DoneAndSaved(v: View, m: View, st: Status, w: Write, done: seq<Event>, noted: seq<Event>)
    requires m.net.spec == v.net.spec && m.net.status == v.net.status && m.net.journal == v.net.journal + noted
    requires !Waits(v.net.status.state) || m.workflows == v.workflows
    requires Within(done, noted) && !Dead(v.net.status.state)
    requires Dead(st.state) || ToDo(v.net.status, v.workflows) == done + ToDo(st, m.workflows)
    ensures Keeps(v, m) && Keeps(v, Save(m, st, w))
  {
    StillToDo(v, m);
    Covered(done, ToDo(st, m.workflows), noted);
    SaveKeeps(v, m, st, w, noted);
  }

  lemma SubmitKeeps(v: View, m: View, flow: Flow, st: Status, state: State, submit: Submit, save: Write,
                    noted: seq<Event>)
    requires Keeps(v, m) && m.net.journal == v.net.journal + noted
    requires !Dead(v.net.status.state) && !Waits(m.net.status.state)
    requires Within(ToDo(v.net.status, v.workflows),
                    noted + ToDo(To(st, state, "", Some(|m.workflows|)), Started(m, flow).workflows))
    ensures Keeps(v, SubmitAndSave(m, flow, st, state, submit, save).view)
  {
    var s := Started(m, flow);
    assert Keeps(v, s);
    SaveKeeps(v, s, To(st, state, "", Some(|m.workflows|)), save, noted);
  }

  lemma JournalGrows(v: View, m: View)
    requires Quiet(v, m)
    ensures m.net.journal == v.net.journal + Since(v.net, m.net)
  {
  }

  lemma UnsetKeeps(v: View, env: Env)
    requires v.net.status.state.StateUnset?
    ensures Keeps(v, StepUnset(v, env).view)
  {
    var n := v.net;
    StillToDo(v, v);
    assert n.journal == n.journal + [];
    DoneAndSaved(v, v, To(n.status, StateRejected, REJECTED_MESSAGE, None), env.save1, [], []);
    var st := To(TakeSnapshots(n.status, n.spec), StateNew, "", None);
    assert [] + ToDo(st, v.workflows) == ToDo(st, v.workflows);
    DoneAndSaved(v, v, st, env.save1, [], []);
  }

  // A successful start from scratch installed the chart, and launched the pods unless it is to be updated.
  lemma StartOverDoes(v: View, env: Env)
    requires StartOver(v, env).ok
    ensures var d := Since(v.net, StartOver(v, env).view.net);
            Within(if v.net.spec.topology.useActualDomains then [Installed] else [Installed, Launched], d)
  {
    StartOverIsQuiet(v, env);
    var u := v.(release := UninstallRelease(v.release, v.name, env.uninstall),
                workflows := DeleteWorkflows(v.workflows, v.name, env.deletes));
    var p := Prepare(u, env).view;
    PrepareIsQuiet(v, u, env);
    assert StartOver(v, env) == InstallRelease(p, env.install);
    InstallLaunches(v, p, env.install);
  }

  lemma InstallLaunches(v: View, p: View, i: Install)
    requires Quiet(v, p) && InstallRelease(p, i).ok
    ensures Within(if v.net.spec.topology.useActualDomains then [Installed] else [Installed, Launched],
                   Since(v.net, InstallRelease(p, i).view.net))
  {
    var tail := if v.net.spec.topology.useActualDomains then [Installed] else [Installed, Launched];
    var r := InstallRelease(p, i).view;
    JournalGrows(v, p);
    assert r.net.journal == p.net.journal + tail;
    assert Since(v.net, r.net) == Since(v.net, p.net) + tail;
    WithinSame(tail);
    WithinLonger(tail, Since(v.net, p.net), tail);
  }

  lemma NewKeeps(v: View, env: Env)
    requires v.net.status.state.StateNew?
    ensures Keeps(v, StepNew(v, env).view)
  {
    StartOverIsQuiet(v, env);
    var s := StartOver(v, env);
    StillToDo(v, s.view);
    if s.ok {
      StartOverDoes(v, env);
      InstallAndSave(v, s.view, env.save1);
    }
  }

  lemma InstallAndSave(v: View, m: View, w: Write)
    requires v.net.status.state.StateNew? && Quiet(v, m)
    requires Within(if v.net.spec.topology.useActualDomains then [Installed] else [Installed, Launched],
                    Since(v.net, m.net))
    ensures Keeps(v, Save(m, To(v.net.status, AfterInstall(v.net.spec), "", None), w))
  {
    var flows := FlowsFor(v.net.status.nextFlow);
    var st := To(v.net.status, AfterInstall(v.net.spec), "", None);
    JournalGrows(v, m);
    if v.net.spec.topology.useActualDomains {
      assert [Installed] + ([Launched, AllReady] + flows) == [Installed, Launched, AllReady] + flows;
      DoneAndSaved(v, m, st, w, [Installed], Since(v.net, m.net));
    } else {
      assert [Installed, Launched] + ([AllReady] + flows) == [Installed, Launched, AllReady] + flows;
      DoneAndSaved(v, m, st, w, [Installed, Launched], Since(v.net, m.net));
    }
  }

  lemma UpgradeKeeps(v: View, m: View, u: Upgrade, st: Status, w: Write)
    requires v.net.status.state in {StateHelmChartNeedsUpdate, StateHelmChartNeedsDoubleUpdate}
    requires Quiet(v, m)
    requires st == To(v.net.status, StateHelmChartInstalled, "", None)
    ensures Keeps(v, ThenInstalled(UpgradeRelease(m, u), st, w).view)
  {
    var t := UpgradeRelease(m, u);
    UpgradeIsQuiet(v, m, u);
    StillToDo(v, t.view);
    if t.ok {
      UpgradeLaunches(v, m, u);
      JournalGrows(v, t.view);
      assert [Launched] + ([AllReady] + FlowsFor(st.nextFlow)) == [Launched, AllReady] + FlowsFor(st.nextFlow);
      DoneAndSaved(v, t.view, st, w, [Launched], Since(v.net, t.view.net));
    }
  }

  lemma UpgradeLaunches(v: View, m: View, u: Upgrade)
    requires Quiet(v, m) && UpgradeRelease(m, u).ok
    ensures Within([Launched], Since(v.net, UpgradeRelease(m, u).view.net))
  {
    JournalGrows(v, m);
    var front := Since(v.net, m.net) + [Upgraded(m.release.value.owner)];
    assert Since(v.net, UpgradeRelease(m, u).view.net) == front + [Launched];
    WithinSame([Launched]);
    WithinLonger([Launched], front, [Launched]);
  }

  lemma UpdatesKeep(v: View, env: Env)
    requires v.net.status.state in {StateHelmChartNeedsUpdate, StateHelmChartNeedsDoubleUpdate}
    ensures Keeps(v, StepNeedsUpdate(v, env).view)
    ensures Keeps(v, StepNeedsDoubleUpdate(v, env).view)
  {
    var st := v.net.status;
    UpgradeKeeps(v, v, env.upgrade1, To(st, StateHelmChartInstalled, "", None), env.save1);
    UpgradeIsQuiet(v, v, env.upgrade1);
    var next := To(st, StateHelmChartInstalled, "", None);
    UpgradeKeeps(v, UpgradeRelease(v, env.upgrade1).view, env.upgrade2, next, env.save1);
  }

  lemma InstalledKeeps(v: View, env: Env)
    requires v.net.status.state.StateHelmChartInstalled?
    ensures Keeps(v, StepInstalled(v, env).view)
  {
    StillToDo(v, v);
    var st := To(v.net.status, StateHelmChartReady, "", None);
    WithinSame([AllReady]);
    DoneAndSaved(v, Note(v, AllReady), st, env.save1, [AllReady], [AllReady]);
  }

  lemma AwaitKeeps(v: View, env: Env, completed: State, failure: string)
    requires var s := v.net.status.state;
             || (s.StateChannelFlowSubmitted? && completed.StateChannelFlowCompleted?)
             || (s.StateChaincodeFlowSubmitted? && completed.StateChaincodeFlowCompleted?)
             || (s.StatePeerOrgFlowSubmitted? && completed.StatePeerOrgFlowCompleted?)
    requires WaitsForOwn(v.workflows, v.name, v.net.status)
    ensures Keeps(v, AwaitFlow(v, env, completed, failure).view)
  {
    var st := v.net.status;
    StillToDo(v, v);
    if st.workflow.Some? {
      FailedKeeps(v, To(st, StateFailed, failure, None), env.save1);
      SucceededKeeps(v, completed, env.save1);
    }
  }

  lemma FailedKeeps(v: View, st: Status, w: Write)
    requires Dead(st.state) && !Dead(v.net.status.state)
    ensures Keeps(v, Save(v, st, w))
  {
    assert v.net.journal == v.net.journal + [];
    DoneAndSaved(v, v, st, w, [], []);
  }

  lemma SucceededKeeps(v: View, completed: State, w: Write)
    requires var s := v.net.status.state;
             || (s.StateChannelFlowSubmitted? && completed.StateChannelFlowCompleted?)
             || (s.StateChaincodeFlowSubmitted? && completed.StateChaincodeFlowCompleted?)
             || (s.StatePeerOrgFlowSubmitted? && completed.StatePeerOrgFlowCompleted?)
    requires WaitsForOwn(v.workflows, v.name, v.net.status) && v.net.status.workflow.Some?
    ensures var st := v.net.status;
            Keeps(v, Save(Note(v, Succeeded(v.workflows[st.workflow.value].flow)), To(st, completed, "", None), w))
  {
    var st := v.net.status;
    var e, next := Succeeded(v.workflows[st.workflow.value].flow), To(st, completed, "", None);
    WithinSame([e]);
    assert ToDo(st, v.workflows) == [e] + ToDo(next, v.workflows);
    DoneAndSaved(v, Note(v, e), next, w, [e], [e]);
  }

  lemma NextFlowKeeps(v: View, m: View, st: Status, env: Env, noted: seq<Event>)
    requires v.net.status.state.StateHelmChartReady? && st.nextFlow == v.net.status.nextFlow
    requires Keeps(v, m) && m.net.journal == v.net.journal + noted && !Waits(m.net.status.state)
    ensures Keeps(v, StepNextFlow(m, st, env).view)
  {
    var todo := FlowsFor(st.nextFlow);
    WithinSame(todo);
    WithinLonger(todo, noted, todo);
    match st.nextFlow
    case NextFlowUnset =>
      SubmitKeeps(v, m, ChannelFlow, st, StateChannelFlowSubmitted, env.submit, env.save2, noted);
    case NextFlowNone =>
      SaveKeeps(v, m, To(st.(nextFlow := NextFlowUnset), StateReady, READY_MESSAGE, None), env.save2, noted);
    case NextFlowPeerOrgFlow =>
      SubmitKeeps(v, m, PeerOrgFlow, st, StatePeerOrgFlowSubmitted, env.submit, env.save2, noted);
  }

  lemma HelmReadyKeeps(v: View, env: Env)
    requires v.net.status.state.StateHelmChartReady?
    ensures Keeps(v, StepHelmReady(v, env).view)
  {
    StillToDo(v, v);
    assert v.net.journal == v.net.journal + [];
    if Pending(v.net).topology {
      var st := Restarted(v.net);
      var todo := FlowsFor(st.nextFlow);
      WithinSame(todo);
      WithinLonger(todo, [Installed, Launched, AllReady], todo);
      assert [] + ToDo(st, v.workflows) == ToDo(st, v.workflows);
      SaveKeeps(v, v, st, env.save1, []);
      if env.save1.Written? {
        NextFlowKeeps(v, Save(v, st, env.save1), st, env, [Wrote(v.net.status, st)]);
      }
    } else {
      NextFlowKeeps(v, v, v.net.status, env, []);
    }
  }

  lemma FollowingFlowKeeps(v: View, flow: Flow, state: State, submit: Submit, save: Write)
    requires !Dead(v.net.status.state) && !Waits(v.net.status.state)
    requires ToDo(To(v.net.status, state, "", Some(|v.workflows|)), Started(v, flow).workflows) ==
             ToDo(v.net.status, v.workflows)
    ensures Keeps(v, SubmitAndSave(v, flow, v.net.status, state, submit, save).view)
  {
    var todo := ToDo(v.net.status, v.workflows);
    StillToDo(v, v);
    assert v.net.journal == v.net.journal + [];
    WithinSame(todo);
    assert [] + todo == todo;
    SubmitKeeps(v, v, flow, v.net.status, state, submit, save, []);
  }

  lemma LastFlowKeeps(v: View, w: Write)
    requires v.net.status.state.StateChaincodeFlowCompleted?
    ensures Keeps(v, Save(v, To(v.net.status, StateReady, READY_MESSAGE, None), w))
  {
    StillToDo(v, v);
    assert v.net.journal == v.net.journal + [];
    SaveKeeps(v, v, To(v.net.status, StateReady, READY_MESSAGE, None), w, []);
  }

  lemma CompletedKeeps(v: View, env: Env)
    requires v.net.status.state in {StateChannelFlowCompleted, StateChaincodeFlowCompleted, StatePeerOrgFlowCompleted}
    ensures Keeps(v, StepByState(v, env).view)
  {
    match v.net.status.state
    case StateChannelFlowCompleted =>
      FollowingFlowKeeps(v, ALL_CHAINCODES, StateChaincodeFlowSubmitted, env.submit, env.save1);
    case StatePeerOrgFlowCompleted =>
      FollowingFlowKeeps(v, ChannelFlow, StateChannelFlowSubmitted, env.submit, env.save1);
    case StateChaincodeFlowCompleted => LastFlowKeeps(v, env.save1);
  }

  // From Ready nothing is to do, so nothing can get lost.
  lemma ReadyKeeps(v: View, env: Env)
    requires v.net.status.state.StateReady?
    ensures Keeps(v, StepReady(v, env).view)
  {
    ReadyIsFine(v, env);
  }

  lemma StepByStateKeeps(v: View, env: Env)
    requires Sane(v.net) && WaitsForOwn(v.workflows, v.name, v.net.status)
    ensures Keeps(v, StepByState(v, env).view)
  {
    StillToDo(v, v);
    match v.net.status.state
    case StateUnset => UnsetKeeps(v, env);
    case StateNew => NewKeeps(v, env);
    case StateReady => ReadyKeeps(v, env);
    case StateHelmChartInstalled => InstalledKeeps(v, env);
    case StateHelmChartNeedsUpdate => UpdatesKeep(v, env);
    case StateHelmChartNeedsDoubleUpdate => UpdatesKeep(v, env);
    case StateHelmChartReady => HelmReadyKeeps(v, env);
    case StateChannelFlowSubmitted => AwaitKeeps(v, env, StateChannelFlowCompleted, "channel-flow failed");
    case StateChaincodeFlowSubmitted => AwaitKeeps(v, env, StateChaincodeFlowCompleted, "chaincode-flow failed");
    case StatePeerOrgFlowSubmitted => AwaitKeeps(v, env, StatePeerOrgFlowCompleted, "peer-org-flow failed");
    case StateChannelFlowCompleted => CompletedKeeps(v, env);
    case StateChaincodeFlowCompleted => CompletedKeeps(v, env);
    case StatePeerOrgFlowCompleted => CompletedKeeps(v, env);
    case _ =>
  }

  /** No call without a forced state drops an item of the to-do list unless the item happened in it. */
  lemma StepKeepsToDo(v: View, env: Env)
    requires v.net.spec.forceState.StateUnset? && Sane(v.net) && WaitsForOwn(v.workflows, v.name, v.net.status)
    ensures Keeps(v, Step(v, env).view)
  {
    var m := Reconstruct(v, env).view;
    StillToDo(v, m);
    StepByStateKeeps(m, env);
  }

  /* ---- Whole runs ---- */

  // From c to r nothing of that network's list got lost.
  ghost predicate KeepsToDo(c: Cluster, r: Cluster, name: string)
    requires name in c.networks
  {
    name in r.networks && KeepsList(c.networks[name], c.workflows, r.networks[name], r.workflows)
  }

  ghost predicate KeepsList(a: Resource, ws: seq<Workflow>, b: Resource, us: seq<Workflow>) {
    Grows(a, b) && (Dead(a.status.state) ==> Dead(b.status.state)) &&
    (Dead(b.status.state) || Within(ToDo(a.status, ws), Since(a, b) + ToDo(b.status, us)))
  }

  lemma KeepsListTrans(a: Resource, ws: seq<Workflow>, b: Resource, us: seq<Workflow>, d: Resource, vs: seq<Workflow>)
    requires KeepsList(a, ws, b, us) && KeepsList(b, us, d, vs)
    ensures KeepsList(a, ws, d, vs)
  {
    assert d.journal[..|a.journal|] == d.journal[..|b.journal|][..|a.journal|];
    if !Dead(d.status.state) {
      var x, y := Since(a, b), Since(b, d);
      assert Since(a, d) == x + y;
      assert x + y + ToDo(d.status, vs) == x + (y + ToDo(d.status, vs));
      WithinFront(x, ToDo(b.status, us), y + ToDo(d.status, vs));
      WithinTrans(ToDo(a.status, ws), x + ToDo(b.status, us), x + (y + ToDo(d.status, vs)));
    }
  }

  // The workflow in question keeps its flow, whatever else happens to workflows.
  lemma WorkflowsKeepFlows(c: Cluster, a: Action)
    requires AllSane(c)
    ensures |c.workflows| <= |Next(c, a).workflows|
    ensures forall i :: 0 <= i < |c.workflows| ==> Next(c, a).workflows[i].flow == c.workflows[i].flow
  {
    if a.Call? && a.name in c.networks {
      StepFlowResult(ViewOf(c, a.name), a.env);
    }
  }

  lemma UnchangedKeepsList(n: Resource, ws: seq<Workflow>, r: Resource, us: seq<Workflow>)
    requires r.status == n.status && r.journal == n.journal && ToDo(n.status, us) == ToDo(n.status, ws)
    ensures KeepsList(n, ws, r, us)
  {
    WithinSame(ToDo(n.status, ws));
    assert Since(n, r) + ToDo(n.status, ws) == ToDo(n.status, ws);
  }

  lemma OtherActionsKeep(c: Cluster, a: Action, name: string)
    requires Orderly(c) && AllWaitForOwn(c) && name in c.networks
    requires a != Delete(name) && !(a.Call? && a.name == name)
    ensures KeepsToDo(c, Next(c, a), name)
  {
    assert WaitsForOwn(c.workflows, name, c.networks[name].status);
    WorkflowsKeepFlows(c, a);
    OthersKeepResource(c, a, name);
    UnchangedKeepsList(c.networks[name], c.workflows, Next(c, a).networks[name], Next(c, a).workflows);
  }

  lemma NextKeepsToDo(c: Cluster, a: Action, name: string)
    requires Orderly(c) && AllWaitForOwn(c) && ForceFree(a) && name in c.networks && a != Delete(name)
    ensures KeepsToDo(c, Next(c, a), name)
  {
    if a.Call? && a.name == name {
      assert WaitsForOwn(c.workflows, name, c.networks[name].status);
      var v := ViewOf(c, name);
      StepKeepsToDo(v, a.env);
      if !a.env.readable {
        StillToDo(v, v);
      }
    } else {
      OtherActionsKeep(c, a, name);
    }
  }

  /** Whatever happens in between, short of deleting the network: what it had to do before Ready has
      happened since, in that order, or is still to do. */
  lemma {:induction false} RunKeepsToDo(c: Cluster, acts: seq<Action>, name: string)
    requires Orderly(c) && AllWaitForOwn(c) && AllForceFree(acts)
    requires name in c.networks && Delete(name) !in acts
    ensures KeepsToDo(c, Run(c, acts), name)
    decreases |acts|
  {
    if acts == [] {
      var n := c.networks[name];
      WithinSame(ToDo(n.status, c.workflows));
      assert Since(n, n) + ToDo(n.status, c.workflows) == ToDo(n.status, c.workflows);
    } else {
      var m := Next(c, acts[0]);
      var r := Run(c, acts);
      assert acts[0] in acts;
      NextKeepsToDo(c, acts[0], name);
      NextKeepsOrderly(c, acts[0]);
      NextKeepsWaiting(c, acts[0]);
      RunKeepsToDo(m, acts[1..], name);
      KeepsListTrans(c.networks[name], c.workflows, m.networks[name], m.workflows, r.networks[name], r.workflows);
    }
  }

  /** A network that is Ready at the end of a run has passed, in order, everything its list held. */
  lemma ReadyHasDoneAll(c: Cluster, acts: seq<Action>, name: string)
    requires Orderly(c) && AllWaitForOwn(c) && AllForceFree(acts)
    requires name in c.networks && Delete(name) !in acts
    requires name in Run(c, acts).networks && Run(c, acts).networks[name].status.state.StateReady?
    ensures Within(ToDo(c.networks[name].status, c.workflows), Since(c.networks[name], Run(c, acts).networks[name]))
  {
    RunKeepsToDo(c, acts, name);
    var d := Since(c.networks[name], Run(c, acts).networks[name]);
    assert d + [] == d;
  }

  /** Once changed peer organizations have taken a network to HelmChartNeedsDoubleUpdate, Ready comes
      back only after an update, readiness, peer-org-flow, channel-flow and a chaincode-flow over all
      chaincodes, in this order. */
  lemma PeerOrgsRunAllFlows(c: Cluster, acts: seq<Action>, name: string)
    requires Orderly(c) && AllWaitForOwn(c) && AllForceFree(acts)
    requires name in c.networks && Delete(name) !in acts
    requires c.networks[name].status.state.StateHelmChartNeedsDoubleUpdate?
    requires c.networks[name].status.nextFlow.NextFlowPeerOrgFlow?
    requires name in Run(c, acts).networks && Run(c, acts).networks[name].status.state.StateReady?
    ensures Within([Launched, AllReady, Succeeded(PeerOrgFlow), Succeeded(ChannelFlow), Succeeded(ALL_CHAINCODES)],
                   Since(c.networks[name], Run(c, acts).networks[name]))
  {
    ReadyHasDoneAll(c, acts, name);
    assert [Launched, AllReady] + FlowsFor(NextFlowPeerOrgFlow) ==
           [Launched, AllReady, Succeeded(PeerOrgFlow), Succeeded(ChannelFlow), Succeeded(ALL_CHAINCODES)];
  }

  /* ---- First Ready ---- */

  const FIRST_READY: seq<Event> :=
    [Installed, Launched, AllReady, Succeeded(ChannelFlow), Succeeded(ALL_CHAINCODES)]

  // Counted from its creation, each network has done or has still to do the whole list.
  ghost predicate OnTheWay(n: Resource, ws: seq<Workflow>) {
    Dead(n.status.state) || Within(FIRST_READY, n.journal + ToDo(n.status, ws))
  }

  ghost predicate AllOnTheWay(c: Cluster) {
    forall n :: n in c.networks ==> OnTheWay(c.networks[n], c.workflows)
  }

  lemma KeptStaysOnTheWay(a: Resource, ws: seq<Workflow>, b: Resource, us: seq<Workflow>)
    requires OnTheWay(a, ws) && KeepsList(a, ws, b, us)
    ensures OnTheWay(b, us)
  {
    if !Dead(b.status.state) {
      var d := Since(a, b);
      assert b.journal == a.journal + d;
      assert b.journal + ToDo(b.status, us) == a.journal + (d + ToDo(b.status, us));
      WithinFront(a.journal, ToDo(a.status, ws), d + ToDo(b.status, us));
      WithinTrans(FIRST_READY, a.journal + ToDo(a.status, ws), a.journal + (d + ToDo(b.status, us)));
    }
  }

  lemma NextKeepsOnTheWay(c: Cluster, a: Action)
    requires Orderly(c) && AllWaitForOwn(c) && AllOnTheWay(c) && ForceFree(a)
    ensures AllOnTheWay(Next(c, a))
  {
    var r := Next(c, a);
    forall n | n in r.networks
      ensures OnTheWay(r.networks[n], r.workflows)
    {
      if n in c.networks {
        NextKeepsToDo(c, a, n);
        KeptStaysOnTheWay(c.networks[n], c.workflows, r.networks[n], r.workflows);
      } else {
        assert ToDo(INITIAL_STATUS, r.workflows) == FIRST_READY;
        assert [] + ToDo(INITIAL_STATUS, r.workflows) == FIRST_READY;
        WithinSame(FIRST_READY);
      }
    }
  }

  lemma {:induction false} RunKeepsOnTheWay(c: Cluster, acts: seq<Action>)
    requires Orderly(c) && AllWaitForOwn(c) && AllOnTheWay(c) && AllForceFree(acts)
    ensures AllOnTheWay(Run(c, acts))
    decreases |acts|
  {
    if acts != [] {
      NextKeepsOnTheWay(c, acts[0]);
      NextKeepsOrderly(c, acts[0]);
      NextKeepsWaiting(c, acts[0]);
      RunKeepsOnTheWay(Next(c, acts[0]), acts[1..]);
    }
  }

  /** A network that is Ready has behind it, in this order: an install, pods launched, all replicas seen
      ready, a succeeded channel-flow and a succeeded chaincode-flow over all chaincodes. */
  lemma FirstReady(c: Cluster, acts: seq<Action>, name: string)
    requires Fresh(c) && AllForceFree(acts) && name in Run(c, acts).networks
    requires Run(c, acts).networks[name].status.state.StateReady?
    ensures Within(FIRST_READY, Run(c, acts).networks[name].journal)
  {
    RunKeepsOnTheWay(c, acts);
    var n := Run(c, acts).networks[name];
    assert n.journal + [] == n.journal;
  }
}
