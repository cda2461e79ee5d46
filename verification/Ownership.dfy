/** Whose workflow a network waits for, and whose release it upgrades. */
module Ownership {
  import opened Api
  import opened Cluster
  import opened Diagram
  import opened Effects
  import opened Refinement
  import opened Runs
  import opened Safety

  /* ---- Workflows ---- */

  predicate Fits(s: State, flow: Flow) {
    match s
    case StateChannelFlowSubmitted => flow.ChannelFlow?
    case StateChaincodeFlowSubmitted => flow.ChaincodeFlow?
    case StatePeerOrgFlowSubmitted => flow.PeerOrgFlow?
    case _ => false
  }

  // The workflow a network waits for exists, is its own and is of the kind its state names.
  predicate WaitsForOwn(ws: seq<Workflow>, name: string, st: Status) {
    st.workflow.Some? ==>
      st.workflow.value < |ws| &&
      var w := ws[st.workflow.value];
      w.owner == name && !w.deleted && Fits(st.state, w.flow)
  }

  ghost predicate AllWaitForOwn(c: Cluster) {
    forall n :: n in c.networks ==> WaitsForOwn(c.workflows, n, c.networks[n].status)
  }

  // Old workflows stay, but for those of this owner that were deleted.
  ghost predicate KeepsOthers(a: seq<Workflow>, b: seq<Workflow>, name: string) {
    |a| <= |b| &&
    forall i :: 0 <= i < |a| ==> b[i] == a[i] || (a[i].owner == name && b[i] == a[i].(deleted := true))
  }

  // The workflow that st now waits for is the last one, submitted by this very call.
  predicate JustSubmitted(ws: seq<Workflow>, before: nat, name: string, st: Status) {
    st.workflow == Some(before) && |ws| == before + 1 &&
    ws[before].owner == name && !ws[before].deleted && Fits(st.state, ws[before].flow)
  }

  // What a call does to the workflows, and what its network waits for afterwards.
  ghost predicate FlowResult(v: View, r: View) {
    KeepsOthers(v.workflows, r.workflows, v.name) &&
    var st := r.net.status;
    || st.workflow.None?
    || (st == v.net.status && r.workflows == v.workflows)
    || JustSubmitted(r.workflows, |v.workflows|, v.name, st)
  }

  // m differs from v in neither workflows nor status.
  predicate Idle(v: View, m: View) {
    m.name == v.name && m.workflows == v.workflows && m.net.status == v.net.status
  }

  lemma SubmitResult(v: View, m: View, flow: Flow, st: Status, state: State, submit: Submit, save: Write)
    requires m.name == v.name && m.workflows == v.workflows && m.net.status.workflow.None?
    requires Fits(state, flow)
    ensures FlowResult(v, SubmitAndSave(m, flow, st, state, submit, save).view)
  {
  }

  lemma StartOverResult(v: View, env: Env)
    ensures KeepsOthers(v.workflows, StartOver(v, env).view.workflows, v.name)
    ensures StartOver(v, env).view.net.status == v.net.status
  {
    StartOverIsQuiet(v, env);
    var d := DeleteWorkflows(v.workflows, v.name, env.deletes);
    assert KeepsOthers(v.workflows, d, v.name);
  }

  lemma NextFlowResult(v: View, m: View, st: Status, env: Env)
    requires m.name == v.name && m.workflows == v.workflows && m.net.status.workflow.None?
    ensures FlowResult(v, StepNextFlow(m, st, env).view)
  {
    SubmitResult(v, m, ChannelFlow, st, StateChannelFlowSubmitted, env.submit, env.save2);
    SubmitResult(v, m, PeerOrgFlow, st, StatePeerOrgFlowSubmitted, env.submit, env.save2);
  }

  lemma ReadyResult(v: View, env: Env)
    requires v.net.status.workflow.None?
    ensures FlowResult(v, StepReady(v, env).view)
  {
    var ch, st := Pending(v.net), TakeSnapshots(v.net.status, v.net.spec);
    var e := Certify(v, ch, env).view;
    assert Idle(v, e);
    SubmitResult(v, e, ChannelFlow, st, StateChannelFlowSubmitted, env.submit, env.save2);
    SubmitResult(v, e, ChaincodeFlow(ch.chaincodes), st, StateChaincodeFlowSubmitted, env.submit, env.save2);
  }

  lemma CompletedResult(v: View, env: Env)
    requires Sane(v.net) && v.net.status.state in {StateChannelFlowCompleted, StatePeerOrgFlowCompleted}
    ensures FlowResult(v, StepByState(v, env).view)
  {
    var st := v.net.status;
    SubmitResult(v, v, ChaincodeFlow([]), st, StateChaincodeFlowSubmitted, env.submit, env.save1);
    SubmitResult(v, v, ChannelFlow, st, StateChannelFlowSubmitted, env.submit, env.save1);
  }

  lemma HelmReadyResult(v: View, env: Env)
    requires v.net.status.workflow.None?
    ensures FlowResult(v, StepHelmReady(v, env).view)
  {
    NextFlowResult(v, Save(v, Restarted(v.net), env.save1), Restarted(v.net), env);
    NextFlowResult(v, v, v.net.status, env);
  }

  lemma UpgradeIsIdle(v: View, m: View, u: Upgrade)
    requires Idle(v, m)
    ensures Idle(v, UpgradeRelease(m, u).view)
  {
  }

  lemma InstalledResult(v: View, t: Tried, st: Status, w: Write)
    requires Idle(v, t.view)
    ensures FlowResult(v, ThenInstalled(t, st, w).view)
  {
  }

  lemma UpdatesResult(v: View, env: Env)
    ensures FlowResult(v, StepNeedsUpdate(v, env).view) && FlowResult(v, StepNeedsDoubleUpdate(v, env).view)
  {
    var u := UpgradeRelease(v, env.upgrade1);
    var w := UpgradeRelease(u.view, env.upgrade2);
    UpgradeIsIdle(v, v, env.upgrade1);
    UpgradeIsIdle(v, u.view, env.upgrade2);
    InstalledResult(v, u, v.net.status, env.save1);
    InstalledResult(v, w, v.net.status, env.save1);
  }

  lemma AwaitResult(v: View, env: Env, completed: State, failure: string)
    ensures FlowResult(v, AwaitFlow(v, env, completed, failure).view)
  {
  }

  lemma OthersResult(v: View, env: Env)
    requires v.net.status.state in {StateUnset, StateInvalid, StateHelmChartInstalled, StateChaincodeFlowCompleted}
    requires v.net.status.workflow.None?
    ensures FlowResult(v, StepByState(v, env).view)
  {
  }

  lemma StepByStateResult(v: View, env: Env)
    requires Sane(v.net)
    ensures FlowResult(v, StepByState(v, env).view)
  {
    var st := v.net.status;
    match st.state
    case StateNew => StartOverResult(v, env);
    case StateReady => ReadyResult(v, env);
    case StateHelmChartReady => HelmReadyResult(v, env);
    case StateChannelFlowCompleted => CompletedResult(v, env);
    case StatePeerOrgFlowCompleted => CompletedResult(v, env);
    case StateHelmChartNeedsUpdate => UpdatesResult(v, env);
    case StateHelmChartNeedsDoubleUpdate => UpdatesResult(v, env);
    case StateChannelFlowSubmitted => AwaitResult(v, env, StateChannelFlowCompleted, "channel-flow failed");
    case StateChaincodeFlowSubmitted => AwaitResult(v, env, StateChaincodeFlowCompleted, "chaincode-flow failed");
    case StatePeerOrgFlowSubmitted => AwaitResult(v, env, StatePeerOrgFlowCompleted, "peer-org-flow failed");
    case StateRejected =>
    case StateFailed =>
    case _ => OthersResult(v, env);
  }

  /** A call changes no workflow of another network, and a network that waits for a new workflow after
      the call waits for the one this call submitted. */
  lemma StepFlowResult(v: View, env: Env)
    requires Sane(v.net)
    ensures FlowResult(v, Step(v, env).view)
  {
    ReconstructIsQuiet(v, env);
    StepByStateResult(Reconstruct(v, env).view, env);
  }

  lemma CallKeepsWaiting(c: Cluster, name: string, env: Env)
    requires AllSane(c) && AllWaitForOwn(c) && name in c.networks
    ensures AllWaitForOwn(PutBack(c, Step(ViewOf(c, name), env).view))
  {
    var v := ViewOf(c, name);
    var r := Step(v, env).view;
    StepFlowResult(v, env);
    assert WaitsForOwn(v.workflows, name, v.net.status);
    OthersKeepWaiting(c, PutBack(c, r), name);
  }

  lemma OthersKeepWaiting(c: Cluster, r: Cluster, name: string)
    requires AllWaitForOwn(c) && KeepsOthers(c.workflows, r.workflows, name)
    requires forall n :: n in r.networks && n != name ==> n in c.networks && r.networks[n] == c.networks[n]
    requires name in r.networks ==> WaitsForOwn(r.workflows, name, r.networks[name].status)
    ensures AllWaitForOwn(r)
  {
  }

  lemma NextKeepsWaiting(c: Cluster, a: Action)
    requires AllSane(c) && AllWaitForOwn(c) && Admitted(a)
    ensures AllWaitForOwn(Next(c, a))
  {
    if a.Call? {
      if a.name in c.networks {
        CallKeepsWaiting(c, a.name, a.env);
      } else {
        OthersKeepWaiting(c, CleanUp(c, a.name, a.env), a.name);
      }
    } else {
      var r := Next(c, a);
      forall n | n in r.networks
        ensures WaitsForOwn(r.workflows, n, r.networks[n].status)
      {
        if n in c.networks {
          assert WaitsForOwn(c.workflows, n, c.networks[n].status);
        }
      }
    }
  }

  lemma {:induction false} RunKeepsWaiting(c: Cluster, acts: seq<Action>)
    requires AllSane(c) && AllWaitForOwn(c) && AllAdmitted(acts)
    ensures AllSane(Run(c, acts)) && AllWaitForOwn(Run(c, acts))
    decreases |acts|
  {
    if acts != [] {
      NextKeepsSane(c, acts[0]);
      NextKeepsWaiting(c, acts[0]);
      RunKeepsWaiting(Next(c, acts[0]), acts[1..]);
    }
  }

  /** In every run, forced states included: a network has a workflow exactly in the three Submitted
      states, and it is a live workflow of that state's kind labelled for this network. */
  lemma WorkflowIsOwn(c: Cluster, acts: seq<Action>, name: string)
    requires Fresh(c) && AllAdmitted(acts) && name in Run(c, acts).networks
    ensures var r := Run(c, acts);
            var st := r.networks[name].status;
            (st.workflow.Some? <==> Waits(st.state)) && WaitsForOwn(r.workflows, name, st)
  {
    RunKeepsWaiting(c, acts);
  }

  /* ---- Releases ---- */

  predicate PastNew(s: State) { Active(s) && !s.StateNew? }

  // The release past New: annotated for this network, and launched unless an update is still due.
  predicate HoldsRelease(release: Option<Release>, name: string, s: State) {
    PastNew(s) ==> OwnedBy(release, name) && (s.StateHelmChartNeedsUpdate? || release.value.launched)
  }

  // Every upgrade met a release annotated for this network.
  predicate UpgradesOwn(j: seq<Event>, name: string) {
    forall e :: e in j && e.Upgraded? ==> e.owner == name
  }

  predicate Settled(v: View) {
    HoldsRelease(v.release, v.name, v.net.status.state) && UpgradesOwn(v.net.journal, v.name)
  }

  ghost predicate AllSettled(c: Cluster) {
    forall n :: n in c.networks ==>
      HoldsRelease(c.release, n, c.networks[n].status.state) && UpgradesOwn(c.networks[n].journal, n)
  }

  lemma UpgradeSettles(v: View, u: Upgrade)
    requires OwnedBy(v.release, v.name) && UpgradesOwn(v.net.journal, v.name)
    ensures var t := UpgradeRelease(v, u);
            UpgradesOwn(t.view.net.journal, v.name) && OwnedBy(t.view.release, v.name) &&
            (v.release.value.launched ==> t.view.release.value.launched) &&
            (t.ok ==> t.view.release.value.launched) &&
            t.view.net.status == v.net.status && t.view.name == v.name
  {
  }

  lemma InstalledSettles(t: Tried, st: Status, w: Write)
    requires Settled(t.view) && OwnedBy(t.view.release, t.view.name) && (t.ok ==> t.view.release.value.launched)
    ensures Settled(ThenInstalled(t, st, w).view)
  {
  }

  lemma UpdateSettles(v: View, env: Env)
    requires Settled(v) && v.net.status.state.StateHelmChartNeedsUpdate?
    ensures Settled(StepNeedsUpdate(v, env).view)
  {
    UpgradeSettles(v, env.upgrade1);
    InstalledSettles(UpgradeRelease(v, env.upgrade1), v.net.status, env.save1);
  }

  lemma DoubleUpdateSettles(v: View, env: Env)
    requires Settled(v) && v.net.status.state.StateHelmChartNeedsDoubleUpdate?
    ensures Settled(StepNeedsDoubleUpdate(v, env).view)
  {
    var u := UpgradeRelease(v, env.upgrade1);
    UpgradeSettles(v, env.upgrade1);
    UpgradeSettles(u.view, env.upgrade2);
    InstalledSettles(if u.ok && v.net.spec.topology.useActualDomains then UpgradeRelease(u.view, env.upgrade2) else u,
                     v.net.status, env.save1);
  }

  lemma MakeCryptoSettles(v: View, env: Env)
    requires UpgradesOwn(v.net.journal, v.name)
    ensures UpgradesOwn(MakeCrypto(v, env).view.net.journal, v.name)
  {
  }

  lemma PrepareSettles(v: View, env: Env)
    requires UpgradesOwn(v.net.journal, v.name)
    ensures UpgradesOwn(Prepare(v, env).view.net.journal, v.name)
  {
  }

  lemma InstallSettles(v: View, i: Install)
    requires UpgradesOwn(v.net.journal, v.name)
    ensures UpgradesOwn(InstallRelease(v, i).view.net.journal, v.name)
  {
  }

  lemma StartOverSettles(v: View, env: Env)
    requires UpgradesOwn(v.net.journal, v.name)
    ensures UpgradesOwn(StartOver(v, env).view.net.journal, v.name)
  {
    var d := v.(release := UninstallRelease(v.release, v.name, env.uninstall),
                workflows := DeleteWorkflows(v.workflows, v.name, env.deletes));
    PrepareSettles(d, env);
    InstallSettles(Prepare(d, env).view, env.install);
  }

  lemma NewSettles(v: View, env: Env)
    requires v.net.status.state.StateNew? && Settled(v)
    ensures Settled(StepNew(v, env).view)
  {
    StartOverSettles(v, env);
    StartOverIsQuiet(v, env);
    var o := StartOver(v, env).view;
    var st := To(v.net.status, AfterInstall(v.net.spec), "", None);
    SaveLeaves(o, o, st, env.save1);
    UntouchedUpgrades(o, Save(o, st, env.save1));
  }

  // Without an upgrade in the journal, and past an update, any state is fine with the release that is there.
  lemma UntouchedSettles(v: View, r: View)
    requires Settled(v) && Untouched(v, r)
    requires PastNew(v.net.status.state) && !v.net.status.state.StateHelmChartNeedsUpdate?
    ensures Settled(r)
  {
  }

  lemma UntouchedUpgrades(v: View, r: View)
    requires Untouched(v, r) && UpgradesOwn(v.net.journal, v.name)
    ensures UpgradesOwn(r.net.journal, v.name)
  {
  }

  lemma ReadySettles(v: View, env: Env)
    requires v.net.status.state.StateReady? && Settled(v)
    ensures Settled(StepReady(v, env).view)
  {
    MakeCryptoSettles(v, env);
    ReadyLeaves(v, env);
    MakeCryptoIsQuiet(v, v, env);
    UntouchedSettles(AfterCertify(v, env), StepReady(v, env).view);
  }

  lemma StepByStateSettles(v: View, env: Env)
    requires Sane(v.net) && Settled(v)
    ensures Settled(StepByState(v, env).view)
  {
    match v.net.status.state
    case StateNew => NewSettles(v, env);
    case StateReady => ReadySettles(v, env);
    case StateHelmChartNeedsUpdate => UpdateSettles(v, env);
    case StateHelmChartNeedsDoubleUpdate => DoubleUpdateSettles(v, env);
    case StateUnset =>
    case StateRejected =>
    case _ =>
      OthersLeave(v, env);
      UntouchedSettles(v, StepByState(v, env).view);
  }

  // Only an active network's call touches the release.
  lemma PassiveKeepsRelease(v: View, env: Env)
    requires Sane(v.net) && v.net.spec.forceState.StateUnset? && !Active(v.net.status.state)
    ensures Step(v, env).view.release == v.release
  {
  }

  lemma StepSettles(v: View, env: Env)
    requires Sane(v.net) && v.net.spec.forceState.StateUnset? && Settled(v)
    ensures Settled(Step(v, env).view)
  {
    ReconstructIsQuiet(v, env);
    StepByStateSettles(Reconstruct(v, env).view, env);
  }

  lemma CallSettles(c: Cluster, name: string, env: Env)
    requires Orderly(c) && AllSettled(c) && name in c.networks
    ensures AllSettled(PutBack(c, Step(ViewOf(c, name), env).view))
  {
    var v := ViewOf(c, name);
    StepSettles(v, env);
    if Active(v.net.status.state) {
      assert forall m :: m in c.networks && m != name ==> !Active(c.networks[m].status.state);
    } else {
      PassiveKeepsRelease(v, env);
    }
  }

  lemma {:induction false} DeletesAll(ws: seq<Workflow>, name: string, count: nat)
    requires count >= |ws|
    ensures forall w :: w in DeleteFirst(ws, name, count) && w.owner == name ==> w.deleted
  {
    if ws != [] {
      var own := ws[0].owner == name && !ws[0].deleted;
      DeletesAll(ws[1..], name, if own then count - 1 else count);
    }
  }

  // How many of the first i workflows are live ones of this owner.
  function LiveBefore(ws: seq<Workflow>, name: string, i: nat): nat
    requires i <= |ws|
  {
    if i == 0 then 0
    else (if ws[0].owner == name && !ws[0].deleted then 1 else 0) + LiveBefore(ws[1..], name, i - 1)
  }

  // The i-th workflow after the first count live ones were deleted.
  function AfterDeleting(ws: seq<Workflow>, name: string, count: nat, i: nat): Workflow
    requires i < |ws|
  {
    if ws[i].owner == name && !ws[i].deleted && LiveBefore(ws, name, i) < count then ws[i].(deleted := true) else ws[i]
  }

  lemma {:induction false} DeletesInOrder(ws: seq<Workflow>, name: string, count: nat, i: nat)
    requires i < |ws|
    ensures DeleteFirst(ws, name, count)[i] == AfterDeleting(ws, name, count, i)
  {
    var own := ws[0].owner == name && !ws[0].deleted;
    if i > 0 {
      assert ws[1..][i - 1] == ws[i];
      if own && count == 0 {
        assert DeleteFirst(ws, name, count) == ws;
      } else {
        var left := if own then count - 1 else count;
        DeletesInOrder(ws[1..], name, left, i - 1);
        assert DeleteFirst(ws, name, count)[i] == DeleteFirst(ws[1..], name, left)[i - 1];
      }
    }
  }

  lemma {:induction false} LiveAreFew(ws: seq<Workflow>, name: string, i: nat)
    requires i <= |ws|
    ensures LiveBefore(ws, name, i) <= i
  {
    if i > 0 {
      LiveAreFew(ws[1..], name, i - 1);
    }
  }

  // The i-th workflow is a live one of this owner, and the deletion gets to it.
  predicate GetsDeleted(ws: seq<Workflow>, name: string, d: Deletes, i: nat)
    requires i < |ws|
  {
    ws[i].owner == name && !ws[i].deleted && !d.ListFails? && (d.DeleteStops? ==> LiveBefore(ws, name, i) < d.count)
  }

  predicate DeletedInOrder(ws: seq<Workflow>, name: string, d: Deletes, us: seq<Workflow>) {
    |us| == |ws| &&
    forall i :: 0 <= i < |ws| ==> us[i] == if GetsDeleted(ws, name, d, i) then ws[i].(deleted := true) else ws[i]
  }

  /** Deletion goes through the network's live workflows in order: if they could not be listed none is deleted,
      if a call failed those before it are, and otherwise all; no other workflow changes. */
  lemma DeletesExactly(ws: seq<Workflow>, name: string, d: Deletes)
    ensures DeletedInOrder(ws, name, d, DeleteWorkflows(ws, name, d))
  {
    if !d.ListFails? {
      var count := if d.DeleteAll? then |ws| else d.count;
      assert DeleteWorkflows(ws, name, d) == DeleteFirst(ws, name, count);
      forall i | 0 <= i < |ws|
        ensures DeleteFirst(ws, name, count)[i] ==
                if GetsDeleted(ws, name, d, i) then ws[i].(deleted := true) else ws[i]
      {
        DeletesInOrder(ws, name, count, i);
        LiveAreFew(ws, name, i);
      }
    }
  }

  // The release is of the chart and annotated for this network, and its removal takes effect, heard or not.
  predicate GetsRemoved(release: Option<Release>, name: string, u: Uninstall) {
    release.Some? && release.value.chart == "hlf-kube" && release.value.owner == name &&
    u in {UninstallOk, UninstallHalf}
  }

  /** What a call for a network that is gone takes away, whatever fails: its own release and, independently of
      that, its workflows in order; nothing else changes. */
  lemma CleanUpTakesExactly(c: Cluster, name: string, env: Env)
    requires env.readable && name !in c.networks
    ensures var d := Reconciled(c, name, env);
            d.root == c.root && d.networks == c.networks && d.secret == c.secret && d.dirs == c.dirs &&
            d.release == (if GetsRemoved(c.release, name, env.uninstall) then None else c.release) &&
            DeletedInOrder(c.workflows, name, env.deletes, d.workflows)
  {
    DeletesExactly(c.workflows, name, env.deletes);
  }

  // No release of the chart annotated for this network, and no workflow of its label.
  ghost predicate NothingLeft(release: Option<Release>, ws: seq<Workflow>, name: string) {
    (release.Some? ==> release.value.chart != "hlf-kube" || release.value.owner != name) &&
    forall w :: w in ws && w.owner == name ==> w.deleted
  }

  /** Of a network that is deleted, a call for it that meets no failure leaves nothing behind. */
  lemma CleanUpIsComplete(c: Cluster, name: string, env: Env)
    requires env.readable && env.uninstall.UninstallOk? && env.deletes.DeleteAll?
    ensures var d := Next(Next(c, Delete(name)), Call(name, env));
            d.networks == c.networks - {name} && NothingLeft(d.release, d.workflows, name) &&
            (d.secret.Some? ==> d.secret.value.owner != name)
  {
    DeletesAll(c.workflows, name, |c.workflows|);
  }

  /** Starting over installs onto a clean namespace: with the deletions heard no workflow of an earlier
      installation survives, the genesis block is the user's or was made, and the pods are launched exactly
      when no update with aliases is to come. */
  lemma StartsOverClean(v: View, env: Env)
    requires StartOver(v, env).ok && env.deletes.DeleteAll?
    ensures var r := StartOver(v, env).view;
            r.release == Some(Release(CHART, v.name, !v.net.spec.topology.useActualDomains)) &&
            (v.net.spec.genesisSecret != "" || env.genesisTool) &&
            forall w :: w in r.workflows && w.owner == v.name ==> w.deleted
  {
    DeletesAll(v.workflows, v.name, |v.workflows|);
    StartOverIsQuiet(v, env);
  }

  /** Cleaning up after a network that is gone leaves a release annotated for another one, and every
      workflow labelled for another one, as they were. */
  lemma CleanUpSparesOthers(c: Cluster, name: string, env: Env)
    ensures !OwnedBy(c.release, name) ==> CleanUp(c, name, env).release == c.release
    ensures KeepsOthers(c.workflows, CleanUp(c, name, env).workflows, name)
  {
  }

  lemma NextSettles(c: Cluster, a: Action)
    requires Orderly(c) && AllSettled(c) && ForceFree(a)
    ensures AllSettled(Next(c, a))
  {
    if a.Call? {
      if a.name in c.networks {
        CallSettles(c, a.name, a.env);
      } else {
        CleanUpSparesOthers(c, a.name, a.env);
      }
    }
  }

  lemma {:induction false} RunSettles(c: Cluster, acts: seq<Action>)
    requires Orderly(c) && AllSettled(c) && AllForceFree(acts)
    ensures Orderly(Run(c, acts)) && AllSettled(Run(c, acts))
    decreases |acts|
  {
    if acts != [] {
      NextSettles(c, acts[0]);
      NextKeepsOrderly(c, acts[0]);
      RunSettles(Next(c, acts[0]), acts[1..]);
    }
  }

  /** In every run without forced states a network past New holds a release of the chart annotated with
      its own name, whatever failed on the way and whatever was installed before; its pods are launched
      unless an update is due; and it never upgraded a release of another network. */
  lemma ReleaseIsOwn(c: Cluster, acts: seq<Action>, name: string)
    requires Fresh(c) && AllForceFree(acts) && name in Run(c, acts).networks
    ensures var r := Run(c, acts);
            var n := r.networks[name];
            HoldsRelease(r.release, name, n.status.state) && UpgradesOwn(n.journal, name)
  {
    RunSettles(c, acts);
  }
}
