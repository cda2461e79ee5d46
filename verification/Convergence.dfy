/** With the Spec left alone and everything outside working, a network comes to rest. */
module Convergence {
  import opened Api
  import opened Changes
  import opened Cluster
  import opened Diagram
  import opened Refinement
  import opened Runs
  import opened Safety
  import opened Ownership

  /* ---- Calls that meet no failure ---- */

  predicate Reliable(env: Env) {
    env.readable && env.listable && env.save1.Written? && env.save2.Written? && env.removed &&
    env.chartDir.ChartDirCreated? && env.secretRead && env.genesisRead && env.cryptogen && env.store.Written? &&
    env.genesisTool && env.uninstall.UninstallOk? && env.install.InstallOk? && env.upgrade1.UpgradeOk? &&
    env.upgrade2.UpgradeOk? && env.statefulSets.Some? && env.deployments.Some? && env.workflowRead &&
    env.valuesWritten && env.networkFile && env.submit.SubmitOk?
  }

  // A Secret that the user provides can be extracted, into a new directory and into the present one.
  ghost predicate Extractable(v: View, env: Env) {
    v.net.spec.cryptoSecret != "" ==>
      Download(v.(dir := Some(map[])), env).ok &&
      (Reconstruct(v, env).ok && Reconstruct(v, env).view.dir.Some? ==> Download(Reconstruct(v, env).view, env).ok)
  }

  // No release stands in the way of this network's own.
  predicate NoForeignRelease(v: View) { v.release.None? || OwnedBy(v.release, v.name) }

  // It does stand in the way of a network that installs, or will as soon as it is called.
  predicate Blocked(v: View) {
    !NoForeignRelease(v) &&
    (v.net.status.state.StateNew? || (v.net.status.state.StateUnset? && !v.crowded))
  }

  ghost predicate Works(v: View, env: Env) { Reliable(env) && Extractable(v, env) }

  ghost predicate Good(v: View) {
    v.net.spec.forceState.StateUnset? && Sane(v.net) && WaitsForOwn(v.workflows, v.name, v.net.status) &&
    HoldsRelease(v.release, v.name, v.net.status.state) && !Blocked(v)
  }

  /* ---- At rest, waiting, or getting closer ---- */

  // Turned away, failed, or Ready with nothing pending that Reconcile acts on.
  ghost predicate Stopped(v: View) {
    match v.net.status.state
    case StateRejected => true
    case StateFailed => true
    case StateReady => !Classified(Pending(v.net)) && !Pending(v.net).channel && !Pending(v.net).chaincode
    case _ => false
  }

  /** What is at rest in Ready: channels and chaincodes as in the Spec, and of the topology the version, the
      organizations and their peers. */
  lemma RestsExactly(v: View)
    requires v.net.status.state.StateReady?
    ensures var t, u := v.net.spec.topology, v.net.status.topology;
            Stopped(v) <==>
            v.net.spec.channels == v.net.status.channels && v.net.spec.chaincode == v.net.status.chaincode &&
            v.net.spec.chaincodes == v.net.status.chaincodes &&
            (t == u || (!PeerOrgsDiffer(t, u) && !OrdererOrgsDiffer(t, u) && !MorePeers(t, u) && !FewerPeers(t, u) &&
                        t.version == u.version))
  {
    FlagsMean(v.net.spec, v.net.status);
  }

  // Replicas are not ready yet, or the workflow has not ended.
  predicate Waiting(v: View, env: Env) {
    var st := v.net.status;
    || (st.state.StateHelmChartInstalled? && ChartReady(env) == Some(false))
    || (Waits(st.state) && st.workflow.Some? && st.workflow.value < |v.workflows| &&
        v.workflows[st.workflow.value].phase.OtherPhase?)
  }

  function Rank(s: State): nat {
    match s
    case StateUnset => 15
    case StateNew => 14
    case StateHelmChartNeedsUpdate => 13
    case StateHelmChartNeedsDoubleUpdate => 13
    case StateHelmChartInstalled => 12
    case StateHelmChartReady => 11
    case StatePeerOrgFlowSubmitted => 10
    case StatePeerOrgFlowCompleted => 9
    case StateChannelFlowSubmitted => 8
    case StateChannelFlowCompleted => 7
    case StateChaincodeFlowSubmitted => 6
    case StateChaincodeFlowCompleted => 5
    case StateReady => 4
    case _ => 0
  }

  // Pending changes weigh more than any state, and a state more than a missing directory.
  ghost function Effort(v: View): nat {
    (if Pending(v.net).Any() then 40 else 0) + 2 * Rank(v.net.status.state) + (if v.dir.None? then 1 else 0)
  }

  // Rank falls and the snapshots stay, or the snapshots become those of the Spec.
  ghost predicate Downhill(a: Status, b: Status, spec: Spec) {
    || (b.Copy() == a.Copy() && Rank(b.state) < Rank(a.state))
    || (b.Copy() == spec.Project() && Rank(b.state) < Rank(a.state))
    || (b.Copy() == spec.Project() && a.Copy() != spec.Project())
  }

  lemma DownhillIsCloser(v: View, r: View)
    requires Downhill(v.net.status, r.net.status, v.net.spec) && r.net.spec == v.net.spec
    requires v.dir.Some? ==> r.dir.Some?
    ensures Effort(r) < Effort(v)
  {
  }

  // No release gets in the way, and an untouched network that stays so was untouched.
  predicate StaysFree(v: View, r: View) {
    (NoForeignRelease(v) ==> NoForeignRelease(r)) &&
    (r.net.status.state.StateUnset? ==> v.net.status.state.StateUnset? && r.release == v.release) &&
    (r.net.status.state.StateNew? ==> NoForeignRelease(v))
  }

  // What a working call does when the directory is there.
  ghost predicate Advances(v: View, env: Env, r: View) {
    r.net.spec == v.net.spec && r.dir.Some? && StaysFree(v, r) &&
    (Waiting(v, env) ==> r == v) &&
    (Stopped(v) ==> r.net.status == v.net.status) &&
    (!Waiting(v, env) && !Stopped(v) ==> Downhill(v.net.status, r.net.status, v.net.spec))
  }

  lemma StartOverWorks(v: View, env: Env)
    requires Reliable(env) && NoForeignRelease(v)
    requires v.net.spec.cryptoSecret != "" ==> Download(v.(dir := Some(map[])), env).ok
    ensures var s := StartOver(v, env);
            s.ok && s.view.dir.Some? && OwnedBy(s.view.release, v.name) && s.view.net.spec == v.net.spec
  {
    var d := v.(release := UninstallRelease(v.release, v.name, env.uninstall),
                workflows := DeleteWorkflows(v.workflows, v.name, env.deletes));
    assert d.release.None?;
    PrepareIsQuiet(d, d, env);
    assert Download(d.(dir := Some(map[])), env).ok == Download(v.(dir := Some(map[])), env).ok;
    assert Prepare(d, env).ok;
  }

  lemma NewAdvances(v: View, env: Env)
    requires Good(v) && Reliable(env) && v.dir.Some? && v.net.status.state.StateNew?
    requires v.net.spec.cryptoSecret != "" ==> Download(v.(dir := Some(map[])), env).ok
    ensures Advances(v, env, StepNew(v, env).view)
  {
    StartOverWorks(v, env);
    StartOverIsQuiet(v, env);
  }

  lemma UpdatesAdvance(v: View, env: Env)
    requires Good(v) && Reliable(env) && v.dir.Some?
    ensures v.net.status.state.StateHelmChartNeedsUpdate? ==> Advances(v, env, StepNeedsUpdate(v, env).view)
    ensures v.net.status.state.StateHelmChartNeedsDoubleUpdate? ==> Advances(v, env, StepNeedsDoubleUpdate(v, env).view)
  {
    UpgradeIsQuiet(v, v, env.upgrade1);
    UpgradeIsQuiet(v, UpgradeRelease(v, env.upgrade1).view, env.upgrade2);
  }

  // The switch on NextFlow, reached with this status in memory.
  lemma SwitchAdvances(v: View, st: Status, env: Env)
    requires Reliable(env)
    ensures var r := StepNextFlow(v, st, env).view;
            r.net.spec == v.net.spec && r.dir == v.dir && r.release == v.release &&
            r.net.status.Copy() == st.Copy() && Rank(r.net.status.state) < Rank(StateHelmChartReady) &&
            !r.net.status.state.StateUnset? && !r.net.status.state.StateNew?
  {
  }

  lemma HelmReadyAdvances(v: View, env: Env)
    requires Good(v) && Reliable(env) && v.dir.Some? && v.net.status.state.StateHelmChartReady?
    ensures Advances(v, env, StepHelmReady(v, env).view)
  {
    SwitchAdvances(v, v.net.status, env);
    SwitchAdvances(Save(v, Restarted(v.net), Written), Restarted(v.net), env);
  }

  lemma ReadyAdvances(v: View, env: Env)
    requires Good(v) && Reliable(env) && v.dir.Some? && v.net.status.state.StateReady?
    requires v.net.spec.cryptoSecret != "" ==> Download(v, env).ok
    ensures Advances(v, env, StepReady(v, env).view)
  {
    MakeCryptoIsQuiet(v, v, env);
    var ch := Pending(v.net);
    if Classified(ch) || ch.channel || ch.chaincode {
      assert v.net.status.Copy() != v.net.spec.Project();
      assert Certify(v, ch, env).ok;
    }
  }

  lemma AwaitAdvances(v: View, env: Env)
    requires Good(v) && Reliable(env) && v.dir.Some? && Waits(v.net.status.state)
    ensures Advances(v, env, StepByState(v, env).view)
  {
  }

  lemma CompletedAdvances(v: View, env: Env)
    requires Good(v) && Reliable(env) && v.dir.Some?
    requires v.net.status.state in {StateChannelFlowCompleted, StateChaincodeFlowCompleted, StatePeerOrgFlowCompleted}
    ensures Advances(v, env, StepByState(v, env).view)
  {
  }

  lemma StepByStateAdvances(v: View, env: Env)
    requires Good(v) && Reliable(env) && v.dir.Some?
    requires v.net.spec.cryptoSecret != "" ==> Download(v.(dir := Some(map[])), env).ok && Download(v, env).ok
    ensures Advances(v, env, StepByState(v, env).view)
  {
    match v.net.status.state
    case StateNew => NewAdvances(v, env);
    case StateReady => ReadyAdvances(v, env);
    case StateHelmChartNeedsUpdate => UpdatesAdvance(v, env);
    case StateHelmChartNeedsDoubleUpdate => UpdatesAdvance(v, env);
    case StateHelmChartReady => HelmReadyAdvances(v, env);
    case StateUnset =>
    case StateRejected =>
    case StateFailed =>
    case StateHelmChartInstalled =>
    case StateChannelFlowCompleted => CompletedAdvances(v, env);
    case StateChaincodeFlowCompleted => CompletedAdvances(v, env);
    case StatePeerOrgFlowCompleted => CompletedAdvances(v, env);
    case _ => AwaitAdvances(v, env);
  }

  /** One working call on a good network: at rest it changes no status; waiting it comes no further
      away; otherwise it comes strictly closer. */
  lemma StepConverges(v: View, env: Env)
    requires Good(v) && Works(v, env)
    ensures var r := Step(v, env).view;
            r.net.spec == v.net.spec && StaysFree(v, r) &&
            (Stopped(v) ==> Stopped(r)) &&
            (!Stopped(v) ==> if Waiting(v, env) then Effort(r) <= Effort(v) else Effort(r) < Effort(v))
  {
    var t := Reconstruct(v, env);
    if t.ok && t.view.dir.Some? {
      StepByStateAdvances(t.view, env);
      var r := Step(v, env).view;
      if !Stopped(v) && !Waiting(v, env) {
        DownhillIsCloser(t.view, r);
      }
    }
  }

  /* ---- Runs that leave this network's Spec alone ---- */

  // Whatever happens to other networks, but for a deletion while this one is untouched; calls of this one
  // meet no failure.
  ghost predicate Spares(c: Cluster, a: Action, name: string)
    requires name in c.networks
  {
    ForceFree(a) &&
    match a
    case Call(n, env) => n == name ==> Works(ViewOf(c, name), env)
    case Edit(n, _) => n != name
    case Delete(n) => n != name && !c.networks[name].status.state.StateUnset?
    case _ => true
  }

  ghost predicate Undisturbed(c: Cluster, acts: seq<Action>, name: string)
    decreases |acts|
  {
    acts == [] ||
    (name in c.networks && Spares(c, acts[0], name) && Undisturbed(Next(c, acts[0]), acts[1..], name))
  }

  ghost function Busy(c: Cluster, a: Action, name: string): nat
    requires name in c.networks
  {
    if a.Call? && a.name == name && !Waiting(ViewOf(c, name), a.env) then 1 else 0
  }

  // How many calls of the run did not find the network waiting.
  ghost function BusyCalls(c: Cluster, acts: seq<Action>, name: string): nat
    decreases |acts|
  {
    if acts == [] || name !in c.networks then 0
    else Busy(c, acts[0], name) + BusyCalls(Next(c, acts[0]), acts[1..], name)
  }

  // How often the run lost the network's directory.
  function Losses(acts: seq<Action>, name: string): nat {
    if acts == [] then 0 else (if acts[0] == LoseDir(name) then 1 else 0) + Losses(acts[1..], name)
  }

  // What every run without forced states keeps.
  ghost predicate Healthy(c: Cluster, name: string) {
    Orderly(c) && AllWaitForOwn(c) && AllSettled(c) && name in c.networks
  }

  lemma HealthyIsGood(c: Cluster, name: string)
    requires Healthy(c, name) && !Blocked(ViewOf(c, name))
    ensures Good(ViewOf(c, name))
  {
  }

  lemma RunStaysHealthy(c: Cluster, acts: seq<Action>)
    requires Fresh(c) && AllForceFree(acts)
    ensures forall name :: name in Run(c, acts).networks ==> Healthy(Run(c, acts), name)
  {
    RunSettles(c, acts);
    assert AllAdmitted(acts);
    RunKeepsWaiting(c, acts);
  }

  lemma NextStaysHealthy(c: Cluster, a: Action, name: string)
    requires Healthy(c, name) && ForceFree(a) && a != Delete(name)
    ensures Healthy(Next(c, a), name)
  {
    NextKeepsOrderly(c, a);
    NextKeepsWaiting(c, a);
    NextSettles(c, a);
  }

  // A network that left Unset never returns to it.
  lemma LeavesUnsetForGood(v: View, env: Env)
    requires v.net.spec.forceState.StateUnset? && Sane(v.net) && !v.net.status.state.StateUnset?
    ensures !Step(v, env).view.net.status.state.StateUnset?
  {
    StepMoves(v, env);
  }

  lemma KeepsUnlikeUnset(c: Cluster, a: Action, n: string)
    requires Orderly(c) && !a.Delete? && n in c.networks
    ensures n in Next(c, a).networks
    ensures !c.networks[n].status.state.StateUnset? ==> !Next(c, a).networks[n].status.state.StateUnset?
  {
    if a.Call? && a.name == n && !c.networks[n].status.state.StateUnset? {
      LeavesUnsetForGood(ViewOf(c, n), a.env);
    }
  }

  // So a namespace stays crowded until a network is deleted.
  lemma CrowdedStays(c: Cluster, a: Action)
    requires Orderly(c) && !a.Delete? && Crowded(c)
    ensures Crowded(Next(c, a))
  {
    var n :| n in c.networks && c.networks[n].status.state != StateUnset;
    var m := OtherNetwork(c, n);
    KeepsUnlikeUnset(c, a, n);
    KeepsUnlikeUnset(c, a, m);
    TwoAreMany(Next(c, a), m, n);
  }

  lemma OtherNetwork(c: Cluster, n: string) returns (m: string)
    requires n in c.networks && |c.networks| != 1
    ensures m in c.networks && m != n
  {
    assert |c.networks.Keys| == |c.networks|;
    assert c.networks.Keys != {n};
    m :| m in c.networks && m != n;
  }

  // Another network's call leaves the release alone, unless this one is Rejected or will be, or the
  // release is the other one's.
  lemma OthersKeepFree(c: Cluster, name: string, other: string, env: Env)
    requires Healthy(c, name) && other != name && !Blocked(ViewOf(c, name))
    ensures !Blocked(ViewOf(Next(c, Call(other, env)), name))
  {
    var v := ViewOf(c, name);
    if v.net.status.state.StateUnset? && v.crowded {
      CrowdedStays(c, Call(other, env));
    } else if other in c.networks && (v.net.status.state.StateNew? || v.net.status.state.StateUnset?) {
      if v.net.status.state.StateUnset? {
        TwoAreMany(c, name, other);
      }
      PassiveKeepsRelease(ViewOf(c, other), env);
    }
  }

  lemma OthersLeaveResource(c: Cluster, a: Action, name: string)
    requires name in c.networks && !(a.Call? && a.name == name) && !(a.Edit? && a.name == name) && a != Delete(name)
    ensures var d := Next(c, a);
            name in d.networks && d.networks[name] == c.networks[name] &&
            (name in c.dirs && a != LoseDir(name) ==> name in d.dirs)
  {
  }

  // What is not a call of this network takes it no further away from rest than a lost directory does.
  lemma OthersSpare(c: Cluster, a: Action, name: string)
    requires name in c.networks && Spares(c, a, name) && !(a.Call? && a.name == name)
    ensures var d := Next(c, a);
            name in d.networks && d.networks[name] == c.networks[name] &&
            Effort(ViewOf(d, name)) <= Effort(ViewOf(c, name)) + (if a == LoseDir(name) then 1 else 0) &&
            Stopped(ViewOf(d, name)) == Stopped(ViewOf(c, name))
  {
    OthersLeaveResource(c, a, name);
    SameResource(ViewOf(c, name), ViewOf(Next(c, a), name), a == LoseDir(name));
  }

  lemma SameResource(v: View, w: View, lost: bool)
    requires w.net == v.net && (v.dir.Some? && !lost ==> w.dir.Some?)
    ensures Effort(w) <= Effort(v) + (if lost then 1 else 0) && Stopped(w) == Stopped(v)
  {
  }

  lemma OthersKeepUnblocked(c: Cluster, a: Action, name: string)
    requires Healthy(c, name) && Spares(c, a, name) && !(a.Call? && a.name == name)
    requires !Blocked(ViewOf(c, name))
    ensures name in Next(c, a).networks && !Blocked(ViewOf(Next(c, a), name))
  {
    if a.Call? {
      OthersKeepFree(c, name, a.name, a.env);
    } else if Crowded(c) && !a.Delete? {
      CrowdedStays(c, a);
    }
  }

  // A free network stays free over a working call.
  lemma CallStaysFree(c: Cluster, name: string, env: Env)
    requires Healthy(c, name) && !Blocked(ViewOf(c, name)) && Works(ViewOf(c, name), env)
    ensures !Blocked(ViewOf(Next(c, Call(name, env)), name))
  {
    HealthyIsGood(c, name);
    StepConverges(ViewOf(c, name), env);
    CallView(c, name, env);
    if Crowded(c) {
      CrowdedStays(c, Call(name, env));
    }
  }

  lemma StaysUnblocked(c: Cluster, a: Action, name: string)
    requires Healthy(c, name) && Spares(c, a, name) && !Blocked(ViewOf(c, name))
    ensures Healthy(Next(c, a), name) && !Blocked(ViewOf(Next(c, a), name))
  {
    NextStaysHealthy(c, a, name);
    if a.Call? && a.name == name {
      CallStaysFree(c, name, a.env);
    } else {
      OthersKeepUnblocked(c, a, name);
    }
  }

  lemma NextConverges(c: Cluster, a: Action, name: string)
    requires Healthy(c, name) && Spares(c, a, name) && !Blocked(ViewOf(c, name))
    ensures name in Next(c, a).networks
    ensures var v, w := ViewOf(c, name), ViewOf(Next(c, a), name);
            (Stopped(v) ==> Stopped(w)) &&
            (Stopped(v) || Effort(w) + Busy(c, a, name) <= Effort(v) + if a == LoseDir(name) then 1 else 0)
  {
    if a.Call? && a.name == name {
      HealthyIsGood(c, name);
      StepConverges(ViewOf(c, name), a.env);
      CallView(c, name, a.env);
    } else {
      OthersSpare(c, a, name);
    }
  }

  /** A network left alone comes to rest after at most as many calls that do not wait as its effort says,
      one more for each loss of its directory, and stays there, whatever other networks' calls do. */
  lemma {:induction false} EffortBoundsBusyCalls(c: Cluster, acts: seq<Action>, name: string)
    requires Healthy(c, name) && !Blocked(ViewOf(c, name)) && Undisturbed(c, acts, name)
    ensures name in Run(c, acts).networks
    ensures var v, r := ViewOf(c, name), ViewOf(Run(c, acts), name);
            (Stopped(v) ==> Stopped(r)) &&
            (Stopped(r) || Effort(r) + BusyCalls(c, acts, name) <= Effort(v) + Losses(acts, name))
    decreases |acts|
  {
    if acts != [] {
      StaysUnblocked(c, acts[0], name);
      NextConverges(c, acts[0], name);
      EffortBoundsBusyCalls(Next(c, acts[0]), acts[1..], name);
    }
  }

  // Apart from what a list of the namespace shows, the next view is what the call left.
  lemma CallView(c: Cluster, name: string, env: Env)
    requires name in c.networks && env.readable
    ensures var w, r := ViewOf(Next(c, Call(name, env)), name), Step(ViewOf(c, name), env).view;
            w == r.(crowded := w.crowded)
  {
  }

  lemma EffortIsSmall(v: View)
    ensures Effort(v) <= 71
  {
  }

  /* ---- A release of another network in the way ---- */

  /** A call in New that finds a foreign release under the chart's name leaves status and release as they
      are, whatever is answered to it, and reports a failure. */
  lemma NewIsStuck(v: View, env: Env)
    requires v.net.spec.forceState.StateUnset? && v.net.status.state.StateNew? && !NoForeignRelease(v)
    ensures var o := Step(v, env);
            o.view.net.status == v.net.status && o.view.release == v.release && o.result.Failure?
  {
    var m := Reconstruct(v, env).view;
    StartOverIsQuiet(m, env);
  }

  // None of these calls cleans up after the owner of the release.
  predicate LeavesOwner(acts: seq<Action>, release: Release) {
    release.chart == CHART ==> forall a :: a in acts ==> !(a.Call? && a.name == release.owner)
  }

  lemma OthersLeaveRelease(c: Cluster, name: string, other: string, env: Env)
    requires Orderly(c) && name in c.networks && other in c.networks && other != name
    requires Active(c.networks[name].status.state)
    ensures Step(ViewOf(c, other), env).view.release == c.release
  {
    assert !Active(c.networks[other].status.state);
    PassiveKeepsRelease(ViewOf(c, other), env);
  }

  lemma NextKeepsStuck(c: Cluster, a: Action, name: string)
    requires Orderly(c) && ForceFree(a) && a != Delete(name) && name in c.networks
    requires c.networks[name].status.state.StateNew? && !NoForeignRelease(ViewOf(c, name))
    requires LeavesOwner([a], c.release.value)
    ensures var d := Next(c, a);
            name in d.networks && d.networks[name].status.state.StateNew? && d.release == c.release
  {
    assert a in [a];
    if a.Call? && a.name == name {
      NewIsStuck(ViewOf(c, name), a.env);
    } else {
      if a.Call? && a.name in c.networks {
        OthersLeaveRelease(c, name, a.name, a.env);
      }
      OthersKeepResource(c, a, name);
    }
  }

  /** An install never gets past a foreign release: until its owner's clean-up is called, through any run
      without forced states and whatever succeeds in it, the network stays in New and the release stays. */
  lemma {:induction false} StuckUntilOwnerIsCleanedUp(c: Cluster, acts: seq<Action>, name: string)
    requires Orderly(c) && AllForceFree(acts) && Delete(name) !in acts && name in c.networks
    requires c.networks[name].status.state.StateNew? && !NoForeignRelease(ViewOf(c, name))
    requires LeavesOwner(acts, c.release.value)
    ensures var r := Run(c, acts);
            name in r.networks && r.networks[name].status.state.StateNew? && r.release == c.release
    decreases |acts|
  {
    if acts != [] {
      assert acts[0] in acts && forall a :: a in acts[1..] ==> a in acts;
      NextKeepsStuck(c, acts[0], name);
      NextKeepsOrderly(c, acts[0]);
      StuckUntilOwnerIsCleanedUp(Next(c, acts[0]), acts[1..], name);
    }
  }

  // The call that finds a blocked network in Unset takes it to New.
  lemma UnsetGetsStuck(c: Cluster, name: string, env: Env)
    requires Healthy(c, name) && Blocked(ViewOf(c, name)) && Works(ViewOf(c, name), env)
    requires c.networks[name].status.state.StateUnset? && Reconstruct(ViewOf(c, name), env).ok
    ensures var d := Next(c, Call(name, env));
            name in d.networks && d.networks[name].status.state.StateNew? && d.release == c.release
  {
  }

  lemma {:induction false} UndisturbedIsForceFree(c: Cluster, acts: seq<Action>, name: string)
    requires name in c.networks && Undisturbed(c, acts, name)
    ensures AllForceFree(acts) && Delete(name) !in acts
    decreases |acts|
  {
    if acts != [] {
      assert name in Next(c, acts[0]).networks;
      UndisturbedIsForceFree(Next(c, acts[0]), acts[1..], name);
    }
  }

  // A run that begins, if the network is still untouched, with the call that acts on it.
  ghost predicate BeginsWithItsCall(c: Cluster, acts: seq<Action>, name: string)
    requires name in c.networks
  {
    c.networks[name].status.state.StateUnset? ==>
      acts != [] && acts[0].Call? && acts[0].name == name && Reconstruct(ViewOf(c, name), acts[0].env).ok
  }

  lemma BlockedNeverRests(c: Cluster, acts: seq<Action>, name: string)
    requires Healthy(c, name) && Blocked(ViewOf(c, name)) && Undisturbed(c, acts, name)
    requires LeavesOwner(acts, c.release.value) && BeginsWithItsCall(c, acts, name)
    ensures name in Run(c, acts).networks && !Stopped(ViewOf(Run(c, acts), name))
  {
    UndisturbedIsForceFree(c, acts, name);
    if c.networks[name].status.state.StateUnset? {
      var d := Next(c, acts[0]);
      UnsetGetsStuck(c, name, acts[0].env);
      NextStaysHealthy(c, acts[0], name);
      assert forall a :: a in acts[1..] ==> a in acts;
      StuckUntilOwnerIsCleanedUp(d, acts[1..], name);
    } else {
      StuckUntilOwnerIsCleanedUp(c, acts, name);
    }
  }

  /* ---- Convergence ---- */

  /** From every reachable state, with its Spec left alone and no failure in its own calls, whatever is
      created, edited, deleted or reconciled beside it: a network that was called more than 71 times, and
      once more for each lost directory, without being found waiting, is at rest (Rejected, Failed, or Ready
      with nothing pending but a topology change that getChanges does not classify) if and only if it did
      not set out to install while a foreign release has the chart's name. That release stays only as long
      as its owner is not reconciled. */
  lemma ComesToRestExactly(start: Cluster, before: seq<Action>, acts: seq<Action>, name: string)
    requires Fresh(start) && AllForceFree(before)
    requires var c := Run(start, before);
             name in c.networks && Undisturbed(c, acts, name) &&
             BusyCalls(c, acts, name) > 71 + Losses(acts, name) &&
             (Blocked(ViewOf(c, name)) ==> LeavesOwner(acts, c.release.value) && BeginsWithItsCall(c, acts, name))
    ensures name in Run(Run(start, before), acts).networks
    ensures Stopped(ViewOf(Run(Run(start, before), acts), name)) <==> !Blocked(ViewOf(Run(start, before), name))
  {
    var c := Run(start, before);
    RunStaysHealthy(start, before);
    if Blocked(ViewOf(c, name)) {
      BlockedNeverRests(c, acts, name);
    } else {
      EffortBoundsBusyCalls(c, acts, name);
      EffortIsSmall(ViewOf(c, name));
    }
  }
}
