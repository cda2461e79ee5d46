/** What brings the next Reconcile: an error or a requeue, or the watch event of a written status. Most
    status writes ignore their error, and then nothing brings it, unless the write was refused for a
    conflict: then the edit that it conflicts with has its own event. The controller runtime's periodic
    resync, which calls every network once in hours, does not count here. */
module Wakeups {
  import opened Api
  import opened Changes
  import opened Cluster
  import opened Diagram
  import opened Refinement
  import opened Runs
  import opened Safety
  import opened Convergence

  // After the call another one follows on its own.
  predicate WokenAgain(v: View, o: Out) {
    !o.result.Done? || o.view.net.status != v.net.status
  }

  // The call gets as far as a status write whose error it ignores.
  ghost predicate GoesOn(v: View, env: Env) {
    var st, ch := v.net.status, Pending(v.net);
    match st.state
    case StateUnset => env.listable && !v.crowded
    case StateNew => StartOver(v, env).ok
    case StateHelmChartNeedsUpdate => v.release.Some? && env.upgrade1.UpgradeOk?
    case StateHelmChartNeedsDoubleUpdate =>
      v.release.Some? && env.upgrade1.UpgradeOk? && (v.net.spec.topology.useActualDomains ==> env.upgrade2.UpgradeOk?)
    case StateHelmChartInstalled => EveryReplicaReady(env)
    case StateHelmChartReady => !ch.topology && (st.nextFlow.NextFlowNone? || env.submit.SubmitOk?)
    case StateChannelFlowCompleted => env.submit.SubmitOk?
    case StateChaincodeFlowCompleted => true
    case StatePeerOrgFlowCompleted => env.submit.SubmitOk?
    case StateReady =>
      !Classified(ch) && (ch.channel || ch.chaincode) && env.valuesWritten && env.networkFile && env.submit.SubmitOk?
    case _ =>
      Waits(st.state) && env.workflowRead && st.workflow.Some? && st.workflow.value < |v.workflows| &&
      !v.workflows[st.workflow.value].deleted && !v.workflows[st.workflow.value].phase.OtherPhase?
  }

  // The answer to that write.
  function LastWrite(v: View, env: Env): Write {
    if v.net.status.state.StateHelmChartReady? || v.net.status.state.StateReady? then env.save2 else env.save1
  }

  ghost predicate LosesItsWrite(v: View, env: Env) { GoesOn(v, env) && LastWrite(v, env).NotWritten? }

  ghost predicate StallsExactly(v: View, env: Env) {
    !WokenAgain(v, StepByState(v, env)) <==> LosesItsWrite(v, env)
  }

  lemma FirstStatesStall(v: View, env: Env)
    requires v.net.status.state in {StateUnset, StateHelmChartInstalled}
    ensures StallsExactly(v, env)
  {
    ReadyExactly(env);
  }

  lemma NewStalls(v: View, env: Env)
    requires v.net.status.state.StateNew?
    ensures StallsExactly(v, env)
  {
    StartOverIsQuiet(v, env);
  }

  lemma UpgradeIgnoresStatus(v: View, u: Upgrade)
    ensures UpgradeRelease(v, u).view.net.status == v.net.status
    ensures UpgradeRelease(v, u).ok <==> v.release.Some? && u.UpgradeOk?
    ensures v.release.Some? ==> UpgradeRelease(v, u).view.release.Some?
  {
  }

  // What follows a tried update: an error, or the write of the next state.
  lemma TriedStalls(v: View, t: Tried, w: Write)
    requires t.view.net.status == v.net.status && !v.net.status.state.StateHelmChartInstalled?
    ensures WokenAgain(v, ThenInstalled(t, v.net.status, w)) <==> !(t.ok && w.NotWritten?)
  {
  }

  lemma UpdateStalls(v: View, env: Env)
    requires v.net.status.state.StateHelmChartNeedsUpdate?
    ensures StallsExactly(v, env)
  {
    var t := UpgradeRelease(v, env.upgrade1);
    UpgradeIgnoresStatus(v, env.upgrade1);
    TriedStalls(v, t, env.save1);
    assert StepByState(v, env) == ThenInstalled(t, v.net.status, env.save1);
  }

  lemma DoubleUpdateStalls(v: View, env: Env)
    requires v.net.status.state.StateHelmChartNeedsDoubleUpdate?
    ensures StallsExactly(v, env)
  {
    var u := UpgradeRelease(v, env.upgrade1);
    var t := if u.ok && v.net.spec.topology.useActualDomains then UpgradeRelease(u.view, env.upgrade2) else u;
    UpgradeIgnoresStatus(v, env.upgrade1);
    UpgradeIgnoresStatus(u.view, env.upgrade2);
    TriedStalls(v, t, env.save1);
    assert StepByState(v, env) == ThenInstalled(t, v.net.status, env.save1);
  }

  lemma HelmReadyStalls(v: View, env: Env)
    requires v.net.status.state.StateHelmChartReady?
    ensures StallsExactly(v, env)
  {
  }

  lemma FlowsStall(v: View, env: Env)
    requires Waits(v.net.status.state) || v.net.status.state in
               {StateChannelFlowCompleted, StateChaincodeFlowCompleted, StatePeerOrgFlowCompleted}
    ensures StallsExactly(v, env)
  {
  }

  lemma ReadyStalls(v: View, env: Env)
    requires v.net.status.state.StateReady? && !Stopped(v)
    ensures StallsExactly(v, env)
  {
    MakeCryptoIsQuiet(v, v, env);
  }

  lemma StepByStateStalls(v: View, env: Env)
    requires Sane(v.net) && !Stopped(v)
    ensures StallsExactly(v, env)
  {
    match v.net.status.state
    case StateNew => NewStalls(v, env);
    case StateReady => ReadyStalls(v, env);
    case StateHelmChartNeedsUpdate => UpdateStalls(v, env);
    case StateHelmChartNeedsDoubleUpdate => DoubleUpdateStalls(v, env);
    case StateHelmChartReady => HelmReadyStalls(v, env);
    case StateUnset => FirstStatesStall(v, env);
    case StateHelmChartInstalled => FirstStatesStall(v, env);
    case _ => FlowsStall(v, env);
  }

  /** A network that is not at rest is left without a next call exactly by a call that got as far as a
      status write whose error is ignored, when that write did not take effect. */
  lemma StepStallsExactly(v: View, env: Env)
    requires v.net.spec.forceState.StateUnset? && Sane(v.net) && !Stopped(v)
    ensures !WokenAgain(v, Step(v, env)) <==>
            Reconstruct(v, env).ok && LosesItsWrite(Reconstruct(v, env).view, env)
  {
    if Reconstruct(v, env).ok {
      StepByStateStalls(Reconstruct(v, env).view, env);
    }
  }

  /** So with writes that take effect a network keeps itself going until it is at rest. */
  lemma KeepsGoing(v: View, env: Env)
    requires v.net.spec.forceState.StateUnset? && Sane(v.net) && !Stopped(v)
    requires !env.save1.NotWritten? && !env.save2.NotWritten?
    ensures WokenAgain(v, Step(v, env))
  {
    StepStallsExactly(v, env);
  }

  /* ---- The closed loop ---- */

  // After a working call no other one follows exactly if it found the network at rest, with its directory.
  lemma WorkingCallEnds(v: View, env: Env)
    requires Good(v) && Works(v, env)
    ensures !WokenAgain(v, Step(v, env)) <==> Stopped(v) && Reconstruct(v, env).ok
    ensures !Reconstruct(v, env).ok ==> v.dir.None? && Step(v, env).view.dir.Some?
  {
    if !Stopped(v) {
      KeepsGoing(v, env);
    }
  }

  // Whether a call of the network is to come, beginning with the event that brought the first one.
  ghost function Woken(c: Cluster, acts: seq<Action>, name: string, woken: bool): bool
    decreases |acts|
  {
    if acts == [] || name !in c.networks then woken
    else Woken(Next(c, acts[0]), acts[1..], name, WokenBy(c, acts[0], name, woken))
  }

  ghost predicate WokenBy(c: Cluster, a: Action, name: string, woken: bool)
    requires name in c.networks
  {
    if a.Call? && a.name == name then WokenAgain(ViewOf(c, name), Step(ViewOf(c, name), a.env)) else woken
  }

  // Each call of the network was to come.
  ghost predicate OnlyWoken(c: Cluster, acts: seq<Action>, name: string, woken: bool)
    decreases |acts|
  {
    acts == [] || name !in c.networks ||
    ((acts[0].Call? && acts[0].name == name ==> woken) &&
     OnlyWoken(Next(c, acts[0]), acts[1..], name, WokenBy(c, acts[0], name, woken)))
  }

  // How many calls that do not wait are still to come, at most.
  ghost function Left(v: View, woken: bool): nat {
    if !Stopped(v) then Effort(v) + 2 else if !woken then 0 else if v.dir.None? then 2 else 1
  }

  // A sleeping network is at rest.
  ghost predicate SleepsAtRest(v: View, woken: bool) { woken || Stopped(v) }

  lemma CallLoops(v: View, env: Env)
    requires Good(v) && Works(v, env)
    ensures var r, woken := Step(v, env).view, WokenAgain(v, Step(v, env));
            SleepsAtRest(r, woken) &&
            Left(r, woken) + (if Waiting(v, env) then 0 else 1) <= Left(v, true)
  {
    StepConverges(v, env);
    WorkingCallEnds(v, env);
  }

  lemma LeftAlike(v: View, w: View, woken: bool, lost: bool)
    requires w.net == v.net && (v.dir.Some? && !lost ==> w.dir.Some?)
    ensures Left(w, woken) <= Left(v, woken) + (if lost then 1 else 0)
    ensures SleepsAtRest(w, woken) == SleepsAtRest(v, woken)
  {
    SameResource(v, w, lost);
  }

  lemma NextLoops(c: Cluster, a: Action, name: string, woken: bool)
    requires Healthy(c, name) && Spares(c, a, name) && !Blocked(ViewOf(c, name))
    requires SleepsAtRest(ViewOf(c, name), woken) && (a.Call? && a.name == name ==> woken)
    ensures name in Next(c, a).networks
    ensures var w, next := ViewOf(Next(c, a), name), WokenBy(c, a, name, woken);
            SleepsAtRest(w, next) &&
            Left(w, next) + Busy(c, a, name) <= Left(ViewOf(c, name), woken) + if a == LoseDir(name) then 1 else 0
  {
    if a.Call? && a.name == name {
      HealthyIsGood(c, name);
      CallLoops(ViewOf(c, name), a.env);
      CallView(c, name, a.env);
      LeftAlike(Step(ViewOf(c, name), a.env).view, ViewOf(Next(c, a), name), WokenBy(c, a, name, woken), false);
    } else {
      OthersLeaveResource(c, a, name);
      LeftAlike(ViewOf(c, name), ViewOf(Next(c, a), name), woken, a == LoseDir(name));
    }
  }

  /** Left to the events that its own calls bring, a network whose calls meet no failure goes on until it
      is at rest and no further: whenever no call of it is to come it is Rejected, Failed, or Ready with
      nothing to act on, and it is called only so often without being found waiting. */
  lemma {:induction false} GoesOnUntilAtRest(c: Cluster, acts: seq<Action>, name: string, woken: bool)
    requires Healthy(c, name) && !Blocked(ViewOf(c, name)) && SleepsAtRest(ViewOf(c, name), woken)
    requires Undisturbed(c, acts, name) && OnlyWoken(c, acts, name, woken)
    ensures name in Run(c, acts).networks
    ensures !Woken(c, acts, name, woken) ==> Stopped(ViewOf(Run(c, acts), name))
    ensures BusyCalls(c, acts, name) <= Left(ViewOf(c, name), woken) + Losses(acts, name)
    decreases |acts|
  {
    if acts != [] {
      StaysUnblocked(c, acts[0], name);
      NextLoops(c, acts[0], name, woken);
      GoesOnUntilAtRest(Next(c, acts[0]), acts[1..], name, WokenBy(c, acts[0], name, woken));
    }
  }
}
