/** What every run keeps about the states of its networks. */
module Safety {
  import opened Api
  import opened Cluster
  import opened Diagram
  import opened Refinement
  import opened Runs

  predicate Known(s: State) { !s.StateInvalid? && !s.Unknown? }

  // Neither untouched nor turned away.
  predicate Active(s: State) { !s.StateUnset? && !s.StateRejected? }

  // The states in which NextFlow may be None.
  predicate MaySkip(s: State) {
    s in {StateNew, StateHelmChartNeedsUpdate, StateHelmChartNeedsDoubleUpdate,
          StateHelmChartInstalled, StateHelmChartReady}
  }

  ghost predicate Sane(n: Resource) {
    (n.spec.forceState.StateUnset? || Forceable(n.spec.forceState)) &&
    Known(n.status.state) && (n.status.workflow.Some? <==> Waits(n.status.state))
  }

  ghost predicate Unforced(n: Resource) {
    n.spec.forceState.StateUnset? && (n.status.nextFlow.NextFlowNone? ==> MaySkip(n.status.state))
  }

  // Holds in every run, with forced states or without.
  ghost predicate AllSane(c: Cluster) { forall n :: n in c.networks ==> Sane(c.networks[n]) }

  ghost predicate AtMostOneActive(c: Cluster) {
    forall m, n | m in c.networks && n in c.networks && m != n ::
      !(Active(c.networks[m].status.state) && Active(c.networks[n].status.state))
  }

  // Holds in every run without forced states.
  ghost predicate Orderly(c: Cluster) {
    AllSane(c) && (forall n :: n in c.networks ==> Unforced(c.networks[n])) && AtMostOneActive(c)
  }

  // One arrow, or restart and shortcut, keeps what a status promises.
  lemma MoveKeeps(g: Guards, a: Status, b: Status)
    requires Moves(g, a, b) && Known(a.state) && (a.workflow.Some? <==> Waits(a.state))
    ensures Known(b.state) && (b.workflow.Some? <==> Waits(b.state))
    ensures (a.nextFlow.NextFlowNone? ==> MaySkip(a.state)) ==> (b.nextFlow.NextFlowNone? ==> MaySkip(b.state))
    ensures Active(b.state) ==> Active(a.state) || (a.state.StateUnset? && !g.crowded)
    ensures b.Copy() == a.Copy() || b.Copy() == g.spec.Project()
  {
  }

  lemma StepMoves(v: View, env: Env)
    requires v.net.spec.forceState.StateUnset? && Sane(v.net)
    ensures var r := Step(v, env).view;
            r.net.spec == v.net.spec && Moves(GuardsOf(v, env), v.net.status, r.net.status)
  {
    StepFollowsDiagram(v, env);
  }

  /** A forced state is not lost: it gets into the status, with its message and nothing to wait for, exactly if
      that write takes effect, heard or not, and leaves the Spec only after it was heard; nothing else changes. */
  lemma StepForces(v: View, env: Env)
    requires Forceable(v.net.spec.forceState)
    ensures var r, spec, st := Step(v, env).view, v.net.spec, v.net.status;
            var forced := st.(state := spec.forceState, message := "State is forced", workflow := None);
            var leaves := env.save1.Written? && !env.update.NotWritten?;
            r.net.status == (if env.save1.NotWritten? then st else forced) &&
            r.net.spec == (if leaves then spec.(forceState := StateUnset) else spec) &&
            r.release == v.release && r.workflows == v.workflows && r.secret == v.secret && r.dir == v.dir
  {
  }

  // Another network of the namespace has been touched.
  ghost predicate OtherTouched(c: Cluster, name: string) {
    exists m :: m in c.networks && m != name && !c.networks[m].status.state.StateUnset?
  }

  lemma CrowdedExactly(c: Cluster, name: string)
    requires name in c.networks && c.networks[name].status.state.StateUnset?
    ensures Crowded(c) <==> OtherTouched(c, name)
  {
    if m :| m in c.networks && m != name && !c.networks[m].status.state.StateUnset? {
      assert m in c.networks.Keys - {name} && |c.networks.Keys - {name}| == |c.networks| - 1;
    }
  }

  /** An untouched network is rejected if and only if another one of the namespace was touched before, and
      otherwise sets out with the Spec of now. */
  lemma UntouchedIsDecidedExactly(c: Cluster, name: string, env: Env)
    requires name in c.networks && c.networks[name].status.state.StateUnset?
    requires c.networks[name].spec.forceState.StateUnset? && env.readable && env.listable && !env.save1.NotWritten?
    requires Reconstruct(ViewOf(c, name), env).ok
    ensures var n, st := c.networks[name], Reconciled(c, name, env).networks[name].status;
            st.nextFlow == n.status.nextFlow && st.workflow == None &&
            if OtherTouched(c, name) then st.state.StateRejected? && st.Copy() == n.status.Copy()
            else st.state.StateNew? && st.Copy() == n.spec.Project()
  {
    CrowdedExactly(c, name);
  }

  /** So the second network of a namespace is turned away at its first call that gets to it, and says why. */
  lemma SecondIsRejected(c: Cluster, name: string, spec: Spec, env: Env)
    requires name !in c.networks && OtherTouched(c, name) && spec.forceState.StateUnset?
    requires env.readable && env.listable && !env.save1.NotWritten?
    requires var d := Next(c, Create(name, spec)); Reconstruct(ViewOf(d, name), env).ok
    ensures var st := Next(Next(c, Create(name, spec)), Call(name, env)).networks[name].status;
            st.state.StateRejected? && st.message == "More than one FabricNetwork per namespace is not allowed"
  {
    var d := Next(c, Create(name, spec));
    var m :| m in c.networks && m != name && !c.networks[m].status.state.StateUnset?;
    assert d.networks[m] == c.networks[m];
    UntouchedIsDecidedExactly(d, name, env);
  }

  lemma StepKeepsSane(v: View, env: Env)
    requires Sane(v.net)
    ensures Sane(Step(v, env).view.net)
  {
    if v.net.spec.forceState.StateUnset? {
      StepMoves(v, env);
      MoveKeeps(GuardsOf(v, env), v.net.status, Step(v, env).view.net.status);
    } else {
      StepForces(v, env);
    }
  }

  lemma NextKeepsSane(c: Cluster, a: Action)
    requires AllSane(c) && Admitted(a)
    ensures AllSane(Next(c, a))
  {
    if a.Call? && a.name in c.networks {
      StepKeepsSane(ViewOf(c, a.name), a.env);
    }
  }

  /** In every run a network waits for a workflow exactly in the three Submitted states, and no network
      is ever Invalid or in a state without a name. */
  lemma {:induction false} RunKeepsSane(c: Cluster, acts: seq<Action>)
    requires AllSane(c) && AllAdmitted(acts)
    ensures AllSane(Run(c, acts))
    decreases |acts|
  {
    if acts != [] {
      NextKeepsSane(c, acts[0]);
      RunKeepsSane(Next(c, acts[0]), acts[1..]);
    }
  }

  lemma TwoAreMany(c: Cluster, m: string, n: string)
    requires m in c.networks && n in c.networks && m != n
    ensures |c.networks| >= 2
  {
    assert |{m, n}| == 2;
    assert {m, n} <= c.networks.Keys;
    SubsetSize({m, n}, c.networks.Keys);
  }

  lemma SubsetSize<T>(a: set<T>, b: set<T>)
    requires a <= b
    ensures |a| <= |b|
  {
    assert b == a + (b - a);
  }

  // A network that becomes active finds no other active one.
  lemma NewcomerIsAlone(c: Cluster, name: string, m: string)
    requires name in c.networks && m in c.networks && m != name
    requires Active(c.networks[m].status.state)
    ensures Crowded(c)
  {
    TwoAreMany(c, name, m);
  }

  lemma OneChangeKeepsOrderly(c: Cluster, r: Cluster, name: string)
    requires Orderly(c) && name in c.networks
    requires name in r.networks && r.networks == c.networks[name := r.networks[name]]
    requires Sane(r.networks[name]) && Unforced(r.networks[name])
    requires Active(r.networks[name].status.state) ==>
               Active(c.networks[name].status.state) || !Crowded(c)
    ensures Orderly(r)
  {
    forall m | m in c.networks && m != name && Active(c.networks[m].status.state)
      ensures !Active(r.networks[name].status.state)
    {
      NewcomerIsAlone(c, name, m);
    }
  }

  lemma StepKeepsUnforced(v: View, env: Env)
    requires Sane(v.net) && Unforced(v.net)
    ensures var b := Step(v, env).view.net;
            Sane(b) && Unforced(b) && (Active(b.status.state) ==> Active(v.net.status.state) || !v.crowded)
  {
    StepMoves(v, env);
    MoveKeeps(GuardsOf(v, env), v.net.status, Step(v, env).view.net.status);
  }

  lemma CallKeepsOrderly(c: Cluster, name: string, env: Env)
    requires Orderly(c)
    ensures Orderly(Reconciled(c, name, env))
  {
    if name in c.networks {
      StepKeepsUnforced(ViewOf(c, name), env);
      OneChangeKeepsOrderly(c, PutBack(c, Step(ViewOf(c, name), env).view), name);
    }
  }

  lemma NextKeepsOrderly(c: Cluster, a: Action)
    requires Orderly(c) && ForceFree(a)
    ensures Orderly(Next(c, a))
  {
    if a.Call? {
      CallKeepsOrderly(c, a.name, a.env);
    } else {
      NextKeepsSane(c, a);
    }
  }

  lemma {:induction false} RunKeepsOrderly(c: Cluster, acts: seq<Action>)
    requires Orderly(c) && AllForceFree(acts)
    ensures Orderly(Run(c, acts))
    decreases |acts|
  {
    if acts != [] {
      NextKeepsOrderly(c, acts[0]);
      RunKeepsOrderly(Next(c, acts[0]), acts[1..]);
    }
  }

  /** Whatever users create, edit and delete, and whichever calls and writes fail, at most one network of
      the namespace is ever anything but untouched or Rejected. */
  lemma MutualExclusion(c: Cluster, acts: seq<Action>, m: string, n: string)
    requires Fresh(c) && AllForceFree(acts)
    requires m in Run(c, acts).networks && n in Run(c, acts).networks
    requires Run(c, acts).networks[m].status.state !in {StateUnset, StateRejected}
    requires Run(c, acts).networks[n].status.state !in {StateUnset, StateRejected}
    ensures m == n
  {
    RunKeepsOrderly(c, acts);
  }

  /** NextFlow None is never stored in Ready or in any state of a flow. */
  lemma SkippingIsTransient(c: Cluster, acts: seq<Action>, n: string)
    requires Fresh(c) && AllForceFree(acts)
    requires n in Run(c, acts).networks && Run(c, acts).networks[n].status.nextFlow.NextFlowNone?
    ensures MaySkip(Run(c, acts).networks[n].status.state)
  {
    RunKeepsOrderly(c, acts);
  }

  /* ---- The four snapshots ---- */

  // The snapshots a user handed over for this network so far.
  ghost function Given(acts: seq<Action>, name: string): set<Snapshot> {
    set a | a in acts && (a.Create? || a.Edit?) && a.name == name :: a.spec.Project()
  }

  ghost predicate FromGiven(c: Cluster, name: string, given: set<Snapshot>) {
    name in c.networks ==> FromThese(c.networks[name], given)
  }

  ghost predicate FromThese(n: Resource, given: set<Snapshot>) {
    n.spec.Project() in given && (n.status.Copy() == INITIAL_STATUS.Copy() || n.status.Copy() in given)
  }

  lemma StepKeepsGiven(v: View, env: Env, given: set<Snapshot>)
    requires Sane(v.net) && FromThese(v.net, given)
    ensures FromThese(Step(v, env).view.net, given)
  {
    if v.net.spec.forceState.StateUnset? {
      StepMoves(v, env);
      MoveKeeps(GuardsOf(v, env), v.net.status, Step(v, env).view.net.status);
    } else {
      StepForces(v, env);
    }
  }

  lemma NextKeepsGiven(c: Cluster, a: Action, name: string, given: set<Snapshot>)
    requires AllSane(c) && Admitted(a) && FromGiven(c, name, given)
    requires (a.Create? || a.Edit?) && a.name == name ==> a.spec.Project() in given
    ensures FromGiven(Next(c, a), name, given)
  {
    if a.Call? && a.name == name && name in c.networks {
      StepKeepsGiven(ViewOf(c, name), a.env, given);
    }
  }

  lemma {:induction false} RunKeepsGiven(c: Cluster, acts: seq<Action>, name: string, given: set<Snapshot>)
    requires AllSane(c) && AllAdmitted(acts) && FromGiven(c, name, given)
    requires Given(acts, name) <= given
    ensures FromGiven(Run(c, acts), name, given)
    decreases |acts|
  {
    if acts != [] {
      var a := acts[0];
      assert a in acts;
      assert (a.Create? || a.Edit?) && a.name == name ==> a.spec.Project() in Given(acts, name);
      NextKeepsSane(c, a);
      NextKeepsGiven(c, a, name, given);
      assert Given(acts[1..], name) <= Given(acts, name);
      RunKeepsGiven(Next(c, a), acts[1..], name, given);
    }
  }

  /** Even with forced states the four snapshots never mix two versions of the Spec: all are initial, or
      all come from one Spec that a user gave this network. */
  lemma SnapshotsAreAtomic(c: Cluster, acts: seq<Action>, name: string)
    requires Fresh(c) && AllAdmitted(acts) && name in Run(c, acts).networks
    ensures var copy := Run(c, acts).networks[name].status.Copy();
            || copy == INITIAL_STATUS.Copy()
            || exists a :: a in acts && (a.Create? || a.Edit?) && a.name == name && a.spec.Project() == copy
  {
    RunKeepsGiven(c, acts, name, Given(acts, name));
  }
}
