/** The host aliases of the deployed chart over whole runs of the reconciler. */
module Aliases {
  import opened Api
  import opened Archive
  import opened Changes
  import opened Cluster
  import opened Convergence
  import opened Diagram
  import opened Effects
  import opened Refinement
  import opened Runs
  import opened Safety
  import opened Ownership
  import opened HelmValues
  import opened SkippedFlows

  // The services: those that are there without the chart, and those the chart makes of a topology.
  datatype Services = Services(present: seq<Service>, chart: Chart)

  // What an event of the journal does to the deployed release while the Spec stays the same.
  function Apply(s: Services, spec: Spec, d: Option<Deployed>, e: Event): Option<Deployed> {
    if e.Installed? then Some(Deploy(spec, s.present))
    else if e.Upgraded? && d.Some? then Some(Redeploy(s.chart, spec, d.value))
    else d
  }

  // The release after the events from index k on, when d was deployed before.
  function Rendered(s: Services, spec: Spec, d: Option<Deployed>, j: seq<Event>, k: nat): Option<Deployed>
    decreases |j|
  {
    if |j| <= k then d
    else Apply(s, spec, Rendered(s, spec, d, j[..|j| - 1], k), j[|j| - 1])
  }

  lemma RenderedOf(s: Services, spec: Spec, d: Option<Deployed>, j: seq<Event>, k: nat, e: Event)
    requires k <= |j|
    ensures Rendered(s, spec, d, j + [e], k) == Apply(s, spec, Rendered(s, spec, d, j, k), e)
  {
  }

  // b's journal goes on where a's ended, with no install and no upgrade.
  ghost predicate Leaves(a: Resource, b: Resource) {
    Continues(a, b) &&
    forall i :: |a.journal| <= i < |b.journal| ==> !b.journal[i].Installed? && !b.journal[i].Upgraded?
  }

  lemma {:induction false} LeavesRendered(s: Services, spec: Spec, d: Option<Deployed>,
                                          j: seq<Event>, l: seq<Event>, k: nat)
    requires k <= |j| <= |l| && l[..|j|] == j
    requires forall i :: |j| <= i < |l| ==> !l[i].Installed? && !l[i].Upgraded?
    ensures Rendered(s, spec, d, l, k) == Rendered(s, spec, d, j, k)
    decreases |l|
  {
    if |l| == |j| {
      assert l == j;
    } else {
      var m := l[..|l| - 1];
      assert m[..|j|] == j;
      LeavesRendered(s, spec, d, j, m, k);
    }
  }

  // Index i holds the last event that changed the release.
  ghost predicate LastChange(j: seq<Event>, i: nat) {
    i < |j| && (j[i].Installed? || j[i].Upgraded?) &&
    forall l :: i < l < |j| ==> !j[l].Installed? && !j[l].Upgraded?
  }

  /** The release has the Spec's topology and the user's aliases. With actual domains the aliases name, after
      an install, the services that were there before the chart, and after an update, those of the chart
      deployed just before it. */
  lemma LastChangeRenders(s: Services, spec: Spec, d: Option<Deployed>, j: seq<Event>, k: nat, i: nat)
    requires k <= i && LastChange(j, i)
    ensures var b, r := Rendered(s, spec, d, j[..i], k), Rendered(s, spec, d, j, k);
            var t := spec.topology;
            if j[i].Installed? then
              r.Some? && r.value.topology == t &&
              ListsAliases(r.value.aliases, spec.hostAliases, t.useActualDomains, s.present)
            else if b.None? then r.None?
            else
              r.Some? && r.value.topology == t &&
              ListsAliases(r.value.aliases, spec.hostAliases, t.useActualDomains, s.chart(b.value.topology))
  {
    var a, b := spec.topology.useActualDomains, Rendered(s, spec, d, j[..i], k);
    assert j[..i + 1] == j[..i] + [j[i]];
    RenderedOf(s, spec, d, j[..i], k, j[i]);
    LeavesRendered(s, spec, d, j[..i + 1], j, k);
    AliasesMean(spec.hostAliases, a, s.present);
    if b.Some? {
      AliasesMean(spec.hostAliases, a, s.chart(b.value.topology));
    }
  }

  predicate MayChangeRelease(s: State) { Touches(s) && !s.StateReady? }

  lemma OthersKeepRelease(v: View, env: Env)
    requires !MayChangeRelease(v.net.status.state)
    ensures Leaves(v.net, StepByState(v, env).view.net)
  {
    if v.net.status.state.StateReady? {
      ReadyLeaves(v, env);
      CertifyLeaves(v, env);
      UntouchedLeaves(AfterCertify(v, env), StepReady(v, env).view);
      LeavesTrans(v.net, AfterCertify(v, env).net, StepReady(v, env).view.net);
    } else {
      OthersLeave(v, env);
      UntouchedLeaves(v, StepByState(v, env).view);
    }
  }

  lemma UntouchedLeaves(v: View, r: View)
    requires Untouched(v, r)
    ensures Leaves(v.net, r.net)
  {
  }

  lemma CertifyLeaves(v: View, env: Env)
    ensures Leaves(v.net, AfterCertify(v, env).net)
  {
  }

  lemma LeavesTrans(a: Resource, b: Resource, c: Resource)
    requires Leaves(a, b) && Leaves(b, c)
    ensures Leaves(a, c)
  {
  }

  /* ---- What each state promises of the deployed aliases ---- */

  predicate Current(spec: Spec, d: Option<Deployed>) { d.Some? && d.value.topology == spec.topology }

  predicate AliasesFit(s: Services, spec: Spec, st: State, d: Option<Deployed>) {
    match st
    case StateUnset => true
    case StateRejected => true
    case StateNew => true
    case StateHelmChartNeedsUpdate => Current(spec, d)
    case StateHelmChartNeedsDoubleUpdate => d.Some?
    case _ => d.Some? && Complete(s.chart, spec, d.value)
  }

  // The promise, with the release rendered from the events of n's journal after index k.
  ghost predicate Fitting(s: Services, d: Option<Deployed>, n: Resource, k: nat) {
    k <= |n.journal| && AliasesFit(s, n.spec, n.status.state, Rendered(s, n.spec, d, n.journal, k))
  }

  lemma UpgradeRenders(s: Services, d: Option<Deployed>, v: View, u: Upgrade, k: nat)
    requires k <= |v.net.journal|
    ensures var r, t := Rendered(s, v.net.spec, d, v.net.journal, k), UpgradeRelease(v, u);
            var q := Rendered(s, v.net.spec, d, t.view.net.journal, k);
            |t.view.net.journal| >= |v.net.journal| &&
            t.view.net.spec == v.net.spec && t.view.net.status == v.net.status &&
            (r.Some? ==> q == r || q == Some(Redeploy(s.chart, v.net.spec, r.value))) &&
            (t.ok && r.Some? ==> q == Some(Redeploy(s.chart, v.net.spec, r.value)))
  {
  }

  lemma SaveRenders(s: Services, d: Option<Deployed>, v: View, st: Status, w: Write, k: nat)
    requires k <= |v.net.journal|
    ensures Rendered(s, v.net.spec, d, Save(v, st, w).net.journal, k) == Rendered(s, v.net.spec, d, v.net.journal, k)
  {
  }

  lemma UpdateFits(s: Services, d: Option<Deployed>, v: View, env: Env, k: nat)
    requires Fitting(s, d, v.net, k)
    requires v.net.status.state.StateHelmChartNeedsUpdate?
    ensures Fitting(s, d, StepNeedsUpdate(v, env).view.net, k)
  {
    UpgradeRenders(s, d, v, env.upgrade1, k);
    var st := To(v.net.status, StateHelmChartInstalled, "", None);
    SaveRenders(s, d, UpgradeRelease(v, env.upgrade1).view, st, env.save1, k);
  }

  lemma DoubleUpdateFits(s: Services, d: Option<Deployed>, v: View, env: Env, k: nat)
    requires Fitting(s, d, v.net, k)
    requires v.net.status.state.StateHelmChartNeedsDoubleUpdate?
    ensures Fitting(s, d, StepNeedsDoubleUpdate(v, env).view.net, k)
  {
    var u := UpgradeRelease(v, env.upgrade1);
    UpgradeRenders(s, d, v, env.upgrade1, k);
    if u.ok && v.net.spec.topology.useActualDomains {
      UpgradeRenders(s, d, u.view, env.upgrade2, k);
      ThenInstalledFits(s, d, v, UpgradeRelease(u.view, env.upgrade2), env.save1, k);
    } else {
      ThenInstalledFits(s, d, v, u, env.save1, k);
    }
  }

  // The updates done, the network is installed; otherwise something stays deployed.
  lemma ThenInstalledFits(s: Services, d: Option<Deployed>, v: View, t: Tried, w: Write, k: nat)
    requires v.net.status.state.StateHelmChartNeedsDoubleUpdate?
    requires k <= |t.view.net.journal| && t.view.net.spec == v.net.spec && t.view.net.status == v.net.status
    requires var q := Rendered(s, v.net.spec, d, t.view.net.journal, k);
             q.Some? && (t.ok ==> Complete(s.chart, v.net.spec, q.value))
    ensures Fitting(s, d, ThenInstalled(t, v.net.status, w).view.net, k)
  {
    SaveRenders(s, d, t.view, To(v.net.status, StateHelmChartInstalled, "", None), w, k);
  }

  // The last thing that starting over does is to install the chart, and without actual domains to launch it.
  lemma StartOverInstalls(v: View, env: Env) returns (p: seq<Event>)
    requires StartOver(v, env).ok
    ensures |p| >= |v.net.journal|
    ensures StartOver(v, env).view.net.journal ==
            if v.net.spec.topology.useActualDomains then p + [Installed] else p + [Installed] + [Launched]
  {
    var u := v.(release := UninstallRelease(v.release, v.name, env.uninstall),
                workflows := DeleteWorkflows(v.workflows, v.name, env.deletes));
    PrepareIsQuiet(v, u, env);
    p := Prepare(u, env).view.net.journal;
  }

  lemma StartOverRenders(s: Services, d: Option<Deployed>, v: View, env: Env, k: nat)
    requires k <= |v.net.journal| && StartOver(v, env).ok
    ensures var j := StartOver(v, env).view.net.journal;
            |j| >= |v.net.journal| && Rendered(s, v.net.spec, d, j, k) == Some(Deploy(v.net.spec, s.present))
  {
    var p := StartOverInstalls(v, env);
    RenderedOf(s, v.net.spec, d, p, k, Installed);
    RenderedOf(s, v.net.spec, d, p + [Installed], k, Launched);
  }

  lemma NewFits(s: Services, d: Option<Deployed>, v: View, env: Env, k: nat)
    requires k <= |v.net.journal|
    requires v.net.status.state.StateNew?
    ensures Fitting(s, d, StepNew(v, env).view.net, k)
  {
    StartOverIsQuiet(v, env);
    var o := StartOver(v, env);
    if o.ok {
      StartOverRenders(s, d, v, env, k);
      SaveRenders(s, d, o.view, To(v.net.status, AfterInstall(v.net.spec), "", None), env.save1, k);
    }
  }

  lemma MoveFits(s: Services, g: Guards, a: Status, b: Status, d: Option<Deployed>)
    requires Moves(g, a, b) && Known(a.state) && !MayChangeRelease(a.state)
    requires AliasesFit(s, g.spec, a.state, d)
    ensures AliasesFit(s, g.spec, b.state, d)
  {
  }

  lemma OthersFit(s: Services, d: Option<Deployed>, v: View, env: Env, k: nat)
    requires v.net.spec.forceState.StateUnset? && Sane(v.net) && Fitting(s, d, v.net, k)
    requires !MayChangeRelease(v.net.status.state)
    ensures Fitting(s, d, Step(v, env).view.net, k)
  {
    var m, r := Reconstruct(v, env).view, Step(v, env).view;
    StepMoves(v, env);
    OthersKeepRelease(m, env);
    LeavesRendered(s, v.net.spec, d, v.net.journal, r.net.journal, k);
    MoveFits(s, GuardsOf(v, env), v.net.status, r.net.status, Rendered(s, v.net.spec, d, v.net.journal, k));
  }

  lemma StepFits(s: Services, d: Option<Deployed>, v: View, env: Env, k: nat)
    requires v.net.spec.forceState.StateUnset? && Sane(v.net) && Fitting(s, d, v.net, k)
    ensures Fitting(s, d, Step(v, env).view.net, k)
    ensures Step(v, env).view.net.spec == v.net.spec
  {
    StepMoves(v, env);
    var m := Reconstruct(v, env).view;
    match v.net.status.state
    case StateNew => NewFits(s, d, m, env, k);
    case StateHelmChartNeedsUpdate => UpdateFits(s, d, m, env, k);
    case StateHelmChartNeedsDoubleUpdate => DoubleUpdateFits(s, d, m, env, k);
    case _ => OthersFit(s, d, v, env, k);
  }

  /* ---- Whole runs ---- */

  // Everything may happen but an edit or the deletion of this network, and a forced state.
  ghost predicate SpecIsFixed(acts: seq<Action>, name: string) {
    AllForceFree(acts) && forall a :: a in acts ==> !((a.Edit? || a.Delete?) && a.name == name)
  }

  lemma NextFits(s: Services, d: Option<Deployed>, c: Cluster, a: Action, name: string, k: nat)
    requires Orderly(c) && name in c.networks && Fitting(s, d, c.networks[name], k)
    requires ForceFree(a) && !((a.Edit? || a.Delete?) && a.name == name)
    ensures var r := Next(c, a);
            name in r.networks && Fitting(s, d, r.networks[name], k) &&
            r.networks[name].spec == c.networks[name].spec
  {
    if a.Call? && a.name == name {
      StepFits(s, d, ViewOf(c, name), a.env, k);
    }
  }

  lemma {:induction false} RunFits(s: Services, d: Option<Deployed>, c: Cluster, acts: seq<Action>,
                                   name: string, k: nat)
    requires Orderly(c) && name in c.networks && Fitting(s, d, c.networks[name], k)
    requires SpecIsFixed(acts, name)
    ensures var r := Run(c, acts);
            name in r.networks && Fitting(s, d, r.networks[name], k) &&
            r.networks[name].spec == c.networks[name].spec
    decreases |acts|
  {
    if acts != [] {
      assert acts[0] in acts;
      NextFits(s, d, c, acts[0], name, k);
      NextKeepsOrderly(c, acts[0]);
      RunFits(s, d, Next(c, acts[0]), acts[1..], name, k);
    }
  }

  // The release deployed since index k has the Spec's topology and the user's aliases, with actual domains
  // also those of every service of its own chart that asks for one, and one more update would change nothing.
  ghost predicate Settles(s: Services, d: Option<Deployed>, n: Resource, k: nat) {
    var x, t := Rendered(s, n.spec, d, n.journal, k), n.spec.topology;
    x.Some? && x.value.topology == t &&
    ListsAliases(x.value.aliases, n.spec.hostAliases, t.useActualDomains, s.chart(t)) &&
    Redeploy(s.chart, n.spec, x.value) == x.value
  }

  lemma CompleteSettles(s: Services, d: Option<Deployed>, n: Resource, k: nat)
    requires var x := Rendered(s, n.spec, d, n.journal, k); x.Some? && Complete(s.chart, n.spec, x.value)
    ensures Settles(s, d, n, k)
  {
    var t := n.spec.topology;
    AliasesMean(n.spec.hostAliases, t.useActualDomains, s.chart(t));
  }

  predicate PastUpdates(s: State) { PastNew(s) && !MayChangeRelease(s) }

  /** With a fixed Spec, from New on, where the values files are written anew, and whatever fails in between:
      a network that has come to HelmChartInstalled or any later state has deployed the user's aliases and,
      with actual domains, those of every labelled service of its own chart. */
  lemma NewDeploysCompleteAliases(s: Services, d: Option<Deployed>, c: Cluster, acts: seq<Action>, name: string)
    requires Orderly(c) && name in c.networks && c.networks[name].status.state.StateNew?
    requires SpecIsFixed(acts, name)
    requires name in Run(c, acts).networks && PastUpdates(Run(c, acts).networks[name].status.state)
    ensures Settles(s, d, Run(c, acts).networks[name], |c.networks[name].journal|)
  {
    RunFits(s, d, c, acts, name, |c.networks[name].journal|);
    CompleteSettles(s, d, Run(c, acts).networks[name], |c.networks[name].journal|);
  }

  lemma ChangedOrgsFit(s: Services, x: Deployed, v: View, env: Env)
    requires v.net.spec.forceState.StateUnset? && v.net.status.state.StateReady?
    requires OrgsChanged(v.net)
    requires Moved(v, Step(v, env).view)
    ensures Step(v, env).view.net.spec == v.net.spec
    ensures Fitting(s, Some(x), Step(v, env).view.net, |v.net.journal|)
  {
    OrgsChangedFlagged(v.net);
    var m, r := Reconstruct(v, env).view, Step(v, env).view;
    ReadyMoves(m, env);
    OthersKeepRelease(m, env);
    LeavesRendered(s, v.net.spec, Some(x), v.net.journal, r.net.journal, |v.net.journal|);
  }

  /** The same from the call in Ready that acted on changed organizations, and wrote the values files for
      them, on: whatever was deployed before. */
  lemma ChangedOrgsDeployCompleteAliases(s: Services, x: Deployed, c: Cluster, name: string, env: Env,
                                         acts: seq<Action>)
    requires LeftReady(c, name, env) && OrgsChanged(c.networks[name])
    requires SpecIsFixed(acts, name)
    requires var r := Run(Next(c, Call(name, env)), acts);
             name in r.networks && PastUpdates(r.networks[name].status.state)
    ensures Settles(s, Some(x), Run(Next(c, Call(name, env)), acts).networks[name], |c.networks[name].journal|)
  {
    ChangedOrgsFit(s, x, ViewOf(c, name), env);
    NextKeepsOrderly(c, Call(name, env));
    RunFits(s, Some(x), Next(c, Call(name, env)), acts, name, |c.networks[name].journal|);
    CompleteSettles(s, Some(x), Run(Next(c, Call(name, env)), acts).networks[name], |c.networks[name].journal|);
  }

  /* ---- The single update that more peers get ---- */

  // How many upgrades took effect from index k on.
  function Upgrades(j: seq<Event>, k: nat): nat
    decreases |j|
  {
    if |j| <= k then 0 else Upgrades(j[..|j| - 1], k) + if j[|j| - 1].Upgraded? then 1 else 0
  }

  ghost predicate NoInstall(j: seq<Event>, k: nat) { forall i :: k <= i < |j| ==> !j[i].Installed? }

  lemma UpgradesOf(j: seq<Event>, k: nat, e: Event)
    requires k <= |j|
    ensures Upgrades(j + [e], k) == Upgrades(j, k) + if e.Upgraded? then 1 else 0
  {
    assert (j + [e])[..|j|] == j;
  }

  lemma {:induction false} LeavesUpgrades(j: seq<Event>, l: seq<Event>, k: nat)
    requires k <= |j| <= |l| && l[..|j|] == j
    requires forall i :: |j| <= i < |l| ==> !l[i].Installed? && !l[i].Upgraded?
    ensures Upgrades(l, k) == Upgrades(j, k) && (NoInstall(j, k) ==> NoInstall(l, k))
    decreases |l|
  {
    if |l| == |j| {
      assert l == j;
    } else {
      var m := l[..|l| - 1];
      assert m[..|j|] == j;
      LeavesUpgrades(j, m, k);
      assert forall i :: 0 <= i < |j| ==> l[i] == j[i];
    }
  }

  // None, one, or more upgrades of what was deployed before.
  lemma {:induction false} RenderedByUpgrades(s: Services, spec: Spec, x: Deployed, j: seq<Event>, k: nat)
    requires NoInstall(j, k)
    ensures var n, r := Upgrades(j, k), Rendered(s, spec, Some(x), j, k);
            (n == 0 ==> r == Some(x)) && (n == 1 ==> r == Some(Redeploy(s.chart, spec, x))) &&
            (n >= 2 ==> r.Some? && Complete(s.chart, spec, r.value))
    decreases |j|
  {
    if |j| > k {
      var init := j[..|j| - 1];
      assert NoInstall(init, k) by {
        assert forall i :: 0 <= i < |init| ==> init[i] == j[i];
      }
      RenderedByUpgrades(s, spec, x, init, k);
    }
  }

  // Behind a Ready call for more peers: the update is due or has taken effect, and nothing else is pending.
  ghost predicate Updating(n: Resource, k: nat) {
    k <= |n.journal| && NoInstall(n.journal, k) && !Pending(n).Any() &&
    (n.status.state.StateHelmChartNeedsUpdate? || (PastUpdates(n.status.state) && Upgrades(n.journal, k) >= 1))
  }

  lemma MoveStaysPast(g: Guards, a: Status, b: Status)
    requires Moves(g, a, b) && PastUpdates(a.state) && Known(a.state) && !Changed(g.spec, a).Any()
    ensures PastUpdates(b.state) && b.Copy() == a.Copy()
  {
  }

  lemma UpgradeCounts(v: View, u: Upgrade, k: nat)
    requires k <= |v.net.journal| && NoInstall(v.net.journal, k)
    ensures var t := UpgradeRelease(v, u);
            var j := t.view.net.journal;
            k <= |j| && NoInstall(j, k) && Upgrades(j, k) >= Upgrades(v.net.journal, k) &&
            (t.ok ==> Upgrades(j, k) >= 1)
  {
    if v.release.Some? {
      var e := Upgraded(v.release.value.owner);
      UpgradesOf(v.net.journal, k, e);
      UpgradesOf(v.net.journal + [e], k, Launched);
    }
  }

  lemma UpdateKeepsUpdating(v: View, env: Env, k: nat)
    requires v.net.status.state.StateHelmChartNeedsUpdate? && Updating(v.net, k)
    ensures Updating(StepNeedsUpdate(v, env).view.net, k)
  {
    var u := UpgradeRelease(v, env.upgrade1).view;
    UpgradeCounts(v, env.upgrade1, k);
    UpgradesOf(u.net.journal, k, Wrote(u.net.status, To(v.net.status, StateHelmChartInstalled, "", None)));
  }

  lemma PastKeepsUpdating(v: View, env: Env, k: nat)
    requires v.net.spec.forceState.StateUnset? && Sane(v.net) && Updating(v.net, k)
    requires PastUpdates(v.net.status.state)
    ensures Updating(Step(v, env).view.net, k)
  {
    var m, r := Reconstruct(v, env).view, Step(v, env).view;
    StepMoves(v, env);
    MoveStaysPast(GuardsOf(v, env), v.net.status, r.net.status);
    OthersKeepRelease(m, env);
    LeavesUpgrades(v.net.journal, r.net.journal, k);
  }

  lemma StepKeepsUpdating(v: View, env: Env, k: nat)
    requires v.net.spec.forceState.StateUnset? && Sane(v.net) && Updating(v.net, k)
    ensures Updating(Step(v, env).view.net, k) && Step(v, env).view.net.spec == v.net.spec
  {
    StepMoves(v, env);
    if v.net.status.state.StateHelmChartNeedsUpdate? {
      UpdateKeepsUpdating(Reconstruct(v, env).view, env, k);
    } else {
      PastKeepsUpdating(v, env, k);
    }
  }

  lemma NextKeepsUpdating(c: Cluster, a: Action, name: string, k: nat)
    requires Orderly(c) && name in c.networks && Updating(c.networks[name], k)
    requires ForceFree(a) && !((a.Edit? || a.Delete?) && a.name == name)
    ensures var r := Next(c, a);
            name in r.networks && Updating(r.networks[name], k) && r.networks[name].spec == c.networks[name].spec
  {
    if a.Call? && a.name == name {
      StepKeepsUpdating(ViewOf(c, name), a.env, k);
    }
  }

  lemma {:induction false} RunKeepsUpdating(c: Cluster, acts: seq<Action>, name: string, k: nat)
    requires Orderly(c) && name in c.networks && Updating(c.networks[name], k) && SpecIsFixed(acts, name)
    ensures var r := Run(c, acts);
            name in r.networks && Updating(r.networks[name], k) && r.networks[name].spec == c.networks[name].spec
    decreases |acts|
  {
    if acts != [] {
      assert acts[0] in acts;
      NextKeepsUpdating(c, acts[0], name, k);
      NextKeepsOrderly(c, acts[0]);
      RunKeepsUpdating(Next(c, acts[0]), acts[1..], name, k);
    }
  }

  predicate GetsPastUpdates(c: Cluster, name: string) {
    name in c.networks && PastUpdates(c.networks[name].status.state)
  }

  // The aliases deployed since index k, over those of x, are complete.
  ghost predicate Completed(s: Services, x: Deployed, n: Resource, k: nat) {
    var y := Rendered(s, n.spec, Some(x), n.journal, k);
    y.Some? && Complete(s.chart, n.spec, y.value)
  }

  // More peers and the same organizations.
  ghost predicate OnlyMorePeers(n: Resource) {
    var t, u := n.spec.topology, n.status.topology;
    t != u && MorePeers(t, u) && !PeerOrgsDiffer(t, u) && !OrdererOrgsDiffer(t, u)
  }

  lemma OnlyMorePeersFlagged(n: Resource)
    requires OnlyMorePeers(n)
    ensures Pending(n).peerCountIncrease && !Pending(n).peerOrgs && !Pending(n).ordererOrgs
  {
    FlagsMean(n.spec, n.status);
  }

  // Organizations came or went.
  ghost predicate OrgsChanged(n: Resource) {
    PeerOrgsDiffer(n.spec.topology, n.status.topology) || OrdererOrgsDiffer(n.spec.topology, n.status.topology)
  }

  lemma OrgsChangedFlagged(n: Resource)
    ensures OrgsChanged(n) <==> Pending(n).peerOrgs || Pending(n).ordererOrgs
  {
    FlagsMean(n.spec, n.status);
  }

  lemma MorePeersStartUpdating(v: View, env: Env)
    requires v.net.spec.forceState.StateUnset? && v.net.status.state.StateReady?
    requires OnlyMorePeers(v.net) && Moved(v, Step(v, env).view)
    ensures Updating(Step(v, env).view.net, |v.net.journal|)
    ensures Step(v, env).view.net.spec == v.net.spec
  {
    OnlyMorePeersFlagged(v.net);
    var m := Reconstruct(v, env).view;
    ReadyMoves(m, env);
    ReadyForgetsChanges(m, env);
    OthersKeepRelease(m, env);
    LeavesUpgrades(v.net.journal, Step(v, env).view.net.journal, |v.net.journal|);
  }

  // Past the update on any such run the deployed aliases are complete exactly if the update took effect
  // more than once, or the labelled services of the chart read the same before and after it.
  lemma RunDeploysExactly(s: Services, x: Deployed, c: Cluster, name: string, env: Env, acts: seq<Action>)
    requires LeftReady(c, name, env) && OnlyMorePeers(c.networks[name])
    requires SpecIsFixed(acts, name)
    requires GetsPastUpdates(Run(Next(c, Call(name, env)), acts), name)
    ensures var k, n := |c.networks[name].journal|, Run(Next(c, Call(name, env)), acts).networks[name];
            n.spec == c.networks[name].spec &&
            (Completed(s, x, n, k) <==>
             Upgrades(n.journal, k) >= 2 || ReadsTheSame(s.chart, n.spec, x))
  {
    var d, k := Next(c, Call(name, env)), |c.networks[name].journal|;
    MorePeersStartUpdating(ViewOf(c, name), env);
    NextKeepsOrderly(c, Call(name, env));
    RunKeepsUpdating(d, acts, name, k);
    var n := Run(d, acts).networks[name];
    RenderedByUpgrades(s, n.spec, x, n.journal, k);
    SingleUpdateCompletesExactly(s.chart, n.spec, x);
  }

  // The update is due, and none has happened since index k.
  predicate UpdateDue(v: View, k: nat) {
    v.net.spec.forceState.StateUnset? && v.net.status.state.StateHelmChartNeedsUpdate? && v.dir.Some? &&
    OwnedBy(v.release, v.name) && k <= |v.net.journal| && Upgrades(v.net.journal, k) == 0
  }

  lemma UpdateNotes(v: View, k: nat)
    requires UpdateDue(v, k)
    ensures var w := Wrote(v.net.status, To(v.net.status, StateHelmChartInstalled, "", None));
            Upgrades(v.net.journal + [Upgraded(v.name), Launched] + [w], k) == 1
  {
    var j := v.net.journal;
    UpgradesOf(j, k, Upgraded(v.name));
    UpgradesOf(j + [Upgraded(v.name)], k, Launched);
    assert j + [Upgraded(v.name)] + [Launched] == j + [Upgraded(v.name), Launched];
    var w := Wrote(v.net.status, To(v.net.status, StateHelmChartInstalled, "", None));
    UpgradesOf(j + [Upgraded(v.name), Launched], k, w);
  }

  // One call in which nothing fails makes one upgrade.
  lemma UpdatesOnce(v: View, k: nat)
    requires UpdateDue(v, k)
    ensures var r := Smoothly(v, End).net;
            r.status.state.StateHelmChartInstalled? && Upgrades(r.journal, k) == 1
  {
    UpdateNotes(v, k);
    UpgradeNotes(v);
    assert Smoothly(v, End) == StepNeedsUpdate(v, Smooth(End)).view;
  }

  lemma ReadyMakesUpdateDue(v: View, env: Env)
    requires v.net.spec.forceState.StateUnset? && v.net.status.state.StateReady?
    requires HoldsRelease(v.release, v.name, v.net.status.state)
    requires OnlyMorePeers(v.net) && Moved(v, Step(v, env).view)
    ensures UpdateDue(Step(v, env).view, |v.net.journal|)
  {
    OnlyMorePeersFlagged(v.net);
    var m := Reconstruct(v, env).view;
    EntersReady(v, env);
    ReadyMoves(m, env);
    ReadyKeepsDir(m, env);
    OthersKeepRelease(m, env);
    LeavesUpgrades(v.net.journal, Step(v, env).view.net.journal, |v.net.journal|);
  }

  lemma UpdateComesDue(c: Cluster, name: string, env: Env)
    requires LeftReady(c, name, env) && AllSettled(c) && OnlyMorePeers(c.networks[name])
    ensures UpdateDue(ViewOf(Next(c, Call(name, env)), name), |c.networks[name].journal|)
  {
    ReadyMakesUpdateDue(ViewOf(c, name), env);
    CallView(c, name, env);
  }

  // The smallest run past the update.
  lemma OneUpdateLater(d: Cluster, name: string, k: nat) returns (acts: seq<Action>)
    requires name in d.networks && UpdateDue(ViewOf(d, name), k)
    ensures SpecIsFixed(acts, name) && GetsPastUpdates(Run(d, acts), name)
    ensures Upgrades(Run(d, acts).networks[name].journal, k) == 1
  {
    acts := [Call(name, Smooth(End))];
    assert acts[1..] == [];
    UpdatesOnce(ViewOf(d, name), k);
    CallView(d, name, Smooth(End));
  }

  /** More peers in unchanged organizations, known before any of it happens: after the call in Ready that acts
      on them, every run with a fixed Spec has deployed complete aliases once it is past the update, if and
      only if there are no actual domains, or the labelled services of the chart read the same for the
      topology deployed and the new one. */
  lemma MorePeersCompleteAliasesExactly(s: Services, x: Deployed, c: Cluster, name: string, env: Env)
    requires LeftReady(c, name, env) && AllSettled(c) && OnlyMorePeers(c.networks[name])
    ensures var d, k := Next(c, Call(name, env)), |c.networks[name].journal|;
            (forall acts :: SpecIsFixed(acts, name) && GetsPastUpdates(Run(d, acts), name) ==>
               Completed(s, x, Run(d, acts).networks[name], k))
            <==> ReadsTheSame(s.chart, c.networks[name].spec, x)
  {
    var d, k := Next(c, Call(name, env)), |c.networks[name].journal|;
    if ReadsTheSame(s.chart, c.networks[name].spec, x) {
      forall acts | SpecIsFixed(acts, name) && GetsPastUpdates(Run(d, acts), name)
        ensures Completed(s, x, Run(d, acts).networks[name], k)
      {
        RunDeploysExactly(s, x, c, name, env, acts);
      }
    } else {
      UpdateComesDue(c, name, env);
      var acts := OneUpdateLater(d, name, k);
      RunDeploysExactly(s, x, c, name, env, acts);
      assert !Completed(s, x, Run(d, acts).networks[name], k);
    }
  }
}
