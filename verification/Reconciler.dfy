/** Reconcile as the operator runs it: an in-memory copy of the resource that is changed step by step and
    written out, over a namespace that changes with it. Each method is proved against the step functions
    of Cluster. */
module Reconciler {
  import opened Api
  import opened Paths
  import opened Archive
  import opened Changes
  import opened Cluster

  // getWorkflowStatus's answer; every other phase is Submitted.
  datatype FlowStatus = FlowSubmitted | FlowCompleted | FlowFailed

  lemma FolderPath(name: string)
    requires Ordinary(name)
    ensures Segments("/" + name) == [name]
  {
    SplitRender([name]);
    assert Render([name]) == "/" + name;
    assert ([""] + [name])[1..] == [name];
    CleanOrdinary([], [name]);
    assert [] + [name] == [name];
  }

  lemma CryptoFolder()
    ensures Segments("/" + CRYPTO_DIR) == [CRYPTO_DIR]
  {
    assert Ordinary(CRYPTO_DIR);
    FolderPath(CRYPTO_DIR);
  }

  /* ---- Checks that change nothing ---- */

  method Available(ws: seq<Workload>) returns (all: bool)
    ensures all <==> AllAvailable(ws)
  {
    for i := 0 to |ws|
      invariant forall k :: 0 <= k < i && ws[k].release == CHART ==> ws[k].replicas == ws[k].readyReplicas
    {
      if ws[i].release != CHART {
        continue;
      }
      if ws[i].replicas != ws[i].readyReplicas {
        return false;
      }
    }
    return true;
  }

  method IsHelmChartReady(env: Env) returns (ready: Option<bool>)
    ensures ready == ChartReady(env)
  {
    if env.statefulSets.None? {
      return None;
    }
    var stateful := Available(env.statefulSets.value);
    if !stateful {
      return Some(false);
    }
    if env.deployments.None? {
      return None;
    }
    var deployed := Available(env.deployments.value);
    return Some(deployed);
  }

  // What is done and what is left to do of the workflows come to goal.
  ghost predicate OnTrack(goal: seq<Workflow>, done: seq<Workflow>, rest: seq<Workflow>, name: string, left: nat) {
    goal == done + DeleteFirst(rest, name, left)
  }

  lemma Round(goal: seq<Workflow>, done: seq<Workflow>, rest: seq<Workflow>, name: string, left: nat)
    requires rest != [] && OnTrack(goal, done, rest, name, left)
    ensures var own := rest[0].owner == name && !rest[0].deleted;
            if own && left == 0 then goal == done + rest
            else OnTrack(goal, done + [if own then rest[0].(deleted := true) else rest[0]], rest[1..], name,
                         if own then left - 1 else left)
  {
  }

  class FabricNetworkReconciler {
    // Where the directories of this namespace's networks are.
    const root: string

    // The namespace.
    var networks: map<string, Resource>
    var release: Option<Release>
    var workflows: seq<Workflow>
    var secret: Option<CryptoSecret>
    var dirs: map<string, Fs>

    constructor (c: Cluster)
      ensures Seen() == c
    {
      root := c.root;
      networks := c.networks;
      release := c.release;
      workflows := c.workflows;
      secret := c.secret;
      dirs := c.dirs;
    }

    ghost function Seen(): Cluster
      reads this
    {
      Cluster(root, networks, release, workflows, secret, dirs)
    }

    // The namespace is c with v for the part that a call for v's network touches.
    ghost predicate Shows(c: Cluster, v: View)
      reads this
    {
      Seen() == PutBack(c, v) && v.root == root
    }

    // The in-memory copy is as it was read.
    ghost predicate Reads(network: FabricNetwork, v: View)
      reads network
    {
      network.name == v.name && network.spec == v.net.spec && network.status == v.net.status
    }

    /* ---- API server ---- */

    method Record(name: string, e: Event, ghost c: Cluster, ghost v: View)
      requires Shows(c, v) && name == v.name
      modifies `networks
      ensures Shows(c, Note(v, e))
    {
      var n := networks[name];
      networks := networks[name := n.(journal := n.journal + [e])];
    }

    method SaveStatus(network: FabricNetwork, state: State, message: string, workflow: Option<nat>, w: Write,
                      ghost c: Cluster, ghost v: View)
      returns (ok: bool)
      requires Shows(c, v) && network.name == v.name
      modifies `networks, network`status
      ensures network.status == To(old(network.status), state, message, workflow)
      ensures network.status.state == state && network.status.message == message &&
              network.status.workflow == workflow && network.status.nextFlow == old(network.status.nextFlow) &&
              network.status.topology == old(network.status.topology) &&
              network.status.channels == old(network.status.channels) &&
              network.status.chaincode == old(network.status.chaincode) &&
              network.status.chaincodes == old(network.status.chaincodes)
      ensures Shows(c, Save(v, network.status, w))
      ensures ok <==> w.Written?
    {
      network.status := network.status.(state := state);
      network.status := network.status.(message := message);
      network.status := network.status.(workflow := workflow);
      if !w.NotWritten? {
        var n := networks[network.name];
        networks := networks[network.name :=
          n.(status := network.status, journal := n.journal + [Wrote(n.status, network.status)])];
      }
      return w.Written?;
    }

    method CheckOthersInNamespace(env: Env) returns (others: Option<bool>)
      ensures others == if !env.listable then None else Some(Crowded(Seen()))
    {
      if !env.listable {
        return None;
      }
      if |networks| == 1 {
        return Some(false);
      }
      var rest := networks.Keys;
      while rest != {}
        invariant rest <= networks.Keys
        invariant forall n :: n in networks && n !in rest ==> networks[n].status.state == StateUnset
        decreases |rest|
      {
        var n :| n in rest;
        if networks[n].status.state != StateUnset {
          return Some(true);
        }
        rest := rest - {n};
      }
      return Some(false);
    }

    /* ---- Argo ---- */

    method SubmitWorkflow(name: string, flow: Flow, submit: Submit, ghost c: Cluster, ghost v: View)
      returns (id: Option<nat>)
      requires Shows(c, v) && name == v.name
      modifies `workflows
      ensures id == if submit.SubmitOk? then Some(|v.workflows|) else None
      ensures Shows(c, if submit.SubmitNothing? then v else Started(v, flow))
    {
      if submit.SubmitNothing? {
        return None;
      }
      var wf := Workflow(flow, name, OtherPhase(""), false);
      id := if submit.SubmitOk? then Some(|workflows|) else None;
      workflows := workflows + [wf];
    }

    method GetWorkflowStatus(env: Env, id: Option<nat>) returns (status: Option<FlowStatus>)
      ensures status.Some? <==>
              env.workflowRead && id.Some? && id.value < |workflows| && !workflows[id.value].deleted
      ensures status.Some? ==>
              status.value == match workflows[id.value].phase
                              case WorkflowSucceeded => FlowCompleted
                              case WorkflowFailed => FlowFailed
                              case OtherPhase(_) => FlowSubmitted
    {
      if !env.workflowRead || id.None? || id.value >= |workflows| || workflows[id.value].deleted {
        return None;
      }
      match workflows[id.value].phase
      case WorkflowSucceeded => return Some(FlowCompleted);
      case WorkflowFailed => return Some(FlowFailed);
      case OtherPhase(_) => return Some(FlowSubmitted);
    }

    // Deletes one workflow after the other until a call fails, which is the one after count of them.
    method DeleteUpTo(name: string, count: nat) returns (ok: bool)
      modifies `workflows
      ensures workflows == DeleteFirst(old(workflows), name, count)
    {
      ghost var goal := DeleteFirst(workflows, name, count);
      var done: seq<Workflow>, rest, left := [], workflows, count;
      assert [] + goal == goal;
      while rest != []
        invariant workflows == done + rest
        invariant OnTrack(goal, done, rest, name, left)
      {
        var own := rest[0].owner == name && !rest[0].deleted;
        Round(goal, done, rest, name, left);
        if own && left == 0 {
          return false;
        }
        done := done + [if own then rest[0].(deleted := true) else rest[0]];
        left := if own then left - 1 else left;
        rest := rest[1..];
        workflows := done + rest;
      }
      return true;
    }

    method DeleteOwnWorkflows(name: string, d: Deletes) returns (ok: bool)
      modifies `workflows
      ensures workflows == DeleteWorkflows(old(workflows), name, d)
    {
      match d
      case ListFails => ok := false;
      case DeleteAll => ok := DeleteUpTo(name, |workflows|);
      case DeleteStops(count) => ok := DeleteUpTo(name, count);
    }

    /* ---- Helm ---- */

    method MaybeUninstallHelmChart(name: string, u: Uninstall) returns (ok: bool)
      modifies `release
      ensures release == UninstallRelease(old(release), name, u)
      ensures ok <==> UninstallSucceeds(old(release), name, u)
    {
      if u.ReleaseUnread? {
        return false;
      }
      if release.None? {
        return true;
      }
      if release.value.chart != CHART {
        return true;
      }
      if release.value.owner != name {
        return true;
      }
      if u.UninstallOk? || u.UninstallHalf? {
        release := None;
      }
      return u.UninstallOk?;
    }

    method InstallHelmChart(network: FabricNetwork, i: Install, ghost c: Cluster, ghost v: View)
      returns (ok: bool)
      requires Shows(c, v) && network.name == v.name && network.spec == v.net.spec
      modifies `release, `networks
      ensures ok == InstallRelease(v, i).ok
      ensures Shows(c, InstallRelease(v, i).view)
    {
      var launched := !network.spec.topology.useActualDomains;
      if release.Some? || i.InstallNothing? {
        return false;
      }
      release := Some(Release(CHART, network.name, launched));
      ghost var made := v.(release := Some(Release(CHART, v.name, launched)));
      if i.InstallHalf? {
        return false;
      }
      Record(network.name, Installed, c, made);
      if launched {
        Record(network.name, Launched, c, Note(made, Installed));
      }
      return true;
    }

    method UpdateHelmChart(name: string, u: Upgrade, ghost c: Cluster, ghost v: View) returns (ok: bool)
      requires Shows(c, v) && name == v.name
      modifies `release, `networks
      ensures ok == UpgradeRelease(v, u).ok
      ensures Shows(c, UpgradeRelease(v, u).view)
    {
      if release.None? || u.UpgradeNothing? {
        return false;
      }
      var owner := release.value.owner;
      release := Some(Release(CHART, name, true));
      ghost var made := v.(release := Some(Release(CHART, v.name, true)));
      Record(name, Upgraded(owner), c, made);
      if u.UpgradeHalf? {
        return false;
      }
      Record(name, Launched, c, Note(made, Upgraded(owner)));
      return true;
    }

    /* ---- Network directory and crypto material ---- */

    method WriteDir(name: string, fs: Fs, ghost c: Cluster, ghost v: View)
      requires Shows(c, v) && name == v.name
      modifies `dirs
      ensures Shows(c, v.(dir := Some(fs)))
    {
      dirs := dirs[name := fs];
    }

    method CreateHelmChartDir(name: string, d: ChartDir, ghost c: Cluster, ghost v: View) returns (ok: bool)
      requires Shows(c, v) && name == v.name
      modifies `dirs
      ensures ok <==> d.ChartDirCreated?
      ensures Shows(c, if d.ChartDirMissing? then v else v.(dir := Some(map[])))
    {
      if d.ChartDirMissing? {
        return false;
      }
      WriteDir(name, map[], c, v);
      return d.ChartDirCreated?;
    }

    method DownloadCertificates(name: string, env: Env, ghost c: Cluster, ghost v: View) returns (ok: bool)
      requires Shows(c, v) && name == v.name
      modifies `dirs
      ensures ok == Download(v, env).ok
      ensures Shows(c, Download(v, env).view)
    {
      if !env.secretRead || secret.None? || name !in dirs {
        return false;
      }
      CryptoFolder();
      var disk := new Disk(dirs[name]);
      ok := disk.Uncompress(secret.value.tar, "/" + CRYPTO_DIR);
      WriteDir(name, disk.fs, c, v);
    }

    method StoreCryptoConfig(name: string, tree: Listing, w: Write, ghost c: Cluster, ghost v: View)
      returns (ok: bool)
      requires Shows(c, v) && name == v.name
      modifies `secret, `networks
      ensures ok == Store(v, tree, w).ok
      ensures Shows(c, Store(v, tree, w).view)
    {
      var folder := root + "/" + name + "/" + CRYPTO_DIR;
      var buffer := Compress(folder, "", Dir(tree));
      if w.NotWritten? {
        return false;
      }
      secret := Some(CryptoSecret(name, buffer));
      Record(name, Stored(tree), c, v.(secret := Some(CryptoSecret(v.name, ArchiveOf(v.root, v.name, tree)))));
      return w.Written?;
    }

    // cryptogen, generate or extend, and the store behind it.
    method GenerateCertificates(name: string, env: Env, ghost c: Cluster, ghost v: View) returns (ok: bool)
      requires Shows(c, v) && name == v.name
      modifies `dirs, `secret, `networks
      ensures ok == RunCryptogen(v, env).ok
      ensures Shows(c, RunCryptogen(v, env).view)
    {
      WriteDir(name, CryptoDir(env.tree), c, v);
      if !env.cryptogen {
        return false;
      }
      ok := StoreCryptoConfig(name, env.tree, env.store, c, v.(dir := Some(CryptoDir(env.tree))));
    }

    method ExtendOrDownloadCertificates(network: FabricNetwork, env: Env, ghost c: Cluster, ghost v: View)
      returns (ok: bool)
      requires Shows(c, v) && network.name == v.name && network.spec == v.net.spec
      modifies `dirs, `secret, `networks
      ensures ok == MakeCrypto(v, env).ok
      ensures Shows(c, MakeCrypto(v, env).view)
    {
      if network.spec.cryptoSecret != "" {
        ok := DownloadCertificates(network.name, env, c, v);
      } else {
        ok := GenerateCertificates(network.name, env, c, v);
      }
    }

    // On a new installation crypto material and genesis block are made, on reconstruction downloaded.
    method PrepareChartDirForFabric(network: FabricNetwork, env: Env, isFreshInstall: bool,
                                    ghost c: Cluster, ghost v: View)
      returns (ok: bool)
      requires Shows(c, v) && network.name == v.name && network.spec == v.net.spec
      modifies `dirs, `secret, `networks
      ensures var t := if isFreshInstall then ThenGenesis(MakeCrypto(v, env), env.genesisTool)
                       else ThenGenesis(Download(v, env), env.genesisRead);
              ok == t.ok && Shows(c, t.view)
    {
      if !isFreshInstall || network.spec.cryptoSecret != "" {
        ok := DownloadCertificates(network.name, env, c, v);
      } else {
        ok := GenerateCertificates(network.name, env, c, v);
      }
      if !ok {
        return false;
      }
      if network.spec.genesisSecret != "" {
        return true;
      } else if !isFreshInstall {
        return env.genesisRead;
      } else {
        return env.genesisTool;
      }
    }

    method MaybeReconstructHelmChart(network: FabricNetwork, env: Env, ghost c: Cluster, ghost v: View)
      returns (ok: bool)
      requires Shows(c, v) && Reads(network, v)
      modifies `dirs, `secret, `networks
      ensures ok == Reconstruct(v, env).ok && Shows(c, Reconstruct(v, env).view)
    {
      if network.name in dirs {
        return true;
      }
      match network.status.state {
        case StateUnset =>
        case StateNew =>
        case StateRejected =>
        case StateInvalid =>
        case StateFailed => return true;
        case _ =>
      }
      ok := CreateHelmChartDir(network.name, env.chartDir, c, v);
      if !ok {
        return false;
      }
      ok := PrepareChartDirForFabric(network, env, false, c, v.(dir := Some(map[])));
    }

    method PrepareHelmChart(network: FabricNetwork, env: Env, ghost c: Cluster, ghost v: View)
      returns (ok: bool)
      requires Shows(c, v) && network.name == v.name && network.spec == v.net.spec
      modifies `dirs, `secret, `networks
      ensures ok == Prepare(v, env).ok && Shows(c, Prepare(v, env).view)
    {
      if !env.removed {
        return false;
      }
      RemoveDir(network.name, c, v);
      ok := CreateHelmChartDir(network.name, env.chartDir, c, v.(dir := None));
      if !ok {
        return false;
      }
      ok := PrepareChartDirForFabric(network, env, true, c, v.(dir := Some(map[])));
    }

    method RemoveDir(name: string, ghost c: Cluster, ghost v: View)
      requires Shows(c, v) && name == v.name
      modifies `dirs
      ensures Shows(c, v.(dir := None))
    {
      dirs := dirs - {name};
      assert dirs == c.dirs - {name};
    }

    /* ---- State by state ---- */

    method ReconcileUnset(network: FabricNetwork, env: Env, ghost c: Cluster, ghost v: View) returns (result: Result)
      requires Shows(c, v) && Reads(network, v) && v.crowded == Crowded(Seen())
      modifies this, network
      ensures Shows(c, StepUnset(v, env).view) && result == StepUnset(v, env).result
    {
      var others := CheckOthersInNamespace(env);
      if others.None? {
        return Failure;
      }
      if others.value {
        var saved := SaveStatus(network, StateRejected, REJECTED_MESSAGE, None, env.save1, c, v);
        return if saved then Done else Failure;
      }
      network.SetSnapshots();
      var _ := SaveStatus(network, StateNew, "", None, env.save1, c, v);
      return Done;
    }

    method ReconcileNew(network: FabricNetwork, env: Env, ghost c: Cluster, ghost v: View) returns (result: Result)
      requires Shows(c, v) && Reads(network, v)
      modifies this, network
      ensures Shows(c, StepNew(v, env).view) && result == StepNew(v, env).result
    {
      var ok := StartFromScratch(network, env, c, v);
      if !ok {
        return Failure;
      }
      ghost var o := StartOver(v, env).view;
      if network.spec.topology.useActualDomains {
        var _ := SaveStatus(network, StateHelmChartNeedsUpdate, "", None, env.save1, c, o);
      } else {
        var _ := SaveStatus(network, StateHelmChartInstalled, "", None, env.save1, c, o);
      }
      return Done;
    }

    method StartFromScratch(network: FabricNetwork, env: Env, ghost c: Cluster, ghost v: View) returns (ok: bool)
      requires Shows(c, v) && Reads(network, v)
      modifies this
      ensures ok == StartOver(v, env).ok && Shows(c, StartOver(v, env).view)
    {
      ok := MaybeUninstallHelmChart(network.name, env.uninstall);
      ghost var u := v.(release := release);
      if !ok {
        return false;
      }
      var _ := DeleteOwnWorkflows(network.name, env.deletes);
      u := u.(workflows := workflows);
      ghost var p := Prepare(u, env);
      assert StartOver(v, env) == if !p.ok then p else InstallRelease(p.view, env.install);
      ok := PrepareHelmChart(network, env, c, u);
      if !ok {
        return false;
      }
      ok := InstallHelmChart(network, env.install, c, p.view);
    }

    method ReconcileNeedsUpdate(network: FabricNetwork, env: Env, ghost c: Cluster, ghost v: View)
      returns (result: Result)
      requires Shows(c, v) && Reads(network, v)
      modifies this, network
      ensures Shows(c, StepNeedsUpdate(v, env).view) && result == StepNeedsUpdate(v, env).result
    {
      var ok := UpdateHelmChart(network.name, env.upgrade1, c, v);
      if !ok {
        return Failure;
      }
      ghost var u := UpgradeRelease(v, env.upgrade1).view;
      var _ := SaveStatus(network, StateHelmChartInstalled, "", None, env.save1, c, u);
      return Done;
    }

    method ReconcileNeedsDoubleUpdate(network: FabricNetwork, env: Env, ghost c: Cluster, ghost v: View)
      returns (result: Result)
      requires Shows(c, v) && Reads(network, v)
      modifies this, network
      ensures Shows(c, StepNeedsDoubleUpdate(v, env).view) && result == StepNeedsDoubleUpdate(v, env).result
    {
      var ok := UpdateHelmChart(network.name, env.upgrade1, c, v);
      if !ok {
        return Failure;
      }
      ghost var u := UpgradeRelease(v, env.upgrade1).view;
      if network.spec.topology.useActualDomains {
        ok := UpdateHelmChart(network.name, env.upgrade2, c, u);
        u := UpgradeRelease(u, env.upgrade2).view;
        if !ok {
          return Failure;
        }
      }
      var _ := SaveStatus(network, StateHelmChartInstalled, "", None, env.save1, c, u);
      return Done;
    }

    method ReconcileInstalled(network: FabricNetwork, env: Env, ghost c: Cluster, ghost v: View)
      returns (result: Result)
      requires Shows(c, v) && Reads(network, v)
      modifies this, network
      ensures Shows(c, StepInstalled(v, env).view) && result == StepInstalled(v, env).result
    {
      var ready := IsHelmChartReady(env);
      if ready.None? {
        return Failure;
      }
      if !ready.value {
        return RequeueAfter;
      }
      Record(network.name, AllReady, c, v);
      var _ := SaveStatus(network, StateHelmChartReady, "", None, env.save1, c, Note(v, AllReady));
      return Done;
    }

    // Starts a flow and saves the state that waits for it.
    method StartFlow(network: FabricNetwork, flow: Flow, state: State, submit: Submit, save: Write,
                     ghost c: Cluster, ghost v: View)
      returns (result: Result)
      requires Shows(c, v) && network.name == v.name
      modifies this, network
      ensures var o := SubmitAndSave(v, flow, old(network.status), state, submit, save);
              Shows(c, o.view) && result == o.result
    {
      var id := SubmitWorkflow(network.name, flow, submit, c, v);
      if id.None? {
        return Failure;
      }
      var _ := SaveStatus(network, state, "", id, save, c, Started(v, flow));
      return Done;
    }

    method ReconcileSubmitted(network: FabricNetwork, env: Env, completed: State, failure: string,
                              ghost c: Cluster, ghost v: View)
      returns (result: Result)
      requires Shows(c, v) && Reads(network, v)
      modifies this, network
      ensures var o := AwaitFlow(v, env, completed, failure);
              Shows(c, o.view) && result == o.result
    {
      var status := GetWorkflowStatus(env, network.status.workflow);
      if status.None? {
        return Failure;
      }
      match status.value
      case FlowCompleted =>
        var e := Succeeded(workflows[network.status.workflow.value].flow);
        Record(network.name, e, c, v);
        var _ := SaveStatus(network, completed, "", None, env.save1, c, Note(v, e));
        return Done;
      case FlowFailed =>
        var _ := SaveStatus(network, StateFailed, failure, None, env.save1, c, v);
        return Done;
      case FlowSubmitted => return RequeueAfter;
    }

    // The switch on NextFlow, on the status in memory.
    method SwitchNextFlow(network: FabricNetwork, env: Env, ghost c: Cluster, ghost v: View)
      returns (result: Result)
      requires Shows(c, v) && network.name == v.name
      modifies this, network
      ensures var o := StepNextFlow(v, old(network.status), env);
              Shows(c, o.view) && result == o.result
    {
      match network.status.nextFlow
      case NextFlowUnset =>
        result := StartFlow(network, ChannelFlow, StateChannelFlowSubmitted, env.submit, env.save2, c, v);
      case NextFlowNone =>
        network.status := network.status.(nextFlow := NextFlowUnset);
        var _ := SaveStatus(network, StateReady, READY_MESSAGE, None, env.save2, c, v);
        return Done;
      case NextFlowPeerOrgFlow =>
        result := StartFlow(network, PeerOrgFlow, StatePeerOrgFlowSubmitted, env.submit, env.save2, c, v);
    }

    method ReconcileHelmReady(network: FabricNetwork, changes: Change, env: Env, ghost c: Cluster, ghost v: View)
      returns (result: Result)
      requires Shows(c, v) && Reads(network, v) && changes == Pending(v.net)
      modifies this, network
      ensures Shows(c, StepHelmReady(v, env).view) && result == StepHelmReady(v, env).result
    {
      ghost var now := v;
      if changes.topology {
        network.SetSnapshots();
        var ok := SaveStatus(network, StateNew, "", None, env.save1, c, v);
        now := Save(v, Restarted(v.net), env.save1);
        if !ok {
          return Failure;
        }
      }
      result := SwitchNextFlow(network, env, c, now);
    }

    // A classified change saves the state that it leads to; None leaves it to the flows.
    method UpdateForTopology(network: FabricNetwork, changes: Change, env: Env, ghost c: Cluster, ghost v: View)
      returns (result: Option<Result>)
      requires Shows(c, v) && network.name == v.name
      modifies this, network
      ensures if Classified(changes)
              then result == Some(if env.save1.Written? then Done else Failure) &&
                   Shows(c, Save(v, AfterTopologyChange(old(network.status), changes), env.save1))
              else result == None && Shows(c, v) && network.status == old(network.status)
      ensures network.spec == old(network.spec)
    {
      var ok: bool;
      if changes.ordererOrgs {
        if !changes.peerOrgs {
          network.status := network.status.(nextFlow := NextFlowNone);
          ok := SaveStatus(network, StateHelmChartNeedsDoubleUpdate, "", None, env.save1, c, v);
          return Some(if ok then Done else Failure);
        }
      }
      if changes.peerOrgs {
        network.status := network.status.(nextFlow := NextFlowPeerOrgFlow);
        ok := SaveStatus(network, StateHelmChartNeedsDoubleUpdate, "", None, env.save1, c, v);
        return Some(if ok then Done else Failure);
      }
      if changes.peerCountIncrease {
        ok := SaveStatus(network, StateHelmChartNeedsUpdate, "", None, env.save1, c, v);
        return Some(if ok then Done else Failure);
      }
      if changes.peerCountDecrease || changes.version {
        network.status := network.status.(nextFlow := NextFlowNone);
        ok := SaveStatus(network, StateHelmChartNeedsUpdate, "", None, env.save1, c, v);
        return Some(if ok then Done else Failure);
      }
      return None;
    }

    method RunFlows(network: FabricNetwork, changes: Change, env: Env, ghost c: Cluster, ghost v: View)
      returns (result: Result)
      requires Shows(c, v) && network.name == v.name
      modifies this, network
      ensures var o := StepReadyFlows(v, old(network.status), changes, env);
              Shows(c, o.view) && result == o.result
    {
      if changes.channel {
        if !env.networkFile {
          return Failure;
        }
        result := StartFlow(network, ChannelFlow, StateChannelFlowSubmitted, env.submit, env.save2, c, v);
        return;
      }
      if changes.chaincode {
        if !env.networkFile {
          return Failure;
        }
        result := StartFlow(network, ChaincodeFlow(changes.chaincodes), StateChaincodeFlowSubmitted,
                            env.submit, env.save2, c, v);
        return;
      }
      return Done;
    }

    method ReconcileReady(network: FabricNetwork, changes: Change, env: Env, ghost c: Cluster, ghost v: View)
      returns (result: Result)
      requires Shows(c, v) && Reads(network, v) && changes == Pending(v.net)
      modifies this, network
      ensures Shows(c, StepReady(v, env).view) && result == StepReady(v, env).result
    {
      ghost var now := v;
      if changes.Any() {
        if !env.valuesWritten {
          return Failure;
        }
        network.SetSnapshots();
      }
      if changes.topology {
        if changes.NeedsCertificates() {
          var ok := ExtendOrDownloadCertificates(network, env, c, v);
          now := MakeCrypto(v, env).view;
          if !ok {
            return Failure;
          }
        }
        var done := UpdateForTopology(network, changes, env, c, now);
        if done.Some? {
          return done.value;
        }
      }
      result := RunFlows(network, changes, env, c, now);
    }

    // Writes the whole resource but its status.
    method UpdateResource(network: FabricNetwork, w: Write, ghost c: Cluster, ghost v: View) returns (ok: bool)
      requires Shows(c, v) && network.name == v.name
      modifies `networks
      ensures ok <==> w.Written?
      ensures Shows(c, if w.NotWritten? then v else v.(net := v.net.(spec := network.spec)))
    {
      if !w.NotWritten? {
        networks := networks[network.name := networks[network.name].(spec := network.spec)];
      }
      return w.Written?;
    }

    method ReconcileForced(network: FabricNetwork, env: Env, ghost c: Cluster, ghost v: View)
      returns (result: Result)
      requires Shows(c, v) && Reads(network, v)
      modifies this, network
      ensures Shows(c, StepForced(v, env).view) && result == StepForced(v, env).result
    {
      var saved := SaveStatus(network, network.spec.forceState, FORCED_MESSAGE, None, env.save1, c, v);
      if !saved {
        return Failure;
      }
      network.spec := network.spec.(forceState := StateUnset);
      ghost var s := Save(v, To(v.net.status, v.net.spec.forceState, FORCED_MESSAGE, None), env.save1);
      var updated := UpdateResource(network, env.update, c, s);
      return if updated then Requeue else Failure;
    }

    method ReconcileState(network: FabricNetwork, changes: Change, env: Env, ghost c: Cluster, ghost v: View)
      returns (result: Result)
      requires Shows(c, v) && Reads(network, v)
      requires changes == Pending(v.net) && v.crowded == Crowded(Seen())
      modifies this, network
      ensures Shows(c, StepByState(v, env).view) && result == StepByState(v, env).result
    {
      match network.status.state {
        case StateRejected => result := Done;
        case StateFailed => result := Done;
        case StateInvalid =>
          var _ := SaveStatus(network, StateUnset, "", None, env.save1, c, v);
          result := Done;
        case StateUnset => result := ReconcileUnset(network, env, c, v);
        case StateNew => result := ReconcileNew(network, env, c, v);
        case StateHelmChartNeedsUpdate => result := ReconcileNeedsUpdate(network, env, c, v);
        case StateHelmChartNeedsDoubleUpdate => result := ReconcileNeedsDoubleUpdate(network, env, c, v);
        case StateHelmChartInstalled => result := ReconcileInstalled(network, env, c, v);
        case StateHelmChartReady => result := ReconcileHelmReady(network, changes, env, c, v);
        case StateReady => result := ReconcileReady(network, changes, env, c, v);
        case _ => result := ReconcileFlows(network, env, c, v);
      }
    }

    // The six states of the three flows; any other state is only logged.
    method ReconcileFlows(network: FabricNetwork, env: Env, ghost c: Cluster, ghost v: View)
      returns (result: Result)
      requires Shows(c, v) && Reads(network, v)
      requires network.status.state in {StateChannelFlowSubmitted, StateChannelFlowCompleted,
        StateChaincodeFlowSubmitted, StateChaincodeFlowCompleted,
        StatePeerOrgFlowSubmitted, StatePeerOrgFlowCompleted} || network.status.state.Unknown?
      modifies this, network
      ensures Shows(c, StepByState(v, env).view) && result == StepByState(v, env).result
    {
      match network.status.state {
        case StateChannelFlowSubmitted =>
          result := ReconcileSubmitted(network, env, StateChannelFlowCompleted, "channel-flow failed", c, v);
        case StateChannelFlowCompleted =>
          result := StartFlow(network, ChaincodeFlow([]), StateChaincodeFlowSubmitted, env.submit, env.save1, c, v);
        case StateChaincodeFlowSubmitted =>
          result := ReconcileSubmitted(network, env, StateChaincodeFlowCompleted, "chaincode-flow failed", c, v);
        case StateChaincodeFlowCompleted =>
          var _ := SaveStatus(network, StateReady, READY_MESSAGE, None, env.save1, c, v);
          result := Done;
        case StatePeerOrgFlowSubmitted =>
          result := ReconcileSubmitted(network, env, StatePeerOrgFlowCompleted, "peer-org-flow failed", c, v);
        case StatePeerOrgFlowCompleted =>
          result := StartFlow(network, ChannelFlow, StateChannelFlowSubmitted, env.submit, env.save1, c, v);
        case _ => result := Done;
      }
    }

    /* ---- Reconcile ---- */

    method Reconcile(name: string, env: Env) returns (result: Result)
      modifies this
      ensures Seen() == Reconciled(old(Seen()), name, env)
      ensures result == Reply(old(Seen()), name, env)
    {
      if !env.readable {
        return Failure;
      }
      if name !in networks {
        var _ := MaybeUninstallHelmChart(name, env.uninstall);
        var _ := DeleteOwnWorkflows(name, env.deletes);
        return Done;
      }
      result := ReconcileFound(name, env);
    }

    method ReconcileFound(name: string, env: Env) returns (result: Result)
      requires name in networks
      modifies this
      ensures Shows(old(Seen()), Step(ViewOf(old(Seen()), name), env).view)
      ensures result == Step(ViewOf(old(Seen()), name), env).result
    {
      ghost var c := Seen();
      ghost var v := ViewOf(c, name);
      PutBackSame(c, name);
      var network := new FabricNetwork(name, networks[name].spec, networks[name].status);
      var changes := GetChanges(network);
      if network.spec.forceState != StateUnset {
        result := ReconcileForced(network, env, c, v);
        return;
      }
      var ok := MaybeReconstructHelmChart(network, env, c, v);
      if !ok {
        return Failure;
      }
      ghost var m := Reconstruct(v, env).view;
      CrowdedByNetworks(c, Seen(), name);
      result := ReconcileState(network, changes, env, c, m);
    }
  }

  lemma PutBackSame(c: Cluster, name: string)
    requires name in c.networks
    ensures PutBack(c, ViewOf(c, name)) == c
  {
  }

  lemma CrowdedByNetworks(c: Cluster, d: Cluster, name: string)
    requires name in c.networks && d.networks == c.networks[name := c.networks[name]]
    ensures Crowded(d) == Crowded(c)
  {
    assert c.networks[name := c.networks[name]] == c.networks;
  }
}
