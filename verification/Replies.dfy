/** What a call makes of the answers from outside: on which its steps fail, what a start from scratch or an
    update leaves then, and what is reported to the controller. */
module Replies {
  import opened Api
  import opened Archive
  import opened Changes
  import opened Cluster
  import opened Diagram
  import opened Effects
  import opened Ownership
  import opened Refinement
  import opened Safety

  /* ---- When a step succeeds, told of the answers ---- */

  // The Secret can be extracted over this directory.
  ghost predicate Extracts(v: View, fs: Fs, env: Env) {
    env.secretRead && v.secret.Some? && Unpack(fs, ["crypto-config"], v.secret.value.tar).Ok?
  }

  // A directory with the material and the genesis block of what was installed is there or can be had.
  ghost predicate DirectoryThere(v: View, env: Env) {
    || v.dir.Some?
    || v.net.status.state.StateFailed?
    || (env.chartDir.ChartDirCreated? && Extracts(v, map[], env) && (v.net.spec.genesisSecret != "" || env.genesisRead))
  }

  lemma ReconstructSucceedsExactly(v: View, env: Env)
    ensures Reconstruct(v, env).ok <==> DirectoryThere(v, env)
  {
  }

  // Material is made: the user's is extracted over this directory, or cryptogen's is stored.
  ghost predicate MaterialMade(v: View, fs: Fs, env: Env) {
    if v.net.spec.cryptoSecret != "" then Extracts(v, fs, env) else env.cryptogen && env.store.Written?
  }

  lemma MakeCryptoSucceedsExactly(v: View, fs: Fs, env: Env)
    requires v.dir == Some(fs)
    ensures MakeCrypto(v, env).ok <==> MaterialMade(v, fs, env)
  {
  }

  // No release or this network's own, which goes.
  predicate ReleaseGoes(v: View, u: Uninstall) {
    !u.ReleaseUnread? &&
    (v.release.Some? ==> v.release.value.chart == "hlf-kube" && v.release.value.owner == v.name && u.UninstallOk?)
  }

  lemma InstallSucceedsExactly(v: View, i: Install)
    ensures InstallRelease(v, i).ok <==> v.release.None? && i.InstallOk?
  {
  }

  lemma PrepareSucceedsExactly(v: View, env: Env)
    ensures Prepare(v, env).ok <==>
            env.removed && env.chartDir.ChartDirCreated? && MaterialMade(v, map[], env) &&
            (v.net.spec.genesisSecret != "" || env.genesisTool)
  {
    MakeCryptoSucceedsExactly(v.(dir := Some(map[])), map[], env);
  }

  ghost predicate StartsOver(v: View, env: Env) {
    ReleaseGoes(v, env.uninstall) && env.removed && env.chartDir.ChartDirCreated? &&
    MaterialMade(v, map[], env) && (v.net.spec.genesisSecret != "" || env.genesisTool) && env.install.InstallOk?
  }

  /** A start from scratch succeeds if and only if the release was absent or its own and went, a new directory
      with its material and genesis block was made, and the chart was installed. */
  lemma StartOverSucceedsExactly(v: View, env: Env)
    ensures StartOver(v, env).ok <==> StartsOver(v, env)
  {
    var u := v.(release := UninstallRelease(v.release, v.name, env.uninstall));
    var d := u.(workflows := DeleteWorkflows(v.workflows, v.name, env.deletes));
    PrepareSucceedsExactly(d, env);
    InstallSucceedsExactly(Prepare(d, env).view, env.install);
    assert MaterialMade(d, map[], env) == MaterialMade(v, map[], env);
  }

  lemma UpgradeSucceedsExactly(v: View, u: Upgrade)
    ensures UpgradeRelease(v, u).ok <==> v.release.Some? && u.UpgradeOk?
    ensures v.release.Some? ==> UpgradeRelease(v, u).view.release.Some?
  {
  }

  /* ---- What a start from scratch and an update leave ---- */

  // No error comes from the release: it is none, another's, or its own and goes.
  predicate GetsPastUninstall(v: View, u: Uninstall) {
    !u.ReleaseUnread? &&
    (v.release.Some? && v.release.value.chart == "hlf-kube" && v.release.value.owner == v.name ==> u.UninstallOk?)
  }

  // The new directory gets its material and genesis block.
  ghost predicate DirectoryFinished(v: View, env: Env) {
    env.removed && env.chartDir.ChartDirCreated? && MaterialMade(v, map[], env) &&
    (v.net.spec.genesisSecret != "" || env.genesisTool)
  }

  // The Secret with the archive of that tree, as it is below the network's folder.
  predicate HoldsArchive(s: Option<CryptoSecret>, v: View, tree: Listing) {
    s.Some? && s.value.owner == v.name &&
    s.value.tar == Compressed(v.root + "/" + v.name + "/crypto-config", "", Dir(tree))
  }

  // What the making of material over this directory leaves, in whichever step it stops: the user's as far as it
  // could be extracted, or whatever cryptogen left, which is stored unless cryptogen failed.
  ghost predicate MaterialLeft(v: View, fs: Fs, env: Env, r: View) {
    if v.net.spec.cryptoSecret != "" then
      r.secret == v.secret &&
      r.dir == if env.secretRead && v.secret.Some? then Some(Unpack(fs, ["crypto-config"], v.secret.value.tar).fs)
               else Some(fs)
    else
      r.dir == Some(map[["crypto-config"] := FsDir] + Files(["crypto-config"], env.tree)) &&
      if env.cryptogen && !env.store.NotWritten? then HoldsArchive(r.secret, v, env.tree) else r.secret == v.secret
  }

  lemma MakeCryptoLeaves(v: View, fs: Fs, env: Env)
    requires v.dir == Some(fs)
    ensures MaterialLeft(v, fs, env, MakeCrypto(v, env).view)
  {
    assert v.root + "/" + v.name + "/" + CRYPTO_DIR == v.root + "/" + v.name + "/crypto-config";
  }

  // What directory and Secret are then, in whichever step the making stops.
  ghost predicate DirectoryMade(v: View, env: Env, r: View) {
    if !env.removed then r.dir == v.dir && r.secret == v.secret
    else if env.chartDir.ChartDirMissing? then r.dir == None && r.secret == v.secret
    else if env.chartDir.ChartDirPartial? then r.dir == Some(map[]) && r.secret == v.secret
    else MaterialLeft(v, map[], env, r)
  }

  lemma PrepareMakes(v: View, env: Env)
    ensures DirectoryMade(v, env, Prepare(v, env).view) && Prepare(v, env).ok == DirectoryFinished(v, env)
  {
    PrepareSucceedsExactly(v, env);
    MakeCryptoLeaves(v.(dir := Some(map[])), map[], env);
  }

  lemma InstallLeaves(v: View, i: Install)
    ensures var r := InstallRelease(v, i).view;
            r.workflows == v.workflows && r.dir == v.dir && r.secret == v.secret &&
            r.release == if v.release.None? && !i.InstallNothing? then
                           Some(Release("hlf-kube", v.name, !v.net.spec.topology.useActualDomains))
                         else v.release
  {
  }

  // The step up to the new directory, with the release that the uninstall left.
  ghost function Cleared(v: View, env: Env): View {
    v.(release := if GetsRemoved(v.release, v.name, env.uninstall) then None else v.release,
       workflows := DeleteWorkflows(v.workflows, v.name, env.deletes))
  }

  lemma StartOverSteps(v: View, env: Env)
    ensures var past, p := GetsPastUninstall(v, env.uninstall), Prepare(Cleared(v, env), env);
            StartOver(v, env) ==
              if !past then Tried(false, v.(release := Cleared(v, env).release))
              else if !p.ok then p else InstallRelease(p.view, env.install)
  {
  }

  lemma NewLeavesWhatStartOverDoes(v: View, env: Env)
    ensures var r, t := StepNew(v, env).view, StartOver(v, env).view;
            r.release == t.release && r.workflows == t.workflows && r.dir == t.dir && r.secret == t.secret
  {
  }

  lemma NewLeavesBehindUninstall(v: View, env: Env)
    requires GetsPastUninstall(v, env.uninstall)
    ensures var r, left := StepNew(v, env).view, Cleared(v, env).release;
            DirectoryMade(v, env, r) && r.workflows == DeleteWorkflows(v.workflows, v.name, env.deletes) &&
            r.release ==
              if DirectoryFinished(v, env) && left.None? && !env.install.InstallNothing? then
                Some(Release("hlf-kube", v.name, !v.net.spec.topology.useActualDomains))
              else left
  {
    var d := Cleared(v, env);
    var p := Prepare(d, env);
    NewLeavesWhatStartOverDoes(v, env);
    StartOverSteps(v, env);
    PrepareMakes(d, env);
    assert DirectoryFinished(d, env) == DirectoryFinished(v, env);
    assert DirectoryMade(v, env, p.view);
    PrepareIsQuiet(v, d, env);
    InstallLeaves(p.view, env.install);
  }

  /** What a call in New leaves of release, workflows, directory and Secret, in whichever step it stops: a removal that
      took effect stays one, workflows and directory go only if no error came from the release, and a half-made
      directory or install stays. */
  lemma NewLeavesExactly(v: View, env: Env)
    ensures var r, past := StepNew(v, env).view, GetsPastUninstall(v, env.uninstall);
            var left := if GetsRemoved(v.release, v.name, env.uninstall) then None else v.release;
            r.release ==
              (if past && DirectoryFinished(v, env) && left.None? && !env.install.InstallNothing? then
                 Some(Release("hlf-kube", v.name, !v.net.spec.topology.useActualDomains))
               else left) &&
            if past then DeletedInOrder(v.workflows, v.name, env.deletes, r.workflows) && DirectoryMade(v, env, r)
            else r.workflows == v.workflows && r.dir == v.dir && r.secret == v.secret
  {
    if GetsPastUninstall(v, env.uninstall) {
      NewLeavesBehindUninstall(v, env);
      DeletesExactly(v.workflows, v.name, env.deletes);
    } else {
      NewLeavesWhatStartOverDoes(v, env);
      StartOverSteps(v, env);
    }
  }

  /** What a call in Ready leaves of Secret and directory: made over the old ones exactly if the topologies ask
      for certificates and the values files were written, and otherwise the same. */
  lemma ReadyLeavesExactly(v: View, env: Env, fs: Fs)
    requires v.net.status.state.StateReady? && v.dir == Some(fs)
    ensures var r := StepReady(v, env).view;
            r.release == v.release &&
            if AsksForCertificates(v.net.spec.topology, v.net.status.topology) && env.valuesWritten
            then MaterialLeft(v, fs, env, r)
            else r.secret == v.secret && r.dir == v.dir
  {
    CertificatesMean(v.net.spec.Project(), v.net.status.Copy());
    MakeCryptoLeaves(v, fs, env);
    ReadyLeaves(v, env);
  }

  /** What a reconstruction leaves, in whichever step it stops: nothing changes beside an existing directory or in
      Failed; otherwise there is none, an empty one, or the Secret's as far as it could be extracted. */
  lemma ReconstructLeavesExactly(v: View, env: Env)
    ensures Reconstruct(v, env).view.dir ==
            if v.dir.Some? || v.net.status.state.StateFailed? || env.chartDir.ChartDirMissing? then v.dir
            else if env.chartDir.ChartDirPartial? || !env.secretRead || v.secret.None? then Some(map[])
            else Some(Unpack(map[], ["crypto-config"], v.secret.value.tar).fs)
  {
  }

  /** A call leaves a network that is Rejected, Failed or in a state unknown to it as it is, and one that is Invalid
      starts as an untouched one; but for a reconstructed directory nothing else changes. */
  lemma StandingStay(v: View, env: Env)
    requires v.net.spec.forceState.StateUnset?
    requires v.net.status.state in {StateRejected, StateFailed, StateInvalid} || v.net.status.state.Unknown?
    ensures var r, st := Step(v, env).view, v.net.status;
            var resets := st.state.StateInvalid? && DirectoryThere(v, env) && !env.save1.NotWritten?;
            r.net.spec == v.net.spec && r.release == v.release && r.workflows == v.workflows && r.secret == v.secret &&
            r.dir == Reconstruct(v, env).view.dir &&
            r.net.status == if resets then st.(state := StateUnset, message := "", workflow := None) else st
  {
    ReconstructSucceedsExactly(v, env);
  }

  /** What an update leaves: unless it did nothing, a release of this network with launched pods. */
  lemma UpdateLeavesExactly(v: View, env: Env)
    requires v.net.status.state.StateHelmChartNeedsUpdate?
    ensures StepByState(v, env).view.release ==
            if v.release.Some? && !env.upgrade1.UpgradeNothing? then Some(Release("hlf-kube", v.name, true))
            else v.release
  {
    UpgradeSucceedsExactly(v, env.upgrade1);
  }

  /* ---- What is reported ---- */

  // The replicas are not all there yet, or the workflow runs.
  predicate NotYet(v: View, env: Env) {
    var st := v.net.status;
    || (st.state.StateHelmChartInstalled? && MissesReplicas(env))
    || (Waits(st.state) && env.workflowRead && st.workflow.Some? && st.workflow.value < |v.workflows| &&
        !v.workflows[st.workflow.value].deleted && v.workflows[st.workflow.value].phase.OtherPhase?)
  }

  predicate Misses(ws: seq<Workload>) {
    exists w :: w in ws && w.release == "hlf-kube" && w.replicas != w.readyReplicas
  }

  // A workload of a list that was read lacks replicas; the second list is read only behind a complete first.
  predicate MissesReplicas(env: Env) {
    env.statefulSets.Some? &&
    (Misses(env.statefulSets.value) || (env.deployments.Some? && Misses(env.deployments.value)))
  }

  // An answer on which the state's own step gives up.
  ghost predicate GivesUp(v: View, env: Env) {
    var n, st := v.net, v.net.status;
    match st.state
    case StateUnset => !env.listable || (v.crowded && !env.save1.Written?)
    case StateNew => !StartsOver(v, env)
    case StateHelmChartNeedsUpdate => v.release.None? || !env.upgrade1.UpgradeOk?
    case StateHelmChartNeedsDoubleUpdate =>
      v.release.None? || !env.upgrade1.UpgradeOk? || (n.spec.topology.useActualDomains && !env.upgrade2.UpgradeOk?)
    case StateHelmChartInstalled =>
      env.statefulSets.None? || (!Misses(env.statefulSets.value) && env.deployments.None?)
    case StateHelmChartReady =>
      || (n.spec.topology != st.topology && !env.save1.Written?)
      || (!st.nextFlow.NextFlowNone? && !env.submit.SubmitOk?)
    case StateChannelFlowCompleted => !env.submit.SubmitOk?
    case StatePeerOrgFlowCompleted => !env.submit.SubmitOk?
    case StateReady => ReadyGivesUp(v, env)
    case _ =>
      Waits(st.state) &&
      (!env.workflowRead || st.workflow.None? || st.workflow.value >= |v.workflows| ||
       v.workflows[st.workflow.value].deleted)
  }

  ghost predicate ReadyGivesUp(v: View, env: Env) {
    var ch := Pending(v.net);
    ch.Any() &&
    (!env.valuesWritten ||
     (ch.NeedsCertificates() && (v.dir.None? || !MaterialMade(v, v.dir.value, env))) ||
     (if Classified(ch) then !env.save1.Written?
      else (ch.channel || ch.chaincode) && (!env.networkFile || !env.submit.SubmitOk?)))
  }

  // The result of the state's step.
  ghost predicate ReportsByState(v: View, env: Env, result: Result) {
    (result.Failure? <==> GivesUp(v, env)) && (result.RequeueAfter? <==> NotYet(v, env)) && !result.Requeue?
  }

  lemma UpdatesReport(v: View, env: Env)
    requires v.net.status.state in {StateHelmChartNeedsUpdate, StateHelmChartNeedsDoubleUpdate}
    ensures ReportsByState(v, env, StepByState(v, env).result)
  {
    UpgradeSucceedsExactly(v, env.upgrade1);
    UpgradeSucceedsExactly(UpgradeRelease(v, env.upgrade1).view, env.upgrade2);
  }

  lemma InstalledReports(v: View, env: Env)
    requires v.net.status.state.StateHelmChartInstalled?
    ensures ReportsByState(v, env, StepInstalled(v, env).result)
  {
  }

  lemma ReadyReports(v: View, env: Env)
    requires v.net.status.state.StateReady? && v.dir.Some?
    ensures ReportsByState(v, env, StepReady(v, env).result)
  {
    MakeCryptoSucceedsExactly(v, v.dir.value, env);
  }

  lemma HelmReadyReports(v: View, env: Env)
    requires v.net.status.state.StateHelmChartReady?
    ensures ReportsByState(v, env, StepHelmReady(v, env).result)
  {
  }

  lemma AwaitReports(v: View, env: Env)
    requires Waits(v.net.status.state)
    ensures ReportsByState(v, env, StepByState(v, env).result)
  {
  }

  lemma OthersReport(v: View, env: Env)
    requires v.net.status.state in {StateUnset, StateNew, StateRejected, StateFailed, StateChannelFlowCompleted,
                                    StateChaincodeFlowCompleted, StatePeerOrgFlowCompleted}
    ensures ReportsByState(v, env, StepByState(v, env).result)
  {
    StartOverSucceedsExactly(v, env);
  }

  lemma StepByStateReports(v: View, env: Env)
    requires Known(v.net.status.state) && (v.net.status.state.StateReady? ==> v.dir.Some?)
    ensures ReportsByState(v, env, StepByState(v, env).result)
  {
    match v.net.status.state
    case StateReady => ReadyReports(v, env);
    case StateHelmChartReady => HelmReadyReports(v, env);
    case StateHelmChartInstalled => InstalledReports(v, env);
    case StateHelmChartNeedsUpdate => UpdatesReport(v, env);
    case StateHelmChartNeedsDoubleUpdate => UpdatesReport(v, env);
    case StateChannelFlowSubmitted => AwaitReports(v, env);
    case StateChaincodeFlowSubmitted => AwaitReports(v, env);
    case StatePeerOrgFlowSubmitted => AwaitReports(v, env);
    case _ => OthersReport(v, env);
  }

  lemma StepReportsExactly(v: View, env: Env)
    requires Known(v.net.status.state) && v.net.spec.forceState.StateUnset?
    ensures var result, m := Step(v, env).result, Reconstruct(v, env).view;
            (result.Failure? <==> !DirectoryThere(v, env) || GivesUp(m, env)) &&
            (result.RequeueAfter? <==> DirectoryThere(v, env) && NotYet(m, env)) && !result.Requeue?
  {
    ReconstructSucceedsExactly(v, env);
    if Reconstruct(v, env).ok {
      StepByStateReports(Reconstruct(v, env).view, env);
    }
  }

  /** What a call returns, for every answer to every step: an error exactly if the network could not be read, a
      write of a forced state was not heard, or a step gave up; a delayed call exactly if there is something to
      wait for; an immediate one exactly behind a forced state; and nothing else, the clean-up of a deleted
      network included, which reports no error at all. */
  lemma CallReportsExactly(c: Cluster, name: string, env: Env)
    requires name in c.networks ==> Known(c.networks[name].status.state)
    ensures var result, there := Reply(c, name, env), env.readable && name in c.networks;
            var forced := there && !c.networks[name].spec.forceState.StateUnset?;
            var heard := env.save1.Written? && env.update.Written?;
            (result.Failure? <==>
               !env.readable || (forced && !heard) ||
               (there && !forced && (!DirectoryThere(ViewOf(c, name), env) ||
                                     GivesUp(Reconstruct(ViewOf(c, name), env).view, env)))) &&
            (result.RequeueAfter? <==>
               there && !forced && DirectoryThere(ViewOf(c, name), env) &&
               NotYet(Reconstruct(ViewOf(c, name), env).view, env)) &&
            (result.Requeue? <==> forced && heard)
  {
    if name in c.networks && c.networks[name].spec.forceState.StateUnset? {
      StepReportsExactly(ViewOf(c, name), env);
    }
  }
}
