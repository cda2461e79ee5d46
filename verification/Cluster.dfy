/** One namespace as the operator sees it, and what one Reconcile call makes of it. Every answer from
    outside (API server, Helm, Argo, cryptogen, disk) comes from an Env, so that a claim for all Envs
    covers every failure. */
module Cluster {
  import opened Api
  import opened Changes
  import opened Archive

  datatype Flow = ChannelFlow | ChaincodeFlow(chosen: seq<string>) | PeerOrgFlow

  // Any phase but these two counts as still submitted, Argo's Error included.
  datatype Phase = WorkflowSucceeded | WorkflowFailed | OtherPhase(text: string)

  datatype Workflow = Workflow(flow: Flow, owner: string, phase: Phase, deleted: bool)

  // The Helm release named hlf-kube: its chart, the network it is annotated for, and whether its
  // pods are launched.
  datatype Release = Release(chart: string, owner: string, launched: bool)

  // The Secret hlf-crypto-config with the archive of the crypto material.
  datatype CryptoSecret = CryptoSecret(owner: string, tar: seq<Entry>)

  // History of one network, kept beside the resource.
  datatype Event =
    | Wrote(before: Status, after: Status)
    | Installed
    | Upgraded(owner: string)
    | Launched
    | AllReady
    | Succeeded(flow: Flow)
    | Stored(tree: Listing)

  datatype Resource = Resource(spec: Spec, status: Status, journal: seq<Event>)

  // root is the folder of the namespace's network directories, and dirs what is in them; of a directory
  // only the crypto material is modelled.
  datatype Cluster = Cluster(root: string, networks: map<string, Resource>, release: Option<Release>,
                             workflows: seq<Workflow>, secret: Option<CryptoSecret>,
                             dirs: map<string, Fs>)

  // The part of a cluster that a call for one network reads and writes; crowded is what a list of
  // the namespace's networks would tell it.
  datatype View = View(name: string, root: string, crowded: bool, net: Resource, release: Option<Release>,
                       workflows: seq<Workflow>, secret: Option<CryptoSecret>, dir: Option<Fs>)

  /* ---- Answers from outside ---- */

  // ReplyLost: the write took effect and an error came back.
  datatype Write = Written | NotWritten | ReplyLost

  datatype ChartDir = ChartDirCreated | ChartDirPartial | ChartDirMissing
  datatype Install = InstallOk | InstallNothing | InstallHalf
  datatype Upgrade = UpgradeOk | UpgradeNothing | UpgradeHalf
  datatype Uninstall = UninstallOk | ReleaseUnread | UninstallKept | UninstallHalf
  datatype Deletes = DeleteAll | ListFails | DeleteStops(count: nat)
  datatype Submit = SubmitOk | SubmitNothing | SubmitUnheard

  // A StatefulSet or Deployment managed by Helm.
  datatype Workload = Workload(release: string, replicas: int, readyReplicas: int)

  datatype Env = Env(readable: bool, listable: bool,
                     save1: Write, save2: Write, update: Write,
                     removed: bool, chartDir: ChartDir, secretRead: bool, genesisRead: bool,
                     cryptogen: bool, tree: Listing, store: Write, genesisTool: bool,
                     uninstall: Uninstall, deletes: Deletes, install: Install,
                     upgrade1: Upgrade, upgrade2: Upgrade,
                     statefulSets: Option<seq<Workload>>, deployments: Option<seq<Workload>>,
                     workflowRead: bool, valuesWritten: bool, networkFile: bool, submit: Submit)

  datatype Result = Done | Requeue | RequeueAfter | Failure

  // What a call leaves, and what it returns.
  datatype Out = Out(view: View, result: Result)

  // What a helper leaves, and whether it succeeded.
  datatype Tried = Tried(ok: bool, view: View)

  const CHART := "hlf-kube"
  const READY_MESSAGE := "HL Fabric Network is ready"
  const REJECTED_MESSAGE := "More than one FabricNetwork per namespace is not allowed"
  const FORCED_MESSAGE := "State is forced"
  const CRYPTO_DIR: string := "crypto-config"

  /* ---- The API server ---- */

  function Note(v: View, e: Event): View {
    v.(net := v.net.(journal := v.net.journal + [e]))
  }

  function Save(v: View, st: Status, w: Write): View {
    if w.NotWritten? then v
    else v.(net := v.net.(status := st, journal := v.net.journal + [Wrote(v.net.status, st)]))
  }

  // Both views are of one network.
  predicate SameNetwork(v: View, r: View) { r.name == v.name && r.root == v.root }

  function To(st: Status, state: State, message: string, workflow: Option<nat>): Status {
    st.(state := state, message := message, workflow := workflow)
  }

  function TakeSnapshots(st: Status, spec: Spec): Status {
    st.(topology := spec.topology, channels := spec.channels,
        chaincode := spec.chaincode, chaincodes := spec.chaincodes)
  }

  ghost function Pending(n: Resource): Change { Diff(n.spec.Project(), n.status.Copy()) }

  /* ---- Argo ---- */

  function Started(v: View, flow: Flow): View {
    v.(workflows := v.workflows + [Workflow(flow, v.name, OtherPhase(""), false)])
  }

  // Submits a flow and, when its name came back, saves the state that waits for it.
  function SubmitAndSave(v: View, flow: Flow, st: Status, state: State, submit: Submit, save: Write): (r: Out)
    ensures SameNetwork(v, r.view)
  {
    match submit
    case SubmitNothing => Out(v, Failure)
    case SubmitUnheard => Out(Started(v, flow), Failure)
    case SubmitOk => Out(Save(Started(v, flow), To(st, state, "", Some(|v.workflows|)), save), Done)
  }

  // Deletes the first count workflows of that owner.
  function DeleteFirst(ws: seq<Workflow>, name: string, count: nat): (r: seq<Workflow>)
    ensures |r| == |ws|
    ensures forall i :: 0 <= i < |ws| ==> r[i] == ws[i] || (ws[i].owner == name && r[i] == ws[i].(deleted := true))
  {
    if ws == [] then []
    else if ws[0].owner != name || ws[0].deleted then [ws[0]] + DeleteFirst(ws[1..], name, count)
    else if count == 0 then ws
    else [ws[0].(deleted := true)] + DeleteFirst(ws[1..], name, count - 1)
  }

  function DeleteWorkflows(ws: seq<Workflow>, name: string, d: Deletes): seq<Workflow> {
    match d
    case ListFails => ws
    case DeleteAll => DeleteFirst(ws, name, |ws|)
    case DeleteStops(k) => DeleteFirst(ws, name, k)
  }

  // getWorkflowStatus and the switch on its answer.
  function AwaitFlow(v: View, env: Env, completed: State, failure: string): (r: Out)
    ensures SameNetwork(v, r.view)
  {
    var st := v.net.status;
    if !env.workflowRead || st.workflow.None? || st.workflow.value >= |v.workflows|
       || v.workflows[st.workflow.value].deleted then Out(v, Failure)
    else
      var w := v.workflows[st.workflow.value];
      match w.phase
      case WorkflowSucceeded => Out(Save(Note(v, Succeeded(w.flow)), To(st, completed, "", None), env.save1), Done)
      case WorkflowFailed => Out(Save(v, To(st, StateFailed, failure, None), env.save1), Done)
      case OtherPhase(_) => Out(v, RequeueAfter)
  }

  /* ---- Helm ---- */

  predicate OwnedBy(release: Option<Release>, name: string) {
    release.Some? && release.value.chart == CHART && release.value.owner == name
  }

  predicate UninstallSucceeds(release: Option<Release>, name: string, u: Uninstall) {
    !u.ReleaseUnread? && (OwnedBy(release, name) ==> u.UninstallOk?)
  }

  function UninstallRelease(release: Option<Release>, name: string, u: Uninstall): Option<Release> {
    if OwnedBy(release, name) && (u.UninstallOk? || u.UninstallHalf?) then None else release
  }

  // Fails while a release exists; with actual domains the pods are not launched yet.
  function InstallRelease(v: View, i: Install): Tried {
    var launched := !v.net.spec.topology.useActualDomains;
    var made := v.(release := Some(Release(CHART, v.name, launched)));
    if v.release.Some? || i.InstallNothing? then Tried(false, v)
    else if i.InstallHalf? then Tried(false, made)
    else Tried(true, if launched then Note(Note(made, Installed), Launched) else Note(made, Installed))
  }

  function UpgradeRelease(v: View, u: Upgrade): Tried {
    if v.release.None? || u.UpgradeNothing? then Tried(false, v)
    else
      var done := Note(v.(release := Some(Release(CHART, v.name, true))), Upgraded(v.release.value.owner));
      if u.UpgradeHalf? then Tried(false, done) else Tried(true, Note(done, Launched))
  }

  predicate AllAvailable(ws: seq<Workload>) {
    forall w :: w in ws && w.release == CHART ==> w.replicas == w.readyReplicas
  }

  // None when a list could not be read.
  function ChartReady(env: Env): Option<bool> {
    if env.statefulSets.None? then None
    else if !AllAvailable(env.statefulSets.value) then Some(false)
    else if env.deployments.None? then None
    else Some(AllAvailable(env.deployments.value))
  }

  /* ---- Crypto material ---- */

  function MaterialFolder(root: string, name: string): string { root + "/" + name + "/" + CRYPTO_DIR }

  // The archive that storeCryptoConfig makes of a tree in that folder.
  function ArchiveOf(root: string, name: string, tree: Listing): seq<Entry> {
    Compressed(MaterialFolder(root, name), "", Dir(tree))
  }

  // A network directory whose crypto material is this tree.
  function CryptoDir(tree: Listing): Fs {
    map[[CRYPTO_DIR] := FsDir] + Files([CRYPTO_DIR], tree)
  }

  // Extracts the Secret into the directory.
  ghost function Download(v: View, env: Env): Tried {
    if !env.secretRead || v.secret.None? || v.dir.None? then Tried(false, v)
    else
      var u := Unpack(v.dir.value, [CRYPTO_DIR], v.secret.value.tar);
      Tried(u.Ok?, v.(dir := Some(u.fs)))
  }

  function Store(v: View, tree: Listing, w: Write): Tried {
    if w.NotWritten? then Tried(false, v)
    else
      var made := CryptoSecret(v.name, ArchiveOf(v.root, v.name, tree));
      Tried(w.Written?, Note(v.(secret := Some(made)), Stored(tree)))
  }

  // cryptogen leaves env.tree in the directory, and it is stored unless cryptogen failed.
  function RunCryptogen(v: View, env: Env): Tried {
    var made := v.(dir := Some(CryptoDir(env.tree)));
    if !env.cryptogen then Tried(false, made) else Store(made, env.tree, env.store)
  }

  ghost function MakeCrypto(v: View, env: Env): (r: Tried)
    ensures r.view == v.(net := r.view.net, secret := r.view.secret, dir := r.view.dir)
  {
    if v.net.spec.cryptoSecret != "" then Download(v, env) else RunCryptogen(v, env)
  }

  // The genesis block comes last, unless the user provides it.
  function ThenGenesis(t: Tried, ok: bool): Tried {
    if t.ok && t.view.net.spec.genesisSecret == "" && !ok then t.(ok := false) else t
  }

  // Reconstruction of a missing directory. Failed is the only state that skips it.
  ghost function Reconstruct(v: View, env: Env): (r: Tried)
    ensures r.view == v.(dir := r.view.dir)
  {
    if v.dir.Some? || v.net.status.state.StateFailed? then Tried(true, v)
    else match env.chartDir
      case ChartDirMissing => Tried(false, v)
      case ChartDirPartial => Tried(false, v.(dir := Some(map[])))
      case ChartDirCreated => ThenGenesis(Download(v.(dir := Some(map[])), env), env.genesisRead)
  }

  // prepareHelmChart: a fresh directory with crypto material and genesis block.
  ghost function Prepare(v: View, env: Env): (r: Tried)
    ensures r.view == v.(net := r.view.net, secret := r.view.secret, dir := r.view.dir)
  {
    if !env.removed then Tried(false, v)
    else match env.chartDir
      case ChartDirMissing => Tried(false, v.(dir := None))
      case ChartDirPartial => Tried(false, v.(dir := Some(map[])))
      case ChartDirCreated => ThenGenesis(MakeCrypto(v.(dir := Some(map[])), env), env.genesisTool)
  }

  /* ---- One call, state by state ---- */

  function StepUnset(v: View, env: Env): (r: Out)
    ensures SameNetwork(v, r.view)
  {
    var n := v.net;
    if !env.listable then Out(v, Failure)
    else if v.crowded then
      Out(Save(v, To(n.status, StateRejected, REJECTED_MESSAGE, None), env.save1),
          if env.save1.Written? then Done else Failure)
    else Out(Save(v, To(TakeSnapshots(n.status, n.spec), StateNew, "", None), env.save1), Done)
  }

  // Own release and workflows go away, directory and release are made anew.
  ghost function StartOver(v: View, env: Env): (r: Tried)
    ensures SameNetwork(v, r.view)
  {
    var u := v.(release := UninstallRelease(v.release, v.name, env.uninstall));
    if !UninstallSucceeds(v.release, v.name, env.uninstall) then Tried(false, u)
    else
      var p := Prepare(u.(workflows := DeleteWorkflows(v.workflows, v.name, env.deletes)), env);
      if !p.ok then p else InstallRelease(p.view, env.install)
  }

  function AfterInstall(spec: Spec): State {
    if spec.topology.useActualDomains then StateHelmChartNeedsUpdate else StateHelmChartInstalled
  }

  ghost function StepNew(v: View, env: Env): (r: Out)
    ensures SameNetwork(v, r.view)
  {
    var s := StartOver(v, env);
    if !s.ok then Out(s.view, Failure)
    else Out(Save(s.view, To(v.net.status, AfterInstall(v.net.spec), "", None), env.save1), Done)
  }

  function ThenInstalled(t: Tried, st: Status, w: Write): Out {
    if !t.ok then Out(t.view, Failure)
    else Out(Save(t.view, To(st, StateHelmChartInstalled, "", None), w), Done)
  }

  function StepNeedsUpdate(v: View, env: Env): (r: Out)
    ensures SameNetwork(v, r.view)
  {
    ThenInstalled(UpgradeRelease(v, env.upgrade1), v.net.status, env.save1)
  }

  function StepNeedsDoubleUpdate(v: View, env: Env): (r: Out)
    ensures SameNetwork(v, r.view)
  {
    var u := UpgradeRelease(v, env.upgrade1);
    ThenInstalled(if u.ok && v.net.spec.topology.useActualDomains then UpgradeRelease(u.view, env.upgrade2) else u,
                  v.net.status, env.save1)
  }

  function StepInstalled(v: View, env: Env): (r: Out)
    ensures SameNetwork(v, r.view)
  {
    match ChartReady(env)
    case None => Out(v, Failure)
    case Some(ready) =>
      if !ready then Out(v, RequeueAfter)
      else Out(Save(Note(v, AllReady), To(v.net.status, StateHelmChartReady, "", None), env.save1), Done)
  }

  // The switch on NextFlow; st is the status in memory.
  function StepNextFlow(v: View, st: Status, env: Env): Out {
    match st.nextFlow
    case NextFlowUnset => SubmitAndSave(v, ChannelFlow, st, StateChannelFlowSubmitted, env.submit, env.save2)
    case NextFlowNone =>
      Out(Save(v, To(st.(nextFlow := NextFlowUnset), StateReady, READY_MESSAGE, None), env.save2), Done)
    case NextFlowPeerOrgFlow => SubmitAndSave(v, PeerOrgFlow, st, StatePeerOrgFlowSubmitted, env.submit, env.save2)
  }

  // The status that starts from scratch with the Spec of now.
  function Restarted(n: Resource): Status { To(TakeSnapshots(n.status, n.spec), StateNew, "", None) }

  // A changed topology saves state New first, and the same call goes on to the switch.
  ghost function StepHelmReady(v: View, env: Env): (r: Out)
    ensures SameNetwork(v, r.view)
  {
    if Pending(v.net).topology then
      var saved := Save(v, Restarted(v.net), env.save1);
      if !env.save1.Written? then Out(saved, Failure) else StepNextFlow(saved, Restarted(v.net), env)
    else StepNextFlow(v, v.net.status, env)
  }

  // Where a classified topology change leads from Ready.
  function AfterTopologyChange(st: Status, ch: Change): Status {
    if ch.peerOrgs then To(st.(nextFlow := NextFlowPeerOrgFlow), StateHelmChartNeedsDoubleUpdate, "", None)
    else if ch.ordererOrgs then To(st.(nextFlow := NextFlowNone), StateHelmChartNeedsDoubleUpdate, "", None)
    else if ch.peerCountIncrease then To(st, StateHelmChartNeedsUpdate, "", None)
    else To(st.(nextFlow := NextFlowNone), StateHelmChartNeedsUpdate, "", None)
  }

  function StepReadyFlows(v: View, st: Status, ch: Change, env: Env): Out {
    if !ch.channel && !ch.chaincode then Out(v, Done)
    else if !env.networkFile then Out(v, Failure)
    else if ch.channel then SubmitAndSave(v, ChannelFlow, st, StateChannelFlowSubmitted, env.submit, env.save2)
    else SubmitAndSave(v, ChaincodeFlow(ch.chaincodes), st, StateChaincodeFlowSubmitted, env.submit, env.save2)
  }

  ghost function Certify(v: View, ch: Change, env: Env): (r: Tried)
    ensures r.view == v.(net := r.view.net, secret := r.view.secret, dir := r.view.dir)
  {
    if ch.NeedsCertificates() then MakeCrypto(v, env) else Tried(true, v)
  }

  ghost function StepReady(v: View, env: Env): (r: Out)
    ensures SameNetwork(v, r.view)
  {
    var ch, st := Pending(v.net), TakeSnapshots(v.net.status, v.net.spec);
    if !ch.Any() then Out(v, Done)
    else if !env.valuesWritten then Out(v, Failure)
    else
      var e := Certify(v, ch, env);
      if !e.ok then Out(e.view, Failure)
      else if Classified(ch) then
        Out(Save(e.view, AfterTopologyChange(st, ch), env.save1), if env.save1.Written? then Done else Failure)
      else StepReadyFlows(e.view, st, ch, env)
  }

  function StepForced(v: View, env: Env): (r: Out)
    ensures SameNetwork(v, r.view)
  {
    var s := Save(v, To(v.net.status, v.net.spec.forceState, FORCED_MESSAGE, None), env.save1);
    if !env.save1.Written? then Out(s, Failure)
    else
      var cleared := s.(net := s.net.(spec := s.net.spec.(forceState := StateUnset)));
      Out(if env.update.NotWritten? then s else cleared, if env.update.Written? then Requeue else Failure)
  }

  ghost function StepByState(v: View, env: Env): (r: Out)
    ensures SameNetwork(v, r.view)
  {
    var st := v.net.status;
    match st.state
    case StateUnset => StepUnset(v, env)
    case StateNew => StepNew(v, env)
    case StateReady => StepReady(v, env)
    case StateInvalid => Out(Save(v, To(st, StateUnset, "", None), env.save1), Done)
    case StateHelmChartInstalled => StepInstalled(v, env)
    case StateHelmChartNeedsUpdate => StepNeedsUpdate(v, env)
    case StateHelmChartNeedsDoubleUpdate => StepNeedsDoubleUpdate(v, env)
    case StateHelmChartReady => StepHelmReady(v, env)
    case StateChannelFlowSubmitted => AwaitFlow(v, env, StateChannelFlowCompleted, "channel-flow failed")
    case StateChannelFlowCompleted =>
      SubmitAndSave(v, ChaincodeFlow([]), st, StateChaincodeFlowSubmitted, env.submit, env.save1)
    case StateChaincodeFlowSubmitted => AwaitFlow(v, env, StateChaincodeFlowCompleted, "chaincode-flow failed")
    case StateChaincodeFlowCompleted => Out(Save(v, To(st, StateReady, READY_MESSAGE, None), env.save1), Done)
    case StatePeerOrgFlowSubmitted => AwaitFlow(v, env, StatePeerOrgFlowCompleted, "peer-org-flow failed")
    case StatePeerOrgFlowCompleted =>
      SubmitAndSave(v, ChannelFlow, st, StateChannelFlowSubmitted, env.submit, env.save1)
    case _ => Out(v, Done)
  }

  // What Reconcile does once it has read the resource.
  ghost function Step(v: View, env: Env): (r: Out)
    ensures SameNetwork(v, r.view)
  {
    if v.net.spec.forceState != StateUnset then StepForced(v, env)
    else
      var r := Reconstruct(v, env);
      if !r.ok then Out(r.view, Failure) else StepByState(r.view, env)
  }

  /* ---- The whole of Reconcile ---- */

  // More than one network in the namespace, and not all of them untouched.
  ghost predicate Crowded(c: Cluster) {
    |c.networks| != 1 && exists n :: n in c.networks && c.networks[n].status.state != StateUnset
  }

  ghost function ViewOf(c: Cluster, name: string): View
    requires name in c.networks
  {
    View(name, c.root, Crowded(c), c.networks[name], c.release, c.workflows, c.secret,
         if name in c.dirs then Some(c.dirs[name]) else None)
  }

  ghost function PutBack(c: Cluster, v: View): Cluster {
    Cluster(c.root, c.networks[v.name := v.net], v.release, v.workflows, v.secret,
            if v.dir.Some? then c.dirs[v.name := v.dir.value] else c.dirs - {v.name})
  }

  // The resource is gone: errors of the clean-up are only logged.
  function CleanUp(c: Cluster, name: string, env: Env): Cluster {
    c.(release := UninstallRelease(c.release, name, env.uninstall),
       workflows := DeleteWorkflows(c.workflows, name, env.deletes))
  }

  ghost function Reconciled(c: Cluster, name: string, env: Env): Cluster {
    if !env.readable then c
    else if name !in c.networks then CleanUp(c, name, env)
    else PutBack(c, Step(ViewOf(c, name), env).view)
  }

  ghost function Reply(c: Cluster, name: string, env: Env): Result {
    if !env.readable then Failure
    else if name !in c.networks then Done
    else Step(ViewOf(c, name), env).result
  }
}
