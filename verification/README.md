# Verified model of the Hyperledger Fabric operator

A Dafny model of the operator's `FabricNetwork` reconciler, of the way it stores and restores crypto
material, of what it derives from a Spec for cryptogen and Helm, and of the CLI's `create` and `delete`,
with proofs of what they keep. `dafny verify dfyconfig.toml` checks all of it.

## How the model is built

* `Api`, `Changes`: the resource, its topology lookups and the diff between Spec and Status snapshots.
* `Paths`, `Archive`, `RoundTrip`: path texts, the tar writer and reader, and when extraction gives back
  what was archived. An archive is its sequence of entries; a disk maps cleaned paths to files and folders.
* `Entries`, `Confinement`, `Folders`: what each archive entry makes of any disk, which paths an extraction can
  touch, and which path texts of a folder give an archive that comes back.
* `Cluster`: one namespace (resources, Helm release, Argo workflows, crypto Secret, network directories below
  any configured path) and, as functions, what one `Reconcile` call makes of it. Every answer from outside
  comes from an `Env` record: each status write is written, not written (a conflict included) or written with
  its reply lost, each helper may fail before, halfway or after its effect. A claim for all `Env`s covers
  every failure.
* `Reconciler`: the same calls as imperative code, method by method, on an in-memory copy of the resource
  that is changed field by field and thrown away; proved equal to the functions of `Cluster`.
* `Runs`: interleavings of calls for any number of networks with creations, edits, deletions, progress of
  workflows and lost directories. Each network has a journal (a history variable) of writes, installs,
  upgrades, observed readiness, ended flows and stores.
* `Diagram`, `Refinement`: the documented state diagram, and which calls follow it.
* `Safety`, `Ownership`, `Messages`, `Milestones`, `SkippedFlows`, `Convergence`, `Wakeups`, `Orphans`:
  properties of all runs.
* `Replies`: for every answer to every step, what a call returns, and what a start from scratch, which may stop
  anywhere, leaves behind.
* `Effects`, `Recovery`, `Certificates`, `UserMaterial`: the crypto material over whole runs, made by the
  operator or provided by the user.
* `HelmValues`, `Aliases`: crypto-config file and host aliases, and the aliases over whole runs.
* `Cli`, `Acceptance`, `CliCommands`: the two commands, what they stand for in terms of manifest, labels and
  keys, and their code against an API server each of whose calls may be refused or take effect unheard.

The laws speak of the resource, the objects and the answers themselves: of organizations and peer counts rather
than of change flags, of labels and keys rather than of the functions that filter by them, and of the literal
names and texts that the other programs read.

## What the proofs show to be false, and when it does hold

* The diagram says that a topology change at HelmChartReady restarts from New. The call goes on to the
  switch on NextFlow after it saved New, so the restart is usually overwritten in the same call.
  `Refinement.LeavesDiagramExactly` and `Refinement.RestartSurvivesExactly` say exactly when. A restart that
  survives while NextFlow is None installs anew and becomes Ready without any flow:
  `SkippedFlows.RestartRunsFlowsExactly`.
* A topology change that sets NextFlow to None also drops channel and chaincode changes found with it: three
  calls later the network is Ready with nothing pending and no flow run
  (`SkippedFlows.DroppedChangesStayDropped`). On all other runs they get their flow:
  `SkippedFlows.ChannelsGetTheirFlowExactly`, `SkippedFlows.ChaincodesGetTheirFlowExactly`.
* Most status writes ignore their error, and nothing but the written status would bring the next call:
  `Wakeups.StepStallsExactly` says when a network is left standing. If the write was refused for a conflict,
  the edit that caused it has a watch event of its own. While nothing fails the events that its own calls
  bring lead a network to rest and end there: `Wakeups.GoesOnUntilAtRest`.
* A network that is to install while another network's release has the chart's name never gets past New
  before that network is reconciled: `Convergence.StuckUntilOwnerIsCleanedUp`. Left alone, every other one
  comes to rest: `Convergence.ComesToRestExactly`.
* NextFlow PeerOrgFlow stays after the flow ran: `SkippedFlows.PeerOrgFlowSticks`.
* A workflow whose name or whose status write was lost runs on beside the one that the next call submits
  for the same flow: `Orphans.OrphansExactly`, `Orphans.FlowRunsTwice`.
* More peers get one chart update only, which is not enough for the aliases of new services:
  `Aliases.MorePeersCompleteAliasesExactly`.
* The archive of a folder given by an absolute path that `filepath.Clean` would change cannot be extracted
  (`RoundTrip.UncleanFolderFails`), and that of an unclean relative one, unless it stands for ".", comes out
  in another place (`Folders.MisplacedNeverComesBack`); all others come back: `Folders.RoundTripExactly`. So
  with an unclean network directory (controllers/settings.go:7), a trailing slash included, no lost directory
  comes back as it was stored: `Recovery.RebuildsExactly`. The CLI has the same limit for an absolute
  `chaincode.folder`: `Cli.ChaincodeComesBackExactly`.
* Extraction over longer files leaves their tails: `RoundTrip.OverwriteExactly`.
* The check of entry names lets ".." pass, which names the folder above the destination. What that can touch
  is said by `Confinement.ExtractionIsConfinedExactly`.
* A reconstruction that fails halfway leaves a directory that no later call completes
  (`Recovery.HalfBuiltDirectoryStays`), and without any certificate if it failed before the Secret was
  extracted (`Certificates.HalfBuiltLacksCertificates`). The switch in front of it lists five states, but Go
  cases do not fall through, so Failed alone skips it.
* A topology change that is acted on at HelmChartReady makes no certificates, and if the restart is cut short
  the new peers have none: `Recovery.CertificatesPrecedeSnapshots`, `Certificates.CutShortKeepsCoverageExactly`.
* An empty archive, or one whose first entry is a file, does not rebuild the crypto directory:
  `Recovery.RebuildsExactly`.
* An interrupted `create` cannot be repeated without `--overwrite` (`Cli.RetryRefusedExactly`), an
  interrupted `delete` not at all (`CliCommands.DeleteNetwork`), and kept ConfigMaps serve a second
  `create` only for lower-case chaincode names (`Cli.KeptResourcesServeExactly`).

## Model

| member | source | states |
|---|---|---|
| `Api.FabricNetwork.SetSnapshots` | controllers/fabricnetwork_controller.go:150-153 | the four snapshots become the Spec's four parts and nothing else of the status changes |
| `Api.FirstPeerIsTheOne` | api/v1alpha1/fabricnetwork_types.go:203-210 | with unique names the lookup by name finds the very organization of that name |
| `Api.OrdererOrgNames` | api/v1alpha1/fabricnetwork_types.go:185-192 | the map built in the loop has exactly the orderer organizations' names as keys, all true |
| `Api.PeerOrgNames` | api/v1alpha1/fabricnetwork_types.go:194-201 | the same for peer organizations |
| `Api.PeerOrgByName` | api/v1alpha1/fabricnetwork_types.go:203-210 | the early-return loop finds the first organization of that name or none |
| `Changes.GetChanges` | controllers/fabricnetwork_controller.go:499-550 | each flag is raised for exactly the difference it is named for, told of the two topologies and the other parts of Spec and Status; the record filled step by step equals the declarative difference |
| `Changes.FlagsMean` | controllers/fabricnetwork_controller.go:499-550 | for all Specs and Statuses: ordererOrgs and peerOrgs say that an organization of that kind is in one topology only, the count flags that one has more (fewer) peers than the first of its name before, and channel, chaincode, version and topology that those parts differ |
| `Changes.CertificatesMean` | controllers/fabricnetwork_controller.go:385-391 | new certificates are asked for exactly if organizations came or went or one has more peers |
| `Changes.NameChanges` | controllers/fabricnetwork_controller.go:530-533 | version and name-set flags say exactly whether version and sets of names differ |
| `Changes.CountChanges` | controllers/fabricnetwork_controller.go:535-545 | each count flag is set if and only if some organization has more (fewer) peers than its first namesake before |
| `Changes.ChangedChaincodes` | controllers/fabricnetwork_controller.go:512-527 | the loop with its break yields the changed names if settings, lengths and names agree, and the empty list otherwise |
| `Changes.NamesArePicked` | controllers/fabricnetwork_controller.go:514-526 | the collected names are those at the differing positions, in order |
| `Changes.IncludeCoversChanges` | controllers/fabricnetwork_controller.go:501-527 | read as "empty is all", the list covers each new or changed chaincode, and all of them if the global settings changed |
| `Changes.IncludeIsExact` | controllers/fabricnetwork_controller.go:509-527 | among pending changes the list is non-empty exactly when settings, lengths and names agree, and then it is exactly the changed names in order |
| `Changes.UnclassifiedExactly` | controllers/fabricnetwork_controller.go:529-546 | with unique names a changed topology raises no flag if and only if version, orderer name set and the bag of (peer organization, count) are unchanged |
| `Paths.JoinAppends` | controllers/tar_util.go:90 | joining an ordinary name to any path, absolute or relative, appends one segment to its cleaned form |
| `Paths.CleanPathHasCleanPrefix` | controllers/tar_util.go:33 | a cleaned path can start with folder and slash only if the folder's path is clean |
| `Archive.TarStream.Write` | controllers/tar_util.go:48 | content goes to the last entry and no other |
| `Archive.TarStream.Visit` | controllers/tar_util.go:26-54 | walking a node appends the archive of its whole subtree to the stream |
| `Archive.Compress` | controllers/tar_util.go:15-55 | the stream ends as the archive of the walked folder |
| `Archive.CheckRelPath` | controllers/tar_util.go:58-63 | true if and only if the name is non-empty, relative, and without backslash and "../" |
| `Archive.Occurs` | controllers/tar_util.go:59 | substring search finds an occurrence if and only if there is one |
| `Archive.Disk.MkdirAll` | controllers/tar_util.go:100-102 | makes every missing parent, or fails on a file in the way and then makes none |
| `Archive.Disk.WriteFile` | controllers/tar_util.go:106-116 | succeeds exactly where the parent is a folder and the path is none, and overwrites without truncation |
| `Archive.Disk.Uncompress` | controllers/tar_util.go:65-120 | the loop leaves the disk of the entry-by-entry extraction, complete or stopped at the first error |
| `Entries.RefusedExactly` | controllers/tar_util.go:58-63 | the check refuses exactly the names that are empty, begin with a slash, or have a backslash or two dots and a slash in a row |
| `Entries.MakeDirsExactly` | controllers/tar_util.go:100-102 | the last part of the path that is there decides: behind a file nothing is made, behind a folder all the rest and nothing else |
| `Entries.PlaceExactly` | controllers/tar_util.go:75-117 | for any disk and any entry: on which it fails, what a folder or a file makes of the disk, and that a failing entry changes nothing |
| `Entries.StopsAtFirst` | controllers/tar_util.go:75-118 | a failed extraction leaves the disk as the entries before the failing one made it |
| `RoundTrip.WalkGivesRelativeNames` | controllers/tar_util.go:26-36 | below a clean folder every entry is named by its path relative to that folder, in pre-order |
| `RoundTrip.CompressedFolder` | controllers/tar_util.go:15-55 | archiving a clean folder gives the relative archive of its listing |
| `RoundTrip.CompressedChild` | cli/cmd/common.go:108-148 | archiving one child gives the archive of a listing with that one item |
| `RoundTrip.ValidExactly` | controllers/tar_util.go:33-63 | all names pass the reader's check if and only if no name has a backslash and no folder with content ends in ".." |
| `RoundTrip.UnpackNeedsValidNames` | controllers/tar_util.go:84-87 | one invalid name makes the extraction fail |
| `RoundTrip.UnpackLays` | controllers/tar_util.go:75-118 | in the writer's order each folder exists before its content, so the extraction succeeds |
| `RoundTrip.LaidIsMerge` | controllers/tar_util.go:97-117 | entry by entry extraction equals merging all paths at once |
| `RoundTrip.Extraction` | controllers/tar_util.go:65-120 | over a tree of the same kinds: succeeds exactly for archivable listings, with each path's content laid over the old one |
| `RoundTrip.MissingDestination` | controllers/tar_util.go:98-109 | a missing destination is made if the first item is a folder, and is an error if it is a file |
| `RoundTrip.UncleanFolderFails` | controllers/tar_util.go:33-86 | an archive of a non-empty folder given by an unclean absolute path fails at its first entry |
| `Folders.RoundTripExactly` | controllers/tar_util.go:15-120 | for every path of a folder, absolute or relative: extracting its archive where none of its paths exist rebuilds exactly its files, if and only if the names are archivable and the path is clean or stands for "." (or the folder is empty) |
| `Folders.ChildRoundTripExactly` | cli/cmd/common.go:108-148 | the same for one named child of a folder given by any path, where a file or an empty folder comes back from an unclean one too |
| `Folders.MisplacedNeverComesBack` | controllers/tar_util.go:26-36 | the archive of a folder given by any other relative path names its entries by the whole cleaned path, so extracting it never adds the folder's files, whatever is there |
| `Folders.MisplacedStaysApart` | controllers/tar_util.go:26-36 | whether or not that extraction succeeds, it makes only paths above or below the whole cleaned path |
| `Confinement.ValidTarget` | controllers/tar_util.go:58-63 | a name that passes the check leads below the destination or to the folder right above it, never elsewhere |
| `Confinement.ExtractionIsConfinedExactly` | controllers/tar_util.go:57-120 | no archive makes the extraction touch a path outside its destination, if and only if the folder above the destination is there or cannot be made |
| `RoundTrip.OverwriteExactly` | controllers/tar_util.go:106-113 | over an existing tree the archived content arrives if and only if no file there is longer |
| `Cluster.DeleteFirst` | controllers/argo_util.go:151-156 | only workflows with that owner's label are deleted, and none is changed otherwise |
| `Cluster.Reconstruct` | controllers/helm_util.go:62-91 | reconstruction touches nothing but the network's directory |
| `Cluster.Prepare` | controllers/helm_util.go:41-60 | preparing touches nothing but the network's own resource, the Secret and the directory |
| `Reconciler.FabricNetworkReconciler.SaveStatus` | controllers/fabricnetwork_controller.go:487-497 | the copy in memory has the new state, message and workflow, and its other fields, whatever happens; the namespace has it exactly if the write took effect; the result says whether it was heard |
| `Reconciler.FabricNetworkReconciler.CheckOthersInNamespace` | controllers/fabricnetwork_controller.go:441-470 | the loop answers whether there are several networks of which some is not untouched |
| `Reconciler.FabricNetworkReconciler.SubmitWorkflow` | controllers/argo_util.go:59-93 | one new workflow labelled for this network, its id returned exactly if the reply was heard |
| `Reconciler.FabricNetworkReconciler.GetWorkflowStatus` | controllers/argo_util.go:95-118 | every phase but the two final ones counts as submitted; a workflow that is gone is an error |
| `Reconciler.FabricNetworkReconciler.DeleteUpTo` | controllers/argo_util.go:151-158 | the loop deletes the first so many own workflows and stops at the first error |
| `Reconciler.FabricNetworkReconciler.MaybeUninstallHelmChart` | controllers/helm_util.go:182-222 | a release goes only if it is of the chart and annotated for that network |
| `Reconciler.FabricNetworkReconciler.InstallHelmChart` | controllers/helm_util.go:113-149 | fails on an existing release; pods are launched exactly without actual domains |
| `Reconciler.FabricNetworkReconciler.UpdateHelmChart` | controllers/helm_util.go:151-179 | fails without a release; otherwise it is annotated for this network with launched pods |
| `Reconciler.IsHelmChartReady` | controllers/helm_util.go:296-342 | ready if and only if every workload of the release has all its replicas ready |
| `Reconciler.FabricNetworkReconciler.DownloadCertificates` | controllers/fabric_util.go:69-79 | the directory becomes the extraction of the Secret, also when that stops halfway |
| `Reconciler.FabricNetworkReconciler.StoreCryptoConfig` | controllers/fabric_util.go:233-275 | the Secret becomes this network's, with the archive of the tree under the configured path, exactly if the write took effect |
| `Reconciler.FabricNetworkReconciler.ExtendOrDownloadCertificates` | controllers/fabric_util.go:132-168 | material comes from the user's Secret or from cryptogen and is then stored; what directory and Secret are then is told by `Replies.ReadyLeavesExactly` and `UserMaterial.ReadyLays` |
| `Reconciler.FabricNetworkReconciler.PrepareChartDirForFabric` | controllers/fabric_util.go:57-130 | material first, genesis block last, downloaded or made according to the kind of call; what is there after it is told by `Replies.NewLeavesExactly` and `Replies.ReconstructLeavesExactly` |
| `Reconciler.FabricNetworkReconciler.MaybeReconstructHelmChart` | controllers/helm_util.go:62-91 | an existing directory, and Failed alone among the states, skip the reconstruction |
| `Reconciler.FabricNetworkReconciler.PrepareHelmChart` | controllers/helm_util.go:41-60 | the old directory goes first and a new one is built |
| `Reconciler.FabricNetworkReconciler.ReconcileUnset` | controllers/fabricnetwork_controller.go:138-154 | rejection or New with snapshots; only the rejection's write error is reported |
| `Reconciler.FabricNetworkReconciler.ReconcileNew` | controllers/fabricnetwork_controller.go:156-176 | uninstall, delete workflows, prepare, install, then the next state; an error of the deletion is ignored |
| `Reconciler.FabricNetworkReconciler.ReconcileNeedsDoubleUpdate` | controllers/fabricnetwork_controller.go:185-196 | a second update exactly with actual domains |
| `Reconciler.FabricNetworkReconciler.ReconcileInstalled` | controllers/fabricnetwork_controller.go:198-210 | HelmChartReady only on an observation that all is ready |
| `Reconciler.FabricNetworkReconciler.ReconcileHelmReady` | controllers/fabricnetwork_controller.go:212-254 | New is saved on a topology change and the same call goes on to the switch on NextFlow |
| `Reconciler.FabricNetworkReconciler.ReconcileSubmitted` | controllers/fabricnetwork_controller.go:256-338 | completed, Failed with its message, or asked again |
| `Reconciler.FabricNetworkReconciler.UpdateForTopology` | controllers/fabricnetwork_controller.go:351-393 | the five arms in their order: which state and NextFlow each classification saves, and that an unclassified change saves nothing |
| `Reconciler.FabricNetworkReconciler.ReconcileReady` | controllers/fabricnetwork_controller.go:340-433 | the whole Ready case, snapshots in memory included, against the specified step |
| `Reconciler.FabricNetworkReconciler.ReconcileForced` | controllers/fabricnetwork_controller.go:101-117 | the forced state is saved, then removed from the Spec, with either write failing |
| `Reconciler.FabricNetworkReconciler.Reconcile` | controllers/fabricnetwork_controller.go:71-439 | namespace and result after a call are those of the specified step, for every outcome of every call to the outside |
| `Refinement.ReadyExactly` | controllers/helm_util.go:296-342 | readiness is reported if and only if both lists were read and no workload of the release lacks a replica |
| `Refinement.StepFollowsDiagram` | docs/state-diagram.txt:23-60 | every status write of a call is an arrow of the documented diagram with its guard, but for the shortcut out of a restart |
| `Refinement.CutShortShows` | controllers/fabricnetwork_controller.go:213-253 | a restart that did not stay was left by a write that no arrow of the diagram allows |
| `Refinement.LeavesDiagramExactly` | controllers/fabricnetwork_controller.go:212-254 | a call stays within the diagram unless, before it, HelmChartReady meets a topology change, and reconstruction, the write of New and the switch's own write all get through: exactly then it leaves it |
| `Refinement.RestartSurvivesExactly` | controllers/fabricnetwork_controller.go:213-253 | the restart stays if and only if its write took effect and the switch behind it was not reached or wrote nothing |
| `Safety.StepForces` | controllers/fabricnetwork_controller.go:101-117 | a forced state gets into the status, with its message and no workflow, exactly if that write takes effect, and leaves the Spec only after it was heard; neither snapshots nor NextFlow nor anything else change |
| `Safety.UntouchedIsDecidedExactly` | controllers/fabricnetwork_controller.go:138-154 | an untouched network is rejected if and only if another one of the namespace has been touched, and otherwise becomes New with the Spec of now as its snapshots |
| `Safety.SecondIsRejected` | controllers/fabricnetwork_controller.go:138-145 | a network created beside one that was touched is Rejected by its first call that gets to the check, and says why |
| `Safety.StepKeepsSane` | api/v1alpha1/fabricnetwork_types.go:27 | one call, forced or not, keeps: no unknown state, and a workflow exactly in the Submitted states |
| `Safety.RunKeepsSane` | controllers/fabricnetwork_controller.go:71-439 | over every run, forced states included: no network is Invalid or unknown, and Status.Workflow is set exactly in the three Submitted states |
| `Safety.RunKeepsOrderly` | controllers/fabricnetwork_controller.go:71-480 | every run without forced states keeps the invariant of at most one active network and of NextFlow None only on the way to HelmChartReady |
| `Safety.MutualExclusion` | controllers/fabricnetwork_controller.go:138-154 | whatever is created, edited, deleted or fails, two networks of a namespace are never both beyond untouched or Rejected |
| `Safety.SkippingIsTransient` | controllers/fabricnetwork_controller.go:237-241 | NextFlow None is never persisted in Ready or in a flow state |
| `Safety.SnapshotsAreAtomic` | controllers/fabricnetwork_controller.go:150-154 | the four snapshots are all initial or all of one Spec a user gave that network, forced states and failed writes included |
| `Ownership.StepFlowResult` | controllers/argo_util.go:59-159 | a call changes no other network's workflow, and one that waits for a new workflow waits for the one submitted in that call |
| `Ownership.DeletesExactly` | controllers/argo_util.go:120-159 | deletion goes through the network's live workflows in order: none if they could not be listed, those before the failing call, or all; every other one stays as it is |
| `Ownership.CleanUpTakesExactly` | controllers/fabricnetwork_controller.go:81-91 | a call for a network that is gone takes its own release, and whether or not that was heard its workflows in order, and nothing else |
| `Ownership.WorkflowIsOwn` | controllers/fabricnetwork_controller.go:226-338 | in every run the workflow a network waits for exists, is its own, not deleted, and of the kind its state names |
| `Ownership.CleanUpIsComplete` | controllers/fabricnetwork_controller.go:81-91 | after its deletion and a call that meets no failure nothing of a network is left: neither a release of the chart annotated for it, nor a workflow of its label, nor a Secret that it owns |
| `Ownership.StartsOverClean` | controllers/fabricnetwork_controller.go:156-171 | a successful start from scratch has deleted every earlier workflow if the deletion was heard, has its genesis block, and launches pods exactly without actual domains |
| `Ownership.ReleaseIsOwn` | controllers/helm_util.go:113-235 | in every run without forced states a network past New holds the chart's release annotated with its name, launched unless an update is due, and it never upgraded another's |
| `Messages.MessagesFit` | controllers/fabricnetwork_controller.go:138-338 | in every run without forced states: Ready says that the network is ready, Rejected that it is one too many, Failed has the text of the flow whose own workflow failed in the state before, and all other states say nothing |
| `Replies.CallReportsExactly` | controllers/fabricnetwork_controller.go:71-439 | a call reports an error exactly if the network could not be read, a write of a forced state was not heard, the lost directory was not rebuilt or its state's step gave up on an answer; asks for a delayed call exactly if replicas or a workflow are not done; for an immediate one exactly behind a forced state |
| `Replies.StartOverSucceedsExactly` | controllers/fabricnetwork_controller.go:156-171 | a start from scratch succeeds if and only if the release was none or its own and went, and a new directory with material and genesis block, and the install, succeeded |
| `Replies.NewLeavesExactly` | controllers/fabricnetwork_controller.go:156-176 | in whichever step a call in New stops: the release is removed, kept or new, the workflows go in order only if no error came from the release, directory and Secret are the old ones or hold the material as far as it got |
| `Replies.UpdateLeavesExactly` | controllers/helm_util.go:151-179 | an update leaves a release of this network with launched pods unless it did nothing or found none |
| `Replies.ReadyLeavesExactly` | controllers/fabricnetwork_controller.go:340-391 | a call in Ready makes material over the old directory exactly if the topologies ask for certificates and the values files were written: the user's as far as it could be extracted, or cryptogen's, which the Secret then holds; otherwise Secret and directory stay |
| `Replies.ReconstructLeavesExactly` | controllers/helm_util.go:62-91 | in whichever step a reconstruction stops: an existing directory, and that of a Failed network, stay as they are; otherwise there is none, an empty one, or the Secret's material as far as it could be extracted |
| `Replies.StandingStay` | controllers/fabricnetwork_controller.go:124-142 | a call leaves a Rejected, Failed or unknown network as it is and makes an Invalid one untouched, and nothing else but a missing directory changes |
| `Milestones.StepKeepsToDo` | controllers/fabricnetwork_controller.go:124-439 | a call drops nothing from the list of what must come before Ready unless it happened in that call |
| `Milestones.RunKeepsToDo` | controllers/fabricnetwork_controller.go:124-439 | over any run: what was to do has happened since in that order or is still to do |
| `Milestones.PeerOrgsRunAllFlows` | controllers/fabricnetwork_controller.go:369-376 | after changed peer organizations Ready comes back only behind update, readiness, peer-org-flow, channel-flow and a chaincode-flow over all chaincodes, in this order |
| `Milestones.FirstReady` | controllers/fabricnetwork_controller.go:156-307 | a Ready network has behind it, in order: install, launched pods, all replicas ready, channel-flow, chaincode-flow over all chaincodes |
| `SkippedFlows.ReadyForgetsChanges` | controllers/fabricnetwork_controller.go:346-349 | a write out of Ready leaves no change pending, whether or not its flow will run |
| `SkippedFlows.ReadySubmits` | controllers/fabricnetwork_controller.go:395-433 | if the chart stays, a write out of Ready waits for one new workflow of this network: the channel-flow for other channels, and otherwise a chaincode-flow for exactly the chaincodes that differ, in order, or for all if settings, number or names differ |
| `SkippedFlows.ReadyWithoutFlow` | controllers/fabricnetwork_controller.go:156-242 | on the way with NextFlow None a network is Ready after at most four calls in which nothing fails, and no flow has succeeded |
| `SkippedFlows.DroppedChangesStayDropped` | controllers/fabricnetwork_controller.go:346-393 | after a call in Ready that acted on a topology change in which no peer organization came or went, and orderer organizations did, or else no organization has more peers and one has fewer or the version differs, three calls lead to Ready with Spec and Status alike and no flow in between, whatever channel or chaincode changes there were |
| `SkippedFlows.ChannelsGetTheirFlowExactly` | controllers/fabricnetwork_controller.go:358-413 | on every run from the call that acted on channels different from those of the Status to the next Ready a channel-flow succeeded, if and only if the topology's own change beside them is not one that sets NextFlow to None |
| `SkippedFlows.ChaincodesGetTheirFlowExactly` | controllers/fabricnetwork_controller.go:358-433 | the same for chaincode parts that differ and a chaincode-flow that covers every one of them |
| `SkippedFlows.ChangedPeerOrgsRunAllFlows` | controllers/fabricnetwork_controller.go:369-376 | if a peer organization is in the topology of only one of Spec and Status: from the call that acts on it to the next Ready, whatever fails or is edited, update, readiness, peer-org-flow, channel-flow and a full chaincode-flow have happened in this order |
| `SkippedFlows.MorePeersRunFlowsUntilReady` | controllers/fabricnetwork_controller.go:377-383 | if an organization has more peers than its namesake in the Status, and not only orderer organizations changed besides: from the call that acts on it to the next Ready update, readiness, channel-flow and a full chaincode-flow in this order |
| `SkippedFlows.ChannelsHaveTheirFlow` | controllers/fabricnetwork_controller.go:395-413 | if no flag beside them sets NextFlow to None, changed channels have had a succeeded channel-flow at the next Ready |
| `SkippedFlows.ChaincodesHaveTheirFlow` | controllers/fabricnetwork_controller.go:415-433 | likewise changed chaincodes a succeeded chaincode-flow that covers all of them |
| `SkippedFlows.PeerOrgFlowSticks` | controllers/fabricnetwork_controller.go:237-253 | NextFlow PeerOrgFlow is taken away exactly by a call in Ready with a change that sets None whose reconstruction, values files, certificates and status write get through |
| `SkippedFlows.RestartRunsFlowsExactly` | controllers/fabricnetwork_controller.go:213-253 | a restart that survives its call has run channel-flow and a full chaincode-flow at the next Ready, on every run, if and only if NextFlow was not None when it was saved |
| `Convergence.StepConverges` | controllers/fabricnetwork_controller.go:124-439 | a call that meets no failure brings a network that is neither at rest nor waiting, and not blocked by a foreign release, strictly closer, and keeps it at rest |
| `Convergence.EffortBoundsBusyCalls` | controllers/fabricnetwork_controller.go:124-439 | for a network not blocked the measure, and one more for each lost directory, bounds the calls that do not find it waiting, whatever other networks' calls, creations, edits and deletions happen in between |
| `Convergence.RestsExactly` | controllers/fabricnetwork_controller.go:340-436 | a network in Ready is at rest if and only if channels and chaincodes are as in the Spec, and of the topology the version, the organizations and their peer counts |
| `Convergence.NewIsStuck` | controllers/helm_util.go:113-149 | whatever is answered, a call in New that finds a foreign release changes neither status nor release and fails |
| `Convergence.StuckUntilOwnerIsCleanedUp` | controllers/helm_util.go:113-149 | so over every run without forced states, until the release's owner is reconciled, which is what cleans it up |
| `Convergence.ComesToRestExactly` | controllers/fabricnetwork_controller.go:124-439 | from every state reachable without forced states, its Spec left alone, its calls free of failures and the rest of the namespace alive, a network called often enough ends Rejected, Failed, or Ready with nothing pending but an unclassified topology change, if and only if it does not set out to install beside a foreign release whose owner is never reconciled |
| `Wakeups.StepStallsExactly` | controllers/fabricnetwork_controller.go:124-436 | a network not at rest is left without a next call if and only if the call gets, by the guards of its state, to a status write whose error is ignored, and that write does not take effect |
| `Wakeups.KeepsGoing` | controllers/fabricnetwork_controller.go:71-439 | while its writes take effect a network that is not at rest always gets another call |
| `Wakeups.WorkingCallEnds` | controllers/fabricnetwork_controller.go:119-439 | a call that meets no failure brings no further one if and only if it finds the network at rest and its directory there or rebuilt |
| `Wakeups.GoesOnUntilAtRest` | controllers/fabricnetwork_controller.go:71-439 | in the closed loop of calls that only the network's own events bring, whenever none is to come the network is at rest, and the number of calls that do not wait is bounded |
| `Orphans.OrphansExactly` | controllers/argo_util.go:59-93 | a call leaves a workflow running that its network does not wait for if and only if it gets to submit one and the name does not come back or the status that holds it is not written |
| `Orphans.FlowRunsTwice` | controllers/fabricnetwork_controller.go:226-311 | after that the next call that submits and saves runs the same flow of the same network a second time beside it |
| `Effects.CallLeaves` | controllers/fabricnetwork_controller.go:119-338 | but for New, Ready and the two update states, a call without a forced state leaves release and Secret alone and changes the directory only by reconstructing a missing one |
| `Recovery.RebuildsExactly` | controllers/helm_util.go:62-91 | a lost directory comes back from its Secret as the archived tree, and the call goes on, if and only if the names are archivable, the first item is a folder, the configured path is clean and the genesis block is there |
| `Recovery.HalfBuiltDirectoryStays` | controllers/helm_util.go:62-91 | what a failed reconstruction left stays as it is over every run, until it is lost again, built anew in New, or extended |
| `Recovery.CertificatesPrecedeSnapshots` | controllers/fabricnetwork_controller.go:212-391 | a call saves snapshots that need certificates without storing any if and only if it restarts for them at HelmChartReady and gets that write through; out of Ready the extended material is stored right before them |
| `Recovery.RunKeepsSecret` | controllers/fabric_util.go:233-275 | in every run without forced states the Secret holds what its network stored last |
| `Recovery.LostDirectoryComesBackExactly` | controllers/fabric_util.go:57-80 | after any such run a lost directory is rebuilt as exactly the tree last stored, if and only if that tree is storable, the configured path is clean and the genesis block is there |
| `UserMaterial.StartOverLays` | controllers/fabric_util.go:57-80 | with a user's Secret that holds the archive of a storable tree, a successful start from scratch leaves the directory with exactly that tree |
| `UserMaterial.ReadyLays` | controllers/fabric_util.go:132-149 | a call in Ready for changed organizations or more peers lays that tree over the directory that is there |
| `UserMaterial.UserMaterialStays` | controllers/fabric_util.go:57-149 | over every run without forced states, while the Secret stays: the directory of a network past New, if there is one, holds exactly the Secret's tree |
| `UserMaterial.CreatedMaterialArrives` | cli/cmd/create.go:327-379 | the Secret that the CLI makes of a folder, which the network it submits names, leaves exactly the folder's files in the operator's directory |
| `HelmValues.NewCryptoConfig` | controllers/fabric_util.go:203-231 | the file describes every organization of the topology, in order, with its name, domain and hosts or peer count |
| `HelmValues.GetHostAliases` | controllers/helm_util.go:482-512 | the user's aliases, followed with actual domains by one alias for each service labelled addToHostAliases=true and no other, in order, that resolves the service's fqdn label to its address |
| `HelmValues.CompleteHasEveryService` | controllers/helm_util.go:493-509 | complete aliases begin with the user's and resolve the fqdn label of each service that asks for it to its address |
| `HelmValues.CompleteHasNoOther` | controllers/helm_util.go:493-509 | behind the user's list every alias is that of a service of the chart that asks for one |
| `Aliases.MorePeersCompleteAliasesExactly` | controllers/fabricnetwork_controller.go:377-383 | all runs with a fixed Spec from the Ready call for more peers have complete aliases deployed past the update, if and only if there are no actual domains or the labelled services read the same for the topology deployed and the new one |
| `Aliases.NewDeploysCompleteAliases` | controllers/fabricnetwork_controller.go:156-196 | with a fixed Spec, from New and through any failures, the release of a network past the updates has the Spec's topology, the user's aliases and, with actual domains, those of every service of its own chart that asks for one, and one more update would not change it |
| `Aliases.LastChangeRenders` | controllers/helm_util.go:482-512 | after an install the aliases name the services that were there before the chart, after an update those of the chart deployed just before it |
| `Aliases.ChangedOrgsDeployCompleteAliases` | controllers/fabricnetwork_controller.go:358-376 | the same from the Ready call that wrote the values files for changed organizations, whatever was deployed before |
| `Certificates.ConfigIsFaithful` | controllers/fabric_util.go:203-231 | cryptogen's file asks for exactly the peers of the topology |
| `Certificates.FlagsAreComplete` | controllers/fabricnetwork_controller.go:529-546 | when no flag asks for certificates those of the old topology cover the new one |
| `Certificates.ExtendingKeeps` | controllers/fabric_util.go:150-166 | an extension that fails at any point leaves the old topology covered in directory and Secret |
| `Certificates.ReconstructCertifiesExactly` | controllers/helm_util.go:62-91 | a lost directory's reconstruction keeps the counted peers' certificates if and only if it is not begun, or gets to the Secret below a clean path; otherwise the directory lacks them |
| `Certificates.EveryPeerHasItsCertificate` | controllers/fabricnetwork_controller.go:340-391 | with stable domains, own crypto material and topology edits at rest only: past New every peer counted in Status has its certificate in the Secret and, if there is one, in the directory |
| `Certificates.HalfBuiltLacksCertificates` | controllers/helm_util.go:62-91 | after such a run, once a reconstruction stops halfway or extracts a misplaced archive, a counted peer has no certificate in the directory, over every run, until it is lost again, built anew or extended |
| `Certificates.CutShortKeepsCoverageExactly` | controllers/fabricnetwork_controller.go:212-254 | after a call at HelmChartReady every counted peer of a network past New is covered if and only if the call does not leave a restart for NextFlow or the material there covers the new topology already |
| `Cli.OwnArchivesExactly` | cli/cmd/create.go:277-322 | each chaincode finds its own archive if and only if no two different names agree in lower case |
| `Cli.CreateKeepsNamesApart` | cli/cmd/create.go:277-322 | an accepted create without --overwrite has distinct lower-case names, touches no ConfigMap that was there and leaves each its own archive |
| `Cli.ChaincodeComesBackExactly` | cli/cmd/create.go:267-307 | for every chaincode folder, relative or absolute: a chaincode's archive extracts to exactly its files if and only if its names are archivable and the folder's path is clean, or the chaincode has no entries |
| `Cli.DeleteUndoesCreateExactly` | cli/cmd/delete.go:35-86 | a delete restores the namespace if and only if the create overwrote nothing and no earlier object carried the label with this network's name; objects of other networks may be there |
| `Cli.DeleteInvertsCreate` | cli/cmd/delete.go:35-86 | without --overwrite: if and only if no earlier object carries the label with this network's name |
| `Cli.DeleteTakesCarriers` | cli/cmd/delete.go:35-86 | a delete takes away exactly the objects whose label raft.io/fabric-operator-cli-created-for has this network's name, and the network; objects without the label or with another name stay as they were |
| `Cli.RetryCompletes` | cli/cmd/create.go:51-95 | repeating an interrupted create with --overwrite is accepted unless the network exists, and ends where an uninterrupted one does |
| `Cli.RetryRefusedExactly` | cli/cmd/create.go:111-119 | without --overwrite the repetition is accepted if and only if the interrupted create had done nothing |
| `Cli.KeptResourcesServeExactly` | cli/cmd/create.go:150-161 | with kept resources the submitted manifest is valid again if and only if all chaincode names are lower case |
| `Acceptance.AcceptedExactly` | cli/cmd/create.go:51-199 | a create is accepted if and only if none of the listed reasons is there, told of manifest, namespace and machine: another network, TLS without actual domains, a source that is missing, doubled, misnamed, absent or in the way, a chaincode without ConfigMap, language or version, an unreadable path, a taken or clashing ConfigMap name |
| `Acceptance.SecretsResolve` | cli/cmd/create.go:210-265 | the submitted network names only Secrets that are there, under the names the operator reads, and is otherwise the manifest's |
| `Acceptance.UploadsAreExact` | cli/cmd/create.go:210-379 | the uploaded Secrets hold the file's bytes and the folder's archive under the operator's keys, with the label that delete looks for |
| `Acceptance.OtherSecretsStay` | cli/cmd/create.go:210-379 | no other Secret changes |
| `Acceptance.ChaincodesResolve` | cli/cmd/create.go:267-325 | each chaincode of an accepted network has its ConfigMap, with its labels and archive if it was uploaded, and without --overwrite none that was there changes |
| `CliCommands.ValidateConfigtx` | cli/cmd/create.go:102-129 | the checks pass, when all calls are answered, if and only if the source of configtx is valid |
| `CliCommands.ValidateChaincodes` | cli/cmd/create.go:150-170 | the loop passes if and only if every chaincode has its ConfigMap or a folder, a language and a version |
| `CliCommands.ValidateNewNetwork` | cli/cmd/create.go:98-199 | all checks together: no false acceptance even with failing calls, and none refused otherwise |
| `CliCommands.CreateOrUpdateChaincodeConfigMap` | cli/cmd/create.go:278-321 | one ConfigMap under the lower-cased name, not written over an existing one without --overwrite |
| `CliCommands.CreateOrUpdateChaincodeConfigMaps` | cli/cmd/create.go:267-325 | on success all uploads are there; on failure only some of them and nothing else; success exactly if all folders are there and no name is taken |
| `CliCommands.CreateOrUpdateCryptoConfigSecret` | cli/cmd/create.go:327-379 | the Secret gets the archive of the folder, which must exist |
| `CliCommands.SubmitNewNetwork` | cli/cmd/create.go:51-96 | on success the namespace is exactly the created one; after any failure it lies between; with all calls answered it succeeds exactly if none of the reasons for a refusal is there |
| `CliCommands.DeleteNetwork` | cli/cmd/delete.go:35-86 | on success the network and, unless kept, exactly the objects whose label has its name are gone; on failure some of those at most; a network that is already gone changes nothing, so leftovers of an interrupted delete stay |

## Left out

- Aliases.NewDeploysCompleteAliases: does not follow edits of the Spec between the call that writes the values files and the update that reads them; from that call on the Spec is fixed, and so the files hold its topology.
- Aliases.ChangedOrgsDeployCompleteAliases: the same, from the call in Ready on.
- Aliases.MorePeersCompleteAliasesExactly: the same, for more peers in unchanged organizations.
- Certificates.EveryPeerHasItsCertificate: takes cryptogen at its word (it makes what its file asks for, extends without removing, and uses storable names); its runs have no reconstruction that stops halfway and no topology edit before the network is at rest, for which `Certificates.HalfBuiltLacksCertificates` and `Certificates.CutShortKeepsCoverageExactly` say what is lacking.
- Certificates.ReconstructCertifiesExactly: leaves out a certificate whose own path leads along the relative path that misplaces the archive.
- Certificates.HalfBuiltLacksCertificates: leaves out the same.
- Convergence.ComesToRestExactly: speaks of calls of the network itself that meet no failure and of a user's Secret that can be extracted; other networks are deleted only once it is no longer untouched, since a deletion before that can put it beside a release that nobody owns any more.
- Wakeups.GoesOnUntilAtRest: speaks of the same runs.
- UserMaterial.UserMaterialStays: leaves out runs in which a reconstruction stops halfway, for which `Recovery.HalfBuiltDirectoryStays` says what stays, and in which somebody writes the user's Secret.
- UserMaterial.ReadyLays: speaks of a directory whose files are files and whose folders are folders of the Secret's tree.
- Recovery.LostDirectoryComesBackExactly: leaves out writes to the Secret by anyone but the operator.
- Real Kubernetes, Helm, Argo, cryptogen and configtxgen: an `Env` record of answers stands for them. Assumed are only: an install fails while the release exists, an upgrade fails without one, final phases of a workflow stay, and, in `Certificates` alone, that cryptogen makes what its file asks for and extends without removing.
- Concurrent calls and stale caches: one Reconcile at a time, with fresh reads of resource and namespace.
- Garbage collection of the Secret that a network owns happens with the deletion of the network, and nobody but the operator writes that Secret.
- A lost directory is lost as a whole, and of a network directory only the crypto material is modelled; chart, values files, genesis block and channel artifacts are success or failure of the steps that write them.
- `Validate` of the reconciler is a stub in the source, so the arrow to Invalid of the diagram has no write to follow.
- Log output, requeue delays, events, timers, leader election, and the controller runtime's periodic resync, which in the end brings a call to a network that `Wakeups.StepStallsExactly` finds left standing.
- YAML and JSON, and the difference between a nil and an empty list: snapshots are compared as values.
- gzip, file modes, symbolic links, tar header encoding and Windows separators: archives carry names, kinds and contents.
- Disk errors other than a missing parent, a file in place of a folder or the reverse; `os.RemoveAll` removes everything or nothing; `copyDir` succeeds, stops halfway or fails at once.
- The order in which a folder is walked is arbitrary in the model, where the source walks lexically.
- Helm values as text and their merging; of the chart's rendering only the services' labels and addresses count.
- The CLI's error texts, its update, list, download and version commands, and lower-casing beyond ASCII; paths on the local machine are texts, absolute or below the folder of the configuration file.
- The genesis file of a manifest, which the CLI checks but never uploads, is carried along unchanged.
