/** The crypto material between network directory and Secret: what a lost directory comes back as. */
module Recovery {
  import opened Api
  import opened Paths
  import opened Archive
  import opened RoundTrip
  import opened Folders
  import opened Changes
  import opened Cluster
  import opened Effects
  import opened Refinement
  import opened Runs
  import opened Safety

  /* ---- One reconstruction ---- */

  // Trees that survive the Secret: names the archive can carry, and a folder as the first item.
  ghost predicate Storable(t: Listing) {
    WellNamed(t) && Archivable(t) && t.Item? && t.node.Dir?
  }

  // A reconstruction that gets as far as the extraction.
  predicate Rebuilds(v: View, env: Env) {
    v.dir.None? && !v.net.status.state.StateFailed? && env.chartDir.ChartDirCreated? && env.secretRead
  }

  // The genesis block is the user's or could be read.
  predicate GenesisThere(v: View, env: Env) { v.net.spec.genesisSecret != "" || env.genesisRead }

  lemma NewDirIsEmpty(t: Listing)
    requires WellNamed(t)
    ensures MakeDirs(map[], [CRYPTO_DIR]) == Ok(map[[CRYPTO_DIR] := FsDir])
    ensures SameKinds(map[[CRYPTO_DIR] := FsDir], Files([CRYPTO_DIR], t))
    ensures Merge(map[[CRYPTO_DIR] := FsDir], Files([CRYPTO_DIR], t)) == CryptoDir(t)
  {
    assert [CRYPTO_DIR][..0] == [];
    if [CRYPTO_DIR] in Files([CRYPTO_DIR], t) {
      FilesAreBelow([CRYPTO_DIR], t, [CRYPTO_DIR]);
    }
    assert Merge(map[[CRYPTO_DIR] := FsDir], Files([CRYPTO_DIR], t)) == CryptoDir(t);
  }

  lemma ExtractsStorable(t: Listing)
    requires Storable(t)
    ensures Unpack(map[], [CRYPTO_DIR], Tar("", t)) == Ok(CryptoDir(t))
  {
    var made: Fs := map[[CRYPTO_DIR] := FsDir];
    NewDirIsEmpty(t);
    MissingDestination(map[], [CRYPTO_DIR], t);
    Extraction(made, [CRYPTO_DIR], t);
  }

  lemma OnlyStorableExtracts(t: Listing)
    requires WellNamed(t) && !Storable(t)
    ensures Unpack(map[], [CRYPTO_DIR], Tar("", t)) != Ok(CryptoDir(t))
  {
    if t.End? {
      assert [CRYPTO_DIR] in CryptoDir(t);
    } else if !Archivable(t) {
      ValidExactly("", t);
      UnpackNeedsValidNames(map[], [CRYPTO_DIR], Tar("", t));
    } else {
      NewDirIsEmpty(t);
      MissingDestination(map[], [CRYPTO_DIR], t);
    }
  }

  lemma ArchiveIsRelative(root: string, name: string, t: Listing)
    requires CleanFolder(MaterialFolder(root, name)) && WellNamed(t)
    ensures ArchiveOf(root, name, t) == Tar("", t)
  {
    CompressedFolder(MaterialFolder(root, name), t);
  }

  // The material's folder is below some folder.
  lemma MaterialIsBelow(parent: string)
    ensures RelativeSegments(parent + "/" + CRYPTO_DIR) != []
  {
    assert Ordinary(CRYPTO_DIR);
    SplitAtSlash(parent, CRYPTO_DIR);
    SplitNoSlash(CRYPTO_DIR);
    RelativeConcat([], Split(parent), [CRYPTO_DIR]);
  }

  lemma UncleanRebuildsNothing(root: string, name: string, t: Listing)
    requires !CleanFolder(MaterialFolder(root, name)) && WellNamed(t)
    ensures Unpack(map[], [CRYPTO_DIR], ArchiveOf(root, name, t)) != Ok(CryptoDir(t))
  {
    var folder := MaterialFolder(root, name);
    if t.End? {
      assert folder + "/" + "" == folder + "/";
      assert [CRYPTO_DIR] in CryptoDir(t);
    } else if IsAbs(folder) {
      UncleanFolderFails(folder, t, map[], [CRYPTO_DIR]);
    } else {
      MaterialIsBelow(root + "/" + name);
      forall p | p in CryptoDir(t)
        ensures |p| <= 1 + Height(t)
      {
        if p in Files([CRYPTO_DIR], t) {
          NothingDeeper([CRYPTO_DIR], t, p);
        }
      }
      assert map[] + CryptoDir(t) == CryptoDir(t);
      MisplacedNeverComesBack(folder, t, map[], [CRYPTO_DIR], CryptoDir(t));
    }
  }

  /** A lost directory whose Secret holds the archive of its tree comes back with exactly that tree, and the
      call goes on, if and only if the tree is storable, the folder's path is what filepath.Clean leaves,
      and the genesis block is there. */
  lemma RebuildsExactly(v: View, env: Env, t: Listing)
    requires Rebuilds(v, env) && WellNamed(t)
    requires v.secret.Some? && v.secret.value.tar == ArchiveOf(v.root, v.name, t)
    ensures (Reconstruct(v, env).ok && Reconstruct(v, env).view.dir == Some(CryptoDir(t))) <==>
            Storable(t) && CleanFolder(MaterialFolder(v.root, v.name)) && GenesisThere(v, env)
  {
    if !CleanFolder(MaterialFolder(v.root, v.name)) {
      UncleanRebuildsNothing(v.root, v.name, t);
    } else {
      ArchiveIsRelative(v.root, v.name, t);
      if Storable(t) {
        ExtractsStorable(t);
      } else {
        OnlyStorableExtracts(t);
      }
    }
  }

  /* ---- The Secret follows the history ---- */

  function LastStored(j: seq<Event>): Option<Listing>
    decreases |j|
  {
    if j == [] then None
    else
      var e := j[|j| - 1];
      if e.Stored? then Some(e.tree) else LastStored(j[..|j| - 1])
  }

  lemma LastStoredOf(j: seq<Event>, e: Event)
    ensures LastStored(j + [e]) == if e.Stored? then Some(e.tree) else LastStored(j)
  {
  }

  // No store between v and r.
  ghost predicate StoresNothing(v: View, r: View) {
    SameNetwork(v, r) && r.secret == v.secret && LastStored(r.net.journal) == LastStored(v.net.journal)
  }

  ghost predicate StoresTree(r: View, t: Listing) {
    r.secret == Some(CryptoSecret(r.name, ArchiveOf(r.root, r.name, t))) && LastStored(r.net.journal) == Some(t)
  }

  ghost predicate SameMaterial(v: View, r: View) { StoresNothing(v, r) && r.dir == v.dir }

  // The Secret and the journal changed together or not at all.
  ghost predicate Stores(v: View, r: View, t: Listing) {
    SameNetwork(v, r) && (StoresNothing(v, r) || StoresTree(r, t))
  }

  lemma {:induction false} PlainStoresNothing(j: seq<Event>, k: seq<Event>)
    requires |j| <= |k| && k[..|j|] == j
    requires forall i :: |j| <= i < |k| ==> Plain(k[i])
    ensures LastStored(k) == LastStored(j)
    decreases |k|
  {
    if |k| == |j| {
      assert k == j;
    } else {
      assert k[..|k| - 1][..|j|] == j;
      PlainStoresNothing(j, k[..|k| - 1]);
    }
  }

  lemma UntouchedMaterial(v: View, r: View)
    requires Untouched(v, r)
    ensures SameMaterial(v, r)
  {
    PlainStoresNothing(v.net.journal, r.net.journal);
  }

  lemma InstallKeepsMaterial(v: View, i: Install)
    ensures SameMaterial(v, InstallRelease(v, i).view)
  {
  }

  lemma UpgradeKeepsMaterial(v: View, u: Upgrade)
    ensures SameMaterial(v, UpgradeRelease(v, u).view)
  {
  }

  lemma SaveKeepsMaterial(v: View, st: Status, w: Write)
    ensures SameMaterial(v, Save(v, st, w))
  {
  }

  lemma MakeCryptoStores(v: View, env: Env)
    ensures Stores(v, MakeCrypto(v, env).view, env.tree)
  {
  }

  lemma PrepareStores(v: View, env: Env)
    ensures Stores(v, Prepare(v, env).view, env.tree)
  {
    MakeCryptoStores(v.(dir := Some(map[])), env);
  }

  lemma NewStores(v: View, env: Env)
    requires v.net.status.state.StateNew?
    ensures Stores(v, StepNew(v, env).view, env.tree)
  {
    var u := v.(release := UninstallRelease(v.release, v.name, env.uninstall),
                workflows := DeleteWorkflows(v.workflows, v.name, env.deletes));
    PrepareStores(u, env);
    InstallKeepsMaterial(Prepare(u, env).view, env.install);
    SaveKeepsMaterial(StartOver(v, env).view, To(v.net.status, AfterInstall(v.net.spec), "", None), env.save1);
  }

  lemma ReadyStores(v: View, env: Env)
    requires v.net.status.state.StateReady?
    ensures Stores(v, StepReady(v, env).view, env.tree)
  {
    MakeCryptoStores(v, env);
    ReadyLeaves(v, env);
    UntouchedMaterial(AfterCertify(v, env), StepReady(v, env).view);
  }

  lemma UpdatesKeepMaterial(v: View, env: Env)
    ensures SameMaterial(v, StepNeedsUpdate(v, env).view) && SameMaterial(v, StepNeedsDoubleUpdate(v, env).view)
  {
    var u := UpgradeRelease(v, env.upgrade1).view;
    var w := UpgradeRelease(u, env.upgrade2).view;
    var st := To(v.net.status, StateHelmChartInstalled, "", None);
    UpgradeKeepsMaterial(v, env.upgrade1);
    UpgradeKeepsMaterial(u, env.upgrade2);
    SaveKeepsMaterial(u, st, env.save1);
    SaveKeepsMaterial(w, st, env.save1);
  }

  // Only New and Ready touch the crypto material.
  lemma OthersKeepMaterial(v: View, env: Env)
    requires !v.net.status.state.StateNew? && !v.net.status.state.StateReady?
    ensures SameMaterial(v, StepByState(v, env).view)
  {
    if Touches(v.net.status.state) {
      UpdatesKeepMaterial(v, env);
    } else {
      OthersLeave(v, env);
      UntouchedMaterial(v, StepByState(v, env).view);
    }
  }

  lemma StepByStateStores(v: View, env: Env)
    ensures Stores(v, StepByState(v, env).view, env.tree)
  {
    match v.net.status.state
    case StateNew => NewStores(v, env);
    case StateReady => ReadyStores(v, env);
    case _ => OthersKeepMaterial(v, env);
  }

  /* ---- One call ---- */

  lemma StepStores(v: View, env: Env)
    requires v.net.spec.forceState.StateUnset?
    ensures Stores(v, Step(v, env).view, env.tree)
  {
    var m := Reconstruct(v, env).view;
    StepByStateStores(m, env);
  }

  lemma PassiveStoresNothing(v: View, env: Env)
    requires v.net.spec.forceState.StateUnset? && Sane(v.net) && !Active(v.net.status.state)
    ensures StoresNothing(v, Step(v, env).view)
  {
  }

  lemma StaysActive(v: View, env: Env)
    requires v.net.spec.forceState.StateUnset? && Sane(v.net) && Active(v.net.status.state)
    ensures Active(Step(v, env).view.net.status.state)
  {
    StepMoves(v, env);
  }

  // A write of new snapshots out of Ready comes right behind the store of the extended material.
  lemma ReadyStoresFirst(v: View, env: Env)
    requires v.net.status.state.StateReady? && v.net.spec.cryptoSecret == "" && Pending(v.net).NeedsCertificates()
    requires StepReady(v, env).view.net.status != v.net.status
    ensures var r := StepReady(v, env).view;
            r.net.journal == v.net.journal + [Stored(env.tree), Wrote(v.net.status, r.net.status)] &&
            StoresTree(r, env.tree) && r.dir == Some(CryptoDir(env.tree))
  {
    var st := AfterTopologyChange(TakeSnapshots(v.net.status, v.net.spec), Pending(v.net));
    assert Pending(v.net).Any() && Classified(Pending(v.net));
    LastStoredOf(v.net.journal, Stored(env.tree));
    LastStoredOf(v.net.journal + [Stored(env.tree)], Wrote(v.net.status, st));
  }

  ghost predicate NeedsMore(a: Status, b: Status) { AsksForCertificates(b.topology, a.topology) }

  lemma PendingNeedsMore(n: Resource, b: Status)
    requires b.topology == n.spec.topology
    ensures Pending(n).NeedsCertificates() <==> NeedsMore(n.status, b)
  {
    CertificatesMean(n.spec.Project(), n.status.Copy());
  }

  lemma SameNeedsNoMore(a: Status, b: Status)
    requires b.topology == a.topology
    ensures !NeedsMore(a, b)
  {
    CertificatesMean(a.Copy(), a.Copy());
  }

  // A restart is due at HelmChartReady for snapshots that need certificates, and its write gets through.
  ghost predicate RestartsUncertified(v: View, env: Env) {
    v.net.status.state.StateHelmChartReady? && AsksForCertificates(v.net.spec.topology, v.net.status.topology) &&
    Reconstruct(v, env).ok && !env.save1.NotWritten?
  }

  ghost predicate StoredIn(j: seq<Event>, k: nat) { exists i :: k <= i < |j| && j[i].Stored? }

  /** With crypto material of its own, a call of a network past New saves snapshots that need certificates
      without storing any, exactly if it restarts at HelmChartReady; out of Ready the extended material is
      stored right before them. */
  lemma CertificatesPrecedeSnapshots(v: View, env: Env)
    requires v.net.spec.forceState.StateUnset? && Sane(v.net) && v.net.spec.cryptoSecret == ""
    requires Active(v.net.status.state)
    ensures var r := Step(v, env).view;
            (NeedsMore(v.net.status, r.net.status) && !StoredIn(r.net.journal, |v.net.journal|)
             <==> RestartsUncertified(v, env)) &&
            (NeedsMore(v.net.status, r.net.status) && v.net.status.state.StateReady? ==>
               r.net.journal == v.net.journal + [Stored(env.tree), Wrote(v.net.status, r.net.status)] &&
               StoresTree(r, env.tree))
  {
    var m, r := Reconstruct(v, env).view, Step(v, env).view;
    if v.net.status.state.StateReady? {
      if NeedsMore(v.net.status, r.net.status) {
        ReadyChangesTopology(m, env);
        ReadyStoresFirst(m, env);
        assert r.net.journal[|v.net.journal|] == Stored(env.tree);
      }
    } else if v.net.status.state.StateHelmChartReady? {
      HelmReadySaves(v, env);
    } else {
      OthersKeepSnapshots(v, env);
      SameNeedsNoMore(v.net.status, r.net.status);
    }
  }

  lemma ReadyChangesTopology(m: View, env: Env)
    requires m.net.status.state.StateReady? && NeedsMore(m.net.status, StepReady(m, env).view.net.status)
    ensures StepReady(m, env).view.net.status != m.net.status && Pending(m.net).NeedsCertificates()
  {
    SameNeedsNoMore(m.net.status, m.net.status);
    ReadySavesSpec(m, env);
    PendingNeedsMore(m.net, StepReady(m, env).view.net.status);
  }

  lemma OthersKeepSnapshots(v: View, env: Env)
    requires v.net.spec.forceState.StateUnset? && Sane(v.net) && Active(v.net.status.state)
    requires !v.net.status.state.StateReady? && !v.net.status.state.StateHelmChartReady?
    ensures Step(v, env).view.net.status.Copy() == v.net.status.Copy()
  {
    StepMoves(v, env);
  }

  lemma HelmReadySaves(v: View, env: Env)
    requires v.net.spec.forceState.StateUnset? && v.net.status.state.StateHelmChartReady?
    ensures var r := Step(v, env).view;
            (NeedsMore(v.net.status, r.net.status) <==> RestartsUncertified(v, env)) &&
            !StoredIn(r.net.journal, |v.net.journal|)
  {
    var t := Reconstruct(v, env);
    if t.ok {
      UntouchedStoresNothing(t.view, Step(v, env).view, env);
      HelmReadySnapshots(t.view, env);
    }
    HelmReadyNeeds(v.net.status, Step(v, env).view.net.status, v.net.spec.topology);
  }

  // Whatever the topology saved, the question is only about the two topologies.
  lemma HelmReadyNeeds(a: Status, b: Status, t: Topology)
    ensures b.topology == a.topology ==> !NeedsMore(a, b)
    ensures b.topology == t ==> (NeedsMore(a, b) <==> AsksForCertificates(t, a.topology))
  {
    if b.topology == a.topology {
      SameNeedsNoMore(a, b);
    }
  }

  lemma UntouchedStoresNothing(v: View, r: View, env: Env)
    requires r == StepHelmReady(v, env).view
    ensures !StoredIn(r.net.journal, |v.net.journal|)
  {
    HelmReadyLeaves(v, env);
  }

  lemma HelmReadySnapshots(v: View, env: Env)
    requires v.net.status.state.StateHelmChartReady?
    ensures StepHelmReady(v, env).view.net.status.Copy() ==
            if Pending(v.net).topology && !env.save1.NotWritten? then v.net.spec.Project() else v.net.status.Copy()
  {
  }

  lemma ReadySavesSpec(v: View, env: Env)
    requires v.net.status.state.StateReady?
    ensures StepReady(v, env).view.net.status == v.net.status ||
            StepReady(v, env).view.net.status.Copy() == v.net.spec.Project()
  {
    MakeCryptoIsQuiet(v, v, env);
  }

  /* ---- Whole runs ---- */

  // What a network last stored is what the Secret holds, and its own.
  ghost predicate SecretIsLast(c: Cluster) {
    forall n :: n in c.networks && LastStored(c.networks[n].journal).Some? ==>
      Active(c.networks[n].status.state) &&
      c.secret == Some(CryptoSecret(n, ArchiveOf(c.root, n, LastStored(c.networks[n].journal).value)))
  }

  lemma CallKeepsSecret(c: Cluster, name: string, env: Env)
    requires Orderly(c) && SecretIsLast(c) && name in c.networks
    ensures SecretIsLast(PutBack(c, Step(ViewOf(c, name), env).view))
  {
    var v := ViewOf(c, name);
    StepStores(v, env);
    if Active(v.net.status.state) {
      StaysActive(v, env);
      assert forall m :: m in c.networks && m != name ==> !Active(c.networks[m].status.state);
    } else {
      PassiveStoresNothing(v, env);
    }
  }

  lemma NextKeepsSecret(c: Cluster, a: Action)
    requires Orderly(c) && SecretIsLast(c) && ForceFree(a)
    ensures SecretIsLast(Next(c, a))
  {
    if a.Call? && a.name in c.networks {
      CallKeepsSecret(c, a.name, a.env);
    }
  }

  lemma {:induction false} RunKeepsSecret(c: Cluster, acts: seq<Action>)
    requires Orderly(c) && SecretIsLast(c) && AllForceFree(acts)
    ensures SecretIsLast(Run(c, acts))
    decreases |acts|
  {
    if acts != [] {
      NextKeepsSecret(c, acts[0]);
      NextKeepsOrderly(c, acts[0]);
      RunKeepsSecret(Next(c, acts[0]), acts[1..]);
    }
  }

  lemma FolderOf(root: string, name: string)
    ensures MaterialFolder(root, name) == root + "/" + name + "/crypto-config"
  {
  }

  lemma LosingLeaves(c: Cluster, name: string)
    requires name in c.networks
    ensures var v, r := ViewOf(c, name), ViewOf(Next(c, LoseDir(name)), name);
            r.dir.None? && r.net == v.net && r.secret == v.secret && SameNetwork(v, r)
  {
  }

  /** Recovery: after any run without forced states, a network that loses its directory then gets back, from
      a reconstruction that reaches the Secret, exactly the tree it stored last, if and only if that tree
      is storable, its folder's path is clean and the genesis block is there. */
  lemma LostDirectoryComesBackExactly(c: Cluster, acts: seq<Action>, name: string, env: Env)
    requires Fresh(c) && AllForceFree(acts) && name in Run(c, acts).networks
    requires env.chartDir.ChartDirCreated? && env.secretRead
    requires var n := Run(c, acts).networks[name];
             !n.status.state.StateFailed? && LastStored(n.journal).Some? && WellNamed(LastStored(n.journal).value)
    ensures var v := ViewOf(Next(Run(c, acts), LoseDir(name)), name);
            var t := LastStored(v.net.journal).value;
            (Reconstruct(v, env).ok &&
             Reconstruct(v, env).view.dir == Some(map[["crypto-config"] := FsDir] + Files(["crypto-config"], t)))
            <==> Storable(t) && CleanFolder(v.root + "/" + name + "/crypto-config") && GenesisThere(v, env)
  {
    RunKeepsSecret(c, acts);
    LosingLeaves(Run(c, acts), name);
    var v := ViewOf(Next(Run(c, acts), LoseDir(name)), name);
    FolderOf(v.root, name);
    RebuildsExactly(v, env, LastStored(v.net.journal).value);
  }

  /* ---- A directory that was not completed ---- */

  // The calls that build the directory anew or run cryptogen in it.
  ghost predicate Remakes(v: View) {
    v.net.spec.forceState.StateUnset? &&
    (v.net.status.state.StateNew? ||
     (v.net.status.state.StateReady? && AsksForCertificates(v.net.spec.topology, v.net.status.topology)))
  }

  // The directory is not lost in the run, and no call of it remakes it.
  ghost predicate NotRemade(c: Cluster, acts: seq<Action>, name: string)
    decreases |acts|
  {
    acts == [] ||
    (acts[0] != LoseDir(name) &&
     (acts[0].Call? && acts[0].name == name && name in c.networks ==> !Remakes(ViewOf(c, name))) &&
     NotRemade(Next(c, acts[0]), acts[1..], name))
  }

  lemma StepKeepsDir(v: View, env: Env)
    requires v.dir.Some? && !Remakes(v)
    ensures Step(v, env).view.dir == v.dir
  {
    if v.net.spec.forceState.StateUnset? {
      if v.net.status.state.StateReady? {
        CertificatesMean(v.net.spec.Project(), v.net.status.Copy());
        ReadyLeaves(v, env);
      } else {
        OthersKeepMaterial(v, env);
      }
    }
  }

  lemma {:induction false} RunKeepsDir(c: Cluster, acts: seq<Action>, name: string)
    requires name in c.dirs && NotRemade(c, acts, name)
    ensures name in Run(c, acts).dirs && Run(c, acts).dirs[name] == c.dirs[name]
    decreases |acts|
  {
    if acts != [] {
      var a := acts[0];
      if a.Call? && a.name == name && name in c.networks {
        StepKeepsDir(ViewOf(c, name), a.env);
      }
      RunKeepsDir(Next(c, a), acts[1..], name);
    }
  }

  // A call of this network whose reconstruction made the directory and then failed.
  ghost predicate BuildsHalf(c: Cluster, name: string, env: Env) {
    name in c.networks && name !in c.dirs && env.readable && c.networks[name].spec.forceState.StateUnset? &&
    !Reconstruct(ViewOf(c, name), env).ok && !env.chartDir.ChartDirMissing?
  }

  /** What a failed reconstruction left of a directory stays as it is through every run, edits, forced
      states and the network's deletion included, until it is lost again, built anew in New, or extended:
      no later call completes it. */
  lemma HalfBuiltDirectoryStays(c: Cluster, name: string, env: Env, acts: seq<Action>)
    requires BuildsHalf(c, name, env) && NotRemade(Next(c, Call(name, env)), acts, name)
    ensures var r := Run(Next(c, Call(name, env)), acts);
            name in r.dirs && Some(r.dirs[name]) == Reconstruct(ViewOf(c, name), env).view.dir
  {
    RunKeepsDir(Next(c, Call(name, env)), acts, name);
  }
}
