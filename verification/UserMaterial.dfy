/** Crypto material that the user provides in a Secret: that it gets into the network's directory, whole,
    and stays there. */
module UserMaterial {
  import opened Api
  import opened Paths
  import opened Archive
  import opened RoundTrip
  import opened Changes
  import opened Cluster
  import opened Effects
  import opened Refinement
  import opened Runs
  import opened Safety
  import opened Ownership
  import opened Recovery
  import Cli

  // The tree in the network's directory, below crypto-config.
  function Laid(t: Listing): Fs { map[["crypto-config"] := FsDir] + Files(["crypto-config"], t) }

  // The Spec names the user's Secret, and that holds the archive of this tree.
  ghost predicate Provides(v: View, t: Listing) {
    v.net.spec.cryptoSecret != "" && v.secret.Some? && v.secret.value.tar == Tar("", t) && Storable(t)
  }

  lemma LaysOver(fs: Fs, t: Listing)
    requires Storable(t) && IsDir(fs, ["crypto-config"]) && SameKinds(fs, Files(["crypto-config"], t))
    ensures Unpack(fs, ["crypto-config"], Tar("", t)) == Ok(Merge(fs, Files(["crypto-config"], t)))
  {
    Extraction(fs, ["crypto-config"], t);
  }

  lemma LaysAgain(t: Listing)
    requires Storable(t)
    ensures Unpack(Laid(t), ["crypto-config"], Tar("", t)) == Ok(Laid(t))
  {
    if ["crypto-config"] in Files(["crypto-config"], t) {
      FilesAreBelow(["crypto-config"], t, ["crypto-config"]);
    }
    LaysOver(Laid(t), t);
    assert Merge(Laid(t), Files(["crypto-config"], t)) == Laid(t);
  }

  /** A start from scratch that succeeds leaves exactly the user's tree in the directory. */
  lemma StartOverLays(v: View, env: Env, t: Listing)
    requires Provides(v, t) && StartOver(v, env).ok
    ensures StartOver(v, env).view.dir == Some(Laid(t))
  {
    ExtractsStorable(t);
    var u := v.(release := UninstallRelease(v.release, v.name, env.uninstall),
                workflows := DeleteWorkflows(v.workflows, v.name, env.deletes));
    var p := Prepare(u, env).view;
    assert p.dir == Some(Laid(t));
    InstallKeepsMaterial(p, env.install);
  }

  /** A call in Ready for changes that need certificates lays the user's tree over what is there. */
  lemma ReadyLays(v: View, env: Env, t: Listing, fs: Fs)
    requires v.net.status.state.StateReady? && Provides(v, t) && v.dir == Some(fs)
    requires IsDir(fs, ["crypto-config"]) && SameKinds(fs, Files(["crypto-config"], t))
    requires AsksForCertificates(v.net.spec.topology, v.net.status.topology) && env.valuesWritten && env.secretRead
    ensures StepReady(v, env).view.dir == Some(Merge(fs, Files(["crypto-config"], t)))
  {
    LaysOver(fs, t);
    CertificatesMean(v.net.spec.Project(), v.net.status.Copy());
    ReadyLeaves(v, env);
  }

  // The network names the Secret, and that holds these entries.
  predicate Uses(v: View, tar: seq<Entry>) {
    v.net.spec.cryptoSecret == "hlf-crypto-config" && v.secret.Some? && v.secret.value.tar == tar
  }

  /** From the command line into the directory: the Secret that create makes of a folder given by a clean path,
      and that the submitted network names, leaves exactly the folder's files at a start from scratch. */
  lemma CreatedMaterialArrives(ns: Cli.Namespace, m: Cli.Manifest, local: Cli.Local, t: Listing, v: View, env: Env)
    requires m.crypto.file != "" && local.HasFolder(m.crypto.file)
    requires local.nodes[local.At(m.crypto.file)] == Dir(t) && Tidy(local.At(m.crypto.file)) && Storable(t)
    ensures var d := Cli.Created(ns, m, local);
            m.name in d.networks && d.networks[m.name].crypto == Cli.Source("hlf-crypto-config", "") &&
            "hlf-crypto-config" in d.secrets && "crypto-config" in d.secrets["hlf-crypto-config"].data &&
            var made := d.secrets["hlf-crypto-config"].data["crypto-config"];
            made.Archived? &&
            (Uses(v, made.entries) && StartOver(v, env).ok ==> StartOver(v, env).view.dir == Some(Laid(t)))
  {
    CompressedFolder(local.At(m.crypto.file), t);
    if Provides(v, t) && StartOver(v, env).ok {
      StartOverLays(v, env, t);
    }
  }

  /* ---- Whole runs ---- */

  // A network past New has the tree in its directory, if there is one.
  ghost predicate HasTree(v: View, t: Listing) {
    PastNew(v.net.status.state) && v.dir.Some? ==> v.dir == Some(Laid(t))
  }

  // A reconstruction is not begun or gets to the Secret.
  predicate GoesThrough(env: Env) {
    env.chartDir.ChartDirMissing? || (env.chartDir.ChartDirCreated? && env.secretRead)
  }

  lemma ReconstructLays(v: View, env: Env, t: Listing)
    requires Provides(v, t) && HasTree(v, t) && (PastNew(v.net.status.state) ==> GoesThrough(env))
    ensures HasTree(Reconstruct(v, env).view, t)
  {
    ExtractsStorable(t);
  }

  lemma ReadyKeepsTree(v: View, env: Env, t: Listing)
    requires v.net.status.state.StateReady? && Provides(v, t) && HasTree(v, t)
    ensures HasTree(StepReady(v, env).view, t)
  {
    LaysAgain(t);
    ReadyLeaves(v, env);
  }

  lemma NewGetsTree(v: View, env: Env, t: Listing)
    requires v.net.status.state.StateNew? && Provides(v, t)
    ensures HasTree(StepNew(v, env).view, t)
  {
    StartOverIsQuiet(v, env);
    if StartOver(v, env).ok {
      StartOverLays(v, env, t);
    }
  }

  lemma StepKeepsTree(v: View, env: Env, t: Listing)
    requires v.net.spec.forceState.StateUnset? && Sane(v.net) && Provides(v, t) && HasTree(v, t)
    requires PastNew(v.net.status.state) ==> GoesThrough(env)
    ensures HasTree(Step(v, env).view, t)
  {
    var m := Reconstruct(v, env);
    ReconstructLays(v, env, t);
    if m.ok {
      match v.net.status.state
      case StateNew => NewGetsTree(m.view, env, t);
      case StateReady => ReadyKeepsTree(m.view, env, t);
      case StateUnset =>
      case StateRejected =>
      case _ => OthersKeepMaterial(m.view, env);
    }
  }

  // The Secret stays the user's, the Spec goes on naming one, and no reconstruction stops halfway.
  ghost predicate Steady(c: Cluster, a: Action, name: string, secret: CryptoSecret) {
    ForceFree(a) && c.secret == Some(secret) &&
    (name in c.networks ==>
       c.networks[name].spec.cryptoSecret != "" &&
       (a.Call? && a.name == name && PastNew(c.networks[name].status.state) ==> GoesThrough(a.env)))
  }

  ghost predicate AllSteady(c: Cluster, acts: seq<Action>, name: string, secret: CryptoSecret)
    decreases |acts|
  {
    acts == [] || (Steady(c, acts[0], name, secret) && AllSteady(Next(c, acts[0]), acts[1..], name, secret))
  }

  ghost predicate TreeThere(c: Cluster, name: string, t: Listing) {
    name in c.networks && PastNew(c.networks[name].status.state) && name in c.dirs ==> c.dirs[name] == Laid(t)
  }

  lemma CallKeepsTree(c: Cluster, name: string, env: Env, t: Listing)
    requires Orderly(c) && name in c.networks && TreeThere(c, name, t) && Provides(ViewOf(c, name), t)
    requires PastNew(c.networks[name].status.state) ==> GoesThrough(env)
    ensures TreeThere(Next(c, Call(name, env)), name, t)
  {
    StepKeepsTree(ViewOf(c, name), env, t);
  }

  lemma NextKeepsTree(c: Cluster, a: Action, name: string, secret: CryptoSecret, t: Listing)
    requires Orderly(c) && Steady(c, a, name, secret) && TreeThere(c, name, t)
    requires secret.tar == Tar("", t) && Storable(t)
    ensures TreeThere(Next(c, a), name, t)
  {
    if a.Call? && a.name == name && name in c.networks {
      CallKeepsTree(c, name, a.env, t);
    } else {
      OthersKeepTree(c, a, name, t);
    }
  }

  lemma OthersKeepTree(c: Cluster, a: Action, name: string, t: Listing)
    requires TreeThere(c, name, t) && !(a.Call? && a.name == name && name in c.networks)
    ensures TreeThere(Next(c, a), name, t)
  {
    if name in c.networks && a != Delete(name) && !(a.Call? && a.name == name) {
      OthersKeepResource(c, a, name);
    }
  }

  /** While the user's Secret stays as it is, through every run without forced states, whatever else fails:
      the directory of a network past New, if there is one, holds exactly the files of that Secret. */
  lemma {:induction false} UserMaterialStays(c: Cluster, acts: seq<Action>, name: string,
                                             secret: CryptoSecret, t: Listing)
    requires Orderly(c) && AllSteady(c, acts, name, secret) && TreeThere(c, name, t)
    requires secret.tar == Tar("", t) && Storable(t)
    ensures TreeThere(Run(c, acts), name, t)
    decreases |acts|
  {
    if acts != [] {
      NextKeepsTree(c, acts[0], name, secret, t);
      NextKeepsOrderly(c, acts[0]);
      UserMaterialStays(Next(c, acts[0]), acts[1..], name, secret, t);
    }
  }
}
