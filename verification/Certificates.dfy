/** Every peer that a network's Status counts has its certificate, in the network directory and in the
    Secret, as long as the Spec's topology is edited only while the network is at rest. */
module Certificates {
  import opened Api
  import opened Paths
  import opened Archive
  import opened RoundTrip
  import opened Folders
  import opened Changes
  import opened Cluster
  import opened Diagram
  import opened Effects
  import opened Refinement
  import opened Runs
  import opened Safety
  import opened Ownership
  import opened Recovery
  import opened HelmValues

  // Where cryptogen puts the certificate of a domain's i-th peer, below the network directory.
  type Layout = (string, nat) -> Path

  // What the claims take for given: that layout, and the one domain of each organization's name.
  datatype Setting = Setting(at: Layout, domainOf: string -> string)

  ghost predicate Covers(s: Setting, d: Fs, t: Topology) {
    forall p, i: nat :: p in t.peerOrgs && i < p.peerCount ==> s.at(p.domain, i) in d
  }

  ghost predicate Stable(s: Setting, t: Topology) {
    forall p :: p in t.peerOrgs ==> p.domain == s.domainOf(p.name)
  }

  // What cryptogen is asked for by its configuration file.
  ghost predicate CoversConfig(s: Setting, d: Fs, c: CryptoConfig) {
    forall o, i: nat :: o in c.peerOrgs && i < o.template ==> s.at(o.domain, i) in d
  }

  /** The configuration asks for the peers of the topology, for all of them and no others. */
  lemma ConfigIsFaithful(s: Setting, d: Fs, c: CryptoConfig, t: Topology)
    requires Describes(c, t)
    ensures CoversConfig(s, d, c) <==> Covers(s, d, t)
  {
  }

  // cryptogen did what the file written for the topology asks for.
  ghost predicate Generated(s: Setting, d: Fs, t: Topology) {
    exists c :: Describes(c, t) && CoversConfig(s, d, c)
  }

  // Each organization of t is in u, with at least as many peers.
  lemma UnflaggedHasNamesake(spec: Snapshot, status: Snapshot, p: PeerOrg) returns (q: PeerOrg)
    requires !Diff(spec, status).NeedsCertificates() && p in spec.topology.peerOrgs
    ensures q in status.topology.peerOrgs && q.name == p.name && q.peerCount >= p.peerCount
  {
    if spec.topology == status.topology {
      q := p;
    } else {
      var u := status.topology;
      assert p.name in PeerNames(spec.topology);
      assert p.name in PeerNames(u);
      assert FirstPeer(u.peerOrgs, p.name).Some?;
      assert !Grew(p, u.peerOrgs);
      q := FirstPeer(u.peerOrgs, p.name).value;
    }
  }

  /** The flags of getChanges miss no new peer: without one of the three that ask for certificates, those
      of the old topology are all that the new one needs. */
  lemma FlagsAreComplete(s: Setting, d: Fs, spec: Snapshot, status: Snapshot)
    requires Stable(s, spec.topology) && Stable(s, status.topology)
    requires Covers(s, d, status.topology) && !Diff(spec, status).NeedsCertificates()
    ensures Covers(s, d, spec.topology)
  {
    forall p, i: nat | p in spec.topology.peerOrgs && i < p.peerCount
      ensures s.at(p.domain, i) in d
    {
      var q := UnflaggedHasNamesake(spec, status, p);
      assert s.at(q.domain, i) in d;
    }
  }

  /* ---- What is kept ---- */

  // The states in which the topology may be edited.
  predicate AtRest(s: State) {
    s.StateUnset? || s.StateRejected? || s.StateReady? || s.StateFailed?
  }

  // Secret and, if there is one, directory have a certificate for every peer of t.
  ghost predicate Material(s: Setting, v: View, t: Topology) {
    LastStored(v.net.journal).Some? &&
    var last := LastStored(v.net.journal).value;
    v.secret == Some(CryptoSecret(v.name, ArchiveOf(v.root, v.name, last))) && Storable(last) &&
    Covers(s, CryptoDir(last), t) &&
    (v.dir.Some? ==> Covers(s, v.dir.value, t))
  }

  ghost predicate OwnCrypto(s: Setting, spec: Spec) {
    spec.forceState.StateUnset? && spec.cryptoSecret == "" && Stable(s, spec.topology)
  }

  ghost predicate Certified(s: Setting, v: View) {
    Sane(v.net) && OwnCrypto(s, v.net.spec) && Stable(s, v.net.status.topology) &&
    (AtRest(v.net.status.state) || v.net.status.topology == v.net.spec.topology) &&
    (PastNew(v.net.status.state) ==> Material(s, v, v.net.status.topology))
  }

  // cryptogen does what its configuration asks for, names files so that they can be stored, and extends what is
  // there without removing any of it; a lost directory past New comes back or is not begun.
  ghost predicate Honest(s: Setting, v: View, env: Env) {
    (env.cryptogen ==> Storable(env.tree) && Generated(s, CryptoDir(env.tree), v.net.spec.topology)) &&
    (v.net.status.state.StateReady? && Reconstruct(v, env).view.dir.Some? ==>
       Reconstruct(v, env).view.dir.value.Keys <= CryptoDir(env.tree).Keys) &&
    (PastNew(v.net.status.state) ==> NotBegunOrFinished(v, env))
  }

  // A reconstruction is not begun, or it gets to the Secret, whose archive a clean path makes extractable.
  predicate NotBegunOrFinished(v: View, env: Env) {
    || env.chartDir.ChartDirMissing?
    || (env.chartDir.ChartDirCreated? && env.secretRead && CleanFolder(MaterialFolder(v.root, v.name)))
  }

  /* ---- One call ---- */

  lemma HonestCovers(s: Setting, v: View, env: Env)
    requires Honest(s, v, env) && env.cryptogen
    ensures Covers(s, CryptoDir(env.tree), v.net.spec.topology)
  {
  }

  lemma MaterialStays(s: Setting, v: View, r: View, t: Topology)
    requires Material(s, v, t) && SameMaterial(v, r)
    ensures Material(s, r, t)
  {
  }

  lemma ReconstructCertifies(s: Setting, v: View, env: Env, t: Topology)
    requires Material(s, v, t) && NotBegunOrFinished(v, env)
    ensures Material(s, Reconstruct(v, env).view, t)
    ensures Reconstruct(v, env).ok && !v.net.status.state.StateFailed? ==> Reconstruct(v, env).view.dir.Some?
  {
    if v.dir.None? && !v.net.status.state.StateFailed? && env.chartDir.ChartDirCreated? {
      var last := LastStored(v.net.journal).value;
      ArchiveIsRelative(v.root, v.name, last);
      ExtractsStorable(last);
    }
  }

  // An archive that a relative path misplaces does not happen to lead by this peer's certificate.
  predicate Placed(s: Setting, root: string, name: string, p: PeerOrg, i: nat) {
    var folder, cert := MaterialFolder(root, name), s.at(p.domain, i);
    var base := [CRYPTO_DIR] + RelativeSegments(folder);
    IsAbs(folder) || CleanFolder(folder) || (!(cert <= base) && !(base <= cert))
  }

  // Some peer is counted.
  predicate Counts(t: Topology, p: PeerOrg, i: nat) { p in t.peerOrgs && i < p.peerCount }

  lemma UncleanReconstruction(s: Setting, v: View, env: Env, t: Topology, p: PeerOrg, i: nat)
    requires Material(s, v, t) && Placed(s, v.root, v.name, p, i)
    requires Rebuilds(v, env) && !CleanFolder(MaterialFolder(v.root, v.name))
    ensures Lacks(s, Reconstruct(v, env).view, p, i)
  {
    var folder, last := MaterialFolder(v.root, v.name), LastStored(v.net.journal).value;
    if IsAbs(folder) {
      UncleanFolderFails(folder, last, map[], [CRYPTO_DIR]);
    } else {
      MaterialIsBelow(v.root + "/" + v.name);
      MisplacedStaysApart(folder, last, map[], [CRYPTO_DIR], s.at(p.domain, i));
    }
  }

  // There is a directory, and it has no certificate for this peer.
  predicate Lacks(s: Setting, v: View, p: PeerOrg, i: nat) { v.dir.Some? && s.at(p.domain, i) !in v.dir.value }

  /** A lost directory's reconstruction keeps every counted peer covered if and only if it is not begun, or
      it gets to the Secret and the folder's path is clean; otherwise it leaves a directory without this
      peer's certificate. */
  lemma ReconstructCertifiesExactly(s: Setting, v: View, env: Env, t: Topology, p: PeerOrg, i: nat)
    requires Material(s, v, t) && Counts(t, p, i) && Placed(s, v.root, v.name, p, i)
    requires v.dir.None? && !v.net.status.state.StateFailed?
    ensures Material(s, Reconstruct(v, env).view, t) <==> NotBegunOrFinished(v, env)
    ensures !NotBegunOrFinished(v, env) ==> Lacks(s, Reconstruct(v, env).view, p, i)
  {
    if NotBegunOrFinished(v, env) {
      ReconstructCertifies(s, v, env, t);
    } else {
      if Rebuilds(v, env) {
        UncleanReconstruction(s, v, env, t, p, i);
      } else {
        assert Reconstruct(v, env).view.dir == Some(map[]);
      }
      LackingIsUncovered(s, Reconstruct(v, env).view, t, p, i);
    }
  }

  lemma LackingIsUncovered(s: Setting, v: View, t: Topology, p: PeerOrg, i: nat)
    requires Counts(t, p, i) && Lacks(s, v, p, i)
    ensures !Material(s, v, t)
  {
    if Covers(s, v.dir.value, t) {
      assert s.at(p.domain, i) in v.dir.value;
    }
  }

  lemma CryptogenCertifies(s: Setting, v: View, env: Env, t: Topology)
    requires Storable(env.tree) && Covers(s, CryptoDir(env.tree), t) && env.cryptogen
    ensures RunCryptogen(v, env).ok ==> Material(s, RunCryptogen(v, env).view, t)
  {
  }

  lemma ExtendingKeeps(s: Setting, v: View, env: Env, t: Topology)
    requires Material(s, v, t) && v.dir.Some? && v.dir.value.Keys <= CryptoDir(env.tree).Keys
    requires env.cryptogen ==> Storable(env.tree)
    ensures Material(s, RunCryptogen(v, env).view, t)
  {
  }

  // A start from scratch that succeeds has run cryptogen, and nothing later touched the material.
  lemma StartOverGenerates(v: View, env: Env) returns (d: View)
    requires StartOver(v, env).ok && v.net.spec.cryptoSecret == ""
    ensures d.name == v.name && d.net == v.net
    ensures RunCryptogen(d, env).ok && env.cryptogen && SameMaterial(RunCryptogen(d, env).view, StartOver(v, env).view)
  {
    var u := v.(release := UninstallRelease(v.release, v.name, env.uninstall),
                workflows := DeleteWorkflows(v.workflows, v.name, env.deletes));
    d := u.(dir := Some(map[]));
    var p := Prepare(u, env).view;
    assert p == RunCryptogen(d, env).view;
    InstallKeepsMaterial(p, env.install);
  }

  lemma NewCertifies(s: Setting, v: View, env: Env)
    requires v.net.status.state.StateNew? && v.net.spec.cryptoSecret == ""
    requires env.cryptogen ==> Storable(env.tree) && Covers(s, CryptoDir(env.tree), v.net.spec.topology)
    requires StepNew(v, env).view.net.status != v.net.status
    ensures Material(s, StepNew(v, env).view, v.net.spec.topology)
  {
    StartOverIsQuiet(v, env);
    var d := StartOverGenerates(v, env);
    var o := StartOver(v, env).view;
    CryptogenCertifies(s, d, env, v.net.spec.topology);
    MaterialStays(s, RunCryptogen(d, env).view, o, v.net.spec.topology);
    SaveKeepsMaterial(o, To(v.net.status, AfterInstall(v.net.spec), "", None), env.save1);
    MaterialStays(s, o, StepNew(v, env).view, v.net.spec.topology);
  }

  // The material is there for the old topology whatever happens, and for the new one on success.
  lemma CertifyCertifies(s: Setting, v: View, env: Env)
    requires OwnCrypto(s, v.net.spec) && Stable(s, v.net.status.topology)
    requires Material(s, v, v.net.status.topology) && v.dir.Some? && v.dir.value.Keys <= CryptoDir(env.tree).Keys
    requires env.cryptogen ==> Storable(env.tree) && Covers(s, CryptoDir(env.tree), v.net.spec.topology)
    ensures var e := Certify(v, Pending(v.net), env);
            Material(s, e.view, v.net.status.topology) &&
            (e.ok ==> Material(s, e.view, v.net.spec.topology))
  {
    if Pending(v.net).NeedsCertificates() {
      ExtendingKeeps(s, v, env, v.net.status.topology);
      if env.cryptogen {
        CryptogenCertifies(s, v, env, v.net.spec.topology);
      }
    } else {
      FlagsAreComplete(s, v.dir.value, v.net.spec.Project(), v.net.status.Copy());
      FlagsAreComplete(s, CryptoDir(LastStored(v.net.journal).value), v.net.spec.Project(), v.net.status.Copy());
    }
  }

  lemma ReadyCertifies(s: Setting, v: View, env: Env)
    requires v.net.status.state.StateReady?
    requires OwnCrypto(s, v.net.spec) && Stable(s, v.net.status.topology)
    requires Material(s, v, v.net.status.topology) && v.dir.Some? && v.dir.value.Keys <= CryptoDir(env.tree).Keys
    requires env.cryptogen ==> Storable(env.tree) && Covers(s, CryptoDir(env.tree), v.net.spec.topology)
    ensures var r := StepReady(v, env).view;
            Material(s, r, r.net.status.topology)
  {
    var e, r := AfterCertify(v, env), StepReady(v, env).view;
    CertifyCertifies(s, v, env);
    ReadyLeaves(v, env);
    UntouchedMaterial(e, r);
    if r.net.status != v.net.status {
      ReadySavesOnSuccess(v, env);
    }
    MaterialStays(s, e, r, r.net.status.topology);
  }

  // A changed status means that the material was made, and has the snapshots of the Spec.
  lemma ReadySavesOnSuccess(v: View, env: Env)
    requires v.net.status.state.StateReady? && StepReady(v, env).view.net.status != v.net.status
    ensures env.valuesWritten && Pending(v.net).Any() && Certify(v, Pending(v.net), env).ok
    ensures StepReady(v, env).view.net.status.topology == v.net.spec.topology
  {
    MakeCryptoIsQuiet(v, v, env);
  }

  lemma MoveKeepsTopology(g: Guards, a: Status, b: Status)
    requires Moves(g, a, b) && (AtRest(a.state) || a.topology == g.spec.topology)
    ensures AtRest(b.state) || b.topology == g.spec.topology
    ensures PastNew(b.state) ==> PastNew(a.state) || a.state.StateNew?
    ensures !a.state.StateReady? && Active(a.state) ==> b.topology == a.topology
  {
  }

  lemma StepKeepsMaterial(s: Setting, v: View, env: Env)
    requires Certified(s, v) && Honest(s, v, env) && PastNew(v.net.status.state)
    ensures var r := Step(v, env).view;
            Material(s, r, r.net.status.topology)
  {
    var t, r := Reconstruct(v, env), Step(v, env).view;
    ReconstructCertifies(s, v, env, v.net.status.topology);
    if env.cryptogen {
      HonestCovers(s, v, env);
    }
    if t.ok {
      if v.net.status.state.StateReady? {
        ReadyCertifies(s, t.view, env);
      } else {
        StepMoves(v, env);
        MoveKeepsTopology(GuardsOf(v, env), v.net.status, r.net.status);
        OthersKeepMaterial(t.view, env);
        MaterialStays(s, t.view, r, v.net.status.topology);
      }
    }
  }

  lemma StepCertifies(s: Setting, v: View, env: Env)
    requires Certified(s, v) && Honest(s, v, env)
    ensures Certified(s, Step(v, env).view)
  {
    var r := Step(v, env).view;
    StepKeepsSane(v, env);
    StepMoves(v, env);
    MoveKeeps(GuardsOf(v, env), v.net.status, r.net.status);
    MoveKeepsTopology(GuardsOf(v, env), v.net.status, r.net.status);
    if env.cryptogen {
      HonestCovers(s, v, env);
    }
    if PastNew(v.net.status.state) {
      StepKeepsMaterial(s, v, env);
    } else if v.net.status.state.StateNew? && PastNew(r.net.status.state) {
      NewCertifies(s, Reconstruct(v, env).view, env);
    }
  }

  /* ---- Whole runs ---- */

  // Users give every network its own crypto material and one domain per name, and edit the topology at
  // rest only; cryptogen is honest.
  ghost predicate Careful(s: Setting, c: Cluster, a: Action) {
    match a
    case Call(name, env) => name in c.networks ==> Honest(s, ViewOf(c, name), env)
    case Create(_, spec) => OwnCrypto(s, spec)
    case Edit(name, spec) =>
      OwnCrypto(s, spec) &&
      (name in c.networks ==>
         AtRest(c.networks[name].status.state) || spec.topology == c.networks[name].spec.topology)
    case _ => true
  }

  ghost predicate AllCareful(s: Setting, c: Cluster, acts: seq<Action>)
    decreases |acts|
  {
    acts == [] || (Careful(s, c, acts[0]) && AllCareful(s, Next(c, acts[0]), acts[1..]))
  }

  ghost predicate AllCertified(s: Setting, c: Cluster) {
    forall n :: n in c.networks ==> Certified(s, ViewOf(c, n))
  }

  // Of another network, a call changes nothing that counts.
  lemma OthersStayCertified(s: Setting, c: Cluster, name: string, env: Env, m: string)
    requires Orderly(c) && AllCertified(s, c) && name in c.networks && m in c.networks && m != name
    ensures Certified(s, ViewOf(PutBack(c, Step(ViewOf(c, name), env).view), m))
  {
    var v := ViewOf(c, name);
    var r := PutBack(c, Step(v, env).view);
    assert Certified(s, ViewOf(c, m));
    if PastNew(c.networks[m].status.state) {
      PassiveStoresNothing(v, env);
      MaterialStays(s, ViewOf(c, m), ViewOf(r, m), c.networks[m].status.topology);
    }
  }

  lemma CallCertifies(s: Setting, c: Cluster, name: string, env: Env)
    requires Orderly(c) && AllCertified(s, c) && name in c.networks && Honest(s, ViewOf(c, name), env)
    ensures AllCertified(s, PutBack(c, Step(ViewOf(c, name), env).view))
  {
    var v := ViewOf(c, name);
    var r := PutBack(c, Step(v, env).view);
    forall m | m in r.networks
      ensures Certified(s, ViewOf(r, m))
    {
      if m == name {
        StepCertifies(s, v, env);
        assert ViewOf(r, m) == Step(v, env).view.(crowded := Crowded(r));
      } else {
        OthersStayCertified(s, c, name, env, m);
      }
    }
  }

  // w is v with an edited Spec, perhaps without its directory.
  lemma EditedStaysCertified(s: Setting, v: View, w: View)
    requires Certified(s, v) && OwnCrypto(s, w.net.spec)
    requires SameNetwork(v, w) && w.net == v.net.(spec := w.net.spec)
    requires AtRest(v.net.status.state) || w.net.spec.topology == v.net.spec.topology
    requires w.secret == v.secret || !PastNew(v.net.status.state)
    requires w.dir.None? || w.dir == v.dir
    ensures Certified(s, w)
  {
  }

  // Deleting another network spares the Secret of one past New.
  lemma DeleteSparesSecret(s: Setting, c: Cluster, name: string, m: string)
    requires AllCertified(s, c) && m in c.networks && m != name
    ensures Next(c, Delete(name)).secret == c.secret || !PastNew(c.networks[m].status.state)
  {
    var v := ViewOf(c, m);
    assert Certified(s, v);
    if PastNew(v.net.status.state) {
      assert Material(s, v, v.net.status.topology);
      assert c.secret.Some? && c.secret.value.owner == m;
    }
  }

  lemma NewcomerIsCertified(s: Setting, v: View)
    requires OwnCrypto(s, v.net.spec) && v.net.status == INITIAL_STATUS
    ensures Certified(s, v)
  {
  }

  // What an action other than a call makes of a network that was there.
  lemma OthersEdit(c: Cluster, a: Action, m: string)
    requires !a.Call? && m in c.networks && m in Next(c, a).networks
    ensures var v, w := ViewOf(c, m), ViewOf(Next(c, a), m);
            SameNetwork(v, w) && (w.dir.None? || w.dir == v.dir) &&
            w.net == v.net.(spec := if a.Edit? && a.name == m then a.spec else v.net.spec) &&
            (a.Delete? || w.secret == v.secret)
  {
  }

  lemma OtherActionsCertify(s: Setting, c: Cluster, a: Action, m: string)
    requires AllCertified(s, c) && Careful(s, c, a) && !a.Call? && m in Next(c, a).networks
    ensures Certified(s, ViewOf(Next(c, a), m))
  {
    if m in c.networks {
      if a.Delete? {
        DeleteSparesSecret(s, c, a.name, m);
      }
      assert Certified(s, ViewOf(c, m));
      OthersEdit(c, a, m);
      EditedStaysCertified(s, ViewOf(c, m), ViewOf(Next(c, a), m));
    } else {
      NewcomerIsCertified(s, ViewOf(Next(c, a), m));
    }
  }

  lemma NextCertifies(s: Setting, c: Cluster, a: Action)
    requires Orderly(c) && AllCertified(s, c) && Careful(s, c, a)
    ensures AllCertified(s, Next(c, a)) && ForceFree(a)
  {
    if a.Call? {
      if a.name in c.networks {
        CallCertifies(s, c, a.name, a.env);
      } else {
        var r := Next(c, a);
        forall m | m in r.networks
          ensures Certified(s, ViewOf(r, m))
        {
          assert Certified(s, ViewOf(c, m));
        }
      }
    } else {
      forall m | m in Next(c, a).networks
        ensures Certified(s, ViewOf(Next(c, a), m))
      {
        OtherActionsCertify(s, c, a, m);
      }
    }
  }

  lemma {:induction false} RunCertifies(s: Setting, c: Cluster, acts: seq<Action>)
    requires Orderly(c) && AllCertified(s, c) && AllCareful(s, c, acts)
    ensures AllCertified(s, Run(c, acts))
    decreases |acts|
  {
    if acts != [] {
      NextCertifies(s, c, acts[0]);
      NextKeepsOrderly(c, acts[0]);
      RunCertifies(s, Next(c, acts[0]), acts[1..]);
    }
  }

  /** Certificate coverage: after any careful run, whatever failed in it, the Secret of a network past New
      is the archive of a tree with a certificate for every peer that its Status counts, and so is its
      directory if there is one. */
  lemma EveryPeerHasItsCertificate(s: Setting, c: Cluster, acts: seq<Action>, name: string, p: PeerOrg, i: nat)
    requires Fresh(c) && AllCareful(s, c, acts) && name in Run(c, acts).networks
    requires var st := Run(c, acts).networks[name].status;
             PastNew(st.state) && p in st.topology.peerOrgs && i < p.peerCount
    ensures var r := Run(c, acts);
            (exists t :: r.secret == Some(CryptoSecret(name, ArchiveOf(r.root, name, t))) && Storable(t) &&
                         s.at(p.domain, i) in CryptoDir(t)) &&
            (name in r.dirs ==> s.at(p.domain, i) in r.dirs[name])
  {
    RunCertifies(s, c, acts);
    var v := ViewOf(Run(c, acts), name);
    assert Certified(s, v);
    var last := LastStored(v.net.journal).value;
    assert s.at(p.domain, i) in CryptoDir(last);
  }

  /** What careful runs leave out: once the reconstruction of a network past New stops halfway, or extracts
      an archive that its path misplaces, a counted peer has no certificate in the directory, through every
      run, until the directory is lost again, built anew or extended. */
  lemma HalfBuiltLacksCertificates(s: Setting, start: Cluster, before: seq<Action>, name: string, env: Env,
                                   acts: seq<Action>, p: PeerOrg, i: nat)
    requires Fresh(start) && AllCareful(s, start, before)
    requires var c := Run(start, before);
             name in c.networks && name !in c.dirs && Placed(s, c.root, name, p, i) && env.readable &&
             PastNew(c.networks[name].status.state) && !c.networks[name].status.state.StateFailed? &&
             Counts(c.networks[name].status.topology, p, i) && !NotBegunOrFinished(ViewOf(c, name), env) &&
             (Reconstruct(ViewOf(c, name), env).ok ==> !Remakes(ViewOf(c, name))) &&
             NotRemade(Next(c, Call(name, env)), acts, name)
    ensures var r := Run(Next(Run(start, before), Call(name, env)), acts);
            name in r.dirs && s.at(p.domain, i) !in r.dirs[name]
  {
    var c := Run(start, before);
    RunCertifies(s, start, before);
    assert Certified(s, ViewOf(c, name));
    ReconstructCertifiesExactly(s, ViewOf(c, name), env, c.networks[name].status.topology, p, i);
    if Reconstruct(ViewOf(c, name), env).ok {
      StepKeepsDir(Reconstruct(ViewOf(c, name), env).view, env);
    }
    RunKeepsDir(Next(c, Call(name, env)), acts, name);
  }

  /* ---- The restart at HelmChartReady ---- */

  /** What careful runs leave out besides: an edit at HelmChartReady. After the call that acts on it every
      counted peer of a network past New is covered, if and only if the call does not leave the restart for
      NextFlow, or the material there happens to cover the new topology already. */
  lemma CutShortKeepsCoverageExactly(s: Setting, v: View, env: Env)
    requires Sane(v.net) && OwnCrypto(s, v.net.spec) && v.net.status.state.StateHelmChartReady?
    requires Material(s, v, v.net.status.topology) && NotBegunOrFinished(v, env)
    ensures var r := Step(v, env).view;
            (PastNew(r.net.status.state) ==> Material(s, r, r.net.status.topology)) <==>
            (LeavesDiagram(v, env) ==> Material(s, Reconstruct(v, env).view, v.net.spec.topology))
  {
    var t, r := Reconstruct(v, env), Step(v, env).view;
    ReconstructCertifies(s, v, env, v.net.status.topology);
    if t.ok {
      OthersKeepMaterial(t.view, env);
      SameMaterialCovers(s, t.view, r, r.net.status.topology);
      HelmReadyTopology(v, env);
    }
  }

  // Where the call ends, and with whose topology.
  lemma HelmReadyTopology(v: View, env: Env)
    requires v.net.spec.forceState.StateUnset? && v.net.status.state.StateHelmChartReady?
    ensures var st := Step(v, env).view.net.status;
            PastNew(st.state) ==>
              st.topology == if LeavesDiagram(v, env) then v.net.spec.topology else v.net.status.topology
    ensures LeavesDiagram(v, env) ==> PastNew(Step(v, env).view.net.status.state)
  {
  }

  lemma SameMaterialCovers(s: Setting, v: View, r: View, t: Topology)
    requires SameMaterial(v, r) && r.root == v.root && r.name == v.name
    ensures Material(s, r, t) <==> Material(s, v, t)
  {
  }
}
