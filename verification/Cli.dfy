/** What `create` and `delete` of the command line make of a namespace (cli/cmd/create.go,
    cli/cmd/delete.go). Every call to the API server may be refused, or take effect without its reply
    being heard. */
module Cli {
  import opened Api
  import opened Paths
  import opened Archive
  import opened RoundTrip

  datatype Content = Raw(bytes: Bytes) | Archived(entries: seq<Entry>)

  // A Secret or ConfigMap.
  datatype Object = Object(labels: map<string, string>, data: map<string, Content>)

  type Store = map<string, Object>

  // Where a part of the network comes from: a Secret, or a file or folder on this machine.
  datatype Source = Source(secret: string, file: string)
  {
    predicate IsProvided() { secret != "" || file != "" }
  }

  datatype Manifest = Manifest(name: string, configtx: Source, genesis: Source, crypto: Source,
                               topology: Topology, chaincode: ChaincodeConfig, chaincodes: seq<Chaincode>)

  datatype Namespace = Namespace(networks: map<string, Manifest>, secrets: Store, configMaps: Store)

  const LABEL := "raft.io/fabric-operator-cli-created-for"
  const CONFIGTX := "hlf-configtx.yaml"
  const GENESIS := "hlf-genesis.block"
  const CRYPTO := "hlf-crypto-config"
  const CHAINCODE_PREFIX := "hlf-chaincode--"

  /* ---- This machine ---- */

  // Files and folders by path text; base is the directory of the network file.
  datatype Local = Local(base: string, files: map<string, Bytes>, nodes: map<string, Node>)
  {
    // Relative paths are joined to the directory of the network file.
    function At(path: string): string {
      if IsAbs(path) then path else Join(base, path)
    }

    predicate HasFile(path: string) { At(path) in files }

    function FileAt(path: string): Bytes {
      if HasFile(path) then files[At(path)] else []
    }

    predicate HasFolder(path: string) { At(path) in nodes && nodes[At(path)].Dir? }

    predicate HasChild(folder: string, child: string) { At(folder) + "/" + child in nodes }

    function NodeAt(path: string): Node {
      if path in nodes then nodes[path] else Dir(End)
    }
  }

  /* ---- Names ---- */

  // strings.ToLower on ASCII.
  function LowerChar(c: char): char {
    if 'A' <= c <= 'Z' then (c as int + 32) as char else c
  }

  function Lower(s: string): string {
    seq(|s|, i requires 0 <= i < |s| => LowerChar(s[i]))
  }

  function ConfigMapName(chaincode: string): string { CHAINCODE_PREFIX + Lower(chaincode) }

  /* ---- What a create uploads ---- */

  function CreatedFor(name: string): map<string, string> { map[LABEL := name] }

  predicate IsCreatedFor(o: Object, name: string) {
    LABEL in o.labels && o.labels[LABEL] == name
  }

  function ConfigtxSecret(m: Manifest, local: Local): Object {
    Object(CreatedFor(m.name), map["configtx.yaml" := Raw(local.FileAt(m.configtx.file))])
  }

  function CryptoSecret(m: Manifest, local: Local): Object {
    var folder := local.At(m.crypto.file);
    Object(CreatedFor(m.name), map["crypto-config" := Archived(Compressed(folder, "", local.NodeAt(folder)))])
  }

  function ChaincodeMap(m: Manifest, local: Local, chaincode: string): Object {
    var folder := local.At(m.chaincode.folder);
    Object(map["chaincodeName" := chaincode, "type" := "chaincode", LABEL := m.name],
           map[chaincode + ".tar" := Archived(Compressed(folder, chaincode, local.NodeAt(folder + "/" + chaincode)))])
  }

  function ConfigtxUpload(m: Manifest, local: Local): Store {
    if m.configtx.file != "" then map[CONFIGTX := ConfigtxSecret(m, local)] else map[]
  }

  function CryptoUpload(m: Manifest, local: Local): Store {
    if m.crypto.file != "" then map[CRYPTO := CryptoSecret(m, local)] else map[]
  }

  function SecretUploads(m: Manifest, local: Local): Store { ConfigtxUpload(m, local) + CryptoUpload(m, local) }

  // In order: a later chaincode replaces an earlier one of the same lower-case name.
  function Maps(m: Manifest, local: Local, ccs: seq<Chaincode>): Store {
    if ccs == [] then map[]
    else
      var n := |ccs| - 1;
      Maps(m, local, ccs[..n])[ConfigMapName(ccs[n].name) := ChaincodeMap(m, local, ccs[n].name)]
  }

  function MapUploads(m: Manifest, local: Local): Store {
    if m.chaincode.folder != "" then Maps(m, local, m.chaincodes) else map[]
  }

  // What is submitted: references to this machine are replaced.
  function Submitted(m: Manifest): Manifest {
    m.(configtx := if m.configtx.file != "" then Source(CONFIGTX, "") else m.configtx,
       crypto := if m.crypto.file != "" then Source(CRYPTO, "") else m.crypto,
       chaincode := m.chaincode.(folder := ""))
  }

  // The namespace after a create without failure.
  function Created(ns: Namespace, m: Manifest, local: Local): Namespace {
    Namespace(ns.networks[m.name := Submitted(m)], ns.secrets + SecretUploads(m, local),
              ns.configMaps + MapUploads(m, local))
  }

  /* ---- When a create goes through ---- */

  predicate ValidConfigtx(ns: Namespace, s: Source, overwrite: bool) {
    (s.secret == "" <==> s.file != "") &&
    (s.secret == "" && !overwrite ==> CONFIGTX !in ns.secrets) &&
    (s.secret != "" ==> s.secret == CONFIGTX && CONFIGTX in ns.secrets)
  }

  predicate ValidGenesis(ns: Namespace, s: Source, crypto: Source) {
    (s.IsProvided() ==> crypto.IsProvided()) && (s.secret == "" || s.file == "") &&
    (s.secret != "" ==> s.secret == GENESIS && GENESIS in ns.secrets)
  }

  predicate ValidChaincode(ns: Namespace, global: ChaincodeConfig, cc: Chaincode) {
    (global.folder == "" ==> CHAINCODE_PREFIX + cc.name in ns.configMaps) &&
    (global.language != "" || cc.language != "") && (global.version != "" || cc.version != "")
  }

  predicate ValidCrypto(ns: Namespace, s: Source, overwrite: bool) {
    (s.secret == "" || s.file == "") &&
    (s.secret != "" ==> s.secret == CRYPTO && CRYPTO in ns.secrets) &&
    (s.file != "" && !overwrite ==> CRYPTO !in ns.secrets)
  }

  predicate Valid(ns: Namespace, m: Manifest, overwrite: bool) {
    (m.topology.tlsEnabled ==> m.topology.useActualDomains) &&
    ValidConfigtx(ns, m.configtx, overwrite) && ValidGenesis(ns, m.genesis, m.crypto) &&
    (forall i :: 0 <= i < |m.chaincodes| ==> ValidChaincode(ns, m.chaincode, m.chaincodes[i])) &&
    ValidCrypto(ns, m.crypto, overwrite)
  }

  // Everything the manifest names on this machine is there.
  predicate Readable(m: Manifest, local: Local) {
    (m.configtx.file != "" ==> local.HasFile(m.configtx.file)) &&
    (m.crypto.file != "" ==> local.HasFolder(m.crypto.file)) &&
    (m.chaincode.folder != "" ==>
       forall i :: 0 <= i < |m.chaincodes| ==> local.HasChild(m.chaincode.folder, m.chaincodes[i].name))
  }

  predicate DistinctNames(ccs: seq<Chaincode>) {
    forall i, j :: 0 <= i < j < |ccs| ==> ConfigMapName(ccs[i].name) != ConfigMapName(ccs[j].name)
  }

  // No ConfigMap is overwritten, neither one that is there nor one of this very create.
  predicate NamesFree(maps: Store, ccs: seq<Chaincode>) {
    (forall i :: 0 <= i < |ccs| ==> ConfigMapName(ccs[i].name) !in maps) && DistinctNames(ccs)
  }

  predicate Acceptable(ns: Namespace, m: Manifest, local: Local, overwrite: bool) {
    ns.networks == map[] && Valid(ns, m, overwrite) && Readable(m, local) &&
    (m.chaincode.folder != "" && !overwrite ==> NamesFree(ns.configMaps, m.chaincodes))
  }

  // The part of it that the uploads decide.
  predicate ChaincodesGo(ns: Namespace, m: Manifest, local: Local, overwrite: bool) {
    m.chaincode.folder != "" ==>
      HasChildren(m, local, |m.chaincodes|) && (overwrite || NamesFree(ns.configMaps, m.chaincodes))
  }

  predicate UploadsGo(ns: Namespace, m: Manifest, local: Local, overwrite: bool) {
    (m.configtx.file != "" ==> local.HasFile(m.configtx.file)) &&
    (m.crypto.file != "" ==> local.HasFolder(m.crypto.file)) &&
    ChaincodesGo(ns, m, local, overwrite)
  }

  lemma AcceptableParts(ns: Namespace, m: Manifest, local: Local, overwrite: bool)
    ensures Acceptable(ns, m, local, overwrite) <==>
            ns.networks == map[] && Valid(ns, m, overwrite) && UploadsGo(ns, m, local, overwrite)
  {
  }

  // Somewhere on the way from an old store to one with the uploads.
  predicate Between(present: Store, uploads: Store, mid: Store) {
    present.Keys <= mid.Keys <= present.Keys + uploads.Keys &&
    forall k :: k in mid && k !in uploads ==> mid[k] == present[k]
  }

  predicate Interrupted(ns: Namespace, m: Manifest, local: Local, mid: Namespace) {
    Between(ns.secrets, SecretUploads(m, local), mid.secrets) &&
    Between(ns.configMaps, MapUploads(m, local), mid.configMaps) &&
    (mid.networks == ns.networks || mid == Created(ns, m, local))
  }

  /* ---- What a delete leaves ---- */

  function Without(s: Store, name: string): Store {
    map k | k in s && !IsCreatedFor(s[k], name) :: s[k]
  }

  function Deleted(ns: Namespace, name: string): Namespace {
    Namespace(ns.networks - {name}, Without(ns.secrets, name), Without(ns.configMaps, name))
  }

  // The label says that a create of this network made the object.
  predicate Carries(o: Object, name: string) {
    "raft.io/fabric-operator-cli-created-for" in o.labels &&
    o.labels["raft.io/fabric-operator-cli-created-for"] == name
  }

  // Gone are the objects that carry the label with this name; those without it, or with another name, are
  // as they were.
  predicate LosesCarriers(present: Store, name: string, after: Store) {
    after.Keys <= present.Keys &&
    forall k :: k in present ==> (k in after <==> !Carries(present[k], name)) && (k in after ==> after[k] == present[k])
  }

  /** A delete takes away the network and exactly what carries the label with its name. */
  lemma DeleteTakesCarriers(ns: Namespace, name: string)
    ensures var d := Deleted(ns, name);
            LosesCarriers(ns.secrets, name, d.secrets) && LosesCarriers(ns.configMaps, name, d.configMaps) &&
            (forall m :: m in d.networks <==> m in ns.networks && m != name) &&
            (forall m :: m in d.networks ==> d.networks[m] == ns.networks[m])
  {
  }

  // Somewhere on the way: only labelled objects are missing.
  predicate Shrinking(present: Store, name: string, mid: Store) {
    mid.Keys <= present.Keys &&
    forall k :: k in present ==> if k in mid then mid[k] == present[k] else Carries(present[k], name)
  }

  function Labelled(s: Store, name: string): set<string> {
    set k | k in s && IsCreatedFor(s[k], name)
  }

  lemma RemovedLabelled(s: Store, name: string, gone: set<string>)
    requires gone <= Labelled(s, name)
    ensures Shrinking(s, name, s - gone)
    ensures gone == Labelled(s, name) ==> s - gone == Without(s, name)
  {
  }

  // No object carries the label with this name; objects of other networks may be there.
  predicate NothingFor(ns: Namespace, name: string) {
    (forall k :: k in ns.secrets ==> !Carries(ns.secrets[k], name)) &&
    (forall k :: k in ns.configMaps ==> !Carries(ns.configMaps[k], name))
  }

  /* ---- The loop over the chaincodes ---- */

  predicate HasChildren(m: Manifest, local: Local, n: nat)
    requires n <= |m.chaincodes|
  {
    forall i :: 0 <= i < n ==> local.HasChild(m.chaincode.folder, m.chaincodes[i].name)
  }

  // The rewritten manifest makes the same ConfigMaps.
  lemma {:induction false} SameMapsOf(a: Manifest, b: Manifest, local: Local, ccs: seq<Chaincode>)
    requires a.name == b.name && a.chaincode == b.chaincode
    ensures Maps(a, local, ccs) == Maps(b, local, ccs)
  {
    if ccs != [] {
      SameMapsOf(a, b, local, ccs[..|ccs| - 1]);
    }
  }

  lemma SameMaps(a: Manifest, b: Manifest, local: Local)
    requires a.name == b.name && a.chaincode == b.chaincode && a.chaincodes == b.chaincodes
    ensures MapUploads(a, local) == MapUploads(b, local)
    ensures forall ns, overwrite :: ChaincodesGo(ns, a, local, overwrite) <==> ChaincodesGo(ns, b, local, overwrite)
  {
    SameMapsOf(a, b, local, a.chaincodes);
  }

  lemma MapsGrow(m: Manifest, local: Local, ccs: seq<Chaincode>, i: nat)
    requires i < |ccs|
    ensures Maps(m, local, ccs[..i + 1]) ==
            Maps(m, local, ccs[..i])[ConfigMapName(ccs[i].name) := ChaincodeMap(m, local, ccs[i].name)]
  {
    assert ccs[..i + 1][..i] == ccs[..i];
  }

  lemma PrefixIsBetween(maps: Store, m: Manifest, local: Local, ccs: seq<Chaincode>, i: nat)
    requires i <= |ccs|
    ensures Between(maps, Maps(m, local, ccs), maps + Maps(m, local, ccs[..i]))
  {
    forall k | k in Maps(m, local, ccs[..i])
      ensures k in Maps(m, local, ccs)
    {
      UploadedMaps(m, local, ccs[..i], k);
      var j :| 0 <= j < i && ConfigMapName(ccs[..i][j].name) == k;
      assert ConfigMapName(ccs[j].name) == k;
      UploadedMaps(m, local, ccs, k);
    }
  }

  lemma TakenName(maps: Store, m: Manifest, local: Local, ccs: seq<Chaincode>, i: nat)
    requires i < |ccs|
    ensures ConfigMapName(ccs[i].name) in maps + Maps(m, local, ccs[..i]) ==> !NamesFree(maps, ccs)
  {
    var init := ccs[..i];
    UploadedMaps(m, local, init, ConfigMapName(ccs[i].name));
    if ConfigMapName(ccs[i].name) in Maps(m, local, init) {
      var j :| 0 <= j < i && ConfigMapName(init[j].name) == ConfigMapName(ccs[i].name);
      assert ConfigMapName(ccs[j].name) == ConfigMapName(ccs[i].name);
    }
  }

  lemma FreeName(maps: Store, m: Manifest, local: Local, ccs: seq<Chaincode>, i: nat)
    requires i < |ccs| && NamesFree(maps, ccs[..i])
    requires ConfigMapName(ccs[i].name) !in maps + Maps(m, local, ccs[..i])
    ensures NamesFree(maps, ccs[..i + 1])
  {
    assert ccs[..i + 1] == ccs[..i] + [ccs[i]];
    FreeAppend(maps, m, local, ccs[..i], ccs[i]);
  }

  lemma FreeAppend(maps: Store, m: Manifest, local: Local, init: seq<Chaincode>, cc: Chaincode)
    requires NamesFree(maps, init) && ConfigMapName(cc.name) !in maps && ConfigMapName(cc.name) !in Maps(m, local, init)
    ensures NamesFree(maps, init + [cc])
  {
    UploadedMaps(m, local, init, ConfigMapName(cc.name));
  }

  lemma FreeSoFar(maps: Store, m: Manifest, local: Local, ccs: seq<Chaincode>, i: nat)
    requires i < |ccs|
    ensures ConfigMapName(ccs[i].name) in maps + Maps(m, local, ccs[..i]) ==> !NamesFree(maps, ccs)
    ensures ConfigMapName(ccs[i].name) !in maps + Maps(m, local, ccs[..i]) && NamesFree(maps, ccs[..i]) ==>
              NamesFree(maps, ccs[..i + 1])
  {
    if ConfigMapName(ccs[i].name) in maps + Maps(m, local, ccs[..i]) {
      TakenName(maps, m, local, ccs, i);
    } else if NamesFree(maps, ccs[..i]) {
      FreeName(maps, m, local, ccs, i);
    }
  }

  // One round of the loop: its ConfigMap, refused or not, and written or not.
  lemma OneMoreMap(maps: Store, m: Manifest, local: Local, i: nat)
    requires i < |m.chaincodes|
    ensures var ccs, name := m.chaincodes, m.chaincodes[i].name;
            maps + Maps(m, local, ccs[..i + 1]) ==
            (maps + Maps(m, local, ccs[..i]))[ConfigMapName(name) := ChaincodeMap(m, local, name)]
    ensures Between(maps, Maps(m, local, m.chaincodes), maps + Maps(m, local, m.chaincodes[..i]))
    ensures Between(maps, Maps(m, local, m.chaincodes), maps + Maps(m, local, m.chaincodes[..i + 1]))
  {
    MapsGrow(m, local, m.chaincodes, i);
    PutBehind(maps, Maps(m, local, m.chaincodes[..i]), ConfigMapName(m.chaincodes[i].name),
              ChaincodeMap(m, local, m.chaincodes[i].name));
    PrefixIsBetween(maps, m, local, m.chaincodes, i);
    PrefixIsBetween(maps, m, local, m.chaincodes, i + 1);
  }

  lemma PutBehind(a: Store, b: Store, k: string, o: Object)
    ensures a + b[k := o] == (a + b)[k := o]
  {
  }

  /* ---- Names and archives ---- */

  // Some chaincode of the list has its ConfigMap under this name.
  predicate Names(ccs: seq<Chaincode>, k: string) {
    exists i :: 0 <= i < |ccs| && ConfigMapName(ccs[i].name) == k
  }

  lemma NamesAppend(init: seq<Chaincode>, cc: Chaincode, k: string)
    ensures Names(init + [cc], k) <==> Names(init, k) || ConfigMapName(cc.name) == k
  {
    var ccs := init + [cc];
    if Names(init, k) {
      var i :| 0 <= i < |init| && ConfigMapName(init[i].name) == k;
      assert ccs[i] == init[i];
    }
    if ConfigMapName(cc.name) == k {
      assert ccs[|init|] == cc;
    }
  }

  lemma {:induction false} UploadedMaps(m: Manifest, local: Local, ccs: seq<Chaincode>, k: string)
    ensures k in Maps(m, local, ccs) <==> Names(ccs, k)
    ensures k in Maps(m, local, ccs) ==> IsCreatedFor(Maps(m, local, ccs)[k], m.name)
  {
    if ccs != [] {
      var n := |ccs| - 1;
      UploadedMaps(m, local, ccs[..n], k);
      NamesAppend(ccs[..n], ccs[n], k);
      assert ccs[..n] + [ccs[n]] == ccs;
      assert Maps(m, local, ccs) ==
             Maps(m, local, ccs[..n])[ConfigMapName(ccs[n].name) := ChaincodeMap(m, local, ccs[n].name)];
    }
  }

  // The store has this object under this name.
  predicate Holds(s: Store, k: string, o: Object) { k in s && s[k] == o }

  lemma OneMoreHolds(s: Store, k: string, o: Object, last: string, p: Object)
    ensures Holds(s[last := p], last, p)
    ensures last != k && Holds(s, k, o) ==> Holds(s[last := p], k, o)
  {
  }

  lemma {:induction false} LastWins(m: Manifest, local: Local, ccs: seq<Chaincode>, i: nat)
    requires i < |ccs|
    requires forall j :: i < j < |ccs| ==> ConfigMapName(ccs[j].name) != ConfigMapName(ccs[i].name)
    ensures Holds(Maps(m, local, ccs), ConfigMapName(ccs[i].name), ChaincodeMap(m, local, ccs[i].name))
  {
    var n, k := |ccs| - 1, ConfigMapName(ccs[i].name);
    var init := ccs[..n];
    var own, last := ChaincodeMap(m, local, ccs[i].name), ChaincodeMap(m, local, ccs[n].name);
    OneMoreHolds(Maps(m, local, init), k, own, ConfigMapName(ccs[n].name), last);
    if i < n {
      forall j | i < j < |init|
        ensures ConfigMapName(init[j].name) != k
      {
        assert init[j] == ccs[j];
      }
      assert init[i] == ccs[i];
      LastWins(m, local, init, i);
    }
  }

  lemma {:induction false} LastOf(ccs: seq<Chaincode>, i: nat, end: nat) returns (j: nat)
    requires i < end <= |ccs|
    ensures i <= j < end && ConfigMapName(ccs[j].name) == ConfigMapName(ccs[i].name)
    ensures forall k :: j < k < end ==> ConfigMapName(ccs[k].name) != ConfigMapName(ccs[i].name)
    decreases end
  {
    j := end - 1;
    if ConfigMapName(ccs[j].name) != ConfigMapName(ccs[i].name) {
      j := LastOf(ccs, i, end - 1);
    }
  }

  ghost predicate HasItsOwn(m: Manifest, local: Local, i: nat)
    requires i < |m.chaincodes|
  {
    var name, maps := m.chaincodes[i].name, Maps(m, local, m.chaincodes);
    ConfigMapName(name) in maps && maps[ConfigMapName(name)] == ChaincodeMap(m, local, name)
  }

  ghost predicate EachHasItsOwn(m: Manifest, local: Local) {
    forall i :: 0 <= i < |m.chaincodes| ==> HasItsOwn(m, local, i)
  }

  // Names that agree in lower case are the same.
  predicate NoClash(ccs: seq<Chaincode>) {
    forall i, j :: 0 <= i < j < |ccs| && ConfigMapName(ccs[i].name) == ConfigMapName(ccs[j].name)
      ==> ccs[i].name == ccs[j].name
  }

  lemma OwnMeansSameName(m: Manifest, local: Local, i: nat, j: nat)
    requires i < j < |m.chaincodes| && HasItsOwn(m, local, i) && HasItsOwn(m, local, j)
    requires ConfigMapName(m.chaincodes[i].name) == ConfigMapName(m.chaincodes[j].name)
    ensures m.chaincodes[i].name == m.chaincodes[j].name
  {
    assert ChaincodeMap(m, local, m.chaincodes[i].name).labels["chaincodeName"] ==
           ChaincodeMap(m, local, m.chaincodes[j].name).labels["chaincodeName"];
  }

  lemma NoClashMeansOwn(m: Manifest, local: Local, i: nat)
    requires i < |m.chaincodes| && NoClash(m.chaincodes)
    ensures HasItsOwn(m, local, i)
  {
    var j := LastOf(m.chaincodes, i, |m.chaincodes|);
    assert m.chaincodes[j].name == m.chaincodes[i].name;
    LastWins(m, local, m.chaincodes, j);
  }

  /** Each chaincode finds its own archive in its ConfigMap exactly when no two of different names agree
      in lower case. */
  lemma OwnArchivesExactly(m: Manifest, local: Local)
    ensures EachHasItsOwn(m, local) <==> NoClash(m.chaincodes)
  {
    var ccs := m.chaincodes;
    if EachHasItsOwn(m, local) {
      forall i, j | 0 <= i < j < |ccs| && ConfigMapName(ccs[i].name) == ConfigMapName(ccs[j].name)
        ensures ccs[i].name == ccs[j].name
      {
        OwnMeansSameName(m, local, i, j);
      }
    }
    if NoClash(ccs) {
      forall i | 0 <= i < |ccs|
        ensures HasItsOwn(m, local, i)
      {
        NoClashMeansOwn(m, local, i);
      }
    }
  }

  /** Without --overwrite an accepted create has chaincode names that differ in lower case, touches no
      ConfigMap that was there, and leaves each chaincode's own archive in its ConfigMap. */
  lemma CreateKeepsNamesApart(ns: Namespace, m: Manifest, local: Local)
    requires Acceptable(ns, m, local, false) && m.chaincode.folder != ""
    ensures DistinctNames(m.chaincodes) && ns.configMaps.Keys !! MapUploads(m, local).Keys
    ensures forall i :: 0 <= i < |m.chaincodes| ==>
              var name, maps := m.chaincodes[i].name, Created(ns, m, local).configMaps;
              ConfigMapName(name) in maps && maps[ConfigMapName(name)] == ChaincodeMap(m, local, name)
  {
    forall i | 0 <= i < |m.chaincodes|
      ensures var name, maps := m.chaincodes[i].name, Created(ns, m, local).configMaps;
              ConfigMapName(name) in maps && maps[ConfigMapName(name)] == ChaincodeMap(m, local, name)
    {
      NoClashMeansOwn(m, local, i);
    }
    forall k | k in MapUploads(m, local)
      ensures k !in ns.configMaps
    {
      UploadedMaps(m, local, m.chaincodes, k);
    }
  }

  // The joined path is clean, unless it is the root or the working directory itself.
  lemma JoinedIsClean(base: string, path: string)
    ensures Join(base, path) == "/" || Tidy(Join(base, path))
  {
    SplitHasNoSlash(base);
    SplitHasNoSlash(path);
    assert Render([]) == "/";
    if IsAbs(base) {
      var p := CleanFrom(Segments(base), Split(path));
      SegmentsOrdinary(base);
      CleanIsOrdinary(Segments(base), Split(path));
      if p != [] {
        SplitRender(p);
        assert ([""] + p)[1..] == p;
        CleanOrdinary([], p);
        assert [] + p == p;
      }
    } else {
      RelativeIsReduced([], Split(base));
      var p := CleanRelative(RelativeSegments(base), Split(path));
      RelativeIsReduced(RelativeSegments(base), Split(path));
      if p != [] {
        ReducedText(p);
      } else {
        SplitNoSlash(".");
      }
    }
  }

  // A chaincode's folder or file as an item below the chaincode folder.
  function ChaincodeItem(m: Manifest, local: Local, cc: string): Listing {
    Item(cc, local.NodeAt(local.At(m.chaincode.folder) + "/" + cc), End)
  }

  /** The archive of a chaincode, extracted where none of its paths exist, rebuilds that chaincode's files
      if and only if its names can be archived and the chaincode folder's path is clean, as it is whenever
      it was relative, or the chaincode is a file or an empty folder. */
  lemma ChaincodeComesBackExactly(m: Manifest, local: Local, cc: string, fs: Fs, dst: Path)
    requires WellNamed(ChaincodeItem(m, local, cc)) && IsDir(fs, dst)
    requires fs.Keys !! Files(dst, ChaincodeItem(m, local, cc)).Keys
    ensures Unpack(fs, dst, ChaincodeMap(m, local, cc).data[cc + ".tar"].entries) ==
            Ok(fs + Files(dst, ChaincodeItem(m, local, cc)))
            <==> Archivable(ChaincodeItem(m, local, cc)) &&
                 (Tidy(local.At(m.chaincode.folder)) || Bare(ChaincodeItem(m, local, cc).node))
  {
    JoinedIsClean(local.base, m.chaincode.folder);
    JoinedChildRoundTrip(local.At(m.chaincode.folder), cc, ChaincodeItem(m, local, cc).node, fs, dst);
  }

  /* ---- Delete after create ---- */

  lemma UploadsAreLabelled(m: Manifest, local: Local, k: string)
    ensures k in SecretUploads(m, local) ==> IsCreatedFor(SecretUploads(m, local)[k], m.name)
    ensures k in MapUploads(m, local) ==> IsCreatedFor(MapUploads(m, local)[k], m.name)
  {
    UploadedMaps(m, local, m.chaincodes, k);
  }

  // Of a store with labelled uploads on top, the label takes away exactly those and what else carries it.
  lemma WithoutUploads(s: Store, uploads: Store, name: string)
    requires forall k :: k in uploads ==> IsCreatedFor(uploads[k], name)
    ensures Without(s + uploads, name) == s <==>
            s.Keys !! uploads.Keys && forall k :: k in s ==> !IsCreatedFor(s[k], name)
  {
  }

  // The create overwrites nothing that is there.
  ghost predicate OverwritesNothing(ns: Namespace, m: Manifest, local: Local) {
    ns.secrets.Keys !! SecretUploads(m, local).Keys && ns.configMaps.Keys !! MapUploads(m, local).Keys
  }

  /** A delete undoes a create exactly when the create overwrote nothing and no object carried the label
      of that network before. */
  lemma DeleteUndoesCreateExactly(ns: Namespace, m: Manifest, local: Local)
    requires m.name !in ns.networks
    ensures Deleted(Created(ns, m, local), m.name) == ns <==>
            OverwritesNothing(ns, m, local) && NothingFor(ns, m.name)
  {
    forall k
      ensures k in SecretUploads(m, local) ==> IsCreatedFor(SecretUploads(m, local)[k], m.name)
      ensures k in MapUploads(m, local) ==> IsCreatedFor(MapUploads(m, local)[k], m.name)
    {
      UploadsAreLabelled(m, local, k);
    }
    WithoutUploads(ns.secrets, SecretUploads(m, local), m.name);
    WithoutUploads(ns.configMaps, MapUploads(m, local), m.name);
    assert ns.networks[m.name := Submitted(m)] - {m.name} == ns.networks;
  }

  lemma WithoutOverwriteNothingLost(ns: Namespace, m: Manifest, local: Local)
    requires Acceptable(ns, m, local, false)
    ensures OverwritesNothing(ns, m, local)
  {
    if m.chaincode.folder != "" {
      CreateKeepsNamesApart(ns, m, local);
    }
  }

  /** Without --overwrite: exactly when no earlier object carries the label. */
  lemma DeleteInvertsCreate(ns: Namespace, m: Manifest, local: Local)
    requires Acceptable(ns, m, local, false)
    ensures Deleted(Created(ns, m, local), m.name) == ns <==> NothingFor(ns, m.name)
  {
    WithoutOverwriteNothingLost(ns, m, local);
    DeleteUndoesCreateExactly(ns, m, local);
  }

  /* ---- Create after an interrupted create ---- */

  lemma BetweenTwo(s: Store, a: Store, b: Store)
    ensures (s + a) + b == s + (a + b)
    ensures Between(s, a + b, s) && Between(s, a + b, s + a) && Between(s, a + b, s + (a + b))
  {
  }

  lemma BetweenAbsorbs(present: Store, uploads: Store, mid: Store)
    requires Between(present, uploads, mid)
    ensures mid + uploads == present + uploads
  {
  }

  /** Repeating an interrupted create with --overwrite is accepted whenever the create was, unless its
      network had come into being, and it leaves exactly what a create without interruption leaves. */
  lemma RetryCompletes(ns: Namespace, m: Manifest, local: Local, overwrite: bool, mid: Namespace)
    requires Acceptable(ns, m, local, overwrite) && Interrupted(ns, m, local, mid)
    ensures Created(mid, m, local) == Created(ns, m, local)
    ensures Acceptable(mid, m, local, true) <==> mid.networks == ns.networks
  {
    BetweenAbsorbs(ns.secrets, SecretUploads(m, local), mid.secrets);
    BetweenAbsorbs(ns.configMaps, MapUploads(m, local), mid.configMaps);
    assert m.name in Created(ns, m, local).networks;
    if mid.networks == ns.networks {
      forall i | 0 <= i < |m.chaincodes|
        ensures ValidChaincode(mid, m.chaincode, m.chaincodes[i])
      {
        assert ValidChaincode(ns, m.chaincode, m.chaincodes[i]);
      }
    }
  }

  lemma BetweenWithoutUploads(present: Store, uploads: Store, mid: Store)
    requires Between(present, uploads, mid) && mid.Keys !! uploads.Keys
    ensures mid == present
  {
  }

  // What a create without --overwrite asks for excludes every upload that is there already.
  lemma RefusesItsUploads(mid: Namespace, m: Manifest, local: Local)
    requires Acceptable(mid, m, local, false)
    ensures mid.secrets.Keys !! SecretUploads(m, local).Keys && mid.configMaps.Keys !! MapUploads(m, local).Keys
  {
    WithoutOverwriteNothingLost(mid, m, local);
  }

  /** Without --overwrite the repetition is accepted exactly if the interrupted create had done nothing. */
  lemma RetryRefusedExactly(ns: Namespace, m: Manifest, local: Local, mid: Namespace)
    requires Acceptable(ns, m, local, false) && Interrupted(ns, m, local, mid)
    ensures Acceptable(mid, m, local, false) <==> mid == ns
  {
    if Acceptable(mid, m, local, false) {
      RefusesItsUploads(mid, m, local);
      BetweenWithoutUploads(ns.secrets, SecretUploads(m, local), mid.secrets);
      BetweenWithoutUploads(ns.configMaps, MapUploads(m, local), mid.configMaps);
    }
  }

  /* ---- Create from what an earlier create left ---- */

  lemma LowerConcat(a: string, b: string)
    ensures Lower(a + b) == Lower(a) + Lower(b) && Lower(Lower(a)) == Lower(a)
  {
  }

  lemma PrefixIsLower()
    ensures Lower(CHAINCODE_PREFIX) == CHAINCODE_PREFIX
  {
  }

  // The check of an existing ConfigMap uses the name as it is written.
  lemma FindsItExactly(ns: Namespace, m: Manifest, local: Local, i: nat)
    requires m.chaincode.folder != "" && i < |m.chaincodes|
    requires forall k :: k in ns.configMaps ==> Lower(k) == k
    ensures CHAINCODE_PREFIX + m.chaincodes[i].name in Created(ns, m, local).configMaps <==>
            Lower(m.chaincodes[i].name) == m.chaincodes[i].name
  {
    var name := m.chaincodes[i].name;
    var k := CHAINCODE_PREFIX + name;
    UploadedMaps(m, local, m.chaincodes, k);
    LowerConcat(CHAINCODE_PREFIX, name);
    PrefixIsLower();
    assert Lower(k)[|CHAINCODE_PREFIX|..] == Lower(name) && k[|CHAINCODE_PREFIX|..] == name;
    if k in Created(ns, m, local).configMaps && k in Maps(m, local, m.chaincodes) {
      var j :| 0 <= j < |m.chaincodes| && ConfigMapName(m.chaincodes[j].name) == k;
      LowerConcat(CHAINCODE_PREFIX, Lower(m.chaincodes[j].name));
      LowerConcat(m.chaincodes[j].name, "");
    }
  }

  /** After a delete that kept the resources, the manifest that was submitted is valid again exactly when
      all chaincode names are lower case, in a namespace whose ConfigMaps all have lower-case names. */
  lemma KeptResourcesServeExactly(ns: Namespace, m: Manifest, local: Local, overwrite: bool)
    requires Acceptable(ns, m, local, overwrite) && m.chaincode.folder != ""
    requires forall k :: k in ns.configMaps ==> Lower(k) == k
    ensures var kept := Created(ns, m, local).(networks := map[]);
            Valid(kept, Submitted(m), false) <==>
            forall i :: 0 <= i < |m.chaincodes| ==> Lower(m.chaincodes[i].name) == m.chaincodes[i].name
  {
    var kept, r := Created(ns, m, local).(networks := map[]), Submitted(m);
    forall i | 0 <= i < |m.chaincodes|
      ensures ValidChaincode(kept, r.chaincode, r.chaincodes[i]) <==>
              Lower(m.chaincodes[i].name) == m.chaincodes[i].name
    {
      assert ValidChaincode(ns, m.chaincode, m.chaincodes[i]);
      FindsItExactly(ns, m, local, i);
    }
    SecretsServe(ns, m, local, overwrite);
  }

  lemma SecretsServe(ns: Namespace, m: Manifest, local: Local, overwrite: bool)
    requires Valid(ns, m, overwrite)
    ensures var kept, r := Created(ns, m, local).(networks := map[]), Submitted(m);
            ValidConfigtx(kept, r.configtx, false) && ValidGenesis(kept, r.genesis, r.crypto) &&
            ValidCrypto(kept, r.crypto, false)
  {
  }
}
