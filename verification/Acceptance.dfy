/** What an accepted create stands for, told of the manifest, the namespace and this machine themselves: which
    manifests are refused and why, and that every reference of an accepted one resolves afterwards. */
module Acceptance {
  import opened Api
  import opened Paths
  import opened Archive
  import opened Cli

  /* ---- Names and paths ---- */

  // low is s with its capitals A to Z in lower case.
  predicate IsLowerOf(low: string, s: string) {
    |low| == |s| &&
    forall i :: 0 <= i < |s| ==> if 'A' <= s[i] <= 'Z' then low[i] as int == s[i] as int + 32 else low[i] == s[i]
  }

  // The ConfigMap of a chaincode of this name.
  ghost predicate IsMapName(k: string, chaincode: string) {
    exists low :: IsLowerOf(low, chaincode) && k == "hlf-chaincode--" + low
  }

  lemma LowerMeans(low: string, s: string)
    ensures IsLowerOf(low, s) <==> low == Lower(s)
  {
    if IsLowerOf(low, s) {
      assert forall i :: 0 <= i < |s| ==> low[i] as int == Lower(s)[i] as int;
      assert low == Lower(s);
    }
  }

  lemma MapNameMeans(k: string, chaincode: string)
    ensures IsMapName(k, chaincode) <==> k == ConfigMapName(chaincode)
  {
    LowerMeans(Lower(chaincode), chaincode);
    if IsMapName(k, chaincode) {
      var low :| IsLowerOf(low, chaincode) && k == "hlf-chaincode--" + low;
      LowerMeans(low, chaincode);
    } else {
      assert "hlf-chaincode--" + Lower(chaincode) != k;
    }
  }

  // An absolute path as it is, and a relative one below the folder of the network's file.
  function PathOf(local: Local, text: string): string { if "/" <= text then text else Join(local.base, text) }

  /* ---- Refusals ---- */

  predicate ConfigtxRefused(ns: Namespace, s: Source, overwrite: bool) {
    || (s.secret == "" && s.file == "")                                           // neither is given
    || (s.secret != "" && s.file != "")                                           // both are
    || (s.secret != "" && s.secret != "hlf-configtx.yaml")                        // another name
    || (s.secret != "" && "hlf-configtx.yaml" !in ns.secrets)                     // not there
    || (s.file != "" && !overwrite && "hlf-configtx.yaml" in ns.secrets)          // in the way
  }

  predicate GenesisRefused(ns: Namespace, s: Source, crypto: Source) {
    || ((s.secret != "" || s.file != "") && crypto.secret == "" && crypto.file == "")
    || (s.secret != "" && s.file != "")
    || (s.secret != "" && (s.secret != "hlf-genesis.block" || "hlf-genesis.block" !in ns.secrets))
  }

  predicate CryptoRefused(ns: Namespace, s: Source, overwrite: bool) {
    || (s.secret != "" && s.file != "")
    || (s.secret != "" && (s.secret != "hlf-crypto-config" || "hlf-crypto-config" !in ns.secrets))
    || (s.file != "" && !overwrite && "hlf-crypto-config" in ns.secrets)
  }

  predicate ChaincodeRefused(ns: Namespace, global: ChaincodeConfig, cc: Chaincode) {
    || (global.folder == "" && "hlf-chaincode--" + cc.name !in ns.configMaps)
    || (global.language == "" && cc.language == "")
    || (global.version == "" && cc.version == "")
  }

  // What the manifest names on this machine is not there.
  predicate Unreadable(m: Manifest, local: Local) {
    || (m.configtx.file != "" && PathOf(local, m.configtx.file) !in local.files)
    || (m.crypto.file != "" &&
        !(PathOf(local, m.crypto.file) in local.nodes && local.nodes[PathOf(local, m.crypto.file)].Dir?))
    || (m.chaincode.folder != "" &&
        exists cc :: cc in m.chaincodes && PathOf(local, m.chaincode.folder) + "/" + cc.name !in local.nodes)
  }

  // A chaincode's ConfigMap is there, or it is another chaincode's of the same manifest.
  ghost predicate MapsTaken(ns: Namespace, ccs: seq<Chaincode>) {
    || (exists cc, k :: cc in ccs && k in ns.configMaps && IsMapName(k, cc.name))
    || (exists i, j, k :: 0 <= i < j < |ccs| && IsMapName(k, ccs[i].name) && IsMapName(k, ccs[j].name))
  }

  ghost predicate Unacceptable(ns: Namespace, m: Manifest, local: Local, overwrite: bool) {
    || (exists other :: other in ns.networks)
    || (m.topology.tlsEnabled && !m.topology.useActualDomains)
    || ConfigtxRefused(ns, m.configtx, overwrite)
    || GenesisRefused(ns, m.genesis, m.crypto)
    || CryptoRefused(ns, m.crypto, overwrite)
    || (exists cc :: cc in m.chaincodes && ChaincodeRefused(ns, m.chaincode, cc))
    || Unreadable(m, local)
    || (m.chaincode.folder != "" && !overwrite && MapsTaken(ns, m.chaincodes))
  }

  lemma NamesFreeExactly(ns: Namespace, ccs: seq<Chaincode>)
    ensures NamesFree(ns.configMaps, ccs) <==> !MapsTaken(ns, ccs)
  {
    forall k, name
      ensures IsMapName(k, name) <==> k == ConfigMapName(name)
    {
      MapNameMeans(k, name);
    }
    if i :| 0 <= i < |ccs| && ConfigMapName(ccs[i].name) in ns.configMaps {
      assert ccs[i] in ccs && IsMapName(ConfigMapName(ccs[i].name), ccs[i].name);
    } else if i, j :| 0 <= i < j < |ccs| && ConfigMapName(ccs[i].name) == ConfigMapName(ccs[j].name) {
      assert IsMapName(ConfigMapName(ccs[i].name), ccs[i].name) && IsMapName(ConfigMapName(ccs[i].name), ccs[j].name);
    }
  }

  lemma ValidExactly(ns: Namespace, m: Manifest, overwrite: bool)
    ensures Valid(ns, m, overwrite) <==>
            !((m.topology.tlsEnabled && !m.topology.useActualDomains) || ConfigtxRefused(ns, m.configtx, overwrite) ||
              GenesisRefused(ns, m.genesis, m.crypto) || CryptoRefused(ns, m.crypto, overwrite) ||
              exists cc :: cc in m.chaincodes && ChaincodeRefused(ns, m.chaincode, cc))
  {
    assert forall i :: 0 <= i < |m.chaincodes| ==>
      (ValidChaincode(ns, m.chaincode, m.chaincodes[i]) <==> !ChaincodeRefused(ns, m.chaincode, m.chaincodes[i]));
  }

  lemma ReadableExactly(m: Manifest, local: Local)
    ensures Readable(m, local) <==> !Unreadable(m, local)
  {
  }

  /** A create is accepted if and only if none of the reasons for a refusal is there. */
  lemma AcceptedExactly(ns: Namespace, m: Manifest, local: Local, overwrite: bool)
    ensures Acceptable(ns, m, local, overwrite) <==> !Unacceptable(ns, m, local, overwrite)
  {
    ValidExactly(ns, m, overwrite);
    ReadableExactly(m, local);
    NamesFreeExactly(ns, m.chaincodes);
    assert ns.networks == map[] <==> !exists other :: other in ns.networks;
  }

  /* ---- What an accepted create leaves ---- */

  // A reference to the Secret of that name, which is there.
  predicate Resolved(ns: Namespace, s: Source, name: string) { s.secret == name && s.file == "" && name in ns.secrets }

  predicate MadeFor(labels: map<string, string>, name: string) {
    labels == map["raft.io/fabric-operator-cli-created-for" := name]
  }

  // The labels by which the chaincode flow finds the ConfigMap, and its archive.
  predicate MapMade(o: Object, m: Manifest, local: Local, chaincode: string) {
    o.labels == map["chaincodeName" := chaincode, "type" := "chaincode",
                    "raft.io/fabric-operator-cli-created-for" := m.name] &&
    var folder := PathOf(local, m.chaincode.folder);
    o.data == map[chaincode + ".tar" := Archived(Compressed(folder, chaincode, local.NodeAt(folder + "/" + chaincode)))]
  }

  /** The submitted network names only Secrets that are there, by the names the operator reads, and nothing on
      this machine; the rest of it is as in the manifest. */
  lemma SecretsResolve(ns: Namespace, m: Manifest, local: Local, overwrite: bool)
    requires !Unacceptable(ns, m, local, overwrite)
    ensures var d := Created(ns, m, local);
            m.name in d.networks &&
            var r := d.networks[m.name];
            r == m.(configtx := r.configtx, crypto := r.crypto, chaincode := m.chaincode.(folder := "")) &&
            Resolved(d, r.configtx, "hlf-configtx.yaml") &&
            (if m.crypto.secret == "" && m.crypto.file == "" then r.crypto == m.crypto
             else Resolved(d, r.crypto, "hlf-crypto-config")) &&
            (m.genesis.secret != "" ==> r.genesis.secret == "hlf-genesis.block" && "hlf-genesis.block" in d.secrets)
  {
  }

  predicate ConfigtxMade(o: Object, m: Manifest, local: Local) {
    var path := PathOf(local, m.configtx.file);
    MadeFor(o.labels, m.name) && path in local.files && o.data == map["configtx.yaml" := Raw(local.files[path])]
  }

  predicate CryptoMade(o: Object, m: Manifest, local: Local) {
    var folder := PathOf(local, m.crypto.file);
    MadeFor(o.labels, m.name) && folder in local.nodes &&
    o.data == map["crypto-config" := Archived(Compressed(folder, "", local.nodes[folder]))]
  }

  lemma ConfigtxSecretMade(m: Manifest, local: Local)
    requires PathOf(local, m.configtx.file) in local.files
    ensures ConfigtxMade(ConfigtxSecret(m, local), m, local)
  {
  }

  lemma CryptoSecretMade(m: Manifest, local: Local)
    requires PathOf(local, m.crypto.file) in local.nodes
    ensures CryptoMade(CryptoSecret(m, local), m, local)
  {
  }

  lemma UploadedSecrets(ns: Namespace, m: Manifest, local: Local)
    ensures m.configtx.file != "" ==> Holds(Created(ns, m, local).secrets, CONFIGTX, ConfigtxSecret(m, local))
    ensures m.crypto.file != "" ==> Holds(Created(ns, m, local).secrets, CRYPTO, CryptoSecret(m, local))
  {
    assert CONFIGTX[5] != CRYPTO[5];
  }

  /** What was uploaded is the file's bytes and the folder's archive, under the keys that the operator reads and
      with the label that delete looks for. */
  lemma UploadsAreExact(ns: Namespace, m: Manifest, local: Local)
    requires !Unreadable(m, local)
    ensures var s := Created(ns, m, local).secrets;
            (m.configtx.file != "" ==> "hlf-configtx.yaml" in s && ConfigtxMade(s["hlf-configtx.yaml"], m, local)) &&
            (m.crypto.file != "" ==> "hlf-crypto-config" in s && CryptoMade(s["hlf-crypto-config"], m, local))
  {
    UploadedSecrets(ns, m, local);
    if m.configtx.file != "" {
      ConfigtxSecretMade(m, local);
    }
    if m.crypto.file != "" {
      CryptoSecretMade(m, local);
    }
  }

  /** No other Secret changes. */
  lemma OtherSecretsStay(ns: Namespace, m: Manifest, local: Local, k: string)
    requires k in ns.secrets && (k == "hlf-configtx.yaml" ==> m.configtx.file == "") &&
             (k == "hlf-crypto-config" ==> m.crypto.file == "")
    ensures k in Created(ns, m, local).secrets && Created(ns, m, local).secrets[k] == ns.secrets[k]
  {
  }

  lemma MapIsMade(m: Manifest, local: Local, chaincode: string)
    ensures MapMade(ChaincodeMap(m, local, chaincode), m, local, chaincode)
  {
  }

  /** Each chaincode of the network has its ConfigMap: uploaded with its labels and archive under its lower-case
      name, or there before under its own; and without --overwrite no ConfigMap that was there changed. */
  lemma ChaincodesResolve(ns: Namespace, m: Manifest, local: Local, cc: Chaincode, k: string)
    requires !Unacceptable(ns, m, local, false) && cc in m.chaincodes && IsMapName(k, cc.name)
    ensures var d := Created(ns, m, local);
            (m.chaincode.folder != "" ==> k in d.configMaps && MapMade(d.configMaps[k], m, local, cc.name)) &&
            (m.chaincode.folder == "" ==> "hlf-chaincode--" + cc.name in d.configMaps) &&
            forall x :: x in ns.configMaps ==> x in d.configMaps && d.configMaps[x] == ns.configMaps[x]
  {
    AcceptedExactly(ns, m, local, false);
    MapNameMeans(k, cc.name);
    MapIsMade(m, local, cc.name);
    if m.chaincode.folder != "" {
      CreateKeepsNamesApart(ns, m, local);
      var i :| 0 <= i < |m.chaincodes| && m.chaincodes[i] == cc;
      assert ConfigMapName(m.chaincodes[i].name) == k;
    } else {
      assert !ChaincodeRefused(ns, m.chaincode, cc);
    }
  }
}
