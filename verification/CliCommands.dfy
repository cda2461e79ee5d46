/** The two commands, call by call against an API server that may fail. */
module CliCommands {
  import opened Api
  import opened Archive
  import opened Cli
  import opened Acceptance

  // Unheard: the call took effect and an error came back.
  datatype Answer = Heard | Refused | Unheard

  // The API server's namespace, and how it answers the k-th call.
  class Client {
    const answers: nat -> Answer
    var calls: nat
    var ns: Namespace

    constructor (ns: Namespace, answers: nat -> Answer)
      ensures this.ns == ns && this.answers == answers
    {
      this.ns := ns;
      this.answers := answers;
      calls := 0;
    }

    ghost predicate AllHeard() { forall k: nat :: answers(k).Heard? }

    method Ask() returns (a: Answer)
      modifies `calls
      ensures AllHeard() ==> a.Heard?
    {
      a := answers(calls);
      calls := calls + 1;
    }

    method SecretExists(name: string) returns (found: Option<bool>)
      modifies `calls
      ensures found.Some? ==> (found.value <==> name in ns.secrets)
      ensures AllHeard() ==> found.Some?
    {
      var a := Ask();
      found := if a.Heard? then Some(name in ns.secrets) else None;
    }

    method ConfigMapExists(name: string) returns (found: Option<bool>)
      modifies `calls
      ensures found.Some? ==> (found.value <==> name in ns.configMaps)
      ensures AllHeard() ==> found.Some?
    {
      var a := Ask();
      found := if a.Heard? then Some(name in ns.configMaps) else None;
    }

    // Create fails on a name that is taken, Update on one that is free.
    method WriteSecret(name: string, o: Object, update: bool) returns (ok: bool)
      modifies `calls, `ns
      ensures ns == old(ns) || ns == old(ns).(secrets := old(ns).secrets[name := o])
      ensures ok ==> ns == old(ns).(secrets := old(ns).secrets[name := o])
      ensures AllHeard() && (update <==> name in old(ns).secrets) ==> ok
    {
      var a := Ask();
      if a.Refused? || (update != (name in ns.secrets)) {
        return false;
      }
      ns := ns.(secrets := ns.secrets[name := o]);
      return a.Heard?;
    }

    method WriteConfigMap(name: string, o: Object, update: bool) returns (ok: bool)
      modifies `calls, `ns
      ensures ns == old(ns) || ns == old(ns).(configMaps := old(ns).configMaps[name := o])
      ensures ok ==> ns == old(ns).(configMaps := old(ns).configMaps[name := o])
      ensures AllHeard() && (update <==> name in old(ns).configMaps) ==> ok
    {
      var a := Ask();
      if a.Refused? || (update != (name in ns.configMaps)) {
        return false;
      }
      ns := ns.(configMaps := ns.configMaps[name := o]);
      return a.Heard?;
    }

    method DeleteNetwork(name: string) returns (ok: bool)
      modifies `calls, `ns
      ensures ns == old(ns) || ns == old(ns).(networks := old(ns).networks - {name})
      ensures ok ==> name in old(ns).networks && ns == old(ns).(networks := old(ns).networks - {name})
      ensures AllHeard() && name in old(ns).networks ==> ok
    {
      var a := Ask();
      if a.Refused? || name !in ns.networks {
        return false;
      }
      ns := ns.(networks := ns.networks - {name});
      return a.Heard?;
    }

    method DeleteSecret(name: string) returns (ok: bool)
      modifies `calls, `ns
      ensures ns == old(ns) || ns == old(ns).(secrets := old(ns).secrets - {name})
      ensures ok ==> ns == old(ns).(secrets := old(ns).secrets - {name})
      ensures AllHeard() && name in old(ns).secrets ==> ok
    {
      var a := Ask();
      if a.Refused? || name !in ns.secrets {
        return false;
      }
      ns := ns.(secrets := ns.secrets - {name});
      return a.Heard?;
    }

    method DeleteConfigMap(name: string) returns (ok: bool)
      modifies `calls, `ns
      ensures ns == old(ns) || ns == old(ns).(configMaps := old(ns).configMaps - {name})
      ensures ok ==> ns == old(ns).(configMaps := old(ns).configMaps - {name})
      ensures AllHeard() && name in old(ns).configMaps ==> ok
    {
      var a := Ask();
      if a.Refused? || name !in ns.configMaps {
        return false;
      }
      ns := ns.(configMaps := ns.configMaps - {name});
      return a.Heard?;
    }

    method CreateNetwork(m: Manifest) returns (ok: bool)
      modifies `calls, `ns
      ensures ns == old(ns) || ns == old(ns).(networks := old(ns).networks[m.name := m])
      ensures ok ==> ns == old(ns).(networks := old(ns).networks[m.name := m])
      ensures AllHeard() && m.name !in old(ns).networks ==> ok
    {
      var a := Ask();
      if a.Refused? || m.name in ns.networks {
        return false;
      }
      ns := ns.(networks := ns.networks[m.name := m]);
      return a.Heard?;
    }
  }

  /* ---- Lists ---- */

  // The names of a set, in some order.
  method Listed(names: set<string>) returns (items: seq<string>)
    ensures forall k :: k in items <==> k in names
    ensures forall i, j :: 0 <= i < j < |items| ==> items[i] != items[j]
  {
    items := [];
    var rest := names;
    while rest != {}
      invariant rest <= names
      invariant forall k :: k in items <==> k in names && k !in rest
      invariant forall i, j :: 0 <= i < j < |items| ==> items[i] != items[j]
      decreases |rest|
    {
      var k :| k in rest;
      items := items + [k];
      rest := rest - {k};
    }
  }

  // The manifest that create rewrites in place.
  class Network {
    var spec: Manifest

    constructor (m: Manifest)
      ensures spec == m
    {
      spec := m;
    }
  }

  /* ---- create ---- */

  method ValidateConfigtx(cl: Client, s: Source, overwrite: bool) returns (ok: bool)
    modifies cl`calls
    ensures ok ==> ValidConfigtx(cl.ns, s, overwrite)
    ensures cl.AllHeard() ==> (ok <==> ValidConfigtx(cl.ns, s, overwrite))
  {
    if s.secret == "" && s.file == "" {
      return false;
    }
    if s.secret != "" && s.file != "" {
      return false;
    }
    if s.secret != "" && s.secret != CONFIGTX {
      return false;
    }
    if s.secret == "" && !overwrite {
      var taken := cl.SecretExists(CONFIGTX);
      if taken.None? || taken.value {
        return false;
      }
    }
    if s.secret != "" {
      var there := cl.SecretExists(s.secret);
      if there.None? || !there.value {
        return false;
      }
    }
    return true;
  }

  method ValidateGenesis(cl: Client, s: Source, crypto: Source) returns (ok: bool)
    modifies cl`calls
    ensures ok ==> ValidGenesis(cl.ns, s, crypto)
    ensures cl.AllHeard() ==> (ok <==> ValidGenesis(cl.ns, s, crypto))
  {
    if s.IsProvided() && !crypto.IsProvided() {
      return false;
    }
    if s.secret != "" && s.file != "" {
      return false;
    }
    if s.secret != "" {
      if s.secret != GENESIS {
        return false;
      }
      var there := cl.SecretExists(s.secret);
      if there.None? || !there.value {
        return false;
      }
    }
    return true;
  }

  method ValidateChaincodes(cl: Client, m: Manifest) returns (ok: bool)
    modifies cl`calls
    ensures ok ==> forall i :: 0 <= i < |m.chaincodes| ==> ValidChaincode(cl.ns, m.chaincode, m.chaincodes[i])
    ensures cl.AllHeard() ==>
      (ok <==> forall i :: 0 <= i < |m.chaincodes| ==> ValidChaincode(cl.ns, m.chaincode, m.chaincodes[i]))
  {
    for i := 0 to |m.chaincodes|
      invariant cl.ns == old(cl.ns)
      invariant forall k :: 0 <= k < i ==> ValidChaincode(cl.ns, m.chaincode, m.chaincodes[k])
    {
      var chaincode := m.chaincodes[i];
      if m.chaincode.folder == "" {
        var there := cl.ConfigMapExists(CHAINCODE_PREFIX + chaincode.name);
        if there.None? || !there.value {
          assert there.Some? ==> !ValidChaincode(cl.ns, m.chaincode, m.chaincodes[i]);
          return false;
        }
      }
      if m.chaincode.language == "" && chaincode.language == "" {
        assert !ValidChaincode(cl.ns, m.chaincode, m.chaincodes[i]);
        return false;
      }
      if m.chaincode.version == "" && chaincode.version == "" {
        assert !ValidChaincode(cl.ns, m.chaincode, m.chaincodes[i]);
        return false;
      }
    }
    return true;
  }

  method ValidateCrypto(cl: Client, s: Source, overwrite: bool) returns (ok: bool)
    modifies cl`calls
    ensures ok ==> ValidCrypto(cl.ns, s, overwrite)
    ensures cl.AllHeard() ==> (ok <==> ValidCrypto(cl.ns, s, overwrite))
  {
    if s.secret != "" && s.file != "" {
      return false;
    }
    if s.secret != "" {
      if s.secret != CRYPTO {
        return false;
      }
      var there := cl.SecretExists(s.secret);
      if there.None? || !there.value {
        return false;
      }
    }
    if s.file != "" && !overwrite {
      var taken := cl.SecretExists(CRYPTO);
      if taken.None? || taken.value {
        return false;
      }
    }
    return true;
  }

  method ValidateNewNetwork(cl: Client, m: Manifest, overwrite: bool) returns (ok: bool)
    modifies cl`calls
    ensures ok ==> Valid(cl.ns, m, overwrite)
    ensures cl.AllHeard() ==> (ok <==> Valid(cl.ns, m, overwrite))
  {
    if m.topology.tlsEnabled && !m.topology.useActualDomains {
      return false;
    }
    ok := ValidateConfigtx(cl, m.configtx, overwrite);
    if ok {
      ok := ValidateGenesis(cl, m.genesis, m.crypto);
    }
    if ok {
      ok := ValidateChaincodes(cl, m);
    }
    if ok {
      ok := ValidateCrypto(cl, m.crypto, overwrite);
    }
  }

  // Updates the Secret if it exists and creates it otherwise.
  method CreateOrUpdateSecret(cl: Client, name: string, o: Object) returns (ok: bool)
    modifies cl`calls, cl`ns
    ensures cl.ns == old(cl.ns) || cl.ns == old(cl.ns).(secrets := old(cl.ns).secrets[name := o])
    ensures ok ==> cl.ns == old(cl.ns).(secrets := old(cl.ns).secrets[name := o])
    ensures cl.AllHeard() ==> ok
  {
    var there := cl.SecretExists(name);
    if there.None? {
      return false;
    }
    ok := cl.WriteSecret(name, o, there.value);
  }

  method CreateOrUpdateConfigtxSecret(cl: Client, m: Manifest, local: Local) returns (ok: bool)
    modifies cl`calls, cl`ns
    ensures var made := old(cl.ns).(secrets := old(cl.ns).secrets[CONFIGTX := ConfigtxSecret(m, local)]);
            (cl.ns == old(cl.ns) || cl.ns == made) && (ok ==> cl.ns == made)
    ensures ok ==> local.HasFile(m.configtx.file)
    ensures cl.AllHeard() ==> (ok <==> local.HasFile(m.configtx.file))
  {
    if !local.HasFile(m.configtx.file) {
      return false;
    }
    var secret := Object(map[LABEL := m.name], map["configtx.yaml" := Raw(local.FileAt(m.configtx.file))]);
    ok := CreateOrUpdateSecret(cl, CONFIGTX, secret);
  }

  method CreateOrUpdateCryptoConfigSecret(cl: Client, m: Manifest, local: Local) returns (ok: bool)
    modifies cl`calls, cl`ns
    ensures var made := old(cl.ns).(secrets := old(cl.ns).secrets[CRYPTO := CryptoSecret(m, local)]);
            (cl.ns == old(cl.ns) || cl.ns == made) && (ok ==> cl.ns == made)
    ensures ok ==> local.HasFolder(m.crypto.file)
    ensures cl.AllHeard() ==> (ok <==> local.HasFolder(m.crypto.file))
  {
    if !local.HasFolder(m.crypto.file) {
      return false;
    }
    var folder := local.At(m.crypto.file);
    var buffer := Compress(folder, "", local.nodes[folder]);
    var secret := Object(map[LABEL := m.name], map["crypto-config" := Archived(buffer)]);
    ok := CreateOrUpdateSecret(cl, CRYPTO, secret);
  }

  method CreateOrUpdateChaincodeConfigMap(cl: Client, m: Manifest, local: Local, chaincode: string, overwrite: bool)
    returns (ok: bool)
    modifies cl`calls, cl`ns
    ensures var made := old(cl.ns).configMaps[ConfigMapName(chaincode) := ChaincodeMap(m, local, chaincode)];
            (cl.ns == old(cl.ns) || cl.ns == old(cl.ns).(configMaps := made)) &&
            (ok ==> cl.ns == old(cl.ns).(configMaps := made))
    ensures ok ==> local.HasChild(m.chaincode.folder, chaincode) &&
                   (overwrite || ConfigMapName(chaincode) !in old(cl.ns).configMaps)
    ensures cl.AllHeard() ==>
      (ok <==> local.HasChild(m.chaincode.folder, chaincode) &&
               (overwrite || ConfigMapName(chaincode) !in old(cl.ns).configMaps))
  {
    var name := CHAINCODE_PREFIX + Lower(chaincode);
    var there := cl.ConfigMapExists(name);
    if there.None? || (there.value && !overwrite) || !local.HasChild(m.chaincode.folder, chaincode) {
      return false;
    }
    var folder := local.At(m.chaincode.folder);
    var buffer := Compress(folder, chaincode, local.nodes[folder + "/" + chaincode]);
    var configMap := Object(map["chaincodeName" := chaincode, "type" := "chaincode", LABEL := m.name],
                            map[chaincode + ".tar" := Archived(buffer)]);
    ok := cl.WriteConfigMap(name, configMap, there.value);
  }

  // One round of the loop, behind the ConfigMaps of i chaincodes.
  method NextConfigMap(cl: Client, m: Manifest, local: Local, i: nat, overwrite: bool, ghost maps: Store)
    returns (ok: bool)
    requires i < |m.chaincodes| && cl.ns.configMaps == maps + Maps(m, local, m.chaincodes[..i])
    modifies cl`calls, cl`ns
    ensures cl.ns == old(cl.ns).(configMaps := cl.ns.configMaps)
    ensures Between(maps, Maps(m, local, m.chaincodes), cl.ns.configMaps)
    ensures ok ==> cl.ns.configMaps == maps + Maps(m, local, m.chaincodes[..i + 1]) &&
                   local.HasChild(m.chaincode.folder, m.chaincodes[i].name) &&
                   (overwrite || (NamesFree(maps, m.chaincodes[..i]) ==> NamesFree(maps, m.chaincodes[..i + 1])))
    ensures cl.AllHeard() && !ok ==> !local.HasChild(m.chaincode.folder, m.chaincodes[i].name) ||
                                     !(overwrite || NamesFree(maps, m.chaincodes))
  {
    OneMoreMap(maps, m, local, i);
    FreeSoFar(maps, m, local, m.chaincodes, i);
    ok := CreateOrUpdateChaincodeConfigMap(cl, m, local, m.chaincodes[i].name, overwrite);
  }

  method CreateOrUpdateChaincodeConfigMaps(cl: Client, m: Manifest, local: Local, overwrite: bool)
    returns (ok: bool)
    modifies cl`calls, cl`ns
    ensures cl.ns == old(cl.ns).(configMaps := cl.ns.configMaps)
    ensures Between(old(cl.ns).configMaps, Maps(m, local, m.chaincodes), cl.ns.configMaps)
    ensures ok ==> cl.ns.configMaps == old(cl.ns).configMaps + Maps(m, local, m.chaincodes)
    ensures ok ==> HasChildren(m, local, |m.chaincodes|) &&
                   (overwrite || NamesFree(old(cl.ns).configMaps, m.chaincodes))
    ensures cl.AllHeard() ==>
      (ok <==> HasChildren(m, local, |m.chaincodes|) &&
               (overwrite || NamesFree(old(cl.ns).configMaps, m.chaincodes)))
  {
    ghost var maps := cl.ns.configMaps;
    var ccs := m.chaincodes;
    for i := 0 to |ccs|
      invariant cl.ns == old(cl.ns).(configMaps := maps + Maps(m, local, ccs[..i]))
      invariant HasChildren(m, local, i)
      invariant overwrite || NamesFree(maps, ccs[..i])
    {
      var made := NextConfigMap(cl, m, local, i, overwrite, maps);
      if !made {
        return false;
      }
    }
    assert ccs[..|ccs|] == ccs;
    PrefixIsBetween(maps, m, local, ccs, |ccs|);
    return true;
  }

  // Each upload replaces the reference to this machine in the manifest.
  method UploadConfigtx(cl: Client, network: Network, local: Local) returns (ok: bool)
    modifies cl`calls, cl`ns, network
    ensures var m := old(network.spec);
            var made := old(cl.ns).(secrets := old(cl.ns).secrets + ConfigtxUpload(m, local));
            (cl.ns == old(cl.ns) || cl.ns == made) && (ok ==> cl.ns == made)
    ensures var m := old(network.spec);
            network.spec == if ok && m.configtx.file != "" then m.(configtx := Source(CONFIGTX, "")) else m
    ensures var m := old(network.spec);
            (ok ==> (m.configtx.file != "" ==> local.HasFile(m.configtx.file))) &&
            (cl.AllHeard() ==> (ok <==> (m.configtx.file != "" ==> local.HasFile(m.configtx.file))))
  {
    if network.spec.configtx.file == "" {
      assert cl.ns.secrets + map[] == cl.ns.secrets;
      return true;
    }
    ok := CreateOrUpdateConfigtxSecret(cl, network.spec, local);
    if ok {
      network.spec := network.spec.(configtx := Source(CONFIGTX, ""));
    }
  }

  method UploadCrypto(cl: Client, network: Network, local: Local) returns (ok: bool)
    modifies cl`calls, cl`ns, network
    ensures var m := old(network.spec);
            var made := old(cl.ns).(secrets := old(cl.ns).secrets + CryptoUpload(m, local));
            (cl.ns == old(cl.ns) || cl.ns == made) && (ok ==> cl.ns == made)
    ensures var m := old(network.spec);
            network.spec == if ok && m.crypto.file != "" then m.(crypto := Source(CRYPTO, "")) else m
    ensures var m := old(network.spec);
            (ok ==> (m.crypto.file != "" ==> local.HasFolder(m.crypto.file))) &&
            (cl.AllHeard() ==> (ok <==> (m.crypto.file != "" ==> local.HasFolder(m.crypto.file))))
  {
    if network.spec.crypto.file == "" {
      assert cl.ns.secrets + map[] == cl.ns.secrets;
      return true;
    }
    ok := CreateOrUpdateCryptoConfigSecret(cl, network.spec, local);
    if ok {
      network.spec := network.spec.(crypto := Source(CRYPTO, ""));
    }
  }

  method UploadChaincodes(cl: Client, network: Network, local: Local, overwrite: bool) returns (ok: bool)
    modifies cl`calls, cl`ns, network
    ensures cl.ns == old(cl.ns).(configMaps := cl.ns.configMaps)
    ensures Between(old(cl.ns).configMaps, MapUploads(old(network.spec), local), cl.ns.configMaps)
    ensures ok ==> cl.ns.configMaps == old(cl.ns).configMaps + MapUploads(old(network.spec), local)
    ensures var m := old(network.spec);
            network.spec == if ok then m.(chaincode := m.chaincode.(folder := "")) else m
    ensures ok ==> ChaincodesGo(old(cl.ns), old(network.spec), local, overwrite)
    ensures cl.AllHeard() ==> (ok <==> ChaincodesGo(old(cl.ns), old(network.spec), local, overwrite))
  {
    BetweenTwo(cl.ns.configMaps, MapUploads(network.spec, local), map[]);
    if network.spec.chaincode.folder == "" {
      assert cl.ns.configMaps + map[] == cl.ns.configMaps;
      return true;
    }
    ok := CreateOrUpdateChaincodeConfigMaps(cl, network.spec, local, overwrite);
    if ok {
      network.spec := network.spec.(chaincode := network.spec.chaincode.(folder := ""));
    }
  }

  method UploadAll(cl: Client, network: Network, local: Local, overwrite: bool) returns (ok: bool)
    modifies cl`calls, cl`ns, network
    ensures cl.ns.networks == old(cl.ns).networks
    ensures Between(old(cl.ns).secrets, SecretUploads(old(network.spec), local), cl.ns.secrets)
    ensures Between(old(cl.ns).configMaps, MapUploads(old(network.spec), local), cl.ns.configMaps)
    ensures ok ==> cl.ns.secrets == old(cl.ns).secrets + SecretUploads(old(network.spec), local) &&
                   cl.ns.configMaps == old(cl.ns).configMaps + MapUploads(old(network.spec), local) &&
                   network.spec == Submitted(old(network.spec))
    ensures ok ==> UploadsGo(old(cl.ns), old(network.spec), local, overwrite)
    ensures cl.AllHeard() ==> (ok <==> UploadsGo(old(cl.ns), old(network.spec), local, overwrite))
  {
    ghost var m := network.spec;
    BetweenTwo(cl.ns.secrets, ConfigtxUpload(m, local), CryptoUpload(m, local));
    BetweenTwo(cl.ns.configMaps, MapUploads(m, local), map[]);
    ok := UploadConfigtx(cl, network, local);
    if ok {
      assert CryptoUpload(network.spec, local) == CryptoUpload(m, local);
      ok := UploadCrypto(cl, network, local);
    }
    if ok {
      SameMaps(network.spec, m, local);
      ok := UploadChaincodes(cl, network, local, overwrite);
    }
  }

  method SubmitNewNetwork(cl: Client, network: Network, local: Local, overwrite: bool) returns (ok: bool)
    modifies cl`calls, cl`ns, network
    ensures Interrupted(old(cl.ns), old(network.spec), local, cl.ns)
    ensures ok ==> Acceptable(old(cl.ns), old(network.spec), local, overwrite) &&
                   cl.ns == Created(old(cl.ns), old(network.spec), local)
    ensures cl.AllHeard() ==> (ok <==> Acceptable(old(cl.ns), old(network.spec), local, overwrite))
    ensures Acceptable(old(cl.ns), old(network.spec), local, overwrite) <==>
            !Unacceptable(old(cl.ns), old(network.spec), local, overwrite)
  {
    ghost var m := network.spec;
    AcceptedExactly(cl.ns, m, local, overwrite);
    BetweenTwo(cl.ns.secrets, ConfigtxUpload(m, local), CryptoUpload(m, local));
    BetweenTwo(cl.ns.configMaps, MapUploads(m, local), map[]);
    AcceptableParts(cl.ns, m, local, overwrite);
    var listed := cl.Ask();
    if !listed.Heard? || cl.ns.networks != map[] {
      return false;
    }
    ok := ValidateNewNetwork(cl, network.spec, overwrite);
    if ok {
      ok := UploadAll(cl, network, local, overwrite);
    }
    if ok {
      ok := cl.CreateNetwork(network.spec);
    }
  }

  /* ---- delete ---- */

  method DeleteSecrets(cl: Client, name: string) returns (ok: bool)
    modifies cl`calls, cl`ns
    ensures cl.ns == old(cl.ns).(secrets := cl.ns.secrets)
    ensures Shrinking(old(cl.ns).secrets, name, cl.ns.secrets)
    ensures ok ==> cl.ns.secrets == Without(old(cl.ns).secrets, name)
    ensures cl.AllHeard() ==> ok
  {
    ghost var s := cl.ns.secrets;
    var a := cl.Ask();
    if !a.Heard? {
      return false;
    }
    var items := Listed(Labelled(cl.ns.secrets, name));
    ghost var gone: set<string> := {};
    for i := 0 to |items|
      invariant gone <= Labelled(s, name)
      invariant forall k :: k in gone <==> k in items[..i]
      invariant cl.ns == old(cl.ns).(secrets := s - gone)
    {
      RemovedLabelled(s, name, gone);
      RemovedLabelled(s, name, gone + {items[i]});
      assert (s - gone) - {items[i]} == s - (gone + {items[i]});
      ok := cl.DeleteSecret(items[i]);
      if !ok {
        return false;
      }
      gone := gone + {items[i]};
    }
    assert gone == Labelled(s, name);
    RemovedLabelled(s, name, gone);
    return true;
  }

  method DeleteConfigMaps(cl: Client, name: string) returns (ok: bool)
    modifies cl`calls, cl`ns
    ensures cl.ns == old(cl.ns).(configMaps := cl.ns.configMaps)
    ensures Shrinking(old(cl.ns).configMaps, name, cl.ns.configMaps)
    ensures ok ==> cl.ns.configMaps == Without(old(cl.ns).configMaps, name)
    ensures cl.AllHeard() ==> ok
  {
    ghost var s := cl.ns.configMaps;
    var a := cl.Ask();
    if !a.Heard? {
      return false;
    }
    var items := Listed(Labelled(cl.ns.configMaps, name));
    ghost var gone: set<string> := {};
    for i := 0 to |items|
      invariant gone <= Labelled(s, name)
      invariant forall k :: k in gone <==> k in items[..i]
      invariant cl.ns == old(cl.ns).(configMaps := s - gone)
    {
      RemovedLabelled(s, name, gone);
      RemovedLabelled(s, name, gone + {items[i]});
      assert (s - gone) - {items[i]} == s - (gone + {items[i]});
      ok := cl.DeleteConfigMap(items[i]);
      if !ok {
        return false;
      }
      gone := gone + {items[i]};
    }
    assert gone == Labelled(s, name);
    RemovedLabelled(s, name, gone);
    return true;
  }

  // A network that is not there ends the command: what an interrupted delete left stays.
  method DeleteNetwork(cl: Client, name: string, keepResources: bool) returns (ok: bool)
    modifies cl`calls, cl`ns
    ensures name !in old(cl.ns).networks ==> !ok && cl.ns == old(cl.ns)
    ensures ok ==> cl.ns == if keepResources then old(cl.ns).(networks := old(cl.ns).networks - {name})
                            else Deleted(old(cl.ns), name)
    ensures ok && !keepResources ==>
      LosesCarriers(old(cl.ns).secrets, name, cl.ns.secrets) &&
      LosesCarriers(old(cl.ns).configMaps, name, cl.ns.configMaps)
    ensures cl.ns == old(cl.ns) ||
            (cl.ns.networks == old(cl.ns).networks - {name} &&
             Shrinking(old(cl.ns).secrets, name, cl.ns.secrets) &&
             Shrinking(old(cl.ns).configMaps, name, cl.ns.configMaps))
    ensures cl.AllHeard() ==> (ok <==> name in old(cl.ns).networks)
  {
    var got := cl.Ask();
    if !got.Heard? || name !in cl.ns.networks {
      return false;
    }
    ok := cl.DeleteNetwork(name);
    if !ok || keepResources {
      return ok;
    }
    ok := DeleteSecrets(cl, name);
    if ok {
      ok := DeleteConfigMaps(cl, name);
    }
  }
}
