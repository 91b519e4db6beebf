/**
 The checks of an upgrade history (infrastructure/zk/src/verify-upgrade.ts:274-361): equal bytecodes between
 environments, and forced deployments that match the changed contracts.
 */
module UpgradeChecks {
  import opened FiniteSets
  import opened Wrappers
  import opened UpgradeHistory

  // ---------- Consistency between environments ----------

  // Both environments have the same contracts with the same bytecodes.
  ghost predicate SameBytecodes(a: ChainState, b: ChainState) {
    && a.bootloader.bytecode == b.bootloader.bytecode
    && a.defaultAA.bytecode == b.defaultAA.bytecode
    && a.systemContracts.Keys == b.systemContracts.Keys
    && forall name :: name in a.systemContracts ==> a.systemContracts[name].bytecode == b.systemContracts[name].bytecode
  }

  // The keys of a map, in the order in which they were inserted.
  ghost predicate KeysOf(keys: seq<string>, m: Contracts) {
    && (forall i :: 0 <= i < |keys| ==> keys[i] in m)
    && (forall name :: name in m ==> name in keys)
    && (forall i, j :: 0 <= i < j < |keys| ==> keys[i] != keys[j])
  }

  /** The two loops of the check succeed exactly if the bytecodes are the same. */
  method CheckBytecodeConsistency(a: ChainState, b: ChainState, keysA: seq<string>, keysB: seq<string>)
    returns (ok: bool)
    requires KeysOf(keysA, a.systemContracts) && KeysOf(keysB, b.systemContracts)
    ensures ok <==> SameBytecodes(a, b)
  {
    if a.bootloader.bytecode != b.bootloader.bytecode || a.defaultAA.bytecode != b.defaultAA.bytecode {
      return false;
    }
    for i := 0 to |keysA|
      invariant forall j :: 0 <= j < i ==>
        keysA[j] in b.systemContracts && a.systemContracts[keysA[j]].bytecode == b.systemContracts[keysA[j]].bytecode
    {
      var key := keysA[i];
      if key !in b.systemContracts || a.systemContracts[key].bytecode != b.systemContracts[key].bytecode {
        assert key in a.systemContracts.Keys;
        return false;
      }
    }
    for i := 0 to |keysB|
      invariant forall j :: 0 <= j < i ==> keysB[j] in a.systemContracts
    {
      if keysB[i] !in a.systemContracts {
        assert keysB[i] in b.systemContracts.Keys;
        return false;
      }
    }
    ok := true;
  }

  // Environments that are both present have the same bytecodes.
  ghost predicate Agree(a: Option<ChainState>, b: Option<ChainState>) {
    a.Some? && b.Some? ==> SameBytecodes(a.value, b.value)
  }

  // The keys of every map in the order of their insertion, whatever it was.
  type KeyOrder = Contracts -> seq<string>

  ghost predicate IsKeyOrder(order: KeyOrder) {
    forall contracts :: KeysOf(order(contracts), contracts)
  }

  lemma KeyOrderExists()
    ensures exists order :: IsKeyOrder(order)
  {
    ghost var order: KeyOrder := (contracts: Contracts) => AnyOrder(contracts.Keys);
    forall contracts ensures KeysOf(order(contracts), contracts) {
      AnyOrderEnumerates(contracts.Keys);
      assert forall i :: 0 <= i < |order(contracts)| ==> order(contracts)[i] in order(contracts);
    }
    assert IsKeyOrder(order);
  }

  // A comparison with `stage2`. Where `stage2` is missing, reading its bootloader throws, which counts as a failure.
  method CompareWithStage(chain: ChainState, stage: Option<ChainState>, order: KeyOrder) returns (ok: bool)
    requires IsKeyOrder(order)
    ensures ok <==> stage.Some? && SameBytecodes(chain, stage.value)
  {
    if stage.None? {
      return false;
    }
    assert KeysOf(order(chain.systemContracts), chain.systemContracts);
    assert KeysOf(order(stage.value.systemContracts), stage.value.systemContracts);
    ok := CheckBytecodeConsistency(chain, stage.value, order(chain.systemContracts),
                                   order(stage.value.systemContracts));
  }

  /** The check of a version compares testnet and mainnet with `stage2` only. It passes exactly if any two environments
      that are present have the same bytecodes, and `stage2` is not missing where another one is present. */
  method CheckVersion(chains: Chains, order: KeyOrder) returns (ok: bool)
    requires IsKeyOrder(order)
    ensures ok <==>
            && Agree(chains.testnet2, chains.stage2) && Agree(chains.mainnet2, chains.stage2)
            && Agree(chains.testnet2, chains.mainnet2)
            && (chains.stage2.None? ==> chains.testnet2.None? && chains.mainnet2.None?)
  {
    ok := true;
    if chains.testnet2.Some? {
      ok := CompareWithStage(chains.testnet2.value, chains.stage2, order);
    }
    if ok && chains.mainnet2.Some? {
      ok := CompareWithStage(chains.mainnet2.value, chains.stage2, order);
    }
  }

  // ---------- Forced deployments ----------

  predicate IsPlain(d: Deployment) {
    d.value == 0 && d.input == "0x" && !d.callConstructor
  }

  // The deployment puts the bytecode of the contract at its address.
  predicate Serves(d: Deployment, name: string, contracts: Contracts) {
    && name in contracts && contracts[name].wasChanged
    && d.bytecodeHash == contracts[name].bytecode
    && name in SYSTEM_CONTRACT_MAP && d.newAddress == SYSTEM_CONTRACT_MAP[name]
  }

  ghost predicate DistinctHashes(deployments: seq<Deployment>) {
    forall i, j :: 0 <= i < j < |deployments| ==> deployments[i].bytecodeHash != deployments[j].bytecodeHash
  }

  // Plain deployments with distinct bytecodes, in one-to-one correspondence with the changed contracts.
  ghost predicate MatchOneToOne(deployments: seq<Deployment>, contracts: Contracts) {
    && (forall i :: 0 <= i < |deployments| ==> IsPlain(deployments[i]))
    && DistinctHashes(deployments)
    && (forall name :: name in contracts && contracts[name].wasChanged ==> IsServed(deployments, name, contracts))
    && (forall i :: 0 <= i < |deployments| ==> ServesSome(deployments[i], contracts))
    && DistinctChanges(contracts)
  }

  ghost predicate DistinctChanges(contracts: Contracts) {
    forall m, n :: m in contracts && n in contracts && contracts[m].wasChanged && contracts[n].wasChanged && m != n
                   ==> contracts[m].bytecode != contracts[n].bytecode
  }

  ghost predicate IsServed(deployments: seq<Deployment>, name: string, contracts: Contracts) {
    exists i :: 0 <= i < |deployments| && Serves(deployments[i], name, contracts)
  }

  ghost predicate ServesSome(d: Deployment, contracts: Contracts) {
    exists name :: Serves(d, name, contracts)
  }

  // The map filled by the first loop: each deployment under its bytecode.
  ghost predicate Filed(filed: map<string, Deployment>, deployments: seq<Deployment>) {
    && (forall i :: 0 <= i < |deployments| ==>
          deployments[i].bytecodeHash in filed && filed[deployments[i].bytecodeHash] == deployments[i])
    && (forall hash :: hash in filed ==> filed[hash] in deployments && filed[hash].bytecodeHash == hash)
  }

  // One more deployment, with a new bytecode.
  lemma FileOne(filed: map<string, Deployment>, deployments: seq<Deployment>, d: Deployment)
    requires Filed(filed, deployments) && d.bytecodeHash !in filed
    ensures Filed(filed[d.bytecodeHash := d], deployments + [d])
    ensures DistinctHashes(deployments) ==> DistinctHashes(deployments + [d])
  {
    var more, all := deployments + [d], filed[d.bytecodeHash := d];
    assert more[|deployments|] == d;
    forall hash | hash in all ensures all[hash] in more {
      if hash != d.bytecodeHash { assert filed[hash] in deployments; }
    }
  }

  // A bytecode that is filed already belongs to an earlier deployment.
  lemma FiledTwice(filed: map<string, Deployment>, deployments: seq<Deployment>, i: nat)
    requires i < |deployments| && Filed(filed, deployments[..i]) && deployments[i].bytecodeHash in filed
    ensures !DistinctHashes(deployments)
  {
    var j :| 0 <= j < i && deployments[..i][j] == filed[deployments[i].bytecodeHash];
    assert deployments[j].bytecodeHash == deployments[i].bytecodeHash;
  }

  // Fills the map, or fails on a deployment that is not plain or repeats a bytecode.
  method FileDeployments(deployments: seq<Deployment>) returns (ok: bool, filed: map<string, Deployment>)
    ensures ok <==> DistinctHashes(deployments) && forall i :: 0 <= i < |deployments| ==> IsPlain(deployments[i])
    ensures ok ==> Filed(filed, deployments)
  {
    filed := map[];
    for i := 0 to |deployments|
      invariant Filed(filed, deployments[..i]) && DistinctHashes(deployments[..i])
      invariant forall j :: 0 <= j < i ==> IsPlain(deployments[j])
    {
      var d := deployments[i];
      if d.bytecodeHash in filed {
        FiledTwice(filed, deployments, i);
        return false, filed;
      }
      if d.value != 0 {
        return false, filed;
      }
      if d.input != "0x" {
        return false, filed;
      }
      if d.callConstructor {
        return false, filed;
      }
      FileOne(filed, deployments[..i], d);
      assert deployments[..i + 1] == deployments[..i] + [d];
      filed := filed[d.bytecodeHash := d];
    }
    assert deployments[..|deployments|] == deployments;
    ok := true;
  }

  predicate Changed(contracts: Contracts, keys: seq<string>, j: nat)
    requires j < |keys|
  {
    keys[j] in contracts && contracts[keys[j]].wasChanged
  }

  // A changed contract before position `n` has this bytecode.
  ghost predicate Taken(contracts: Contracts, keys: seq<string>, n: nat, hash: string)
    requires n <= |keys|
  {
    exists j :: 0 <= j < n && Changed(contracts, keys, j) && contracts[keys[j]].bytecode == hash
  }

  // The deployment of the contract at position `j` was found, and no earlier contract had its bytecode.
  ghost predicate Found(filed: map<string, Deployment>, contracts: Contracts, keys: seq<string>, j: nat)
    requires j < |keys| && Changed(contracts, keys, j)
  {
    var hash := contracts[keys[j]].bytecode;
    hash in filed && Serves(filed[hash], keys[j], contracts) && !Taken(contracts, keys, j, hash)
  }

  // What is left in the map after the contracts before position `n` are checked off.
  ghost predicate CheckedOff(left: map<string, Deployment>, filed: map<string, Deployment>, contracts: Contracts,
                             keys: seq<string>, n: nat)
    requires n <= |keys|
  {
    && (forall hash :: hash in left <==> hash in filed && !Taken(contracts, keys, n, hash))
    && (forall hash :: hash in left ==> left[hash] == filed[hash])
    && (forall j :: 0 <= j < n && Changed(contracts, keys, j) ==> Found(filed, contracts, keys, j))
  }

  lemma MatchedWhenAllCheckedOff(filed: map<string, Deployment>, contracts: Contracts, keys: seq<string>,
                                 deployments: seq<Deployment>)
    requires KeysOf(keys, contracts) && Filed(filed, deployments) && DistinctHashes(deployments)
    requires forall i :: 0 <= i < |deployments| ==> IsPlain(deployments[i])
    requires CheckedOff(map[], filed, contracts, keys, |keys|)
    ensures MatchOneToOne(deployments, contracts)
  {
    forall name | name in contracts && contracts[name].wasChanged ensures IsServed(deployments, name, contracts) {
      var j :| 0 <= j < |keys| && keys[j] == name;
      assert Changed(contracts, keys, j);
      var d := filed[contracts[name].bytecode];
      var i :| 0 <= i < |deployments| && deployments[i] == d;
      assert Serves(deployments[i], name, contracts);
    }
    forall i | 0 <= i < |deployments| ensures ServesSome(deployments[i], contracts) {
      var hash := deployments[i].bytecodeHash;
      assert Taken(contracts, keys, |keys|, hash);
      var j :| 0 <= j < |keys| && Changed(contracts, keys, j) && contracts[keys[j]].bytecode == hash;
      assert Serves(deployments[i], keys[j], contracts);
    }
    DistinctBytecodes(filed, contracts, keys);
  }

  lemma DistinctBytecodes(filed: map<string, Deployment>, contracts: Contracts, keys: seq<string>)
    requires KeysOf(keys, contracts)
    requires forall j :: 0 <= j < |keys| && Changed(contracts, keys, j) ==> Found(filed, contracts, keys, j)
    ensures DistinctChanges(contracts)
  {
    forall m, n | m in contracts && n in contracts && contracts[m].wasChanged && contracts[n].wasChanged && m != n
      ensures contracts[m].bytecode != contracts[n].bytecode
    {
      var i :| 0 <= i < |keys| && keys[i] == m;
      var j :| 0 <= j < |keys| && keys[j] == n;
      assert Changed(contracts, keys, i) && Changed(contracts, keys, j);
      assert Found(filed, contracts, keys, i) && Found(filed, contracts, keys, j);
    }
  }

  // In a one-to-one correspondence the deployment filed under a changed bytecode serves that contract.
  lemma FiledServes(filed: map<string, Deployment>, contracts: Contracts, deployments: seq<Deployment>, name: string)
    requires Filed(filed, deployments) && MatchOneToOne(deployments, contracts)
    requires name in contracts && contracts[name].wasChanged
    ensures contracts[name].bytecode in filed && Serves(filed[contracts[name].bytecode], name, contracts)
  {
    assert IsServed(deployments, name, contracts);
  }

  lemma TakenNext(contracts: Contracts, keys: seq<string>, n: nat, hash: string)
    requires n < |keys|
    ensures Taken(contracts, keys, n + 1, hash) <==>
              Taken(contracts, keys, n, hash) || (Changed(contracts, keys, n) && contracts[keys[n]].bytecode == hash)
  {
  }

  // A contract that did not change leaves the map alone; one whose deployment is found takes it off the map.
  lemma CheckOffOne(left: map<string, Deployment>, filed: map<string, Deployment>, contracts: Contracts,
                    keys: seq<string>, n: nat)
    requires n < |keys| && keys[n] in contracts && CheckedOff(left, filed, contracts, keys, n)
    requires forall hash :: hash in filed ==> filed[hash].bytecodeHash == hash
    requires Changed(contracts, keys, n) ==>
               var hash := contracts[keys[n]].bytecode;
               hash in left && keys[n] in SYSTEM_CONTRACT_MAP && left[hash].newAddress == SYSTEM_CONTRACT_MAP[keys[n]]
    ensures CheckedOff(if Changed(contracts, keys, n) then left - {contracts[keys[n]].bytecode} else left,
                       filed, contracts, keys, n + 1)
  {
    forall hash: string
      ensures Taken(contracts, keys, n + 1, hash) <==>
                Taken(contracts, keys, n, hash) || (Changed(contracts, keys, n) && contracts[keys[n]].bytecode == hash)
    {
      TakenNext(contracts, keys, n, hash);
    }
  }

  // A changed contract whose deployment is missing, was taken by another contract, or has the wrong address.
  lemma CheckFails(left: map<string, Deployment>, filed: map<string, Deployment>, contracts: Contracts,
                   keys: seq<string>, n: nat, deployments: seq<Deployment>)
    requires KeysOf(keys, contracts) && Filed(filed, deployments)
    requires n < |keys| && CheckedOff(left, filed, contracts, keys, n) && contracts[keys[n]].wasChanged
    requires var state := contracts[keys[n]];
             state.bytecode !in left || keys[n] !in SYSTEM_CONTRACT_MAP
             || left[state.bytecode].newAddress != SYSTEM_CONTRACT_MAP[keys[n]]
    ensures !MatchOneToOne(deployments, contracts)
  {
    if MatchOneToOne(deployments, contracts) {
      FiledServes(filed, contracts, deployments, keys[n]);
    }
  }

  // A deployment that is left over serves no contract.
  lemma UnservedDeployment(hash: string, left: map<string, Deployment>, filed: map<string, Deployment>,
                           contracts: Contracts, keys: seq<string>, deployments: seq<Deployment>)
    requires KeysOf(keys, contracts) && Filed(filed, deployments)
    requires CheckedOff(left, filed, contracts, keys, |keys|) && hash in left
    ensures !MatchOneToOne(deployments, contracts)
  {
    var i :| 0 <= i < |deployments| && deployments[i] == filed[hash];
    forall name: string ensures !Serves(deployments[i], name, contracts) {
      if name in contracts {
        var j :| 0 <= j < |keys| && keys[j] == name;
      }
    }
    assert !ServesSome(deployments[i], contracts);
  }

  /** Filling and emptying the map succeeds exactly if the forced deployments are in one-to-one correspondence with
      the changed system contracts, by bytecode and with the right addresses, all of them with zero value, empty
      input and no constructor call. */
  method CheckForceDeployments(contracts: Contracts, keys: seq<string>, deployments: seq<Deployment>) returns (ok: bool)
    requires KeysOf(keys, contracts)
    ensures ok <==> MatchOneToOne(deployments, contracts)
  {
    var filled, filed := FileDeployments(deployments);
    if !filled {
      return false;
    }
    var forceDeploymentMap := filed;
    for n := 0 to |keys|
      invariant CheckedOff(forceDeploymentMap, filed, contracts, keys, n)
    {
      var key := keys[n];
      var state := contracts[key];
      if state.wasChanged {
        if state.bytecode !in forceDeploymentMap || key !in SYSTEM_CONTRACT_MAP
          || forceDeploymentMap[state.bytecode].newAddress != SYSTEM_CONTRACT_MAP[key]
        {
          CheckFails(forceDeploymentMap, filed, contracts, keys, n, deployments);
          return false;
        }
        CheckOffOne(forceDeploymentMap, filed, contracts, keys, n);
        forceDeploymentMap := forceDeploymentMap - {state.bytecode};
      } else {
        CheckOffOne(forceDeploymentMap, filed, contracts, keys, n);
      }
    }
    if |forceDeploymentMap| > 0 {
      ghost var hash :| hash in forceDeploymentMap;
      UnservedDeployment(hash, forceDeploymentMap, filed, contracts, keys, deployments);
      return false;
    }
    assert forceDeploymentMap == map[];
    MatchedWhenAllCheckedOff(filed, contracts, keys, deployments);
    ok := true;
  }

  // The deployment puts the bytecode that the file lists for a contract at the address of the contract.
  ghost predicate Deploys(d: Deployment, l2: L2Upgrade, name: string) {
    && name in SYSTEM_CONTRACT_MAP && d.newAddress == SYSTEM_CONTRACT_MAP[name]
    && Listed(l2.systemContracts, name) == Some(d.bytecodeHash)
  }

  ghost predicate IsDeployed(l2: L2Upgrade, name: string) {
    exists i :: 0 <= i < |l2.forcedDeployments| && Deploys(l2.forcedDeployments[i], l2, name)
  }

  ghost predicate DeploysSome(d: Deployment, l2: L2Upgrade) {
    exists name :: Deploys(d, l2, name)
  }

  // The listed contracts are deployed, all of them and nothing else, by plain deployments with distinct bytecodes.
  ghost predicate DeploysWhatIsListed(l2: L2Upgrade) {
    && (forall i :: 0 <= i < |l2.forcedDeployments| ==> IsPlain(l2.forcedDeployments[i]))
    && DistinctHashes(l2.forcedDeployments)
    && (forall name :: Listed(l2.systemContracts, name).Some? ==> IsDeployed(l2, name))
    && (forall i :: 0 <= i < |l2.forcedDeployments| ==> DeploysSome(l2.forcedDeployments[i], l2))
  }

  // The changed contracts of a loaded state are those of the file, with their listed bytecodes.
  ghost predicate ChangesAreListed(l2: L2Upgrade, contracts: Contracts) {
    forall name :: IsListedChange(l2, contracts, name)
  }

  ghost predicate IsListedChange(l2: L2Upgrade, contracts: Contracts, name: string) {
    && (Listed(l2.systemContracts, name).Some? <==> name in contracts && contracts[name].wasChanged)
    && (Listed(l2.systemContracts, name).Some? ==>
          && Listed(l2.systemContracts, name) == Some(contracts[name].bytecode)
          && name in SYSTEM_CONTRACT_MAP)
  }

  lemma LoadedChangesAreListed(l2: L2Upgrade, prev: Option<ChainState>)
    requires LoadChainState(Present(l2), prev).Ok?
    ensures ChangesAreListed(l2, LoadChainState(Present(l2), prev).value.value.systemContracts)
  {
    forall name: string
      ensures IsListedChange(l2, LoadChainState(Present(l2), prev).value.value.systemContracts, name)
    {
      AddContractsMeaning(CarriedOver(prev), l2.systemContracts, name);
    }
  }

  lemma ServesIsDeploys(l2: L2Upgrade, contracts: Contracts, d: Deployment, name: string)
    requires ChangesAreListed(l2, contracts)
    ensures Serves(d, name, contracts) <==> Deploys(d, l2, name)
  {
    assert IsListedChange(l2, contracts, name);
  }

  // The contract that has an address, told from its last digit.
  function OwnerOf(digit: char): string {
    match digit
    case '2' => "AccountCodeStorage"
    case '3' => "NonceHolder"
    case '4' => "KnownCodesStorage"
    case '5' => "ImmutableSimulator"
    case '6' => "ContractDeployer"
    case '8' => "L1Messenger"
    case '9' => "MsgValueSimulator"
    case 'a' => "L2BaseToken"
    case 'b' => "SystemContext"
    case 'c' => "BootloaderUtilities"
    case 'e' => "BytecodeCompressor"
    case _ => "ComplexUpgrader"
  }

  lemma AddressTellsContract(name: string)
    requires name in SYSTEM_CONTRACT_MAP
    ensures |SYSTEM_CONTRACT_MAP[name]| == 42 && OwnerOf(SYSTEM_CONTRACT_MAP[name][41]) == name
    ensures SYSTEM_CONTRACT_MAP[name][..41] == "0x000000000000000000000000000000000000800"
  {
  }

  lemma {:induction false} DeployedBytecodesDiffer(l2: L2Upgrade, m: string, n: string)
    requires DeploysWhatIsListed(l2) && m != n
    requires Listed(l2.systemContracts, m).Some? && Listed(l2.systemContracts, n).Some?
    ensures Listed(l2.systemContracts, m) != Listed(l2.systemContracts, n)
  {
    assert IsDeployed(l2, m) && IsDeployed(l2, n);
    var i :| 0 <= i < |l2.forcedDeployments| && Deploys(l2.forcedDeployments[i], l2, m);
    var j :| 0 <= j < |l2.forcedDeployments| && Deploys(l2.forcedDeployments[j], l2, n);
    AddressTellsContract(m);
    AddressTellsContract(n);
    assert i != j;
    if i < j {
      assert l2.forcedDeployments[i].bytecodeHash != l2.forcedDeployments[j].bytecodeHash;
    } else {
      assert l2.forcedDeployments[j].bytecodeHash != l2.forcedDeployments[i].bytecodeHash;
    }
  }

  lemma ListedMatches(l2: L2Upgrade, contracts: Contracts)
    requires ChangesAreListed(l2, contracts) && DeploysWhatIsListed(l2)
    ensures MatchOneToOne(l2.forcedDeployments, contracts)
  {
    forall name | name in contracts && contracts[name].wasChanged
      ensures IsServed(l2.forcedDeployments, name, contracts)
    {
      assert IsListedChange(l2, contracts, name) && IsDeployed(l2, name);
      var i :| 0 <= i < |l2.forcedDeployments| && Deploys(l2.forcedDeployments[i], l2, name);
      ServesIsDeploys(l2, contracts, l2.forcedDeployments[i], name);
    }
    forall i | 0 <= i < |l2.forcedDeployments| ensures ServesSome(l2.forcedDeployments[i], contracts) {
      assert DeploysSome(l2.forcedDeployments[i], l2);
      var name :| Deploys(l2.forcedDeployments[i], l2, name);
      ServesIsDeploys(l2, contracts, l2.forcedDeployments[i], name);
    }
    ListedChangesDiffer(l2, contracts);
  }

  lemma ListedChangesDiffer(l2: L2Upgrade, contracts: Contracts)
    requires ChangesAreListed(l2, contracts) && DeploysWhatIsListed(l2)
    ensures DistinctChanges(contracts)
  {
    forall m, n | m in contracts && n in contracts && contracts[m].wasChanged && contracts[n].wasChanged && m != n
      ensures contracts[m].bytecode != contracts[n].bytecode
    {
      assert IsListedChange(l2, contracts, m) && IsListedChange(l2, contracts, n);
      DeployedBytecodesDiffer(l2, m, n);
    }
  }

  lemma MatchedIsListed(l2: L2Upgrade, contracts: Contracts)
    requires ChangesAreListed(l2, contracts) && MatchOneToOne(l2.forcedDeployments, contracts)
    ensures DeploysWhatIsListed(l2)
  {
    forall name | Listed(l2.systemContracts, name).Some? ensures IsDeployed(l2, name) {
      assert IsListedChange(l2, contracts, name) && IsServed(l2.forcedDeployments, name, contracts);
      var i :| 0 <= i < |l2.forcedDeployments| && Serves(l2.forcedDeployments[i], name, contracts);
      ServesIsDeploys(l2, contracts, l2.forcedDeployments[i], name);
    }
    forall i | 0 <= i < |l2.forcedDeployments| ensures DeploysSome(l2.forcedDeployments[i], l2) {
      assert ServesSome(l2.forcedDeployments[i], contracts);
      var name :| Serves(l2.forcedDeployments[i], name, contracts);
      ServesIsDeploys(l2, contracts, l2.forcedDeployments[i], name);
    }
  }

  /** For a state that was loaded from an upgrade file, the check passes if and only if plain deployments with distinct
      bytecodes deploy the contracts listed in that file, all of them and nothing else, each with the bytecode it is
      listed with. */
  lemma DeploymentsAreTheListedContracts(l2: L2Upgrade, prev: Option<ChainState>)
    requires LoadChainState(Present(l2), prev).Ok?
    ensures MatchOneToOne(l2.forcedDeployments, LoadChainState(Present(l2), prev).value.value.systemContracts) <==>
            DeploysWhatIsListed(l2)
  {
    var contracts := LoadChainState(Present(l2), prev).value.value.systemContracts;
    LoadedChangesAreListed(l2, prev);
    if MatchOneToOne(l2.forcedDeployments, contracts) {
      MatchedIsListed(l2, contracts);
    }
    if DeploysWhatIsListed(l2) {
      ListedMatches(l2, contracts);
    }
  }
}
