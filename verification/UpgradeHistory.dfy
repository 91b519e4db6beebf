/**
 The history of protocol upgrades, folded into the state of three environments
 (infrastructure/zk/src/verify-upgrade.ts:19-227).
 */
module UpgradeHistory {
  import opened Wrappers

  // Every throw of the program is an `Error`.
  datatype Result<+T> = Ok(value: T) | Error

  const LAST_PROTOCOL_VERSION_BEFORE_UPGRADE_SYSTEM: int := 11

  const SYSTEM_CONTRACT_MAP: map<string, string> := map[
    "AccountCodeStorage" := "0x0000000000000000000000000000000000008002",
    "NonceHolder" := "0x0000000000000000000000000000000000008003",
    "KnownCodesStorage" := "0x0000000000000000000000000000000000008004",
    "ImmutableSimulator" := "0x0000000000000000000000000000000000008005",
    "ContractDeployer" := "0x0000000000000000000000000000000000008006",
    "L1Messenger" := "0x0000000000000000000000000000000000008008",
    "MsgValueSimulator" := "0x0000000000000000000000000000000000008009",
    "L2BaseToken" := "0x000000000000000000000000000000000000800a",
    "SystemContext" := "0x000000000000000000000000000000000000800b",
    "BootloaderUtilities" := "0x000000000000000000000000000000000000800c",
    "BytecodeCompressor" := "0x000000000000000000000000000000000000800e",
    "ComplexUpgrader" := "0x000000000000000000000000000000000000800f"]

  // What the upgrade files say.
  datatype SystemContract = SystemContract(name: string, bytecodeHashes: seq<string>, address: Option<string>)
  datatype Deployment =
    Deployment(bytecodeHash: string, newAddress: string, value: int, input: string, callConstructor: bool)
  datatype L2Upgrade = L2Upgrade(
    defaultAA: Option<SystemContract>,
    bootloader: Option<SystemContract>,
    systemContracts: seq<SystemContract>,
    forcedDeployments: seq<Deployment>)
  // The directory of an environment within an upgrade; it may be absent, or lack a readable file.
  datatype EnvDir = Absent | Broken | Present(l2: L2Upgrade)
  datatype Upgrade = Upgrade(protocolVersion: int, mainnet2: EnvDir, testnet2: EnvDir, stage2: EnvDir)

  // What the program derives.
  datatype ContractState = ContractState(bytecode: string, previousBytecode: Option<string>, wasChanged: bool)
  type Contracts = map<string, ContractState>
  datatype ChainState = ChainState(systemContracts: Contracts, bootloader: ContractState, defaultAA: ContractState)
  datatype Chains =
    Chains(mainnet2: Option<ChainState>, testnet2: Option<ChainState>, stage2: Option<ChainState>)

  // ---------- One environment at one version ----------

  function CreateSystemContractState(current: Option<SystemContract>, prev: Option<ContractState>)
    : Result<ContractState>
  {
    match current
    case None => if prev.None? then Error else Ok(ContractState(prev.value.bytecode, None, false))
    case Some(contract) =>
      if |contract.bytecodeHashes| != 1 then Error
      else
        var bytecode := contract.bytecodeHashes[0];
        var previous := if prev.Some? then Some(prev.value.bytecode) else None;
        Ok(ContractState(bytecode, previous, Some(bytecode) != previous))
  }

  // Entries that are taken over from the previous version.
  function CarriedOver(prev: Option<ChainState>): Contracts {
    if prev.None? then map[]
    else
      var contracts := prev.value.systemContracts;
      map name | name in contracts :: ContractState(contracts[name].bytecode, None, false)
  }

  // One element of the list of system contracts.
  function AddContract(entries: Contracts, c: SystemContract): Result<Contracts> {
    if c.name !in SYSTEM_CONTRACT_MAP then Error
    else if Some(SYSTEM_CONTRACT_MAP[c.name]) != c.address then Error
    else if |c.bytecodeHashes| != 1 then Error
    else
      var previous := if c.name in entries then Some(entries[c.name].bytecode) else None;
      Ok(entries[c.name := ContractState(c.bytecodeHashes[0], previous, true)])
  }

  function AddContracts(entries: Contracts, contracts: seq<SystemContract>): Result<Contracts> {
    if contracts == [] then Ok(entries)
    else
      match AddContracts(entries, contracts[..|contracts| - 1])
      case Error => Error
      case Ok(before) => AddContract(before, contracts[|contracts| - 1])
  }

  function LoadChainState(dir: EnvDir, prev: Option<ChainState>): Result<Option<ChainState>> {
    match dir
    case Absent => Ok(None)
    case Broken => Error
    case Present(l2) =>
      var prevAA := if prev.Some? then Some(prev.value.defaultAA) else None;
      match CreateSystemContractState(l2.defaultAA, prevAA)
      case Error => Error
      case Ok(defaultAA) =>
        // The program passes the previous default account here as well.
        match CreateSystemContractState(l2.bootloader, prevAA)
        case Error => Error
        case Ok(bootloader) =>
          match AddContracts(CarriedOver(prev), l2.systemContracts)
          case Error => Error
          case Ok(contracts) => Ok(Some(ChainState(contracts, bootloader, defaultAA)))
  }

  // ---------- One environment over the history ----------

  // The `prev...` variable of an environment after some upgrades. An upgrade without the environment leaves the
  // variable alone, except for `stage2`, where it is overwritten.
  function PrevAfter(dirs: seq<EnvDir>, overwrite: bool): Result<Option<ChainState>> {
    if dirs == [] then Ok(None)
    else
      match PrevAfter(dirs[..|dirs| - 1], overwrite)
      case Error => Error
      case Ok(prev) =>
        match LoadChainState(dirs[|dirs| - 1], prev)
        case Error => Error
        case Ok(loaded) => Ok(if loaded.Some? || overwrite then loaded else prev)
  }

  // The state recorded for the last of some upgrades.
  function RecordedAfter(dirs: seq<EnvDir>, overwrite: bool): Result<Option<ChainState>>
    requires dirs != []
  {
    match PrevAfter(dirs[..|dirs| - 1], overwrite)
    case Error => Error
    case Ok(prev) => LoadChainState(dirs[|dirs| - 1], prev)
  }

  // The bytecode that a list of contracts gives a contract: that of its last entry.
  function Listed(contracts: seq<SystemContract>, name: string): Option<string> {
    if contracts == [] then None
    else
      var c := contracts[|contracts| - 1];
      if c.name == name && |c.bytecodeHashes| == 1 then Some(c.bytecodeHashes[0])
      else Listed(contracts[..|contracts| - 1], name)
  }

  function Hash(contract: Option<SystemContract>): Option<string> {
    if contract.Some? && |contract.value.bytecodeHashes| == 1 then Some(contract.value.bytecodeHashes[0]) else None
  }

  // Which part of an upgrade file to look at.
  datatype Part = Contract(name: string) | DefaultAA | Bootloader

  function Mentioned(l2: L2Upgrade, part: Part): Option<string> {
    match part
    case Contract(name) => Listed(l2.systemContracts, name)
    case DefaultAA => Hash(l2.defaultAA)
    case Bootloader => Hash(l2.bootloader)
  }

  // The latest upgrade that has the environment and mentions the part decides. For an environment whose variable
  // is overwritten, an upgrade without it makes all earlier ones forgotten.
  function Latest(dirs: seq<EnvDir>, overwrite: bool, part: Part): Option<string> {
    if dirs == [] then None
    else
      var before := dirs[..|dirs| - 1];
      match dirs[|dirs| - 1]
      case Present(l2) =>
        if Mentioned(l2, part).Some? then Mentioned(l2, part) else Latest(before, overwrite, part)
      case _ => if overwrite then None else Latest(before, overwrite, part)
  }

  lemma {:induction false} AddContractsMeaning(entries: Contracts, contracts: seq<SystemContract>, name: string)
    requires AddContracts(entries, contracts).Ok?
    requires name in entries ==> !entries[name].wasChanged
    ensures var r := AddContracts(entries, contracts).value;
            var listed := Listed(contracts, name);
            && (name in r <==> listed.Some? || name in entries)
            && (name in r ==> r[name].bytecode == if listed.Some? then listed.value else entries[name].bytecode)
            && (name in r ==> (r[name].wasChanged <==> listed.Some?))
            && (listed.Some? ==> name in SYSTEM_CONTRACT_MAP)
  {
    if contracts != [] {
      AddContractsMeaning(entries, contracts[..|contracts| - 1], name);
    }
  }

  // What the previous state of an environment holds, in terms of the upgrade files.
  ghost predicate Reflects(prev: Option<ChainState>, dirs: seq<EnvDir>, overwrite: bool) {
    match prev
    case None =>
      forall part :: Latest(dirs, overwrite, part).None?
    case Some(state) =>
      && Latest(dirs, overwrite, DefaultAA) == Some(state.defaultAA.bytecode)
      && (forall name :: name in state.systemContracts <==> Latest(dirs, overwrite, Contract(name)).Some?)
      && (forall name :: name in state.systemContracts ==>
            Latest(dirs, overwrite, Contract(name)) == Some(state.systemContracts[name].bytecode))
  }

  lemma LoadReflects(before: seq<EnvDir>, l2: L2Upgrade, overwrite: bool, prev: Option<ChainState>)
    requires Reflects(prev, before, overwrite)
    requires LoadChainState(Present(l2), prev).Ok?
    ensures Reflects(LoadChainState(Present(l2), prev).value, before + [Present(l2)], overwrite)
  {
    var dirs := before + [Present(l2)];
    assert dirs[..|dirs| - 1] == before;
    var state := LoadChainState(Present(l2), prev).value.value;
    forall name: string
      ensures name in state.systemContracts <==> Latest(dirs, overwrite, Contract(name)).Some?
      ensures name in state.systemContracts ==>
                Latest(dirs, overwrite, Contract(name)) == Some(state.systemContracts[name].bytecode)
    {
      AddContractsMeaning(CarriedOver(prev), l2.systemContracts, name);
    }
  }

  lemma {:induction false} PrevReflects(dirs: seq<EnvDir>, overwrite: bool)
    requires PrevAfter(dirs, overwrite).Ok?
    ensures Reflects(PrevAfter(dirs, overwrite).value, dirs, overwrite)
  {
    if dirs != [] {
      var before, dir := dirs[..|dirs| - 1], dirs[|dirs| - 1];
      PrevReflects(before, overwrite);
      if dir.Present? {
        LoadReflects(before, dir.l2, overwrite, PrevAfter(before, overwrite).value);
        assert dirs == before + [dir];
      }
    }
  }

  /** The state recorded for an environment exists exactly if the upgrade has it. Then the bytecode of the default
      account and of every system contract is the one that the latest upgrade up to this one gives it, across
      upgrades that skip the environment, and a contract counts as changed exactly if this upgrade lists it. */
  lemma {:induction false} BytecodesCarryForward(dirs: seq<EnvDir>, overwrite: bool, name: string)
    requires dirs != [] && RecordedAfter(dirs, overwrite).Ok?
    ensures var recorded := RecordedAfter(dirs, overwrite).value;
            var dir := dirs[|dirs| - 1];
            && (recorded.Some? <==> dir.Present?)
            && (recorded.Some? ==>
                  var contracts := recorded.value.systemContracts;
                  && Latest(dirs, overwrite, DefaultAA) == Some(recorded.value.defaultAA.bytecode)
                  && (name in contracts <==> Latest(dirs, overwrite, Contract(name)).Some?)
                  && (name in contracts ==>
                        && name in SYSTEM_CONTRACT_MAP
                        && Latest(dirs, overwrite, Contract(name)) == Some(contracts[name].bytecode)
                        && (contracts[name].wasChanged <==> Mentioned(dir.l2, Contract(name)).Some?)))
  {
    var before, dir := dirs[..|dirs| - 1], dirs[|dirs| - 1];
    PrevReflects(before, overwrite);
    var prev := PrevAfter(before, overwrite).value;
    if dir.Present? {
      LoadReflects(before, dir.l2, overwrite, prev);
      assert dirs == before + [dir];
      AddContractsMeaning(CarriedOver(prev), dir.l2.systemContracts, name);
      KnownNames(before, overwrite, name);
    }
  }

  lemma {:induction false} KnownNames(dirs: seq<EnvDir>, overwrite: bool, name: string)
    requires PrevAfter(dirs, overwrite).Ok?
    ensures var prev := PrevAfter(dirs, overwrite).value;
            prev.Some? && name in prev.value.systemContracts ==> name in SYSTEM_CONTRACT_MAP
  {
    if dirs != [] {
      var before, dir := dirs[..|dirs| - 1], dirs[|dirs| - 1];
      KnownNames(before, overwrite, name);
      if dir.Present? {
        AddContractsMeaning(CarriedOver(PrevAfter(before, overwrite).value), dir.l2.systemContracts, name);
      }
    }
  }

  /** For `stage2`, an upgrade without it makes everything before it forgotten. */
  lemma {:induction false} StageForgets(before: seq<EnvDir>, after: seq<EnvDir>, part: Part)
    requires forall i :: 0 <= i < |after| ==> after[i].Present?
    ensures Latest(before + [Absent] + after, true, part) == Latest(after, false, part)
  {
    var dirs := before + [Absent] + after;
    if after != [] {
      StageForgets(before, after[..|after| - 1], part);
      assert dirs[..|dirs| - 1] == before + [Absent] + after[..|after| - 1];
    }
  }

  // Without overwriting, what was known before an upgrade without the environment is still known after it.
  lemma {:induction false} SkippingRemembers(before: seq<EnvDir>, after: seq<EnvDir>, part: Part)
    requires forall i :: 0 <= i < |after| ==> after[i].Present?
    ensures Latest(before + [Absent] + after, false, part)
            == if Latest(after, false, part).Some? then Latest(after, false, part) else Latest(before, false, part)
  {
    var dirs := before + [Absent] + after;
    if after != [] {
      SkippingRemembers(before, after[..|after| - 1], part);
      assert dirs[..|dirs| - 1] == before + [Absent] + after[..|after| - 1];
    } else {
      assert dirs[..|dirs| - 1] == before;
    }
  }

  // ---------- Which histories load ----------

  // A known contract at its own address, with one hash.
  predicate ContractIsValid(c: SystemContract) {
    c.name in SYSTEM_CONTRACT_MAP && c.address == Some(SYSTEM_CONTRACT_MAP[c.name]) && |c.bytecodeHashes| == 1
  }

  predicate FileIsValid(l2: L2Upgrade) {
    && (l2.defaultAA.Some? ==> |l2.defaultAA.value.bytecodeHashes| == 1)
    && (l2.bootloader.Some? ==> |l2.bootloader.value.bytecodeHashes| == 1)
    && forall i :: 0 <= i < |l2.systemContracts| ==> ContractIsValid(l2.systemContracts[i])
  }

  // An earlier upgrade has the environment, and it was not forgotten.
  predicate HasPredecessor(dirs: seq<EnvDir>, overwrite: bool) {
    dirs != [] && (dirs[|dirs| - 1].Present? || (!overwrite && HasPredecessor(dirs[..|dirs| - 1], overwrite)))
  }

  predicate DirIsValid(before: seq<EnvDir>, dir: EnvDir, overwrite: bool) {
    match dir
    case Absent => true
    case Broken => false
    case Present(l2) =>
      FileIsValid(l2) && (l2.defaultAA.None? || l2.bootloader.None? ==> HasPredecessor(before, overwrite))
  }

  predicate EnvironmentIsValid(dirs: seq<EnvDir>, overwrite: bool) {
    dirs == [] ||
    (EnvironmentIsValid(dirs[..|dirs| - 1], overwrite) && DirIsValid(dirs[..|dirs| - 1], dirs[|dirs| - 1], overwrite))
  }

  lemma {:induction false} ContractsLoadIff(entries: Contracts, contracts: seq<SystemContract>)
    ensures AddContracts(entries, contracts).Ok? <==>
              forall i :: 0 <= i < |contracts| ==> ContractIsValid(contracts[i])
  {
    if contracts != [] {
      ContractsLoadIff(entries, contracts[..|contracts| - 1]);
    }
  }

  /** An environment loads exactly if none of its files is broken or has an unknown contract, a wrong address or a
      wrong number of hashes, and its first file mentions both the default account and the bootloader. */
  lemma {:induction false} EnvironmentLoadsIff(dirs: seq<EnvDir>, overwrite: bool)
    ensures PrevAfter(dirs, overwrite).Ok? <==> EnvironmentIsValid(dirs, overwrite)
    ensures PrevAfter(dirs, overwrite).Ok? ==>
              (PrevAfter(dirs, overwrite).value.Some? <==> HasPredecessor(dirs, overwrite))
  {
    if dirs != [] {
      var before, dir := dirs[..|dirs| - 1], dirs[|dirs| - 1];
      EnvironmentLoadsIff(before, overwrite);
      if PrevAfter(before, overwrite).Ok? && dir.Present? {
        ContractsLoadIff(CarriedOver(PrevAfter(before, overwrite).value), dir.l2.systemContracts);
      }
    }
  }

  // ---------- Absences of `stage2` ----------

  // The bytecode that a recorded state holds for a contract.
  function RecordedContract(recorded: Option<ChainState>, name: string): Option<string> {
    if recorded.Some? && name in recorded.value.systemContracts
    then Some(recorded.value.systemContracts[name].bytecode)
    else None
  }

  // The first file after an absence has to mention the default account, so that this one is never forgotten.
  lemma {:induction false} DefaultAccountIsMentionedAgain(before: seq<EnvDir>, after: seq<EnvDir>)
    requires after != [] && forall i :: 0 <= i < |after| ==> after[i].Present?
    requires EnvironmentIsValid(before + [Absent] + after, true)
    ensures Latest(after, false, DefaultAA).Some?
  {
    var dirs := before + [Absent] + after;
    var init := after[..|after| - 1];
    assert dirs[..|dirs| - 1] == before + [Absent] + init;
    if init == [] {
      assert dirs[..|dirs| - 1][|dirs| - 2] == Absent;
    } else {
      DefaultAccountIsMentionedAgain(before, init);
    }
  }

  lemma {:induction false} RecordedIsLoaded(dirs: seq<EnvDir>, overwrite: bool)
    requires dirs != [] && RecordedAfter(dirs, overwrite).Ok?
    ensures EnvironmentIsValid(dirs, overwrite)
  {
    EnvironmentLoadsIff(dirs, overwrite);
  }

  /** After an absence, what is recorded for `stage2` about a contract is what the latest upgrade says, if and only if
      an upgrade after the absence lists the contract, or none before it did. The default account is always right. */
  lemma {:induction false} StageIsRightIff(before: seq<EnvDir>, after: seq<EnvDir>, name: string)
    requires after != [] && forall i :: 0 <= i < |after| ==> after[i].Present?
    requires RecordedAfter(before + [Absent] + after, true).Ok?
    ensures var dirs := before + [Absent] + after;
            var recorded := RecordedAfter(dirs, true).value;
            && (RecordedContract(recorded, name) == Latest(dirs, false, Contract(name)) <==>
                  Latest(after, false, Contract(name)).Some? || Latest(before, false, Contract(name)).None?)
            && recorded.Some? && Some(recorded.value.defaultAA.bytecode) == Latest(dirs, false, DefaultAA)
  {
    var dirs := before + [Absent] + after;
    assert dirs[|dirs| - 1] == after[|after| - 1];
    BytecodesCarryForward(dirs, true, name);
    StageForgets(before, after, Contract(name));
    SkippingRemembers(before, after, Contract(name));
    RecordedIsLoaded(dirs, true);
    DefaultAccountIsMentionedAgain(before, after);
    StageForgets(before, after, DefaultAA);
    SkippingRemembers(before, after, DefaultAA);
  }

  // A file that mentions the default account and the bootloader, and one that also lists a contract.
  const PLAIN_FILE: L2Upgrade :=
    L2Upgrade(Some(SystemContract("", ["aa"], None)), Some(SystemContract("", ["bl"], None)), [], [])
  const NONCE_HOLDER: SystemContract :=
    SystemContract("NonceHolder", ["nh"], Some("0x0000000000000000000000000000000000008003"))
  const LISTING_FILE: L2Upgrade := PLAIN_FILE.(systemContracts := [NONCE_HOLDER])
  const LOSING_DIRS: seq<EnvDir> := [Present(LISTING_FILE)] + [Absent] + [Present(PLAIN_FILE)]

  lemma StageLosesContract()
    ensures RecordedAfter(LOSING_DIRS, true).Ok? && RecordedAfter(LOSING_DIRS, true).value.Some?
    ensures "NonceHolder" !in RecordedAfter(LOSING_DIRS, true).value.value.systemContracts
    ensures Latest(LOSING_DIRS, false, Contract("NonceHolder")) == Some("nh")
  {
    var first, last := [Present(LISTING_FILE)], [Present(PLAIN_FILE)];
    FirstFileLoads(LISTING_FILE, true);
    assert (first + [Absent])[..1] == first;
    assert PrevAfter(first + [Absent], true) == Ok(None);
    assert LOSING_DIRS[..2] == first + [Absent];
    assert AddContracts(map[], []) == Ok(map[]);
    ListedAlone(NONCE_HOLDER);
    assert Latest(first, false, Contract("NonceHolder")) == Some("nh");
    assert last[..0] == [] && Latest(last, false, Contract("NonceHolder")).None?;
    SkippingRemembers(first, last, Contract("NonceHolder"));
  }

  lemma ListedAlone(contract: SystemContract)
    requires |contract.bytecodeHashes| == 1
    ensures Listed([contract], contract.name) == Some(contract.bytecodeHashes[0])
  {
  }

  lemma {:induction false} FirstFileLoads(l2: L2Upgrade, overwrite: bool)
    requires FileIsValid(l2) && l2.defaultAA.Some? && l2.bootloader.Some?
    ensures PrevAfter([Present(l2)], overwrite).Ok?
  {
    EnvironmentLoadsIff([Present(l2)], overwrite);
    assert [Present(l2)][..0] == [];
  }

  // ---------- The bootloader ----------

  /** The bootloader bytecode recorded for an upgrade: its own if it mentions one, and otherwise the latest bytecode
      of the default account before it. It is the bytecode that the latest upgrade gives the bootloader exactly if
      the upgrade mentions the bootloader or the two latest earlier bytecodes happen to coincide. */
  lemma BootloaderCarriesDefaultAccount(dirs: seq<EnvDir>, overwrite: bool)
    requires dirs != [] && RecordedAfter(dirs, overwrite).Ok? && RecordedAfter(dirs, overwrite).value.Some?
    ensures var recorded := RecordedAfter(dirs, overwrite).value.value.bootloader.bytecode;
            var before, own := dirs[..|dirs| - 1], Mentioned(dirs[|dirs| - 1].l2, Bootloader);
            && Some(recorded) == (if own.Some? then own else Latest(before, overwrite, DefaultAA))
            && (Some(recorded) == Latest(dirs, overwrite, Bootloader) <==>
                  own.Some? || Latest(before, overwrite, DefaultAA) == Latest(before, overwrite, Bootloader))
  {
    PrevReflects(dirs[..|dirs| - 1], overwrite);
  }

  /** One load treats the bootloader as it treats the default account exactly if there is no earlier state or its
      two bytecodes are equal. */
  lemma BootloaderIsRightIff(l2: L2Upgrade, prev: Option<ChainState>)
    requires LoadChainState(Present(l2), prev).Ok?
    ensures var recorded := LoadChainState(Present(l2), prev).value.value.bootloader;
            var prevBootloader := if prev.Some? then Some(prev.value.bootloader) else None;
            Ok(recorded) == CreateSystemContractState(l2.bootloader, prevBootloader) <==>
              prev.None? || prev.value.defaultAA.bytecode == prev.value.bootloader.bytecode
  {
    if prev.Some? {
      var aa, bl := prev.value.defaultAA, prev.value.bootloader;
      assert CreateSystemContractState(l2.bootloader, Some(aa)).Ok?;
      if l2.bootloader.Some? {
        assert CreateSystemContractState(l2.bootloader, Some(aa)).value.previousBytecode == Some(aa.bytecode);
        assert CreateSystemContractState(l2.bootloader, Some(bl)).value.previousBytecode == Some(bl.bytecode);
      }
    }
  }

  /** Two upgrades are enough: the second one mentions nothing, and the bootloader gets the default account's
      bytecode. */
  lemma BootloaderGoesWrong()
    ensures var aa, bl := SystemContract("", ["aa"], None), SystemContract("", ["bl"], None);
            var first := L2Upgrade(Some(aa), Some(bl), [], []);
            var dirs := [Present(first), Present(L2Upgrade(None, None, [], []))];
            && RecordedAfter(dirs, false).Ok? && RecordedAfter(dirs, false).value.Some?
            && RecordedAfter(dirs, false).value.value.bootloader.bytecode == "aa"
            && Latest(dirs, false, Bootloader) == Some("bl")
  {
    var first := L2Upgrade(Some(SystemContract("", ["aa"], None)), Some(SystemContract("", ["bl"], None)), [], []);
    var second := L2Upgrade(None, None, [], []);
    var dirs := [Present(first), Present(second)];
    assert dirs[..1] == [Present(first)] && [Present(first)][..0] == [];
    assert PrevAfter([], false) == Ok(None);
    var prev := PrevAfter([Present(first)], false);
    assert prev.Ok? && prev.value.Some? && prev.value.value.defaultAA.bytecode == "aa";
    assert LoadChainState(Present(second), prev.value).Ok?;
    assert Latest([Present(first)], false, Bootloader) == Some("bl");
  }

  // ---------- What counts as changed ----------

  // The state of the default account or the bootloader after an upgrade, given the bytecode it is compared with.
  predicate RecordsChange(state: ContractState, mentioned: Option<SystemContract>, earlier: Option<string>) {
    if mentioned.None? then state.previousBytecode == None && !state.wasChanged
    else state.previousBytecode == earlier && (state.wasChanged <==> earlier != Some(state.bytecode))
  }

  /** The default account and the bootloader count as changed exactly if the upgrade mentions them with a bytecode other
      than the latest earlier one of the default account, which is recorded as the previous bytecode of both. */
  lemma {:induction false} ChangesAreRecorded(dirs: seq<EnvDir>, overwrite: bool)
    requires dirs != [] && RecordedAfter(dirs, overwrite).Ok? && RecordedAfter(dirs, overwrite).value.Some?
    ensures var recorded, l2 := RecordedAfter(dirs, overwrite).value.value, dirs[|dirs| - 1].l2;
            var earlier := Latest(dirs[..|dirs| - 1], overwrite, DefaultAA);
            && RecordsChange(recorded.defaultAA, l2.defaultAA, earlier)
            && RecordsChange(recorded.bootloader, l2.bootloader, earlier)
  {
    PrevReflects(dirs[..|dirs| - 1], overwrite);
  }

  /** So whether a mentioned bootloader counts as changed is right, if and only if the latest earlier bytecodes of the
      bootloader and of the default account are the same, or the new one is neither of them. */
  lemma {:induction false} BootloaderChangeIsRightIff(dirs: seq<EnvDir>, overwrite: bool)
    requires dirs != [] && RecordedAfter(dirs, overwrite).Ok? && RecordedAfter(dirs, overwrite).value.Some?
    requires dirs[|dirs| - 1].l2.bootloader.Some?
    ensures var bootloader, before := RecordedAfter(dirs, overwrite).value.value.bootloader, dirs[..|dirs| - 1];
            var own := Some(bootloader.bytecode);
            var ofAccount, ofBootloader := Latest(before, overwrite, DefaultAA), Latest(before, overwrite, Bootloader);
            && Mentioned(dirs[|dirs| - 1].l2, Bootloader) == own
            && ((bootloader.wasChanged <==> own != ofBootloader) <==>
                  ofAccount == ofBootloader || (own != ofAccount && own != ofBootloader))
  {
    ChangesAreRecorded(dirs, overwrite);
  }

  // An entry of the list is the last one of its name.
  ghost predicate IsLastOf(contracts: seq<SystemContract>, name: string, i: nat) {
    && i < |contracts| && contracts[i].name == name
    && forall j :: i < j < |contracts| ==> contracts[j].name != name
  }

  lemma {:induction false} PreviousOfListed(entries: Contracts, contracts: seq<SystemContract>, name: string, i: nat)
    requires AddContracts(entries, contracts).Ok? && IsLastOf(contracts, name, i)
    requires name in entries ==> !entries[name].wasChanged
    ensures var r, earlier := AddContracts(entries, contracts).value, Listed(contracts[..i], name);
            && name in r
            && r[name].previousBytecode ==
                 if earlier.Some? then earlier
                 else if name in entries then Some(entries[name].bytecode) else None
  {
    var n := |contracts| - 1;
    if i == n {
      AddContractsMeaning(entries, contracts[..n], name);
    } else {
      assert contracts[..n][..i] == contracts[..i];
      PreviousOfListed(entries, contracts[..n], name, i);
    }
  }

  lemma {:induction false} UnlistedIsKept(entries: Contracts, contracts: seq<SystemContract>, name: string)
    requires AddContracts(entries, contracts).Ok? && Listed(contracts, name).None? && name in entries
    ensures name in AddContracts(entries, contracts).value
    ensures AddContracts(entries, contracts).value[name] == entries[name]
  {
    if contracts != [] {
      UnlistedIsKept(entries, contracts[..|contracts| - 1], name);
    }
  }

  /** The previous bytecode of a contract that the upgrade lists is that of its entry before the last one in the list,
      or else the latest one before the upgrade, if any. A contract that is not listed has none. */
  lemma {:induction false} PreviousBytecodes(dirs: seq<EnvDir>, overwrite: bool, name: string, i: nat)
    requires dirs != [] && RecordedAfter(dirs, overwrite).Ok? && RecordedAfter(dirs, overwrite).value.Some?
    ensures var recorded, listing := RecordedAfter(dirs, overwrite).value.value, dirs[|dirs| - 1].l2.systemContracts;
            && (IsLastOf(listing, name, i) ==>
                  && name in recorded.systemContracts
                  && recorded.systemContracts[name].previousBytecode ==
                       if Listed(listing[..i], name).Some? then Listed(listing[..i], name)
                       else Latest(dirs[..|dirs| - 1], overwrite, Contract(name)))
            && (name in recorded.systemContracts && Listed(listing, name).None? ==>
                  recorded.systemContracts[name].previousBytecode == None)
  {
    var before, listing := dirs[..|dirs| - 1], dirs[|dirs| - 1].l2.systemContracts;
    PrevReflects(before, overwrite);
    var entries := CarriedOver(PrevAfter(before, overwrite).value);
    if IsLastOf(listing, name, i) {
      PreviousOfListed(entries, listing, name, i);
    }
    if Listed(listing, name).None? {
      AddContractsMeaning(entries, listing, name);
      if name in entries {
        UnlistedIsKept(entries, listing, name);
      }
    }
  }

  // ---------- The history ----------

  // The variables of the loop over the upgrade directories.
  datatype Loop = Loop(
    lastProtocolVersion: int,
    prevMainnet2: Option<ChainState>,
    prevTestnet2: Option<ChainState>,
    prevStage2: Option<ChainState>,
    result: map<int, Chains>)

  const LOOP_START: Loop := Loop(LAST_PROTOCOL_VERSION_BEFORE_UPGRADE_SYSTEM, None, None, None, map[])

  // The body of the loop.
  function Iterate(s: Loop, upgrade: Upgrade): Result<Loop> {
    if upgrade.protocolVersion != s.lastProtocolVersion + 1 then Error
    else
      var mainnet2 := LoadChainState(upgrade.mainnet2, s.prevMainnet2);
      var testnet2 := LoadChainState(upgrade.testnet2, s.prevTestnet2);
      var stage2 := LoadChainState(upgrade.stage2, s.prevStage2);
      if mainnet2.Error? || testnet2.Error? || stage2.Error? then Error
      else
        var chains := Chains(mainnet2.value, testnet2.value, stage2.value);
        Ok(Loop(upgrade.protocolVersion,
                if mainnet2.value.Some? then mainnet2.value else s.prevMainnet2,
                if testnet2.value.Some? then testnet2.value else s.prevTestnet2,
                stage2.value,
                s.result[upgrade.protocolVersion := chains]))
  }

  function MainnetDirs(upgrades: seq<Upgrade>): seq<EnvDir> {
    seq(|upgrades|, i requires 0 <= i < |upgrades| => upgrades[i].mainnet2)
  }

  function TestnetDirs(upgrades: seq<Upgrade>): seq<EnvDir> {
    seq(|upgrades|, i requires 0 <= i < |upgrades| => upgrades[i].testnet2)
  }

  function StageDirs(upgrades: seq<Upgrade>): seq<EnvDir> {
    seq(|upgrades|, i requires 0 <= i < |upgrades| => upgrades[i].stage2)
  }

  // What the loop must have computed after some upgrades.
  ghost predicate LoopReflects(s: Loop, upgrades: seq<Upgrade>) {
    && s.lastProtocolVersion == LAST_PROTOCOL_VERSION_BEFORE_UPGRADE_SYSTEM + |upgrades|
    && Ok(s.prevMainnet2) == PrevAfter(MainnetDirs(upgrades), false)
    && Ok(s.prevTestnet2) == PrevAfter(TestnetDirs(upgrades), false)
    && Ok(s.prevStage2) == PrevAfter(StageDirs(upgrades), true)
    && HistoryReflects(s.result, upgrades)
  }

  // One entry per upgrade, under the consecutive versions from 12 on, each as recorded for its upgrade.
  ghost predicate HistoryReflects(history: map<int, Chains>, upgrades: seq<Upgrade>) {
    && (forall v :: v in history <==>
          LAST_PROTOCOL_VERSION_BEFORE_UPGRADE_SYSTEM < v <= LAST_PROTOCOL_VERSION_BEFORE_UPGRADE_SYSTEM + |upgrades|)
    && (forall k :: 0 <= k < |upgrades| ==> EntryReflects(history, upgrades, k))
  }

  ghost predicate EntryReflects(history: map<int, Chains>, upgrades: seq<Upgrade>, k: nat)
    requires k < |upgrades|
  {
    var v := LAST_PROTOCOL_VERSION_BEFORE_UPGRADE_SYSTEM + 1 + k;
    && upgrades[k].protocolVersion == v
    && v in history
    && Ok(history[v].mainnet2) == RecordedAfter(MainnetDirs(upgrades[..k + 1]), false)
    && Ok(history[v].testnet2) == RecordedAfter(TestnetDirs(upgrades[..k + 1]), false)
    && Ok(history[v].stage2) == RecordedAfter(StageDirs(upgrades[..k + 1]), true)
  }

  // The history is accepted: consecutive versions, and every environment loads.
  ghost predicate Acceptable(upgrades: seq<Upgrade>) {
    && (forall k :: 0 <= k < |upgrades| ==>
          upgrades[k].protocolVersion == LAST_PROTOCOL_VERSION_BEFORE_UPGRADE_SYSTEM + 1 + k)
    && EnvironmentIsValid(MainnetDirs(upgrades), false)
    && EnvironmentIsValid(TestnetDirs(upgrades), false)
    && EnvironmentIsValid(StageDirs(upgrades), true)
  }

  lemma DirsOfPrefix(upgrades: seq<Upgrade>, n: nat)
    requires n < |upgrades|
    ensures MainnetDirs(upgrades[..n + 1]) == MainnetDirs(upgrades[..n]) + [upgrades[n].mainnet2]
    ensures TestnetDirs(upgrades[..n + 1]) == TestnetDirs(upgrades[..n]) + [upgrades[n].testnet2]
    ensures StageDirs(upgrades[..n + 1]) == StageDirs(upgrades[..n]) + [upgrades[n].stage2]
  {
  }

  // One more upgrade of an environment that has loaded so far.
  lemma {:induction false} EnvironmentAdvances(dirs: seq<EnvDir>, dir: EnvDir, overwrite: bool,
                                               prev: Option<ChainState>)
    requires PrevAfter(dirs, overwrite) == Ok(prev)
    ensures EnvironmentIsValid(dirs + [dir], overwrite) <==> LoadChainState(dir, prev).Ok?
    ensures LoadChainState(dir, prev).Ok? ==>
              var loaded := LoadChainState(dir, prev).value;
              && PrevAfter(dirs + [dir], overwrite) == Ok(if loaded.Some? || overwrite then loaded else prev)
              && RecordedAfter(dirs + [dir], overwrite) == Ok(loaded)
  {
    assert (dirs + [dir])[..|dirs + [dir]| - 1] == dirs;
    EnvironmentLoadsIff(dirs + [dir], overwrite);
  }

  lemma {:induction false} PrefixIsValid(dirs: seq<EnvDir>, overwrite: bool, n: nat)
    requires n <= |dirs| && EnvironmentIsValid(dirs, overwrite)
    ensures EnvironmentIsValid(dirs[..n], overwrite)
  {
    if n < |dirs| {
      PrefixIsValid(dirs[..|dirs| - 1], overwrite, n);
      assert dirs[..|dirs| - 1][..n] == dirs[..n];
    } else {
      assert dirs[..n] == dirs;
    }
  }

  // A history that stops being acceptable stays so.
  lemma AcceptablePrefix(upgrades: seq<Upgrade>, n: nat)
    requires n <= |upgrades| && Acceptable(upgrades)
    ensures Acceptable(upgrades[..n])
  {
    PrefixIsValid(MainnetDirs(upgrades), false, n);
    PrefixIsValid(TestnetDirs(upgrades), false, n);
    PrefixIsValid(StageDirs(upgrades), true, n);
    assert MainnetDirs(upgrades[..n]) == MainnetDirs(upgrades)[..n];
    assert TestnetDirs(upgrades[..n]) == TestnetDirs(upgrades)[..n];
    assert StageDirs(upgrades[..n]) == StageDirs(upgrades)[..n];
  }

  lemma HistoryExtends(history: map<int, Chains>, upgrades: seq<Upgrade>, n: nat, chains: Chains)
    requires n < |upgrades| && HistoryReflects(history, upgrades[..n])
    requires upgrades[n].protocolVersion == LAST_PROTOCOL_VERSION_BEFORE_UPGRADE_SYSTEM + 1 + n
    requires Ok(chains.mainnet2) == RecordedAfter(MainnetDirs(upgrades[..n + 1]), false)
    requires Ok(chains.testnet2) == RecordedAfter(TestnetDirs(upgrades[..n + 1]), false)
    requires Ok(chains.stage2) == RecordedAfter(StageDirs(upgrades[..n + 1]), true)
    ensures HistoryReflects(history[upgrades[n].protocolVersion := chains], upgrades[..n + 1])
  {
    var more, prefix := history[upgrades[n].protocolVersion := chains], upgrades[..n + 1];
    forall k | 0 <= k < |prefix| ensures EntryReflects(more, prefix, k) {
      assert prefix[..k + 1] == upgrades[..k + 1];
      if k < n {
        assert EntryReflects(history, upgrades[..n], k);
        assert upgrades[..n][..k + 1] == upgrades[..k + 1];
      }
    }
  }

  lemma IterationReflects(s: Loop, upgrades: seq<Upgrade>, n: nat)
    requires n < |upgrades| && LoopReflects(s, upgrades[..n]) && Acceptable(upgrades[..n])
    ensures Iterate(s, upgrades[n]).Ok? <==> Acceptable(upgrades[..n + 1])
    ensures Iterate(s, upgrades[n]).Ok? ==> LoopReflects(Iterate(s, upgrades[n]).value, upgrades[..n + 1])
  {
    var upgrade := upgrades[n];
    DirsOfPrefix(upgrades, n);
    EnvironmentAdvances(MainnetDirs(upgrades[..n]), upgrade.mainnet2, false, s.prevMainnet2);
    EnvironmentAdvances(TestnetDirs(upgrades[..n]), upgrade.testnet2, false, s.prevTestnet2);
    EnvironmentAdvances(StageDirs(upgrades[..n]), upgrade.stage2, true, s.prevStage2);
    assert upgrades[..n + 1][n] == upgrade;
    if Iterate(s, upgrade).Ok? {
      HistoryExtends(s.result, upgrades, n, Iterate(s, upgrade).value.result[upgrade.protocolVersion]);
    }
  }

  /** The loop over the upgrade directories fails exactly on unacceptable histories. Otherwise it records every
      upgrade under its version, the versions being 12, 13 and so on without gaps. */
  method LoadChainStateHistory(upgrades: seq<Upgrade>) returns (r: Result<map<int, Chains>>)
    ensures r.Ok? <==> Acceptable(upgrades)
    ensures r.Ok? ==> HistoryReflects(r.value, upgrades)
  {
    var s := LOOP_START;
    for n := 0 to |upgrades|
      invariant LoopReflects(s, upgrades[..n])
      invariant Acceptable(upgrades[..n])
    {
      IterationReflects(s, upgrades, n);
      match Iterate(s, upgrades[n])
      case Error =>
        RejectedPrefix(upgrades, n + 1);
        return Error;
      case Ok(next) =>
        s := next;
    }
    assert upgrades[..|upgrades|] == upgrades;
    r := Ok(s.result);
  }

  /** Three upgrades that the loader accepts: the first lists a contract, the second lacks `stage2`, and in the third
      `stage2` has lost the contract. */
  lemma StageGoesWrong()
    ensures var upgrades := seq(3, i requires 0 <= i < 3 => Upgrade(12 + i, Absent, Absent, LOSING_DIRS[i]));
            && Acceptable(upgrades) && StageDirs(upgrades) == LOSING_DIRS
            && RecordedAfter(LOSING_DIRS, true).Ok?
            && RecordedContract(RecordedAfter(LOSING_DIRS, true).value, "NonceHolder") == None
            && Latest(LOSING_DIRS, false, Contract("NonceHolder")) == Some("nh")
  {
    var upgrades := seq(3, i requires 0 <= i < 3 => Upgrade(12 + i, Absent, Absent, LOSING_DIRS[i]));
    assert StageDirs(upgrades) == LOSING_DIRS;
    StageLosesContract();
    RecordedIsLoaded(LOSING_DIRS, true);
    AbsentIsValid(MainnetDirs(upgrades));
    AbsentIsValid(TestnetDirs(upgrades));
  }

  lemma {:induction false} AbsentIsValid(dirs: seq<EnvDir>)
    requires forall i :: 0 <= i < |dirs| ==> dirs[i] == Absent
    ensures EnvironmentIsValid(dirs, false)
  {
    if dirs != [] {
      AbsentIsValid(dirs[..|dirs| - 1]);
    }
  }

  lemma RejectedPrefix(upgrades: seq<Upgrade>, n: nat)
    requires n <= |upgrades| && !Acceptable(upgrades[..n])
    ensures !Acceptable(upgrades)
  {
    if Acceptable(upgrades) {
      AcceptablePrefix(upgrades, n);
    }
  }

  // What a recorded state says about a contract, compared with the files of its environment.
  ghost predicate CarriesForward(recorded: Option<ChainState>, dirs: seq<EnvDir>, overwrite: bool, name: string) {
    && dirs != []
    && (recorded.Some? <==> dirs[|dirs| - 1].Present?)
    && (recorded.Some? ==>
          var contracts := recorded.value.systemContracts;
          && Latest(dirs, overwrite, DefaultAA) == Some(recorded.value.defaultAA.bytecode)
          && (name in contracts <==> Latest(dirs, overwrite, Contract(name)).Some?)
          && (name in contracts ==>
                && Latest(dirs, overwrite, Contract(name)) == Some(contracts[name].bytecode)
                && (contracts[name].wasChanged <==> Mentioned(dirs[|dirs| - 1].l2, Contract(name)).Some?)))
  }

  /** In every history that the loader accepts, version 12 + k holds for each environment the bytecodes that the
      latest upgrade up to the k-th gives them; for `stage2` only upgrades since its last absence count. */
  lemma AcceptedHistoryCarriesForward(history: map<int, Chains>, upgrades: seq<Upgrade>, k: nat, name: string)
    requires HistoryReflects(history, upgrades) && k < |upgrades|
    ensures var v := 12 + k;
            && v in history && upgrades[k].protocolVersion == v
            && CarriesForward(history[v].mainnet2, MainnetDirs(upgrades[..k + 1]), false, name)
            && CarriesForward(history[v].testnet2, TestnetDirs(upgrades[..k + 1]), false, name)
            && CarriesForward(history[v].stage2, StageDirs(upgrades[..k + 1]), true, name)
  {
    assert EntryReflects(history, upgrades, k);
    BytecodesCarryForward(MainnetDirs(upgrades[..k + 1]), false, name);
    BytecodesCarryForward(TestnetDirs(upgrades[..k + 1]), false, name);
    BytecodesCarryForward(StageDirs(upgrades[..k + 1]), true, name);
  }
}
