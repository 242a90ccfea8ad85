/** The simulator's seed and cleanup commands: the order in which they write the dataset ledger,
    the bridge and the downstream rows, with a crash or failure possible at every step. */
module SimulatorCommand {
  import opened Text
  import opened FixtureManager
  import Cleanup = FixtureCleanup

  datatype Status = Seeding | Ready | Cleaning

  /** A ledger row. The table's primary key is the dataset; tenant, enterprise and source identity are unique together. */
  datatype Row = Row(binding: Binding, status: Status)

  datatype BridgeDataset = BridgeDataset(binding: Binding, dataset: string)

  function SourceIdentity(b: Binding): string {
    "wecom" + [':'] + (b.mode + [':'] + b.wxCorpId)
  }

  /** For the two modes there are, the source identity determines mode and enterprise id. */
  lemma SourceIdentityInjective(a: Binding, b: Binding)
    requires IsMode(a.mode) && IsMode(b.mode) && SourceIdentity(a) == SourceIdentity(b)
    ensures a.mode == b.mode && a.wxCorpId == b.wxCorpId
  {
    assert ':' !in "wecom" && ':' !in MODE_SELF_BUILT && ':' !in MODE_DELEGATED;
    FirstSeparatorCancels("wecom", a.mode + [':'] + a.wxCorpId, "wecom", b.mode + [':'] + b.wxCorpId, ':');
    FirstSeparatorCancels(a.mode, a.wxCorpId, b.mode, b.wxCorpId, ':');
  }

  predicate IsMode(mode: string) {
    mode == MODE_SELF_BUILT || mode == MODE_DELEGATED
  }

  predicate SameSource(a: Binding, b: Binding) {
    a.tenantId == b.tenantId && a.corpId == b.corpId && SourceIdentity(a) == SourceIdentity(b)
  }

  /** The columns an update or delete of the ledger selects by: not the enterprise id. */
  predicate SameScope(a: Binding, b: Binding) {
    a.tenantId == b.tenantId && a.corpId == b.corpId && a.mode == b.mode
  }

  /** INSERT … ON DUPLICATE KEY UPDATE: a row of the same dataset is marked as seeding whoever owns it. */
  function Claimed(ledger: map<string, Row>, b: Binding, dataset: string): map<string, Row> {
    if dataset in ledger then ledger[dataset := ledger[dataset].(status := Seeding)]
    else if exists d :: d in ledger && SameSource(ledger[d].binding, b) then ledger
    else ledger[dataset := Row(b, Seeding)]
  }

  ghost predicate OneRowPerSource(ledger: map<string, Row>) {
    && (forall d :: d in ledger ==> IsMode(ledger[d].binding.mode))
    && (forall c, d :: c in ledger && d in ledger && SameSource(ledger[c].binding, ledger[d].binding) ==> c == d)
  }

  /** A claim succeeds exactly when, afterwards, the dataset's row is this binding's. A refused claim
      changes the table exactly when it reset the status of somebody else's row. */
  lemma ClaimOutcome(ledger: map<string, Row>, b: Binding, dataset: string)
    requires OneRowPerSource(ledger) && IsMode(b.mode)
    ensures
      var after := Claimed(ledger, b, dataset);
      var won := dataset in after && SameSource(after[dataset].binding, b);
      && OneRowPerSource(after)
      && (won <==> if dataset in ledger then SameSource(ledger[dataset].binding, b)
                   else forall d :: d in ledger ==> !SameSource(ledger[d].binding, b))
      && (won ==> after[dataset].binding == (if dataset in ledger then ledger[dataset].binding else b) && after[dataset].status == Seeding)
      && (!won ==> (after != ledger <==> dataset in ledger && ledger[dataset].status != Seeding))
  {
    hide SourceIdentity;
    var after := Claimed(ledger, b, dataset);
    if dataset in ledger {
      assert after[dataset].status == Seeding;
    }
  }

  // ----- Agreement of the two stores -----

  /** Every dataset the bridge holds has its ledger row, under the same binding. */
  ghost predicate Covered(ledger: map<string, Row>, bridge: map<string, BridgeDataset>) {
    forall k :: k in bridge ==>
      var e := bridge[k];
      && IsNormal(e.binding) && k == DatasetKey(e.binding, e.dataset)
      && TrimSpace(e.dataset) in ledger
      && NormalizeBinding(ledger[TrimSpace(e.dataset)].binding) == Some(e.binding)
  }

  /** Bridge datasets that a cleanup under binding `b` would acknowledge without removing. */
  ghost predicate Foreign(bridge: map<string, BridgeDataset>, b: Binding, dataset: string) {
    var n := NormalizeBinding(b);
    n.Some? && DatasetKey(n.value, dataset) in bridge && bridge[DatasetKey(n.value, dataset)].binding != n.value
  }

  /** The ledger row that a cleanup under this binding works on is there. */
  ghost predicate InScope(ledger: map<string, Row>, b: Binding, dataset: string) {
    TrimSpace(dataset) in ledger && SameScope(ledger[TrimSpace(dataset)].binding, b)
  }

  /** Neither the ledger nor the bridge holds the dataset. */
  ghost predicate Gone(ledger: map<string, Row>, bridge: map<string, BridgeDataset>, b: Binding, dataset: string) {
    TrimSpace(dataset) !in ledger && NormalizeBinding(b).Some? && DatasetKey(NormalizeBinding(b).value, dataset) !in bridge
  }

  // ----- The bridge, as its requests show it -----

  /** The datasets the bridge holds in memory, and those it has taken out of memory but not off its state file. */
  datatype Bridge = Bridge(held: map<string, BridgeDataset>, unsaved: map<string, BridgeDataset>)

  /** A seed request. `saves` says whether the bridge can set up and save the dataset. */
  ghost predicate SeedReply(before: Bridge, after: Bridge, b: Binding, dataset: string, fate: Cleanup.Fate, saves: bool, ok: bool) {
    var n := NormalizeBinding(b);
    if n.None? || !ValidDataset(dataset) || fate in {Cleanup.Failed, Cleanup.Crashed} then !ok && after == before
    else
      var key := DatasetKey(n.value, dataset);
      if key in before.held then after == before && ok == (before.held[key].binding == n.value && fate == Cleanup.Done)
      else if !saves || exists k :: k in before.held && Place(before.held[k].binding) == Place(n.value) then !ok && after == before
      else after == Bridge(before.held[key := BridgeDataset(n.value, dataset)], map[]) && ok == (fate == Cleanup.Done)
  }

  /** A cleanup request. When it cannot be saved, the dataset is off the bridge's memory all the same. */
  ghost predicate CleanupReply(before: Bridge, after: Bridge, b: Binding, dataset: string, fate: Cleanup.Fate, saves: bool, ok: bool) {
    var n := NormalizeBinding(b);
    if n.None? || !ValidDataset(dataset) || fate in {Cleanup.Failed, Cleanup.Crashed} then !ok && after == before
    else
      var key := DatasetKey(n.value, dataset);
      var removes := key in before.held && before.held[key].binding == n.value;
      && ok == (saves && fate == Cleanup.Done)
      && after.held == (if removes then before.held - {key} else before.held)
      && after.unsaved == if saves then map[] else if removes then before.unsaved[key := before.held[key]] else before.unsaved
  }

  /** A new process of the bridge has everything back that was not saved away. */
  function Restarted(bridge: Bridge): Bridge {
    Bridge(bridge.held + bridge.unsaved, map[])
  }

  datatype Request =
    | SeedRequest(b: Binding, dataset: string, sources: seq<string>)
    | CleanUpRequest(b: Binding, dataset: string, confirmation: string, dryRun: bool)
    | BridgeRestart

  ghost predicate Authoritative(b: Binding, wxCorpId: (int, int, string) -> string) {
    b.wxCorpId == wxCorpId(b.tenantId, b.corpId, b.mode)
  }

  /** What the bridge holds was seeded under the authoritative enterprise ids. */
  ghost predicate BridgeUses(bridge: map<string, BridgeDataset>, wxCorpId: (int, int, string) -> string) {
    forall k :: k in bridge ==>
      var b := bridge[k].binding;
      NormalizeBinding(b.(wxCorpId := wxCorpId(b.tenantId, b.corpId, b.mode))) == Some(b)
  }

  /** At most this dataset is added to the bridge, and what was not saved away is still so or is final. */
  ghost predicate OnlyAdds(before: Bridge, after: Bridge, b: Binding, dataset: string) {
    && (after.unsaved == before.unsaved || after.unsaved == map[])
    && (forall k :: k in before.held ==> k in after.held && after.held[k] == before.held[k])
    && (forall k :: k in after.held && k !in before.held ==>
          && NormalizeBinding(b).Some? && k == DatasetKey(NormalizeBinding(b).value, dataset)
          && after.held[k] == BridgeDataset(NormalizeBinding(b).value, dataset))
  }

  /** Nothing appears anywhere that the bridge did not hold. */
  ghost predicate OnlyRemoves(before: Bridge, after: Bridge) {
    && (forall k :: k in after.held ==> k in before.held && after.held[k] == before.held[k])
    && (forall k :: k in after.unsaved ==> (k in before.held && after.unsaved[k] == before.held[k]) || (k in before.unsaved && after.unsaved[k] == before.unsaved[k]))
  }

  /** The dataset is this source's already, or neither it nor the source is in the ledger. */
  ghost predicate Claimable(ledger: map<string, Row>, b: Binding, dataset: string) {
    if dataset in ledger then SameSource(ledger[dataset].binding, b) else forall d :: d in ledger ==> !SameSource(ledger[d].binding, b)
  }

  /** The bridge holds the dataset under this very binding, or has its place free. */
  ghost predicate BridgeTakes(held: map<string, BridgeDataset>, b: Binding, dataset: string) {
    && NormalizeBinding(b).Some? && ValidDataset(dataset)
    && var n := NormalizeBinding(b).value;
       var key := DatasetKey(n, dataset);
       if key in held then held[key].binding == n else forall k :: k in held ==> Place(held[k].binding) != Place(n)
  }

  lemma DatasetsHavePrefix(dataset: string)
    ensures ValidDataset(dataset) ==> HasPrefix(TrimSpace(dataset), FIXTURE_DATASET_PREFIX)
  {
    hide TrimSpace;
  }

  datatype Outcome = Completed | Stopped

  class Command {
    var ledger: map<string, Row>
    var bridge: Bridge

    constructor ()
      ensures ledger == map[] && bridge == Bridge(map[], map[]) && Valid()
    {
      ledger, bridge := map[], Bridge(map[], map[]);
    }

    ghost predicate Valid()
      reads this
    {
      OneRowPerSource(ledger) && Covered(ledger, bridge.held) && Covered(ledger, bridge.unsaved)
    }

    /** The bridge's Seed and Cleanup as one request each, with the fate of the request. */
    method PostSeed(b: Binding, dataset: string, fate: Cleanup.Fate, saves: bool) returns (ok: bool)
      modifies this`bridge
      ensures SeedReply(old(bridge), bridge, b, dataset, fate, saves, ok)
    {
      ok := false;
      if NormalizeBinding(b).None? || !ValidDataset(dataset) || fate in {Cleanup.Failed, Cleanup.Crashed} {
        return;
      }
      var n := NormalizeBinding(b).value;
      var key := DatasetKey(n, dataset);
      if key in bridge.held {
        ok := bridge.held[key].binding == n && fate == Cleanup.Done;
      } else if saves && !exists k :: k in bridge.held && Place(bridge.held[k].binding) == Place(n) {
        bridge := Bridge(bridge.held[key := BridgeDataset(n, dataset)], map[]);
        ok := fate == Cleanup.Done;
      }
    }

    method PostCleanup(b: Binding, dataset: string, fate: Cleanup.Fate, saves: bool) returns (ok: bool)
      modifies this`bridge
      ensures CleanupReply(old(bridge), bridge, b, dataset, fate, saves, ok)
    {
      ok := false;
      if NormalizeBinding(b).None? || !ValidDataset(dataset) || fate in {Cleanup.Failed, Cleanup.Crashed} {
        return;
      }
      var n := NormalizeBinding(b).value;
      var key := DatasetKey(n, dataset);
      if key in bridge.held && bridge.held[key].binding == n {
        bridge := Bridge(bridge.held - {key}, bridge.unsaved[key := bridge.held[key]]);
      }
      if saves {
        bridge := bridge.(unsaved := map[]);
      }
      ok := saves && fate == Cleanup.Done;
    }

    /** claimFixtureDataset: the insert, then reading back who owns the source. */
    method Claim(b: Binding, dataset: string, insert: Cleanup.Fate, select: Cleanup.Fate) returns (ok: bool)
      requires Valid() && IsMode(b.mode)
      modifies this`ledger
      ensures Valid()
      ensures ledger == if insert in {Cleanup.Done, Cleanup.ReplyLost} && HasPrefix(dataset, FIXTURE_DATASET_PREFIX)
                        then Claimed(old(ledger), b, dataset) else old(ledger)
      ensures ok <==> HasPrefix(dataset, FIXTURE_DATASET_PREFIX) && insert == select == Cleanup.Done
                      && dataset in ledger && SameSource(ledger[dataset].binding, b)
    {
      ok := false;
      if !HasPrefix(dataset, FIXTURE_DATASET_PREFIX) {
        return;
      }
      ClaimOutcome(ledger, b, dataset);
      ClaimingKeepsCovered(ledger, bridge.held, b, dataset);
      ClaimingKeepsCovered(ledger, bridge.unsaved, b, dataset);
      if insert in {Cleanup.Done, Cleanup.ReplyLost} {
        ledger := Claimed(ledger, b, dataset);
      }
      if insert != Cleanup.Done || select != Cleanup.Done {
        return;
      }
      var owners := set d | d in ledger && SameSource(ledger[d].binding, b);
      ok := owners == {dataset};
      assert ok ==> dataset in owners;
      assert dataset in ledger && SameSource(ledger[dataset].binding, b) ==> owners == {dataset};
    }

    /** updateFixtureDatasetStatus: exactly one row of the scope must be there. */
    method UpdateStatus(b: Binding, dataset: string, status: Status, fate: Cleanup.Fate) returns (ok: bool)
      requires Valid()
      modifies this`ledger
      ensures Valid()
      ensures var there := dataset in old(ledger) && SameScope(old(ledger)[dataset].binding, b);
        && ledger == (if there && fate in {Cleanup.Done, Cleanup.ReplyLost}
                      then old(ledger)[dataset := old(ledger)[dataset].(status := status)] else old(ledger))
        && ok == (there && fate == Cleanup.Done)
    {
      hide DatasetKey, SourceIdentity, NormalizeBinding, IsNormal;
      var there := dataset in ledger && SameScope(ledger[dataset].binding, b);
      if there && fate in {Cleanup.Done, Cleanup.ReplyLost} {
        ledger := ledger[dataset := ledger[dataset].(status := status)];
      }
      ok := there && fate == Cleanup.Done;
    }

    /** deleteFixtureDataset. No row to delete is not an error. */
    method DeleteRow(b: Binding, dataset: string, fate: Cleanup.Fate) returns (ok: bool)
      modifies this`ledger
      ensures ledger == if dataset in old(ledger) && SameScope(old(ledger)[dataset].binding, b) && fate in {Cleanup.Done, Cleanup.ReplyLost}
                        then old(ledger) - {dataset} else old(ledger)
      ensures ok == (fate == Cleanup.Done)
    {
      if dataset in ledger && SameScope(ledger[dataset].binding, b) && fate in {Cleanup.Done, Cleanup.ReplyLost} {
        ledger := ledger - {dataset};
      }
      ok := fate == Cleanup.Done;
    }

    /** The seed command: ownership check, claim, delegated preparation, bridge, callbacks, activation, status. */
    method Seed(b: Binding, rawDataset: string, sources: seq<string>, fate: nat -> Cleanup.Fate, saves: bool) returns (outcome: Outcome)
      requires Valid() && IsMode(b.mode)
      modifies this
      ensures Valid()
      ensures outcome == Completed ==>
        && NormalizeBinding(b).Some? && DatasetKey(NormalizeBinding(b).value, rawDataset) in bridge.held
        && TrimSpace(rawDataset) in ledger && ledger[TrimSpace(rawDataset)] == Row(b, Ready)
      ensures OnlyAdds(old(bridge), bridge, b, rawDataset)
      ensures (&& saves && (forall i :: fate(i) == Cleanup.Done) && Cleanup.MessageIdsAllowed(TrimSpace(rawDataset), sources)
               && Claimable(old(ledger), b, TrimSpace(rawDataset)) && BridgeTakes(old(bridge).held, b, rawDataset)) ==> outcome == Completed
    {
      hide DatasetKey, IsNormal, NormalizeBinding, SourceIdentity, ValidDataset, TrimSpace, OneRowPerSource, Covered, Cleanup.MessageIdsAllowed;
      DatasetsHavePrefix(rawDataset);
      outcome := Stopped;
      var dataset := TrimSpace(rawDataset);
      if fate(0) != Cleanup.Done || !HasPrefix(dataset, FIXTURE_DATASET_PREFIX) || !Cleanup.MessageIdsAllowed(dataset, sources) {
        return;
      }
      var claimed := Claim(b, dataset, fate(1), fate(2));
      if !claimed {
        return;
      }
      WonClaimIsExact(ledger, b, dataset);
      NormalizedIsNormal(b);
      if b.mode == MODE_DELEGATED && fate(3) != Cleanup.Done {
        return;
      }
      var posted := SeedBridge(b, rawDataset, fate(4), saves);
      if !posted || (b.mode == MODE_DELEGATED && fate(5) != Cleanup.Done) || fate(6) != Cleanup.Done {
        return;
      }
      var updated := UpdateStatus(b, dataset, Ready, fate(7));
      if updated {
        outcome := Completed;
      }
    }

    /** The bridge request of a seed whose claim succeeded. */
    method SeedBridge(b: Binding, rawDataset: string, fate: Cleanup.Fate, saves: bool) returns (ok: bool)
      requires Valid() && TrimSpace(rawDataset) in ledger && ledger[TrimSpace(rawDataset)].binding == b
      modifies this`bridge
      ensures Valid()
      ensures ok ==> NormalizeBinding(b).Some? && DatasetKey(NormalizeBinding(b).value, rawDataset) in bridge.held
      ensures OnlyAdds(old(bridge), bridge, b, rawDataset)
      ensures saves && fate == Cleanup.Done && BridgeTakes(old(bridge).held, b, rawDataset) ==> ok
    {
      hide DatasetKey, IsNormal, NormalizeBinding, SourceIdentity, ValidDataset, TrimSpace, OneRowPerSource;
      NormalizedIsNormal(b);
      ok := PostSeed(b, rawDataset, fate, saves);
    }

    /** The cleanup command: status, downstream rows and files, bridge, and last the ledger row. */
    method CleanUp(b: Binding, rawDataset: string, confirmation: string, dryRun: bool, fate: nat -> Cleanup.Fate, saves: bool) returns (outcome: Outcome)
      requires Valid() && IsMode(b.mode)
      modifies this
      ensures !Foreign(old(bridge).held, b, rawDataset) ==> Valid()
      ensures OnlyRemoves(old(bridge), bridge)
      ensures Foreign(old(bridge).held, b, rawDataset) ==> bridge.held == old(bridge).held
      ensures dryRun ==> ledger == old(ledger) && bridge == old(bridge)
      ensures outcome == Completed && !dryRun ==> TrimSpace(rawDataset) in old(ledger) && TrimSpace(rawDataset) !in ledger && bridge.unsaved == map[]
      ensures outcome == Completed && !dryRun ==> (Covered(ledger, bridge.held) <==> !Foreign(old(bridge).held, b, rawDataset))
      ensures outcome == Completed && !dryRun && !Foreign(old(bridge).held, b, rawDataset) ==>
        NormalizeBinding(b).Some? && DatasetKey(NormalizeBinding(b).value, rawDataset) !in bridge.held
      ensures InScope(old(ledger), b, rawDataset) && !Foreign(old(bridge).held, b, rawDataset) ==>
        InScope(ledger, b, rawDataset) || (Gone(ledger, bridge.held, b, rawDataset) && bridge.unsaved == map[])
      ensures !InScope(old(ledger), b, rawDataset) ==> ledger == old(ledger) && bridge == old(bridge)
      ensures (&& !dryRun && TrimSpace(confirmation) == TrimSpace(rawDataset) && ValidDataset(rawDataset) && NormalizeBinding(b).Some?
               && InScope(old(ledger), b, rawDataset) && saves && forall i :: fate(i) == Cleanup.Done) ==> outcome == Completed
    {
      hide DatasetKey, IsNormal, NormalizeBinding, SourceIdentity, ValidDataset, TrimSpace, OneRowPerSource, Covered;
      NormalizedIsNormal(b);
      outcome := Stopped;
      var dataset := TrimSpace(rawDataset);
      if dryRun {
        return if fate(2) == Cleanup.Done then Completed else Stopped;
      }
      if TrimSpace(confirmation) != dataset {
        return;
      }
      var marked := UpdateStatus(b, dataset, Cleaning, fate(0));
      if !marked || fate(1) != Cleanup.Done {
        return;
      }
      ghost var ledger1 := ledger;
      var posted := PostCleanup(b, rawDataset, fate(2), saves);
      SmallerBridgeIsCovered(ledger1, old(bridge), bridge);
      if !posted {
        return;
      }
      var deleted := DeleteRow(b, dataset, fate(3));
      DeletingTheRow(ledger1, bridge.held, b, rawDataset);
      NothingIsCovered(ledger);
      if deleted {
        outcome := Completed;
      }
    }

    /** The bridge starts anew between two commands. */
    method RestartBridge()
      requires Valid()
      modifies this`bridge
      ensures Valid() && bridge == Restarted(old(bridge))
    {
      hide OneRowPerSource, DatasetKey, IsNormal, NormalizeBinding;
      NothingIsCovered(ledger);
      bridge := Restarted(bridge);
    }

    /** Any series of seed and cleanup commands and restarts of the bridge, one at a time, each cut short or
        failing anywhere. While the enterprise id of each tenant enterprise and mode (`wxCorpId`) stays what it
        is, the bridge never holds a dataset without its ledger row, nor gets one back by starting anew. */
    method RunAll(commands: seq<(Request, nat -> Cleanup.Fate, bool)>, wxCorpId: (int, int, string) -> string)
      requires Valid() && BridgeUses(bridge.held, wxCorpId) && BridgeUses(bridge.unsaved, wxCorpId)
      requires forall c :: c in commands && !c.0.BridgeRestart? ==> IsMode(c.0.b.mode) && Authoritative(c.0.b, wxCorpId)
      modifies this
      ensures Valid() && BridgeUses(bridge.held, wxCorpId) && BridgeUses(bridge.unsaved, wxCorpId)
    {
      hide IsMode, Authoritative, BridgeUses, OneRowPerSource, Covered, Foreign, NormalizeBinding, DatasetKey;
      for i := 0 to |commands|
        invariant Valid() && BridgeUses(bridge.held, wxCorpId) && BridgeUses(bridge.unsaved, wxCorpId)
      {
        var (request, fate, saves) := commands[i];
        assert commands[i] in commands;
        ghost var before := bridge;
        match request {
          case SeedRequest(b, dataset, sources) =>
            var _ := Seed(b, dataset, sources, fate, saves);
            SeededBridgeStillUses(before, bridge, b, dataset, wxCorpId);
          case CleanUpRequest(b, dataset, confirmation, dryRun) =>
            AuthoritativeIsNotForeign(ledger, bridge.held, b, dataset, wxCorpId);
            var _ := CleanUp(b, dataset, confirmation, dryRun, fate, saves);
            CleanedBridgeStillUses(before, bridge, wxCorpId);
          case BridgeRestart =>
            RestartBridge();
            RestartedBridgeStillUses(before, wxCorpId);
        }
      }
    }

    /** A cleanup cut short anywhere, the bridge perhaps starting anew, then the cleanup run again without
        interruption: dataset and row are both gone, also from the bridge's state file. When the first run had
        already deleted the row, the second is refused with nothing left to do. */
    method CleanUpTwice(b: Binding, rawDataset: string, fate: nat -> Cleanup.Fate, saves: bool, restarts: bool)
      requires Valid() && IsMode(b.mode) && ValidDataset(rawDataset) && NormalizeBinding(b).Some?
      requires InScope(ledger, b, rawDataset) && !Foreign(bridge.held, b, rawDataset) && !Foreign(bridge.unsaved, b, rawDataset)
      modifies this
      ensures Valid() && Gone(ledger, bridge.held, b, rawDataset) && bridge.unsaved == map[]
    {
      hide DatasetKey, IsNormal, NormalizeBinding, SourceIdentity, ValidDataset, TrimSpace, OneRowPerSource, Covered;
      NormalizedIsNormal(b);
      var _ := CleanUp(b, rawDataset, rawDataset, false, fate, saves);
      if restarts {
        RestartBridge();
      }
      var _ := CleanUp(b, rawDataset, rawDataset, false, _ => Cleanup.Done, true);
    }

    /** A dataset seeded under one enterprise id and cleaned up under another one of the same tenant, enterprise
        and mode: every step succeeds, the command completes, and the bridge keeps a dataset without a row. */
    method CleanUpUnderAnotherId(seeded: Binding, cleaned: Binding, rawDataset: string, confirmation: string)
      requires ledger == map[] && bridge == Bridge(map[], map[]) && Valid()
      requires IsMode(seeded.mode) && cleaned == seeded.(wxCorpId := cleaned.wxCorpId) && TrimSpace(cleaned.wxCorpId) != TrimSpace(seeded.wxCorpId)
      requires NormalizeBinding(seeded).Some? && NormalizeBinding(cleaned).Some? && ValidDataset(rawDataset) && confirmation == rawDataset
      modifies this
      ensures TrimSpace(rawDataset) !in ledger && DatasetKey(NormalizeBinding(seeded).value, rawDataset) in bridge.held
      ensures !Covered(ledger, bridge.held)
    {
      hide OneRowPerSource, Covered, TrimSpace, ValidDataset, SourceIdentity, Valid;
      NormalizedIsNormal(seeded);
      NormalizedIsNormal(cleaned);
      DatasetsHavePrefix(rawDataset);
      var dataset, works := TrimSpace(rawDataset), _ => Cleanup.Done;
      NoMessagesAreAllowed(rawDataset);
      assert Claimable(map[], seeded, dataset);
      var first := Seed(seeded, rawDataset, [], works, true);
      assert first == Completed;
      SameScopeSameKey(NormalizeBinding(seeded).value, rawDataset, NormalizeBinding(cleaned).value, rawDataset);
      assert Foreign(bridge.held, cleaned, rawDataset);
      var second := CleanUp(cleaned, rawDataset, confirmation, false, works, true);
      assert second == Completed;
    }
  }

  lemma ClaimingKeepsCovered(ledger: map<string, Row>, bridge: map<string, BridgeDataset>, b: Binding, dataset: string)
    requires Covered(ledger, bridge)
    ensures Covered(Claimed(ledger, b, dataset), bridge)
  {
    hide DatasetKey, IsNormal, NormalizeBinding, SourceIdentity;
  }

  lemma AuthoritativeIsNotForeign(ledger: map<string, Row>, bridge: map<string, BridgeDataset>, b: Binding, dataset: string,
                                  wxCorpId: (int, int, string) -> string)
    requires IsMode(b.mode) && Authoritative(b, wxCorpId) && BridgeUses(bridge, wxCorpId) && OneRowPerSource(ledger) && Covered(ledger, bridge)
    ensures !Foreign(bridge, b, dataset)
  {
    hide SourceIdentity, TrimSpace;
    NormalizedIsNormal(b);
    ModesAreTrimmed();
    if NormalizeBinding(b).Some? && DatasetKey(NormalizeBinding(b).value, dataset) in bridge {
      var n := NormalizeBinding(b).value;
      var e := bridge[DatasetKey(n, dataset)];
      DatasetKeyInjective(n, dataset, e.binding, e.dataset);
      assert e.binding.(wxCorpId := wxCorpId(e.binding.tenantId, e.binding.corpId, e.binding.mode)) == b.(mode := e.binding.mode);
    }
  }

  lemma SeededBridgeStillUses(before: Bridge, after: Bridge, b: Binding, dataset: string, wxCorpId: (int, int, string) -> string)
    requires IsMode(b.mode) && Authoritative(b, wxCorpId) && OnlyAdds(before, after, b, dataset)
    requires BridgeUses(before.held, wxCorpId) && BridgeUses(before.unsaved, wxCorpId)
    ensures BridgeUses(after.held, wxCorpId) && BridgeUses(after.unsaved, wxCorpId)
  {
    hide TrimSpace;
    ModesAreTrimmed();
  }

  lemma CleanedBridgeStillUses(before: Bridge, after: Bridge, wxCorpId: (int, int, string) -> string)
    requires OnlyRemoves(before, after) && BridgeUses(before.held, wxCorpId) && BridgeUses(before.unsaved, wxCorpId)
    ensures BridgeUses(after.held, wxCorpId) && BridgeUses(after.unsaved, wxCorpId)
  {
    hide NormalizeBinding;
  }

  lemma RestartedBridgeStillUses(bridge: Bridge, wxCorpId: (int, int, string) -> string)
    requires BridgeUses(bridge.held, wxCorpId) && BridgeUses(bridge.unsaved, wxCorpId)
    ensures BridgeUses(Restarted(bridge).held, wxCorpId) && BridgeUses(Restarted(bridge).unsaved, wxCorpId)
  {
    hide NormalizeBinding;
  }

  lemma NoMessagesAreAllowed(rawDataset: string)
    requires HasPrefix(TrimSpace(rawDataset), FIXTURE_DATASET_PREFIX)
    ensures Cleanup.MessageIdsAllowed(TrimSpace(rawDataset), [])
  {
    hide TrimSpace;
    TrimSpaceTrims(rawDataset);
  }

  /** The row a successful claim leaves carries exactly the claiming binding. */
  lemma WonClaimIsExact(ledger: map<string, Row>, b: Binding, dataset: string)
    requires OneRowPerSource(ledger) && IsMode(b.mode) && dataset in ledger && SameSource(ledger[dataset].binding, b)
    ensures ledger[dataset].binding == b
  {
    SourceIdentityInjective(ledger[dataset].binding, b);
  }

  lemma SmallerBridgeIsCovered(ledger: map<string, Row>, before: Bridge, after: Bridge)
    requires Covered(ledger, before.held) && Covered(ledger, before.unsaved) && OnlyRemoves(before, after)
    ensures Covered(ledger, after.held) && Covered(ledger, after.unsaved)
  {
    hide NormalizeBinding, DatasetKey, IsNormal;
  }

  lemma NothingIsCovered(ledger: map<string, Row>)
    ensures Covered(ledger, map[])
  {
  }

  /** With the row gone, the bridge is still covered exactly when it does not hold the dataset of that row. */
  lemma DeletingTheRow(ledger: map<string, Row>, bridge: map<string, BridgeDataset>, b: Binding, rawDataset: string)
    requires OneRowPerSource(ledger) && Covered(ledger, bridge) && InScope(ledger, b, rawDataset) && IsMode(b.mode)
    requires NormalizeBinding(b).Some?
    ensures OneRowPerSource(ledger - {TrimSpace(rawDataset)})
    ensures Covered(ledger - {TrimSpace(rawDataset)}, bridge) <==> DatasetKey(NormalizeBinding(b).value, rawDataset) !in bridge
  {
    hide SourceIdentity, NormalizeBinding, DatasetKey, TrimSpace, IsNormal;
    var n, d := NormalizeBinding(b).value, TrimSpace(rawDataset);
    var rest := ledger - {d};
    NormalizedIsNormal(b);
    NormalizingKeepsScope(b);
    NormalizingKeepsScope(ledger[d].binding);
    forall k | k in bridge && TrimSpace(bridge[k].dataset) == d
      ensures k == DatasetKey(n, rawDataset)
    {
      assert NormalizeBinding(ledger[d].binding) == Some(bridge[k].binding);
      SameScopeSameKey(bridge[k].binding, bridge[k].dataset, n, rawDataset);
    }
    if DatasetKey(n, rawDataset) in bridge {
      var k := DatasetKey(n, rawDataset);
      DatasetKeyInjective(n, rawDataset, bridge[k].binding, bridge[k].dataset);
    }
  }

  lemma NormalizingKeepsScope(b: Binding)
    requires IsMode(b.mode)
    ensures NormalizeBinding(b).Some? ==> SameScope(NormalizeBinding(b).value, b)
  {
    hide TrimSpace;
    ModesAreTrimmed();
  }

  lemma SameScopeSameKey(a: Binding, x: string, b: Binding, y: string)
    requires SameScope(a, b) && TrimSpace(x) == TrimSpace(y) && a.tenantId >= 0 && a.corpId >= 0
    ensures DatasetKey(a, x) == DatasetKey(b, y)
  {
    hide TrimSpace;
  }

  lemma ModesAreTrimmed()
    ensures TrimSpace(MODE_SELF_BUILT) == MODE_SELF_BUILT && TrimSpace(MODE_DELEGATED) == MODE_DELEGATED
  {
    hide TrimSpace;
    TrimSpaceTrims(MODE_SELF_BUILT);
    TrimSpaceTrims(MODE_DELEGATED);
  }
}
