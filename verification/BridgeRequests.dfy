/** The simulator's requests to the bridge, answered by the fixture manager itself: what the commands assume of a
    seed, of a cleanup and of a restart is what the manager does, failed saves included. */
module BridgeRequests {
  import Cleanup = FixtureCleanup
  import opened FixtureManager
  import opened SimulatorCommand
  import opened Text

  function Seen(datasets: map<string, Entry>, keys: set<string>): map<string, BridgeDataset>
    requires keys <= datasets.Keys
  {
    map k | k in keys :: BridgeDataset(datasets[k].binding, datasets[k].dataset)
  }

  /** The manager as the commands see it: the datasets in memory, and the pending ones on its state file. */
  ghost function View(m: Manager): Bridge
    requires m.Valid() && m.running
    reads m
  {
    Bridge(Seen(m.datasets, m.datasets.Keys), Seen(m.StoredDatasets(), m.pending.Keys))
  }

  lemma SeedIsSeen(before: map<string, Entry>, after: map<string, Entry>, key: string)
    requires key in after && key !in before && after == before[key := after[key]]
    ensures Seen(after, after.Keys) == Seen(before, before.Keys)[key := BridgeDataset(after[key].binding, after[key].dataset)]
  {
  }

  lemma RemovalIsSeen(before: map<string, Entry>, key: string)
    ensures Seen(before - {key}, (before - {key}).Keys) == Seen(before, before.Keys) - {key}
  {
  }

  lemma PendingIsSeen(stored: map<string, Entry>, datasets: map<string, Entry>, pending: map<string, Binding>, key: string, b: Binding)
    requires SameOnFile(stored, datasets, pending) && key in datasets
    ensures Seen(stored, pending[key := b].Keys) == Seen(stored, pending.Keys)[key := Seen(datasets, datasets.Keys)[key]]
  {
  }

  lemma PlaceIsFreeInView(datasets: map<string, Entry>, drivers: map<(int, int), Binding>, b: Binding)
    requires DriversMatch(datasets, drivers) && Place(b) !in drivers
    ensures forall k :: k in Seen(datasets, datasets.Keys) ==> Place(Seen(datasets, datasets.Keys)[k].binding) != Place(b)
  {
  }

  /** The state file lists what is pending, so the view is defined. */
  lemma PendingIsOnFile(m: Manager)
    requires m.Valid() && m.running
    ensures m.pending.Keys <= m.StoredDatasets().Keys
  {
  }

  method RequestSeed(m: Manager, b: Binding, dataset: string, luck: Luck, replies: bool)
    returns (ok: bool, ghost fate: Cleanup.Fate, ghost saves: bool)
    requires m.Valid() && m.running
    modifies m
    ensures m.Valid() && m.running
    ensures SeedReply(old(View(m)), View(m), b, dataset, fate, saves, ok)
  {
    hide WellFormed, RuntimesMatch, HoldsAcknowledged, Shaped, Agrees, SameOnFile, DriversMatch, Messages, DelegatedSeeds, NormalizeBinding,
      DatasetKey, ValidDataset, LostBySaving;
    ghost var before, drivers := m.datasets, m.drivers;
    NormalizedIsNormal(b);
    PendingIsOnFile(m);
    var r := m.Seed(b, dataset, luck);
    PendingIsOnFile(m);
    if r.Ok? && m.datasets != before {
      SeedIsSeen(before, m.datasets, DatasetKey(NormalizeBinding(b).value, dataset));
      PlaceIsFreeInView(before, drivers, NormalizeBinding(b).value);
    }
    ok := r.Ok? && replies;
    fate := if replies then Cleanup.Done else Cleanup.ReplyLost;
    saves := r.Ok?;
  }

  method RequestCleanup(m: Manager, b: Binding, dataset: string, luck: Luck, replies: bool)
    returns (ok: bool, ghost fate: Cleanup.Fate)
    requires m.Valid() && m.running
    modifies m
    ensures m.Valid() && m.running
    ensures CleanupReply(old(View(m)), View(m), b, dataset, fate, luck.persist, ok)
  {
    hide WellFormed, RuntimesMatch, HoldsAcknowledged, Shaped, Agrees, SameOnFile, DriversMatch, NormalizeBinding, DatasetKey, ValidDataset,
      TrimSpace, LostBySaving, Seen;
    ghost var before, stored, pending := m.datasets, m.StoredDatasets(), m.pending;
    PendingIsOnFile(m);
    NormalizedIsNormal(b);
    var r := m.Cleanup(b, dataset, dataset, luck);
    PendingIsOnFile(m);
    NothingIsSeen(m.StoredDatasets());
    SeenAsBound(before);
    if r != Err(ConfirmationRequired) {
      var n := NormalizeBinding(b).value;
      var key := DatasetKey(n, dataset);
      if key in before && before[key].binding == n {
        RemovalIsSeen(before, key);
        PendingIsSeen(stored, before, pending, key, n);
      }
    }
    ok := r.Ok? && replies;
    fate := if replies then Cleanup.Done else Cleanup.ReplyLost;
  }

  lemma NothingIsSeen(stored: map<string, Entry>)
    ensures var none: map<string, Binding> := map[]; Seen(stored, none.Keys) == map[]
  {
  }

  lemma SeenAsBound(datasets: map<string, Entry>)
    ensures Seen(datasets, datasets.Keys).Keys == datasets.Keys
    ensures forall k :: k in datasets ==> Seen(datasets, datasets.Keys)[k].binding == datasets[k].binding
  {
  }

  lemma ReloadedIsSeen(stored: map<string, Entry>, datasets: map<string, Entry>, pending: map<string, Binding>, loaded: map<string, Entry>)
    requires SameOnFile(stored, datasets, pending) && pending.Keys !! datasets.Keys
    requires loaded.Keys == stored.Keys && forall k :: k in loaded ==> loaded[k] == Loaded(stored[k])
    ensures Seen(loaded, loaded.Keys) == Seen(datasets, datasets.Keys) + Seen(stored, pending.Keys)
  {
  }

  method RestartManager(m: Manager, luck: Luck) returns (ok: bool)
    requires m.Valid() && m.running
    modifies m
    ensures m.Valid() && m.running == ok
    ensures ok ==> View(m) == Restarted(old(View(m)))
  {
    hide WellFormed, RuntimesMatch, HoldsAcknowledged, Shaped, Agrees, SameOnFile, DriversMatch, Seen, Loaded;
    ghost var datasets, stored, pending := m.datasets, m.StoredDatasets(), m.pending;
    PendingIsOnFile(m);
    ok := m.Restart(luck);
    if ok {
      PendingIsOnFile(m);
      ReloadedIsSeen(stored, datasets, pending, m.datasets);
      NothingIsSeen(stored);
    }
  }
}
