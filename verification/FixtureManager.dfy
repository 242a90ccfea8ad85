/** The bridge's fixture manager: datasets in memory, the runtime behind each of them, the drivers
    registered with the bridge store, and the state file that survives a restart. */
module FixtureManager {
  import opened SendJournal
  import opened Text

  const FIXTURE_DATASET_PREFIX := "MOCHAT-LOCAL-SIM-"
  const MODE_SELF_BUILT := "self_built"
  const MODE_DELEGATED := "third_party_delegated"

  // ----- Bindings and keys -----

  datatype Binding = Binding(tenantId: int, corpId: int, wxCorpId: string, mode: string)

  predicate IsNormal(b: Binding) {
    b.tenantId > 0 && b.corpId > 0 && b.wxCorpId != "" && Trimmed(b.wxCorpId) &&
    (b.mode == MODE_SELF_BUILT || b.mode == MODE_DELEGATED)
  }

  function NormalizeBinding(b: Binding): Option<Binding> {
    var n := b.(wxCorpId := TrimSpace(b.wxCorpId), mode := TrimSpace(b.mode));
    if n.tenantId <= 0 || n.corpId <= 0 || n.wxCorpId == "" || (n.mode != MODE_SELF_BUILT && n.mode != MODE_DELEGATED)
    then None else Some(n)
  }

  lemma NormalizedIsNormal(b: Binding)
    ensures NormalizeBinding(b).Some? ==> IsNormal(NormalizeBinding(b).value)
    ensures NormalizeBinding(b).Some? ==> NormalizeBinding(b).value.tenantId == b.tenantId > 0 && NormalizeBinding(b).value.corpId == b.corpId > 0
    ensures IsNormal(b) ==> NormalizeBinding(b) == Some(b)
  {
    hide TrimSpace;
    TrimSpaceTrims(b.wxCorpId);
    TrimSpaceTrims(b.mode);
  }

  predicate ValidDataset(dataset: string) {
    var d := TrimSpace(dataset);
    HasPrefix(d, FIXTURE_DATASET_PREFIX) && |d| <= 96 &&
    forall c :: c in d ==> c == '-' || c == '_' || '0' <= c <= '9' || 'A' <= c <= 'Z' || 'a' <= c <= 'z'
  }

  function DatasetKey(b: Binding, dataset: string): string
    requires b.tenantId >= 0 && b.corpId >= 0
  {
    Decimal(b.tenantId) + [':'] + (Decimal(b.corpId) + [':'] + (b.mode + [':'] + TrimSpace(dataset)))
  }

  /** The key determines tenant, enterprise, mode and trimmed dataset name. */
  lemma DatasetKeyInjective(a: Binding, x: string, b: Binding, y: string)
    requires IsNormal(a) && IsNormal(b)
    requires DatasetKey(a, x) == DatasetKey(b, y)
    ensures a.tenantId == b.tenantId && a.corpId == b.corpId && a.mode == b.mode && TrimSpace(x) == TrimSpace(y)
  {
    var ra := a.mode + [':'] + TrimSpace(x);
    var rb := b.mode + [':'] + TrimSpace(y);
    var qa := Decimal(a.corpId) + [':'] + ra;
    var qb := Decimal(b.corpId) + [':'] + rb;
    FirstSeparatorCancels(Decimal(a.tenantId), qa, Decimal(b.tenantId), qb, ':');
    FirstSeparatorCancels(Decimal(a.corpId), ra, Decimal(b.corpId), rb, ':');
    assert ':' !in MODE_SELF_BUILT && ':' !in MODE_DELEGATED;
    FirstSeparatorCancels(a.mode, TrimSpace(x), b.mode, TrimSpace(y), ':');
    DecimalInjective(a.tenantId, b.tenantId);
    DecimalInjective(a.corpId, b.corpId);
  }

  // ----- Messages -----

  datatype Message = Message(sequence: int, messageId: string, kind: string, body: string)

  datatype SendInput = SendInput(binding: Binding, dataset: string, kind: string, text: string, data: Option<string>)

  datatype SendResult = SendResult(dataset: string, mode: string, sequence: nat, messageId: string)

  function Hyphenated(s: string): string {
    if s == [] then [] else [if s[0] == '_' then '-' else s[0]] + Hyphenated(s[1..])
  }

  function MessageId(dataset: string, mode: string, sequence: nat): string {
    dataset + "-" + Hyphenated(mode) + ['-'] + PadLeft(Decimal(sequence), 4)
  }

  /** Two different sequence numbers never give the same message id, however the dataset and mode are spelled. */
  lemma MessageIdsDiffer(d1: string, m1: string, s1: nat, d2: string, m2: string, s2: nat)
    requires s1 != s2
    ensures MessageId(d1, m1, s1) != MessageId(d2, m2, s2)
  {
    if MessageId(d1, m1, s1) == MessageId(d2, m2, s2) {
      var p1, p2 := PadLeft(Decimal(s1), 4), PadLeft(Decimal(s2), 4);
      PaddingKeepsValue(Decimal(s1), 4);
      PaddingKeepsValue(Decimal(s2), 4);
      assert '-' !in p1 && '-' !in p2;
      LastSeparatorCancels(d1 + "-" + Hyphenated(m1), p1, d2 + "-" + Hyphenated(m2), p2, '-');
      PaddedDecimalInjective(s1, s2, 4);
      assert false;
    }
  }

  const MEDIA_KINDS := {"image", "voice", "video", "file"}

  datatype Error =
    | RequestInvalid | BindingConflict | BindingRegistered | RuntimeFailed | SuiteAuthFailed | DatasetNotFound
    | MessageInvalid | TypeUnsupported | SendFailed | ExportFailed
    | ConfirmationRequired | StateFileFailed

  datatype Result<+T> = Ok(value: T) | Err(error: Error)

  /** fixtureBody. `data` is what the base64 library makes of the payload. */
  function Body(input: SendInput, kind: string): (r: Result<string>)
    ensures r.Ok? ==> r.value != "" && (kind == "text" || kind in MEDIA_KINDS)
    ensures r.Err? ==> r.error in {MessageInvalid, TypeUnsupported}
  {
    if kind == "text" then
      var value := TrimSpace(input.text);
      if value == "" then Err(MessageInvalid) else Ok(input.dataset + " " + value)
    else if kind !in MEDIA_KINDS then Err(TypeUnsupported)
    else if input.data.None? || input.data.value == "" || |input.data.value| > 20 * 1024 * 1024 then Err(MessageInvalid)
    else Ok(input.data.value)
  }

  // ----- Datasets -----

  datatype Entry = Entry(
    binding: Binding, dataset: string, selfMessages: seq<Message>, zone: Option<seq<Message>>,
    suiteAuthorized: bool, callbacks: seq<string>)

  /** What the two append-only logs behind a dataset hold. */
  datatype Runtime = Finance(log: seq<Message>) | Zone(log: seq<Message>)

  function Messages(e: Entry): seq<Message> {
    e.selfMessages + if e.zone.Some? then e.zone.value else []
  }

  /** The finance log starts with ten built-in messages. */
  function BuiltInMessages(dataset: string): seq<Message> {
    seq(10, i requires 0 <= i => Message(i + 1, TrimSpace(dataset) + "-MSG-" + PadLeft(Decimal(i + 1), 2), "built-in", "-"))
  }

  /** Append of the finance log: a used sequence number or message id is refused. */
  function FinanceAppend(log: seq<Message>, m: Message): (r: Option<seq<Message>>)
    ensures r.Some? ==> r.value == log + [m.(messageId := TrimSpace(m.messageId))]
  {
    var id := TrimSpace(m.messageId);
    if m.sequence == 0 || id == "" || m.body == "" || (m.kind != "text" && m.kind !in MEDIA_KINDS) ||
       (exists x :: x in log && (x.sequence == m.sequence || x.messageId == id))
    then None else Some(log + [m.(messageId := id)])
  }

  function FinanceReplay(log: seq<Message>, ms: seq<Message>): Option<seq<Message>> {
    if ms == [] then Some(log)
    else
      var before := FinanceReplay(log, ms[..|ms| - 1]);
      if before.None? then None else FinanceAppend(before.value, ms[|ms| - 1])
  }

  /** Append of the data zone: only a used message id is refused. */
  function ZoneAppend(log: seq<Message>, m: Message): (r: Option<seq<Message>>)
    ensures r.Some? ==> r.value == log + [m.(messageId := TrimSpace(m.messageId))] && TrimSpace(m.messageId) != ""
  {
    var id := TrimSpace(m.messageId);
    if m.sequence <= 0 || id == "" || m.body == "" || (m.kind != "text" && m.kind !in MEDIA_KINDS) ||
       (exists x :: x in log && x.messageId == id)
    then None else Some(log + [m.(messageId := id)])
  }

  function DelegatedSeeds(dataset: string): seq<Message> {
    var kinds := ["text", "image", "voice", "video", "file"];
    seq(5, i requires 0 <= i < 5 =>
      Message(i + 1, TrimSpace(dataset + "-DELEGATED-" + PadLeft(Decimal(i + 1), 2)), kinds[i], dataset + " delegated " + kinds[i]))
  }

  lemma SeedIdsAreDistinct(dataset: string, i: nat)
    requires i < 5
    ensures var id := DelegatedSeeds(dataset)[i].messageId; id != "" && id[|id| - 1] == DigitChar(i + 1) && TrimSpace(id) == id
  {
    var raw := dataset + "-DELEGATED-" + PadLeft(Decimal(i + 1), 2);
    assert PadLeft(Decimal(i + 1), 2) == ['0', DigitChar(i + 1)];
    assert raw[|raw| - 1] == DigitChar(i + 1);
    TrimSpaceKeepsLast(raw);
    TrimSpaceTrims(raw);
  }

  lemma SeedIdsAreNotBlank(dataset: string)
    ensures forall m :: m in DelegatedSeeds(dataset) ==> TrimSpace(m.messageId) != ""
  {
    forall i | 0 <= i < 5
      ensures TrimSpace(DelegatedSeeds(dataset)[i].messageId) != ""
    {
      SeedIdsAreDistinct(dataset, i);
    }
  }

  /** The five messages a new delegated dataset starts with, appended one by one. */
  method SeedZone(dataset: string) returns (log: seq<Message>)
    ensures log == DelegatedSeeds(dataset)
  {
    log := [];
    var seeds := DelegatedSeeds(dataset);
    for i := 0 to 5
      invariant log == seeds[..i]
    {
      SeedIdsAreDistinct(dataset, i);
      forall j | 0 <= j < i
        ensures log[j].messageId != seeds[i].messageId
      {
        SeedIdsAreDistinct(dataset, j);
      }
      var appended := ZoneAppend(log, seeds[i]);
      log := appended.value;
    }
  }

  /** The entry's messages can be fed to a new log. */
  ghost predicate Rebuildable(e: Entry) {
    if e.binding.mode == MODE_SELF_BUILT then FinanceReplay(BuiltInMessages(e.dataset), e.selfMessages).Some?
    else e.zone.Some? ==> forall m :: m in e.zone.value ==> TrimSpace(m.messageId) != ""
  }

  ghost predicate EntryWellFormed(key: string, e: Entry) {
    && IsNormal(e.binding) && ValidDataset(e.dataset) && key == DatasetKey(e.binding, e.dataset)
    && Rebuildable(e) && (e.binding.mode == MODE_DELEGATED ==> e.zone.Some?)
  }

  ghost predicate RuntimeMatches(e: Entry, r: Runtime) {
    if e.binding.mode == MODE_SELF_BUILT then
      r.Finance? && FinanceReplay(BuiltInMessages(e.dataset), e.selfMessages) == Some(r.log)
    else
      r.Zone? && e.zone.Some? && (forall m :: m in e.zone.value ==> m in r.log) && forall m :: m in r.log ==> TrimSpace(m.messageId) != ""
  }

  function Place(b: Binding): (int, int) {
    (b.tenantId, b.corpId)
  }

  /** One dataset for each tenant enterprise. */
  ghost predicate OnePerPlace(datasets: map<string, Entry>) {
    forall j, k :: j in datasets && k in datasets && Place(datasets[j].binding) == Place(datasets[k].binding) ==> j == k
  }

  ghost predicate WellFormed(datasets: map<string, Entry>) {
    (forall k :: k in datasets ==> EntryWellFormed(k, datasets[k])) && OnePerPlace(datasets)
  }

  lemma SameMessagesSameRuntime(a: Entry, b: Entry, r: Runtime)
    requires RuntimeMatches(a, r) && b == a.(suiteAuthorized := b.suiteAuthorized, callbacks := b.callbacks)
    ensures RuntimeMatches(b, r)
  {
  }

  lemma NewEntryWellFormed(key: string, e: Entry)
    requires IsNormal(e.binding) && ValidDataset(e.dataset) && key == DatasetKey(e.binding, e.dataset)
    requires e.selfMessages == [] && (e.binding.mode == MODE_DELEGATED ==> e.zone == Some(DelegatedSeeds(e.dataset)))
    ensures EntryWellFormed(key, e)
  {
    hide DatasetKey, ValidDataset;
    SeedIdsAreNotBlank(e.dataset);
  }

  /** Runtimes exist for the datasets and nothing else. */
  ghost predicate RuntimesMatch(datasets: map<string, Entry>, runtimes: map<string, Runtime>) {
    runtimes.Keys == datasets.Keys && forall k :: k in datasets ==> RuntimeMatches(datasets[k], runtimes[k])
  }

  /** The store would not refuse a driver for this binding. */
  predicate Accepts(drivers: map<(int, int), Binding>, b: Binding) {
    Place(b) in drivers ==> drivers[Place(b)] == b
  }

  /** The store has exactly one driver for each dataset, under the dataset's binding. */
  ghost predicate DriversMatch(datasets: map<string, Entry>, drivers: map<(int, int), Binding>) {
    && (forall k :: k in datasets ==> Place(datasets[k].binding) in drivers && drivers[Place(datasets[k].binding)] == datasets[k].binding)
    && (forall p :: p in drivers ==> exists k :: k in datasets && Place(datasets[k].binding) == p)
  }

  /** A new key that passed the conflict check and the store's own check has its place to itself. */
  lemma NewPlaceIsFree(datasets: map<string, Entry>, drivers: map<(int, int), Binding>, key: string, b: Binding, dataset: string)
    requires WellFormed(datasets) && DriversMatch(datasets, drivers) && Accepts(drivers, b)
    requires b.tenantId >= 0 && b.corpId >= 0 && key == DatasetKey(b, dataset) && key !in datasets
    requires forall k :: k in datasets && datasets[k].binding == b ==> datasets[k].dataset == dataset
    ensures Place(b) !in drivers
  {
    hide DatasetKey, ValidDataset, Rebuildable;
    assert forall k :: k in datasets ==> EntryWellFormed(k, datasets[k]);
  }

  lemma AddingDataset(datasets: map<string, Entry>, runtimes: map<string, Runtime>, drivers: map<(int, int), Binding>,
                      key: string, e: Entry, r: Runtime)
    requires WellFormed(datasets) && RuntimesMatch(datasets, runtimes) && DriversMatch(datasets, drivers)
    requires EntryWellFormed(key, e) && RuntimeMatches(e, r) && key !in datasets && Place(e.binding) !in drivers
    ensures WellFormed(datasets[key := e]) && RuntimesMatch(datasets[key := e], runtimes[key := r])
    ensures DriversMatch(datasets[key := e], drivers[Place(e.binding) := e.binding])
  {
    hide EntryWellFormed, RuntimeMatches;
    var all, ds := datasets[key := e], drivers[Place(e.binding) := e.binding];
    assert forall k :: k in datasets ==> Place(datasets[k].binding) != Place(e.binding);
    forall p | p in ds
      ensures exists k :: k in all && Place(all[k].binding) == p
    {
      if p == Place(e.binding) {
        assert Place(all[key].binding) == p;
      } else {
        var k :| k in datasets && Place(datasets[k].binding) == p;
        assert Place(all[k].binding) == p;
      }
    }
  }

  lemma EntryAt(datasets: map<string, Entry>, runtimes: map<string, Runtime>, key: string)
    requires WellFormed(datasets) && RuntimesMatch(datasets, runtimes) && key in datasets
    ensures key in runtimes && EntryWellFormed(key, datasets[key]) && RuntimeMatches(datasets[key], runtimes[key])
  {
  }

  lemma FinanceEntryGrows(key: string, e: Entry, r: Runtime, m: Message)
    requires EntryWellFormed(key, e) && RuntimeMatches(e, r) && r.Finance? && FinanceAppend(r.log, m).Some?
    ensures
      var e' := e.(selfMessages := e.selfMessages + [m]);
      EntryWellFormed(key, e') && RuntimeMatches(e', Finance(FinanceAppend(r.log, m).value)) && m in Messages(e')
  {
    hide FinanceAppend, DatasetKey, ValidDataset, BuiltInMessages;
    var ms := e.selfMessages + [m];
    assert ms[..|ms| - 1] == e.selfMessages;
    assert ms[|ms| - 1] == m;
  }

  lemma ZoneEntryGrows(key: string, e: Entry, r: Runtime, m: Message)
    requires EntryWellFormed(key, e) && RuntimeMatches(e, r) && r.Zone? && ZoneAppend(r.log, m).Some?
    ensures
      var log := ZoneAppend(r.log, m).value;
      var e' := e.(zone := Some(log));
      && RuntimeMatches(e, Zone(log)) && EntryWellFormed(key, e') && RuntimeMatches(e', Zone(log))
      && m.(messageId := TrimSpace(m.messageId)) in Messages(e')
      && forall x :: x in Messages(e) ==> x in Messages(e')
  {
    hide DatasetKey, ValidDataset, BuiltInMessages, TrimSpace;
    TrimSpaceTrims(m.messageId);
    var m' := m.(messageId := TrimSpace(m.messageId));
    assert ZoneAppend(r.log, m).value == r.log + [m'];
  }

  lemma ReplacingKeepsDrivers(datasets: map<string, Entry>, drivers: map<(int, int), Binding>, key: string, e: Entry)
    requires DriversMatch(datasets, drivers) && key in datasets && e.binding == datasets[key].binding
    ensures DriversMatch(datasets[key := e], drivers)
  {
    var all := datasets[key := e];
    forall p | p in drivers
      ensures exists k :: k in all && Place(all[k].binding) == p
    {
      var k :| k in datasets && Place(datasets[k].binding) == p;
      assert Place(all[k].binding) == p;
    }
  }

  lemma ReplacingEntry(datasets: map<string, Entry>, runtimes: map<string, Runtime>, drivers: map<(int, int), Binding>,
                       acknowledged: map<string, seq<SendResult>>, key: string, e: Entry, r: Runtime)
    requires WellFormed(datasets) && RuntimesMatch(datasets, runtimes) && DriversMatch(datasets, drivers) && key in datasets
    requires HoldsAcknowledged(datasets, acknowledged)
    requires e.binding == datasets[key].binding && EntryWellFormed(key, e) && RuntimeMatches(e, r)
    requires forall x :: x in Messages(datasets[key]) ==> x in Messages(e)
    ensures WellFormed(datasets[key := e]) && RuntimesMatch(datasets[key := e], runtimes[key := r])
    ensures DriversMatch(datasets[key := e], drivers) && HoldsAcknowledged(datasets[key := e], acknowledged)
  {
    hide EntryWellFormed, RuntimeMatches, Messages, DriversMatch;
    ReplacingKeepsDrivers(datasets, drivers, key, e);
    var all := datasets[key := e];
    forall k, x | k in acknowledged && x in acknowledged[k]
      ensures k in all && Recorded(all[k], x)
    {
      assert Recorded(datasets[k], x);
    }
  }

  lemma RemovingKeepsAcknowledged(datasets: map<string, Entry>, key: string, acknowledged: map<string, seq<SendResult>>)
    requires HoldsAcknowledged(datasets, acknowledged)
    ensures HoldsAcknowledged(datasets - {key}, acknowledged - {key})
  {
  }

  lemma DroppingKeepsHeld(datasets: map<string, Entry>, acknowledged: map<string, seq<SendResult>>, keys: set<string>)
    requires HoldsAcknowledged(datasets, acknowledged - keys) || HoldsAcknowledged(datasets, acknowledged)
    ensures HoldsAcknowledged(datasets, acknowledged - keys)
  {
    hide Recorded;
  }

  lemma NewSendIsHeld(datasets: map<string, Entry>, acknowledged: map<string, seq<SendResult>>, key: string, r: SendResult)
    requires HoldsAcknowledged(datasets, acknowledged) && key in datasets && Recorded(datasets[key], r)
    ensures HoldsAcknowledged(datasets, acknowledged[key := SendsTo(acknowledged, key) + [r]])
  {
    hide Recorded;
  }

  /** Only these fields of the entries change: everything the invariants speak about stays. */
  ghost predicate SameButAuthorization(a: map<string, Entry>, b: map<string, Entry>) {
    a.Keys == b.Keys && forall k :: k in a ==> b[k] == a[k].(suiteAuthorized := b[k].suiteAuthorized, callbacks := b[k].callbacks)
  }

  lemma AuthorizationChangesNothingElse(a: map<string, Entry>, b: map<string, Entry>, acknowledged: map<string, seq<SendResult>>)
    requires SameButAuthorization(a, b) && WellFormed(a)
    ensures WellFormed(b)
    ensures HoldsAcknowledged(a, acknowledged) ==> HoldsAcknowledged(b, acknowledged)
  {
    hide DatasetKey, ValidDataset, Rebuildable;
    forall k | k in b
      ensures EntryWellFormed(k, b[k])
    {
      assert EntryWellFormed(k, a[k]);
      SameRebuildable(a[k], b[k]);
    }
    if HoldsAcknowledged(a, acknowledged) {
      forall k, r | k in acknowledged && r in acknowledged[k]
        ensures k in b && Recorded(b[k], r)
      {
        assert Recorded(a[k], r);
        assert Messages(a[k]) == Messages(b[k]);
      }
    }
  }

  lemma SameRebuildable(a: Entry, b: Entry)
    requires b == a.(suiteAuthorized := b.suiteAuthorized, callbacks := b.callbacks)
    ensures Rebuildable(a) == Rebuildable(b)
  {
  }

  lemma AuthorizationKeepsMatching(a: map<string, Entry>, b: map<string, Entry>, runtimes: map<string, Runtime>, drivers: map<(int, int), Binding>)
    requires SameButAuthorization(a, b) && RuntimesMatch(a, runtimes) && DriversMatch(a, drivers)
    ensures RuntimesMatch(b, runtimes) && DriversMatch(b, drivers)
  {
    hide RuntimeMatches;
    forall k | k in b
      ensures RuntimeMatches(b[k], runtimes[k])
    {
      SameMessagesSameRuntime(a[k], b[k], runtimes[k]);
    }
    forall p | p in drivers
      ensures exists k :: k in b && Place(b[k].binding) == p
    {
      var k :| k in a && Place(a[k].binding) == p;
      assert Place(b[k].binding) == p;
    }
  }

  lemma RemovingWhatWasAdded<K, V>(m: map<K, V>, k: K, v: V)
    requires k !in m
    ensures m[k := v] - {k} == m
  {
  }

  lemma KeepingAcknowledged(datasets: map<string, Entry>, key: string, e: Entry, acknowledged: map<string, seq<SendResult>>)
    requires HoldsAcknowledged(datasets, acknowledged) && key !in datasets
    ensures HoldsAcknowledged(datasets[key := e], acknowledged)
  {
  }

  lemma RemovingDataset(datasets: map<string, Entry>, runtimes: map<string, Runtime>, drivers: map<(int, int), Binding>, key: string)
    requires WellFormed(datasets) && RuntimesMatch(datasets, runtimes) && DriversMatch(datasets, drivers) && key in datasets
    ensures WellFormed(datasets - {key}) && RuntimesMatch(datasets - {key}, runtimes - {key})
    ensures DriversMatch(datasets - {key}, drivers - {Place(datasets[key].binding)})
  {
    hide EntryWellFormed, RuntimeMatches;
    var rest, ds := datasets - {key}, drivers - {Place(datasets[key].binding)};
    forall p | p in ds
      ensures exists k :: k in rest && Place(rest[k].binding) == p
    {
      var k :| k in datasets && Place(datasets[k].binding) == p;
      assert Place(rest[k].binding) == p;
    }
  }

  // ----- Acknowledged sends -----

  ghost predicate Increasing(rs: seq<SendResult>) {
    (forall i :: 0 <= i < |rs| ==> rs[i].sequence > 10) &&
    forall i, j :: 0 <= i < j < |rs| ==> rs[i].sequence < rs[j].sequence && rs[i].messageId != rs[j].messageId
  }

  ghost predicate Recorded(e: Entry, r: SendResult) {
    exists m :: m in Messages(e) && m.sequence == r.sequence && TrimSpace(m.messageId) == TrimSpace(r.messageId)
  }

  /** Every acknowledged send is recorded in this copy of the datasets. */
  ghost predicate HoldsAcknowledged(datasets: map<string, Entry>, acknowledged: map<string, seq<SendResult>>) {
    forall k, r :: k in acknowledged && r in acknowledged[k] ==> k in datasets && Recorded(datasets[k], r)
  }

  ghost predicate Shaped(acknowledged: map<string, seq<SendResult>>) {
    && (forall k :: k in acknowledged ==> Increasing(acknowledged[k]))
    && (forall k, r :: k in acknowledged && r in acknowledged[k] ==> r.messageId == MessageId(r.dataset, r.mode, r.sequence))
  }

  ghost function SendsTo(acknowledged: map<string, seq<SendResult>>, key: string): seq<SendResult> {
    if key in acknowledged then acknowledged[key] else []
  }

  /** A send with a number above everything recorded extends the acknowledged sends in order. */
  lemma AcknowledgingKeepsOrder(acknowledged: map<string, seq<SendResult>>, old_: map<string, Entry>, key: string, r: SendResult)
    requires Shaped(acknowledged) && HoldsAcknowledged(old_, acknowledged) && key in old_
    requires r.sequence > 10 && r.messageId == MessageId(r.dataset, r.mode, r.sequence)
    requires forall m :: m in Messages(old_[key]) ==> m.sequence < r.sequence
    ensures Shaped(acknowledged[key := SendsTo(acknowledged, key) + [r]])
  {
    hide MessageId, Messages;
    var before := SendsTo(acknowledged, key);
    forall x | x in before
      ensures x.sequence < r.sequence && x.messageId != r.messageId
    {
      assert Recorded(old_[key], x);
      MessageIdsDiffer(x.dataset, x.mode, x.sequence, r.dataset, r.mode, r.sequence);
    }
    var after := before + [r];
    forall i, j | 0 <= i < j < |after|
      ensures after[i].sequence < after[j].sequence && after[i].messageId != after[j].messageId
    {
      assert after[i] in before;
    }
    assert Increasing(after);
  }

  /** The dataset holds exactly the message this send reports. */
  ghost predicate RecordedAs(e: Entry, r: SendResult, kind: string, body: string) {
    exists m :: m in Messages(e) && m.sequence == r.sequence && TrimSpace(m.messageId) == TrimSpace(r.messageId)
      && m.kind == kind && m.body == body
  }

  /** One dataset has gained a message with the next number; nothing else changed. */
  ghost predicate Sent(before: map<string, Entry>, after: map<string, Entry>, key: string, r: SendResult, kind: string, body: string) {
    && key in before && after.Keys == before.Keys && (forall k :: k in after && k != key ==> after[k] == before[k])
    && (forall m :: m in Messages(before[key]) ==> m in Messages(after[key]) && m.sequence < r.sequence)
    && (r.sequence == 11 || exists m :: m in Messages(before[key]) && m.sequence == r.sequence - 1) && r.sequence > 10
    && Recorded(after[key], r) && RecordedAs(after[key], r, kind, body)
    && r.messageId == MessageId(r.dataset, r.mode, r.sequence)
  }

  lemma NewMessageIsRecorded(before: Entry, after: Entry, m: Message, r: SendResult)
    requires m.sequence == r.sequence && m.messageId == r.messageId
    requires m in Messages(after) || m.(messageId := TrimSpace(m.messageId)) in Messages(after)
    requires forall x :: x in Messages(before) ==> x.sequence < m.sequence
    ensures Recorded(after, r) && RecordedAs(after, r, m.kind, m.body) && before != after
  {
    hide Messages;
    TrimSpaceTrims(m.messageId);
  }

  /** The authorization names this delegated binding's tenant and enterprise. */
  predicate Grants(authorization: (int, string), b: Binding) {
    b.mode == MODE_DELEGATED && b.tenantId == authorization.0 && b.wxCorpId == authorization.1
  }

  /** nextFixtureSequence: one above everything recorded, and above ten. */
  method NextSequence(e: Entry) returns (next: int)
    ensures next > 10
    ensures forall m :: m in Messages(e) ==> m.sequence < next
    ensures next == 11 || exists m :: m in Messages(e) && m.sequence == next - 1
  {
    var maximum := 10;
    var all := Messages(e);
    for i := 0 to |all|
      invariant maximum >= 10
      invariant forall k :: 0 <= k < i ==> all[k].sequence <= maximum
      invariant maximum == 10 || exists m :: m in all && m.sequence == maximum
    {
      if all[i].sequence > maximum {
        maximum := all[i].sequence;
        assert all[i] in all;
      }
    }
    next := maximum + 1;
  }

  /** Loading has rebuilt the runtimes and drivers of the datasets in `done`. */
  ghost predicate PartlyLoaded(datasets: map<string, Entry>, runtimes: map<string, Runtime>, drivers: map<(int, int), Binding>, done: set<string>) {
    && done <= datasets.Keys && runtimes.Keys == done
    && (forall k :: k in done ==> RuntimeMatches(datasets[k], runtimes[k]))
    && (forall k :: k in done ==> Place(datasets[k].binding) in drivers && drivers[Place(datasets[k].binding)] == datasets[k].binding)
    && (forall p :: p in drivers ==> exists k :: k in done && Place(datasets[k].binding) == p)
  }

  lemma StoreAcceptsTheNext(datasets: map<string, Entry>, runtimes: map<string, Runtime>, drivers: map<(int, int), Binding>,
                            done: set<string>, key: string)
    requires WellFormed(datasets) && PartlyLoaded(datasets, runtimes, drivers, done) && key in datasets && key !in done
    ensures Place(datasets[key].binding) !in drivers && EntryWellFormed(key, datasets[key])
  {
    hide EntryWellFormed, RuntimeMatches;
  }

  lemma LoadedOneMore(datasets: map<string, Entry>, runtimes: map<string, Runtime>, drivers: map<(int, int), Binding>,
                      done: set<string>, key: string, e: Entry, r: Runtime)
    requires PartlyLoaded(datasets, runtimes, drivers, done) && key in datasets && key !in done
    requires Place(e.binding) !in drivers && e.binding == datasets[key].binding && RuntimeMatches(e, r)
    ensures PartlyLoaded(datasets[key := e], runtimes[key := r], drivers[Place(e.binding) := e.binding], done + {key})
  {
    hide RuntimeMatches;
    var all, ds := datasets[key := e], drivers[Place(e.binding) := e.binding];
    forall p | p in ds
      ensures exists k :: k in done + {key} && Place(all[k].binding) == p
    {
      if p == Place(e.binding) {
        assert Place(all[key].binding) == p;
      } else {
        var k :| k in done && Place(datasets[k].binding) == p;
        assert Place(all[k].binding) == p;
      }
    }
  }

  lemma FullyLoaded(datasets: map<string, Entry>, runtimes: map<string, Runtime>, drivers: map<(int, int), Binding>)
    requires PartlyLoaded(datasets, runtimes, drivers, datasets.Keys)
    ensures RuntimesMatch(datasets, runtimes) && DriversMatch(datasets, drivers)
  {
    hide RuntimeMatches;
  }

  /** What loading makes of a stored entry: a delegated dataset without its two callbacks is authorised anew. */
  function Loaded(e: Entry): Entry {
    if e.binding.mode == MODE_DELEGATED && |e.callbacks| != 2
    then e.(callbacks := ["suite_ticket", "create_auth"], suiteAuthorized := false) else e
  }

  lemma StartLoading(datasets: map<string, Entry>)
    ensures PartlyLoaded(datasets, map[], map[], datasets.Keys - datasets.Keys)
  {
    hide RuntimeMatches;
  }

  lemma LoadingKeepsWellFormed(stored: map<string, Entry>, datasets: map<string, Entry>)
    requires WellFormed(stored) && datasets.Keys == stored.Keys
    requires forall k :: k in datasets ==> datasets[k] == stored[k] || datasets[k] == Loaded(stored[k])
    ensures WellFormed(datasets) && SameButAuthorization(stored, datasets)
  {
    hide WellFormed;
    AuthorizationChangesNothingElse(stored, datasets, map[]);
  }

  lemma LoadingKeepsTheInvariants(stored: map<string, Entry>, datasets: map<string, Entry>, acknowledged: map<string, seq<SendResult>>)
    requires WellFormed(stored) && HoldsAcknowledged(stored, acknowledged) && datasets.Keys == stored.Keys
    requires forall k :: k in datasets ==> datasets[k] == stored[k] || datasets[k] == Loaded(stored[k])
    ensures WellFormed(datasets) && HoldsAcknowledged(datasets, acknowledged)
  {
    hide WellFormed, HoldsAcknowledged;
    LoadingKeepsWellFormed(stored, datasets);
    AuthorizationChangesNothingElse(stored, datasets, acknowledged);
  }

  /** The journal tells what is pending, held and lost. */
  ghost predicate Agrees(journal: seq<Event<SendResult>>, acknowledged: map<string, seq<SendResult>>, pending: set<string>,
                         lost: set<(string, SendResult)>) {
    && (forall k :: k in pending <==> PendingIn(journal, k))
    && (forall k, r :: r in SendsTo(acknowledged, k) <==> HeldIn(journal, k, r))
    && (forall k, r :: (k, r) in lost <==> LostIn(journal, k, r))
  }

  ghost function Named(cleaned: Option<string>): set<string> {
    if cleaned.Some? then {cleaned.value} else {}
  }

  ghost function LostBySaving(acknowledged: map<string, seq<SendResult>>, pending: set<string>, cleaned: Option<string>): set<(string, SendResult)> {
    set k, r | k in acknowledged && k in pending && cleaned != Some(k) && r in acknowledged[k] :: (k, r)
  }

  lemma SavingAgrees(journal: seq<Event<SendResult>>, acknowledged: map<string, seq<SendResult>>, pending: set<string>,
                     lost: set<(string, SendResult)>, cleaned: Option<string>)
    requires Agrees(journal, acknowledged, pending, lost)
    ensures Agrees(journal + [Saved(cleaned)], acknowledged - pending - Named(cleaned), {}, lost + LostBySaving(acknowledged, pending, cleaned))
  {
    hide PendingIn, HeldIn, LostIn;
    var e := Saved(cleaned);
    forall k
      ensures PendingIn(journal + [e], k) == false
    {
      PendingNext(journal, e, k);
    }
    forall k, r
      ensures r in SendsTo(acknowledged - pending - Named(cleaned), k) <==> HeldIn(journal + [e], k, r)
      ensures (k, r) in lost + LostBySaving(acknowledged, pending, cleaned) <==> LostIn(journal + [e], k, r)
    {
      HeldNext(journal, e, k, r);
      LostNext(journal, e, k, r);
    }
  }

  lemma AcknowledgingAgrees(journal: seq<Event<SendResult>>, acknowledged: map<string, seq<SendResult>>, pending: set<string>,
                            lost: set<(string, SendResult)>, key: string, send: SendResult)
    requires Agrees(journal, acknowledged, pending, lost)
    ensures Agrees(journal + [Acknowledged(key, send)], acknowledged[key := SendsTo(acknowledged, key) + [send]], pending, lost)
  {
    hide PendingIn, HeldIn, LostIn;
    var e := Acknowledged(key, send);
    forall k
      ensures PendingIn(journal + [e], k) <==> PendingIn(journal, k)
    {
      PendingNext(journal, e, k);
    }
    forall k, r
      ensures r in SendsTo(acknowledged[key := SendsTo(acknowledged, key) + [send]], k) <==> HeldIn(journal + [e], k, r)
      ensures LostIn(journal + [e], k, r) <==> LostIn(journal, k, r)
    {
      HeldNext(journal, e, k, r);
      LostNext(journal, e, k, r);
    }
  }

  lemma FailedCleanupAgrees(journal: seq<Event<SendResult>>, acknowledged: map<string, seq<SendResult>>, pending: set<string>,
                            lost: set<(string, SendResult)>, key: string)
    requires Agrees(journal, acknowledged, pending, lost)
    ensures Agrees(journal + [CleanupFailed(key)], acknowledged, pending + {key}, lost)
  {
    hide PendingIn, HeldIn, LostIn;
    var e := CleanupFailed(key);
    forall k
      ensures PendingIn(journal + [e], k) <==> PendingIn(journal, k) || k == key
    {
      PendingNext(journal, e, k);
    }
    forall k, r
      ensures HeldIn(journal + [e], k, r) <==> HeldIn(journal, k, r)
      ensures LostIn(journal + [e], k, r) <==> LostIn(journal, k, r)
    {
      HeldNext(journal, e, k, r);
      LostNext(journal, e, k, r);
    }
  }

  lemma StartingAgrees(journal: seq<Event<SendResult>>, acknowledged: map<string, seq<SendResult>>, pending: set<string>,
                       lost: set<(string, SendResult)>)
    requires Agrees(journal, acknowledged, pending, lost)
    ensures Agrees(journal + [Started], acknowledged, {}, lost)
  {
    hide PendingIn, HeldIn, LostIn;
    var e: Event<SendResult> := Started;
    forall k
      ensures PendingIn(journal + [e], k) == false
    {
      PendingNext(journal, e, k);
    }
    forall k, r
      ensures HeldIn(journal + [e], k, r) <==> HeldIn(journal, k, r)
      ensures LostIn(journal + [e], k, r) <==> LostIn(journal, k, r)
    {
      HeldNext(journal, e, k, r);
      LostNext(journal, e, k, r);
    }
  }

  /** The state file lists the datasets in memory and the pending ones, each under its binding. */
  ghost predicate SameOnFile(stored: map<string, Entry>, datasets: map<string, Entry>, pending: map<string, Binding>) {
    && stored.Keys == datasets.Keys + pending.Keys
    && (forall k :: k in datasets ==> stored[k].binding == datasets[k].binding && stored[k].dataset == datasets[k].dataset)
    && (forall k :: k in pending ==> stored[k].binding == pending[k])
  }

  lemma SavedIsOnFile(datasets: map<string, Entry>)
    ensures SameOnFile(datasets, datasets, map[])
  {
  }

  lemma ChangedIsOnFile(stored: map<string, Entry>, datasets: map<string, Entry>, pending: map<string, Binding>, after: map<string, Entry>)
    requires SameOnFile(stored, datasets, pending) && after.Keys == datasets.Keys
    requires forall k :: k in after ==> after[k].binding == datasets[k].binding && after[k].dataset == datasets[k].dataset
    ensures SameOnFile(stored, after, pending)
  {
  }

  lemma RemovedIsOnFile(stored: map<string, Entry>, datasets: map<string, Entry>, pending: map<string, Binding>, key: string)
    requires SameOnFile(stored, datasets, pending) && key in datasets && key !in pending
    ensures SameOnFile(stored, datasets - {key}, pending[key := datasets[key].binding])
  {
  }

  lemma DroppingKeepsShaped(acknowledged: map<string, seq<SendResult>>, pending: set<string>, cleaned: set<string>)
    requires Shaped(acknowledged)
    ensures Shaped(acknowledged - pending - cleaned) && Shaped(acknowledged - pending)
  {
    hide Increasing, MessageId;
  }

  lemma NothingPending(acknowledged: map<string, seq<SendResult>>)
    ensures var none: map<string, Binding> := map[]; acknowledged - none.Keys == acknowledged
  {
  }

  lemma NothingNamed(acknowledged: map<string, seq<SendResult>>)
    ensures acknowledged - Named(None) == acknowledged
  {
  }

  /** What a successful seed makes of memory and state file. */
  ghost predicate Seeded(before: map<string, Entry>, after: map<string, Entry>, file: Option<map<string, Entry>>, newFile: Option<map<string, Entry>>,
                         rawBinding: Binding, dataset: string) {
    && NormalizeBinding(rawBinding).Some? && ValidDataset(dataset)
    && var b := NormalizeBinding(rawBinding).value;
    var key := DatasetKey(b, dataset);
    && key in after && after[key].binding == b
    && if key in before then after == before && newFile == file
       else after == before[key := after[key]] && after[key].dataset == dataset && newFile == Some(after) &&
            Messages(after[key]) == (if b.mode == MODE_DELEGATED then DelegatedSeeds(dataset) else [])
  }

  datatype Call =
    | SeedCall(binding: Binding, dataset: string)
    | SendCall(input: SendInput)
    | CleanupCall(binding: Binding, dataset: string, confirmation: string)
    | ExchangeCall(authorization: Option<(int, string)>)
    | RestartCall

  /** What the world outside decides about one call: key generation, cryptography, the suite
      provider, and whether the state file could be replaced. */
  datatype Luck = Luck(create: bool, authorize: bool, append: bool, exported: bool, persist: bool)

  class Manager {
    var running: bool
    var datasets: map<string, Entry>
    var runtimes: map<string, Runtime>
    var drivers: map<(int, int), Binding>
    var disk: Option<map<string, Entry>>
    /** Per key, the sends reported as successful that are neither cleaned up nor lost. */
    ghost var acknowledged: map<string, seq<SendResult>>
    /** The datasets that a failed cleanup has taken out of memory but not off the state file. */
    ghost var pending: map<string, Binding>
    /** The sends that were reported as successful and are gone without an acknowledged cleanup. */
    ghost var lost: set<(string, SendResult)>
    ghost var journal: seq<Event<SendResult>>

    ghost predicate Valid()
      reads this
    {
      && DiskValid() && Agrees(journal, acknowledged, pending.Keys, lost)
      && if running then MemoryValid() else pending == map[]
    }

    ghost function StoredDatasets(): map<string, Entry>
      reads this
    {
      if disk.Some? then disk.value else map[]
    }

    ghost predicate DiskValid()
      reads this
    {
      && Shaped(acknowledged)
      && WellFormed(StoredDatasets())
      && HoldsAcknowledged(StoredDatasets(), acknowledged)
    }

    /** The acknowledged sends of the datasets that are still in memory. */
    ghost function Kept(): map<string, seq<SendResult>>
      reads this
    {
      acknowledged - pending.Keys
    }

    ghost predicate MemoryHolds(sends: map<string, seq<SendResult>>)
      reads this
    {
      && WellFormed(datasets)
      && RuntimesMatch(datasets, runtimes)
      && DriversMatch(datasets, drivers)
      && HoldsAcknowledged(datasets, sends)
    }

    ghost predicate MemoryValid()
      reads this
    {
      MemoryHolds(Kept()) && pending.Keys !! datasets.Keys && SameOnFile(StoredDatasets(), datasets, pending)
    }

    constructor ()
      ensures Valid() && running && datasets == map[] && disk == None && acknowledged == map[] && lost == {} && journal == []
    {
      running, datasets, runtimes, drivers, disk := true, map[], map[], map[], None;
      acknowledged, pending, lost, journal := map[], map[], {}, [];
    }

    /** A successful save: what a failed cleanup had removed is now off the state file too. */
    ghost method NoteSaved(cleaned: Option<string>)
      requires Agrees(journal, acknowledged, pending.Keys, lost)
      modifies this`acknowledged, this`pending, this`lost, this`journal
      ensures Agrees(journal, acknowledged, pending.Keys, lost) && pending == map[]
      ensures acknowledged == old(Kept()) - Named(cleaned)
      ensures lost == old(lost) + LostBySaving(old(acknowledged), old(pending.Keys), cleaned)
      ensures journal == old(journal) + [Saved(cleaned)]
    {
      SavingAgrees(journal, acknowledged, pending.Keys, lost, cleaned);
      lost := lost + LostBySaving(acknowledged, pending.Keys, cleaned);
      acknowledged := Kept() - Named(cleaned);
      pending := map[];
      journal := journal + [Saved(cleaned)];
    }

    /** persistLocked with an atomic replace. */
    method Persist(luck: Luck) returns (ok: bool)
      modifies this`disk
      ensures ok == luck.persist
      ensures disk == if ok then Some(datasets) else old(disk)
    {
      ok := luck.persist;
      if ok {
        disk := Some(datasets);
      }
    }

    /** persistLocked, and what it means for the acknowledged sends. */
    method SaveState(luck: Luck, ghost cleaned: Option<string>) returns (ok: bool)
      requires running && DiskValid() && Agrees(journal, acknowledged, pending.Keys, lost) && MemoryHolds(Kept() - Named(cleaned))
      modifies this`disk, this`acknowledged, this`pending, this`lost, this`journal
      ensures ok == luck.persist && disk == (if ok then Some(datasets) else old(disk))
      ensures ok ==> Valid() && SavedOnly(old(acknowledged), old(pending), old(lost), old(journal), cleaned)
      ensures !ok ==> Undisturbed(old(acknowledged), old(pending), old(lost), old(journal))
    {
      hide WellFormed, DriversMatch, RuntimesMatch, HoldsAcknowledged, Shaped, Agrees, LostBySaving, SameOnFile;
      ok := Persist(luck);
      if ok {
        DroppingKeepsShaped(acknowledged, pending.Keys, Named(cleaned));
        NoteSaved(cleaned);
        NothingPending(acknowledged);
        SavedIsOnFile(datasets);
      }
    }

    /** The logs of createRuntime, rebuilt from the entry. */
    method BuildRuntime(entry: Entry, seed: bool, luck: Luck) returns (r: Option<Runtime>, updated: Entry)
      requires IsNormal(entry.binding)
      ensures r.Some? && (seed || entry.zone.Some? || entry.binding.mode == MODE_SELF_BUILT) ==> RuntimeMatches(updated, r.value)
      ensures updated == entry.(zone := updated.zone)
      ensures entry.binding.mode == MODE_SELF_BUILT || entry.zone.Some? ==> updated == entry
      ensures r.Some? && seed && entry.binding.mode == MODE_DELEGATED && entry.zone.None? ==> updated.zone == Some(DelegatedSeeds(entry.dataset))
      ensures luck.create && Rebuildable(entry) ==> r.Some?
    {
      hide FinanceReplay, BuiltInMessages, DelegatedSeeds, TrimSpace;
      updated := entry;
      if !luck.create {
        return None, updated;
      }
      if entry.binding.mode == MODE_SELF_BUILT {
        var log := FinanceReplay(BuiltInMessages(entry.dataset), entry.selfMessages);
        return if log.None? then None else Some(Finance(log.value)), updated;
      }
      if entry.zone.Some? {
        var blank := exists m :: m in entry.zone.value && TrimSpace(m.messageId) == "";
        return if blank then None else Some(Zone(entry.zone.value)), updated;
      }
      if !seed {
        return Some(Zone([])), updated;
      }
      var log := SeedZone(entry.dataset);
      SeedIdsAreNotBlank(entry.dataset);
      r, updated := Some(Zone(log)), entry.(zone := Some(log));
    }

    /** createRuntime: the logs, then the driver. A store that has another binding at this place refuses. */
    method CreateRuntime(entry: Entry, seed: bool, luck: Luck) returns (r: Result<Runtime>, updated: Entry)
      requires IsNormal(entry.binding)
      modifies this`drivers
      ensures r.Err? ==> drivers == old(drivers)
      ensures r.Ok? ==> drivers == old(drivers)[Place(entry.binding) := entry.binding] && Accepts(old(drivers), entry.binding)
      ensures r.Ok? && (seed || entry.zone.Some? || entry.binding.mode == MODE_SELF_BUILT) ==> RuntimeMatches(updated, r.value)
      ensures updated == entry.(zone := updated.zone)
      ensures entry.binding.mode == MODE_SELF_BUILT || entry.zone.Some? ==> updated == entry
      ensures r.Ok? && seed && entry.binding.mode == MODE_DELEGATED && entry.zone.None? ==> updated.zone == Some(DelegatedSeeds(entry.dataset))
      ensures luck.create && Rebuildable(entry) && Accepts(old(drivers), entry.binding) ==> r.Ok?
    {
      hide RuntimeMatches, Rebuildable, DelegatedSeeds;
      var runtime;
      runtime, updated := BuildRuntime(entry, seed, luck);
      if runtime.None? {
        return Err(RuntimeFailed), updated;
      }
      if !Accepts(drivers, entry.binding) {
        return Err(BindingRegistered), updated;
      }
      drivers := drivers[Place(entry.binding) := entry.binding];
      r := Ok(runtime.value);
    }

    /** authorizeDelegatedLocked. */
    method AuthorizeDelegated(entry: Entry, luck: Luck) returns (ok: bool, updated: Entry)
      ensures ok == luck.authorize
      ensures updated == if ok then entry.(callbacks := ["suite_ticket", "create_auth"], suiteAuthorized := false) else entry
    {
      ok, updated := luck.authorize, entry;
      if ok {
        updated := entry.(callbacks := ["suite_ticket", "create_auth"], suiteAuthorized := false);
      }
    }

    /** Unregister: a driver under another binding stays. */
    method Unregister(b: Binding)
      modifies this`drivers
      ensures drivers == if Place(b) in old(drivers) && old(drivers)[Place(b)] == b then old(drivers) - {Place(b)} else old(drivers)
    {
      if Place(b) in drivers && drivers[Place(b)] == b {
        drivers := drivers - {Place(b)};
      }
    }

    /** Nothing has happened to acknowledged sends. */
    ghost predicate Undisturbed(wasAcknowledged: map<string, seq<SendResult>>, wasPending: map<string, Binding>, wasLost: set<(string, SendResult)>,
                                wasJournal: seq<Event<SendResult>>)
      reads this
    {
      acknowledged == wasAcknowledged && pending == wasPending && lost == wasLost && journal == wasJournal
    }

    /** A save has happened, and nothing else: pending removals are final now, and their sends are lost unless
        the save acknowledges the cleanup of their dataset. */
    ghost predicate SavedOnly(wasAcknowledged: map<string, seq<SendResult>>, wasPending: map<string, Binding>, wasLost: set<(string, SendResult)>,
                              wasJournal: seq<Event<SendResult>>, cleaned: Option<string>)
      reads this
    {
      && acknowledged == wasAcknowledged - wasPending.Keys - Named(cleaned) && pending == map[]
      && lost == wasLost + LostBySaving(wasAcknowledged, wasPending.Keys, cleaned) && journal == wasJournal + [Saved(cleaned)]
    }

    /** A save, and then the acknowledgement of one send. */
    ghost predicate Acknowledges(wasAcknowledged: map<string, seq<SendResult>>, wasPending: map<string, Binding>, wasLost: set<(string, SendResult)>,
                                 wasJournal: seq<Event<SendResult>>, key: string, send: SendResult)
      reads this
    {
      var kept := wasAcknowledged - wasPending.Keys;
      && acknowledged == kept[key := SendsTo(kept, key) + [send]] && pending == map[]
      && lost == wasLost + LostBySaving(wasAcknowledged, wasPending.Keys, None)
      && journal == wasJournal + [Saved(None), Acknowledged(key, send)]
    }

    /** The request is valid, and the dataset is there under this very binding or its place is free. */
    ghost predicate Seedable(rawBinding: Binding, dataset: string)
      reads this
    {
      && NormalizeBinding(rawBinding).Some? && ValidDataset(dataset)
      && var b := NormalizeBinding(rawBinding).value;
         var key := DatasetKey(b, dataset);
         if key in datasets then datasets[key].binding == b else Place(b) !in drivers
    }

    /** The dataset is there under this very binding. */
    ghost predicate Present(rawBinding: Binding, dataset: string)
      reads this
    {
      && NormalizeBinding(rawBinding).Some? && ValidDataset(dataset)
      && var b := NormalizeBinding(rawBinding).value;
         DatasetKey(b, dataset) in datasets && datasets[DatasetKey(b, dataset)].binding == b
    }

    /** Seed. A failure leaves memory, store and state file as they were. */
    method Seed(rawBinding: Binding, dataset: string, luck: Luck) returns (r: Result<seq<string>>)
      requires Valid() && running
      modifies this
      ensures Valid() && running
      ensures r.Err? ==> datasets == old(datasets) && runtimes == old(runtimes) && drivers == old(drivers) && disk == old(disk)
      ensures if r.Ok? && datasets != old(datasets) then SavedOnly(old(acknowledged), old(pending), old(lost), old(journal), None)
              else Undisturbed(old(acknowledged), old(pending), old(lost), old(journal))
      ensures r.Ok? ==> old(Seedable(rawBinding, dataset)) && Seeded(old(datasets), datasets, old(disk), disk, rawBinding, dataset)
      ensures old(Seedable(rawBinding, dataset)) && luck.create && luck.authorize && luck.persist ==> r.Ok?
      ensures old(Present(rawBinding, dataset)) ==> r.Ok?
    {
      NormalizedIsNormal(rawBinding);
      hide NormalizeBinding, ValidDataset, DatasetKey, TrimSpace, WellFormed, HoldsAcknowledged, Shaped, Agrees, SameOnFile,
        DelegatedSeeds, Messages, LostBySaving;
      if NormalizeBinding(rawBinding).None? || !ValidDataset(dataset) {
        return Err(RequestInvalid);
      }
      var b := NormalizeBinding(rawBinding).value;
      var key := DatasetKey(b, dataset);
      if key in datasets {
        if datasets[key].binding != b {
          return Err(BindingConflict);
        }
        return Ok(if datasets[key].suiteAuthorized then [] else datasets[key].callbacks);
      }
      if exists k :: k in datasets && datasets[k].binding == b && datasets[k].dataset != dataset {
        return Err(BindingConflict);
      }
      r := SeedNew(key, b, dataset, luck);
    }

    /** The part of Seed that changes anything. */
    method SeedNew(key: string, b: Binding, dataset: string, luck: Luck) returns (r: Result<seq<string>>)
      requires Valid() && running && key !in datasets && key !in runtimes
      requires IsNormal(b) && ValidDataset(dataset) && key == DatasetKey(b, dataset)
      requires !exists k :: k in datasets && datasets[k].binding == b && datasets[k].dataset != dataset
      modifies this
      ensures Valid() && running
      ensures r.Err? ==> datasets == old(datasets) && runtimes == old(runtimes) && drivers == old(drivers) && disk == old(disk)
      ensures if r.Ok? then SavedOnly(old(acknowledged), old(pending), old(lost), old(journal), None)
              else Undisturbed(old(acknowledged), old(pending), old(lost), old(journal))
      ensures r.Ok? ==>
        && key in datasets && datasets[key].binding == b && datasets[key].dataset == dataset && datasets == old(datasets)[key := datasets[key]]
        && Messages(datasets[key]) == (if b.mode == MODE_DELEGATED then DelegatedSeeds(dataset) else []) && disk == Some(datasets)
      ensures r.Ok? ==> Place(b) !in old(drivers)
      ensures luck.create && luck.authorize && luck.persist && Place(b) !in old(drivers) ==> r.Ok?
    {
      hide DatasetKey, ValidDataset, EntryWellFormed, RuntimeMatches, WellFormed, DriversMatch, RuntimesMatch, DelegatedSeeds, HoldsAcknowledged, Shaped;
      var entry := Entry(b, dataset, [], None, false, []);
      var created;
      created, entry := CreateRuntime(entry, true, luck);
      if created.Err? {
        return Err(created.error);
      }
      NewPlaceIsFree(datasets, old(drivers), key, b, dataset);
      ghost var seeded := entry;
      var authorized := true;
      if b.mode == MODE_DELEGATED {
        authorized, entry := AuthorizeDelegated(entry, luck);
      }
      NewEntryWellFormed(key, entry);
      SameMessagesSameRuntime(seeded, entry, created.value);
      r := Settle(key, entry, created.value, authorized, luck, old(drivers));
    }

    /** Everything is as before this seed, except that the store has the driver of the new dataset. */
    ghost predicate Awaits(key: string, entry: Entry, runtime: Runtime, before: map<(int, int), Binding>)
      reads this
    {
      && DiskValid() && Agrees(journal, acknowledged, pending.Keys, lost) && pending.Keys !! datasets.Keys
      && SameOnFile(StoredDatasets(), datasets, pending)
      && key !in datasets && key !in runtimes && EntryWellFormed(key, entry) && RuntimeMatches(entry, runtime)
      && WellFormed(datasets) && RuntimesMatch(datasets, runtimes) && DriversMatch(datasets, before) && HoldsAcknowledged(datasets, Kept())
      && Place(entry.binding) !in before && drivers == before[Place(entry.binding) := entry.binding]
    }

    /** The end of Seed: the new dataset is entered and saved, or taken out again with its driver. */
    method Settle(key: string, entry: Entry, runtime: Runtime, authorized: bool, luck: Luck, ghost before: map<(int, int), Binding>)
      returns (r: Result<seq<string>>)
      requires running && Awaits(key, entry, runtime, before)
      modifies this
      ensures Valid() && running
      ensures if r.Ok? then SavedOnly(old(acknowledged), old(pending), old(lost), old(journal), None)
              else Undisturbed(old(acknowledged), old(pending), old(lost), old(journal))
      ensures r.Ok? == (authorized && luck.persist)
      ensures r.Err? ==> datasets == old(datasets) && runtimes == old(runtimes) && drivers == before && disk == old(disk)
      ensures r.Ok? ==> datasets == old(datasets)[key := entry] && drivers == old(drivers) && disk == Some(datasets)
    {
      hide EntryWellFormed, RuntimeMatches, WellFormed, DriversMatch, RuntimesMatch, HoldsAcknowledged, Shaped, Agrees, LostBySaving, Messages, SameOnFile;
      AddingDataset(datasets, runtimes, before, key, entry, runtime);
      KeepingAcknowledged(datasets, key, entry, Kept());
      ghost var oldDatasets, oldRuntimes := datasets, runtimes;
      datasets, runtimes := datasets[key := entry], runtimes[key := runtime];
      if !authorized {
        Forget(key, entry.binding, oldDatasets, oldRuntimes, before);
        return Err(SuiteAuthFailed);
      }
      NothingNamed(Kept());
      var ok := SaveState(luck, None);
      if !ok {
        Forget(key, entry.binding, oldDatasets, oldRuntimes, before);
        return Err(StateFileFailed);
      }
      r := Ok(entry.callbacks);
    }

    /** The rollback of a failed Seed: what was added is taken out again. */
    method Forget(key: string, b: Binding, ghost oldDatasets: map<string, Entry>, ghost oldRuntimes: map<string, Runtime>,
                  ghost oldDrivers: map<(int, int), Binding>)
      requires key !in oldDatasets && key !in oldRuntimes && Place(b) !in oldDrivers
      requires key in datasets && datasets == oldDatasets[key := datasets[key]]
      requires key in runtimes && runtimes == oldRuntimes[key := runtimes[key]]
      requires drivers == oldDrivers[Place(b) := b]
      modifies this`datasets, this`runtimes, this`drivers
      ensures datasets == oldDatasets && runtimes == oldRuntimes && drivers == oldDrivers
    {
      RemovingWhatWasAdded(oldDatasets, key, datasets[key]);
      RemovingWhatWasAdded(oldRuntimes, key, runtimes[key]);
      RemovingWhatWasAdded(oldDrivers, Place(b), b);
      datasets, runtimes := datasets - {key}, runtimes - {key};
      Unregister(b);
    }

    /** Append to the dataset's log and record the message in its entry. */
    method AppendMessage(key: string, m: Message, luck: Luck, ghost sends: map<string, seq<SendResult>>) returns (failure: Option<Error>)
      requires MemoryHolds(sends) && key in datasets && m.sequence > 0
      modifies this`datasets, this`runtimes
      ensures MemoryHolds(sends)
      ensures failure == Some(SendFailed) ==> datasets == old(datasets) && runtimes == old(runtimes)
      ensures failure == Some(ExportFailed) ==> datasets == old(datasets)
      ensures failure.Some? ==> failure.value in {SendFailed, ExportFailed}
      ensures failure.None? ==>
        && key in datasets && datasets == old(datasets)[key := datasets[key]]
        && datasets[key] == old(datasets)[key].(selfMessages := datasets[key].selfMessages, zone := datasets[key].zone)
        && (forall x :: x in Messages(old(datasets)[key]) ==> x in Messages(datasets[key]))
        && (m in Messages(datasets[key]) || m.(messageId := TrimSpace(m.messageId)) in Messages(datasets[key]))
    {
      hide WellFormed, DriversMatch, RuntimesMatch, HoldsAcknowledged;
      EntryAt(datasets, runtimes, key);
      var entry, updated, runtime := datasets[key], datasets[key], runtimes[key];
      if runtime.Finance? {
        var log := FinanceAppend(runtime.log, m);
        if log.None? || !luck.append {
          return Some(SendFailed);
        }
        updated := entry.(selfMessages := entry.selfMessages + [m]);
        runtime := Finance(log.value);
        FinanceEntryGrows(key, entry, runtimes[key], m);
      } else {
        var log := ZoneAppend(runtime.log, m);
        if log.None? || !luck.append {
          return Some(SendFailed);
        }
        runtime := Zone(log.value);
        ZoneEntryGrows(key, entry, runtimes[key], m);
        if !luck.exported {
          ReplacingEntry(datasets, runtimes, drivers, sends, key, entry, runtime);
          assert datasets[key := entry] == datasets;
          runtimes := runtimes[key := runtime];
          return Some(ExportFailed);
        }
        updated := entry.(zone := Some(log.value));
      }
      ReplacingEntry(datasets, runtimes, drivers, sends, key, updated, runtime);
      datasets, runtimes := datasets[key := updated], runtimes[key := runtime];
      failure := None;
    }

    /** Send. Only an acknowledged send is sure to be on disk; a failure to save leaves the message in memory. */
    method Send(input: SendInput, luck: Luck) returns (r: Result<SendResult>)
      requires Valid() && running
      modifies this
      ensures Valid() && running && drivers == old(drivers)
      ensures r.Err? ==> disk == old(disk) && Undisturbed(old(acknowledged), old(pending), old(lost), old(journal))
      ensures r.Err? ==> (datasets == old(datasets) <==> r.error != StateFileFailed)
      ensures r.Err? && r.error !in {StateFileFailed, ExportFailed} ==> runtimes == old(runtimes)
      ensures r.Ok? ==>
        && NormalizeBinding(input.binding).Some?
        && var key := DatasetKey(NormalizeBinding(input.binding).value, input.dataset);
           && Body(input, ToLower(TrimSpace(input.kind))).Ok?
           && Sent(old(datasets), datasets, key, r.value, ToLower(TrimSpace(input.kind)), Body(input, ToLower(TrimSpace(input.kind))).value)
           && r.value.dataset == input.dataset && r.value.mode == NormalizeBinding(input.binding).value.mode && disk == Some(datasets)
           && Acknowledges(old(acknowledged), old(pending), old(lost), old(journal), key, r.value)
    {
      hide Valid, Kept, NormalizeBinding, ValidDataset, DatasetKey, Body, ToLower, TrimSpace, Sent, Acknowledges;
      NormalizedIsNormal(input.binding);
      if NormalizeBinding(input.binding).None? || !ValidDataset(input.dataset) {
        return Err(RequestInvalid);
      }
      var b := NormalizeBinding(input.binding).value;
      var key := DatasetKey(b, input.dataset);
      if key !in datasets || datasets[key].binding != b {
        return Err(DatasetNotFound);
      }
      var kind := ToLower(TrimSpace(input.kind));
      var body := Body(input, kind);
      if body.Err? {
        return Err(body.error);
      }
      r := SendTo(key, b, input.dataset, kind, body.value, luck);
    }

    /** The part of Send that changes anything. */
    method SendTo(key: string, b: Binding, dataset: string, kind: string, body: string, luck: Luck) returns (r: Result<SendResult>)
      requires Valid() && running && key in datasets
      modifies this
      ensures Valid() && running && drivers == old(drivers)
      ensures r.Err? ==> disk == old(disk) && Undisturbed(old(acknowledged), old(pending), old(lost), old(journal))
      ensures r.Err? ==> (datasets == old(datasets) <==> r.error != StateFileFailed)
      ensures r.Err? && r.error !in {StateFileFailed, ExportFailed} ==> runtimes == old(runtimes)
      ensures r.Ok? ==>
        && Sent(old(datasets), datasets, key, r.value, kind, body) && disk == Some(datasets)
        && r.value.dataset == dataset && r.value.mode == b.mode
        && Acknowledges(old(acknowledged), old(pending), old(lost), old(journal), key, r.value)
    {
      hide WellFormed, DriversMatch, RuntimesMatch, HoldsAcknowledged, Shaped, MessageId, Recorded, RecordedAs, SendsTo, Messages, Agrees, LostBySaving, SameOnFile;
      ghost var before := datasets;
      var failure, result := AppendNext(key, b, dataset, kind, body, luck);
      if failure.Some? {
        return Err(failure.value);
      }
      NothingNamed(Kept());
      var saved := SaveState(luck, None);
      if !saved {
        return Err(StateFileFailed);
      }
      NoteAcknowledged(key, result, before);
      r := Ok(result);
    }

    /** The message with the next number is appended, in memory. */
    method AppendNext(key: string, b: Binding, dataset: string, kind: string, body: string, luck: Luck)
      returns (failure: Option<Error>, result: SendResult)
      requires Valid() && running && key in datasets
      modifies this`datasets, this`runtimes
      ensures Valid() && running
      ensures failure.Some? ==> failure.value in {SendFailed, ExportFailed} && datasets == old(datasets)
      ensures failure == Some(SendFailed) ==> runtimes == old(runtimes)
      ensures failure.None? ==> Sent(old(datasets), datasets, key, result, kind, body) && datasets != old(datasets)
      ensures result.dataset == dataset && result.mode == b.mode
      ensures HoldsAcknowledged(old(datasets), Kept())
    {
      hide WellFormed, DriversMatch, RuntimesMatch, HoldsAcknowledged, Shaped, MessageId, Recorded, RecordedAs, SendsTo, Messages, Agrees, SameOnFile;
      var sequence := NextSequence(datasets[key]);
      var id := MessageId(dataset, b.mode, sequence);
      result := SendResult(dataset, b.mode, sequence, id);
      var m := Message(sequence, id, kind, body);
      failure := AppendMessage(key, m, luck, Kept());
      if failure.None? {
        NewMessageIsRecorded(old(datasets)[key], datasets[key], m, result);
        ChangedIsOnFile(StoredDatasets(), old(datasets), pending, datasets);
      }
    }

    /** The dataset that a saved cleanup under this binding takes away: one in memory, or one whose removal was
        not saved before. */
    ghost function Cleaned(key: string, b: Binding): Option<string>
      reads this
    {
      if (key in datasets && datasets[key].binding == b) || (key in pending && pending[key] == b) then Some(key) else None
    }

    ghost method NoteAcknowledged(key: string, send: SendResult, before: map<string, Entry>)
      requires Valid() && running && pending == map[] && disk == Some(datasets) && key in datasets && Recorded(datasets[key], send)
      requires HoldsAcknowledged(before, acknowledged) && key in before && send.sequence > 10
      requires send.messageId == MessageId(send.dataset, send.mode, send.sequence)
      requires forall m :: m in Messages(before[key]) ==> m.sequence < send.sequence
      modifies this`acknowledged, this`journal
      ensures Valid()
      ensures acknowledged == old(acknowledged)[key := SendsTo(old(acknowledged), key) + [send]]
      ensures journal == old(journal) + [Acknowledged(key, send)]
    {
      hide WellFormed, DriversMatch, RuntimesMatch, HoldsAcknowledged, Shaped, MessageId, Recorded, SendsTo, Messages, Agrees, SameOnFile;
      NothingPending(acknowledged);
      AcknowledgingKeepsOrder(acknowledged, before, key, send);
      NewSendIsHeld(datasets, acknowledged, key, send);
      AcknowledgingAgrees(journal, acknowledged, pending.Keys, lost, key, send);
      acknowledged := acknowledged[key := SendsTo(acknowledged, key) + [send]];
      journal := journal + [Acknowledged(key, send)];
      NothingPending(acknowledged);
    }

    /** Cleanup. A dataset under another binding is left alone, and the call still succeeds. A cleanup that
        cannot be saved has taken the dataset out of memory all the same. */
    method Cleanup(rawBinding: Binding, dataset: string, confirmation: string, luck: Luck) returns (r: Result<()>)
      requires Valid() && running
      modifies this
      ensures Valid() && running
      ensures r == Err(ConfirmationRequired) <==>
        NormalizeBinding(rawBinding).None? || !ValidDataset(dataset) || TrimSpace(confirmation) != TrimSpace(dataset)
      ensures r.Err? && r.error != ConfirmationRequired ==> r.error == StateFileFailed && !luck.persist
      ensures r.Ok? ==> luck.persist
      ensures disk == if r.Ok? then Some(datasets) else old(disk)
      ensures r == Err(ConfirmationRequired) ==>
        datasets == old(datasets) && drivers == old(drivers) && Undisturbed(old(acknowledged), old(pending), old(lost), old(journal))
      ensures r != Err(ConfirmationRequired) ==>
        var b := NormalizeBinding(rawBinding).value;
        var key := DatasetKey(b, dataset);
        var removes := key in old(datasets) && old(datasets)[key].binding == b;
        && datasets == (if removes then old(datasets) - {key} else old(datasets))
        && drivers == (if removes then old(drivers) - {Place(b)} else old(drivers))
        && if r.Ok? then SavedOnly(old(acknowledged), old(pending), old(lost), old(journal), old(Cleaned(key, b)))
           else if removes then FailedCleanup(old(acknowledged), old(pending), old(lost), old(journal), key, b)
           else Undisturbed(old(acknowledged), old(pending), old(lost), old(journal))
    {
      hide Valid, Kept, NormalizeBinding, ValidDataset, DatasetKey, TrimSpace, Cleaned, SavedOnly, FailedCleanup;
      NormalizedIsNormal(rawBinding);
      if NormalizeBinding(rawBinding).None? || !ValidDataset(dataset) || TrimSpace(confirmation) != TrimSpace(dataset) {
        return Err(ConfirmationRequired);
      }
      var b := NormalizeBinding(rawBinding).value;
      r := CleanUpKey(DatasetKey(b, dataset), b, luck);
    }

    /** The failed cleanup is remembered: its dataset is off memory and still on the state file. */
    ghost predicate FailedCleanup(wasAcknowledged: map<string, seq<SendResult>>, wasPending: map<string, Binding>, wasLost: set<(string, SendResult)>,
                                  wasJournal: seq<Event<SendResult>>, key: string, b: Binding)
      reads this
    {
      acknowledged == wasAcknowledged && pending == wasPending[key := b] && lost == wasLost && journal == wasJournal + [CleanupFailed(key)]
    }

    /** The part of Cleanup that changes anything. */
    method CleanUpKey(key: string, b: Binding, luck: Luck) returns (r: Result<()>)
      requires Valid() && running
      modifies this
      ensures Valid() && running
      ensures r == if luck.persist then Ok(()) else Err(StateFileFailed)
      ensures disk == if r.Ok? then Some(datasets) else old(disk)
      ensures
        var removes := key in old(datasets) && old(datasets)[key].binding == b;
        && datasets == (if removes then old(datasets) - {key} else old(datasets))
        && drivers == (if removes then old(drivers) - {Place(b)} else old(drivers))
        && if r.Ok? then SavedOnly(old(acknowledged), old(pending), old(lost), old(journal), old(Cleaned(key, b)))
           else if removes then FailedCleanup(old(acknowledged), old(pending), old(lost), old(journal), key, b)
           else Undisturbed(old(acknowledged), old(pending), old(lost), old(journal))
    {
      hide WellFormed, DriversMatch, RuntimesMatch, HoldsAcknowledged, Shaped, Agrees, LostBySaving, SameOnFile;
      ghost var cleaned := Cleaned(key, b);
      var removes := key in datasets && datasets[key].binding == b;
      if removes {
        RemovedIsOnFile(StoredDatasets(), datasets, pending, key);
        Remove(key);
      }
      DroppingKeepsHeld(datasets, Kept(), Named(cleaned));
      var saved := SaveState(luck, cleaned);
      if saved {
        return Ok(());
      }
      if removes {
        FailedCleanupAgrees(journal, acknowledged, pending.Keys, lost, key);
        pending, journal := pending[key := b], journal + [CleanupFailed(key)];
        assert acknowledged - pending.Keys == acknowledged - old(pending).Keys - {key};
        assert pending.Keys == old(pending).Keys + {key};
      }
      r := Err(StateFileFailed);
    }

    method Remove(key: string)
      requires Valid() && running && key in datasets
      modifies this`datasets, this`runtimes, this`drivers
      ensures datasets == old(datasets) - {key} && MemoryHolds(Kept() - {key})
      ensures drivers == old(drivers) - {Place(old(datasets)[key].binding)}
    {
      hide WellFormed, RuntimesMatch, HoldsAcknowledged, Shaped;
      var b := datasets[key].binding;
      RemovingDataset(datasets, runtimes, drivers, key);
      RemovingKeepsAcknowledged(datasets, key, Kept());
      Unregister(b);
      datasets, runtimes := datasets - {key}, runtimes - {key};
    }

    /** ExchangeAuthorization. `authorization` is what the suite provider granted, if anything. */
    method ExchangeAuthorization(authorization: Option<(int, string)>, luck: Luck) returns (ok: bool)
      requires Valid() && running
      modifies this`datasets, this`disk, this`acknowledged, this`pending, this`lost, this`journal
      ensures Valid() && running
      ensures if ok then SavedOnly(old(acknowledged), old(pending), old(lost), old(journal), None)
              else Undisturbed(old(acknowledged), old(pending), old(lost), old(journal))
      ensures SameButAuthorization(old(datasets), datasets)
      ensures forall k :: k in datasets ==> datasets[k].callbacks == old(datasets)[k].callbacks
      ensures forall k :: k in datasets ==>
        (datasets[k].suiteAuthorized <==>
         old(datasets)[k].suiteAuthorized || (authorization.Some? && Grants(authorization.value, old(datasets)[k].binding)))
      ensures ok <==> authorization.Some? && luck.persist && exists k :: k in old(datasets) && Grants(authorization.value, old(datasets)[k].binding)
      ensures disk == if ok then Some(datasets) else old(disk)
    {
      hide WellFormed, DriversMatch, RuntimesMatch, HoldsAcknowledged, Shaped, Agrees, LostBySaving, SameOnFile;
      ok := false;
      if authorization.None? {
        return;
      }
      var granted := map k | k in datasets ::
        if Grants(authorization.value, datasets[k].binding) then datasets[k].(suiteAuthorized := true) else datasets[k];
      AuthorizationChangesNothingElse(datasets, granted, Kept());
      AuthorizationKeepsMatching(datasets, granted, runtimes, drivers);
      var matched := exists k :: k in datasets && Grants(authorization.value, datasets[k].binding);
      ChangedIsOnFile(StoredDatasets(), datasets, pending, granted);
      datasets := granted;
      if matched {
        NothingNamed(Kept());
        ok := SaveState(luck, None);
      }
    }

    /** The old process is gone, and with it everything that was in memory only. */
    method Stop()
      requires Valid()
      modifies this`running, this`pending, this`journal
      ensures Valid() && !running && pending == map[] && journal == old(journal) + [Started]
    {
      hide WellFormed, HoldsAcknowledged, Shaped, Agrees, MemoryValid;
      StartingAgrees(journal, acknowledged, pending.Keys, lost);
      running := false;
      pending, journal := map[], journal + [Started];
      assert pending.Keys == {};
    }

    /** A new process: memory and store start empty and are rebuilt from the state file. */
    method Restart(luck: Luck) returns (ok: bool)
      requires Valid()
      modifies this`running, this`datasets, this`runtimes, this`drivers, this`pending, this`journal
      ensures Valid() && running == ok
      ensures acknowledged == old(acknowledged) && pending == map[] && lost == old(lost) && journal == old(journal) + [Started]
      ensures ok ==> datasets.Keys == StoredDatasets().Keys && forall k :: k in datasets ==> datasets[k] == Loaded(StoredDatasets()[k])
      ensures luck.create && luck.authorize ==> ok
    {
      hide WellFormed, DriversMatch, RuntimesMatch, HoldsAcknowledged, Shaped, SameButAuthorization, EntryWellFormed, Agrees, SameOnFile;
      ghost var stored := StoredDatasets();
      Stop();
      datasets := if disk.Some? then disk.value else map[];
      runtimes, drivers := map[], map[];
      ok := LoadAll(stored, luck);
      if ok {
        LoadingKeepsTheInvariants(stored, datasets, acknowledged);
        NothingPending(acknowledged);
        SavedIsOnFile(stored);
        ChangedIsOnFile(stored, stored, map[], datasets);
        running := true;
      }
    }

    /** The loop of load. */
    method LoadAll(ghost stored: map<string, Entry>, luck: Luck) returns (ok: bool)
      requires WellFormed(stored) && datasets == stored && runtimes == map[] && drivers == map[]
      modifies this`datasets, this`runtimes, this`drivers
      ensures ok ==> RuntimesMatch(datasets, runtimes) && DriversMatch(datasets, drivers)
      ensures ok ==> datasets.Keys == stored.Keys && forall k :: k in datasets ==> datasets[k] == Loaded(stored[k])
      ensures luck.create && luck.authorize ==> ok
    {
      hide WellFormed, DriversMatch, RuntimesMatch, PartlyLoaded, EntryWellFormed, Loaded;
      var rest := datasets.Keys;
      StartLoading(datasets);
      while rest != {}
        invariant rest <= datasets.Keys == stored.Keys
        invariant PartlyLoaded(datasets, runtimes, drivers, datasets.Keys - rest)
        invariant forall k :: k in datasets ==> datasets[k] == if k in rest then stored[k] else Loaded(stored[k])
        decreases rest
      {
        var key :| key in rest;
        ok := LoadOne(key, datasets.Keys - rest, stored, luck);
        if !ok {
          return;
        }
        assert datasets.Keys - (rest - {key}) == datasets.Keys - rest + {key};
        rest := rest - {key};
      }
      assert datasets.Keys - rest == datasets.Keys;
      FullyLoaded(datasets, runtimes, drivers);
      ok := true;
    }

    /** One pass of the loading loop. */
    method LoadOne(key: string, ghost done: set<string>, ghost stored: map<string, Entry>, luck: Luck) returns (ok: bool)
      requires WellFormed(stored) && datasets.Keys == stored.Keys && key in datasets && key !in done && datasets[key] == stored[key]
      requires forall k :: k in datasets ==> datasets[k] == stored[k] || datasets[k] == Loaded(stored[k])
      requires PartlyLoaded(datasets, runtimes, drivers, done)
      modifies this`datasets, this`runtimes, this`drivers
      ensures datasets.Keys == old(datasets).Keys
      ensures luck.create && luck.authorize ==> ok
      ensures ok ==> datasets == old(datasets)[key := Loaded(stored[key])]
      ensures ok ==> PartlyLoaded(datasets, runtimes, drivers, done + {key})
    {
      hide WellFormed, DriversMatch, RuntimesMatch, PartlyLoaded, RuntimeMatches, Rebuildable, DatasetKey, ValidDataset;
      LoadingKeepsWellFormed(stored, datasets);
      StoreAcceptsTheNext(datasets, runtimes, drivers, done, key);
      ghost var before := drivers;
      var created, entry := CreateRuntime(datasets[key], false, luck);
      if created.Err? {
        return false;
      }
      ghost var built := entry;
      ok := true;
      if entry.binding.mode == MODE_DELEGATED && |entry.callbacks| != 2 {
        ok, entry := AuthorizeDelegated(entry, luck);
      }
      SameMessagesSameRuntime(built, entry, created.value);
      LoadedOneMore(datasets, runtimes, before, done, key, entry, created.value);
      datasets, runtimes := datasets[key := entry], runtimes[key := created.value];
    }

    /** A cleanup that cannot be saved, and a seed of the same dataset after it: the acknowledged sends are lost
        although no cleanup was acknowledged, and the state file starts the dataset's messages anew. */
    method CleanUpInVainAndSeedAgain(rawBinding: Binding, dataset: string, fails: Luck, works: Luck) returns (seeded: Result<seq<string>>)
      requires Valid() && running && NormalizeBinding(rawBinding).Some? && ValidDataset(dataset)
      requires var b := NormalizeBinding(rawBinding).value; DatasetKey(b, dataset) in datasets && datasets[DatasetKey(b, dataset)].binding == b
      requires !fails.persist && works.create && works.authorize && works.persist
      modifies this
      ensures Valid() && running && seeded.Ok?
      ensures
        var b := NormalizeBinding(rawBinding).value;
        var key := DatasetKey(b, dataset);
        && (forall r :: r in SendsTo(old(acknowledged), key) ==> (key, r) in lost)
        && key in StoredDatasets() && Messages(StoredDatasets()[key]) == (if b.mode == MODE_DELEGATED then DelegatedSeeds(dataset) else [])
    {
      NormalizedIsNormal(rawBinding);
      hide WellFormed, RuntimesMatch, HoldsAcknowledged, Shaped, Agrees, NormalizeBinding, ValidDataset, DatasetKey, TrimSpace, Messages, DelegatedSeeds;
      var cleaned := Cleanup(rawBinding, dataset, dataset, fails);
      assert cleaned == Err(StateFileFailed);
      seeded := Seed(rawBinding, dataset, works);
    }

    method Perform(call: Call, luck: Luck)
      requires Valid()
      modifies this
      ensures Valid() && old(journal) <= journal
    {
      hide Valid, NormalizeBinding, ValidDataset, DatasetKey, Body, ToLower, TrimSpace, Sent, LostBySaving, SendsTo;
      if call.RestartCall? {
        var _ := Restart(luck);
      } else if running {
        match call
        case SeedCall(binding, dataset) => var _ := Seed(binding, dataset, luck);
        case SendCall(input) => var _ := Send(input, luck);
        case CleanupCall(binding, dataset, confirmation) => var _ := Cleanup(binding, dataset, confirmation, luck);
        case ExchangeCall(authorization) => var _ := ExchangeAuthorization(authorization, luck);
      }
    }

    /** Any sequence of calls, each with any luck. A call to a process that failed to start does nothing.
        Whatever the sequence, the acknowledged sends that are neither cleaned up nor lost are in order,
        distinct and on disk, and a send is lost exactly when a failed cleanup of its dataset was followed by a
        save, which was not that cleanup again, before a restart. */
    method Session(calls: seq<(Call, Luck)>)
      requires Valid()
      modifies this
      ensures Valid() && old(journal) <= journal
      ensures forall k, r :: (k, r) in lost <==> LostIn(journal, k, r)
      ensures forall k, r :: r in SendsTo(acknowledged, k) <==> HeldIn(journal, k, r)
      ensures forall k :: k in acknowledged ==> Increasing(acknowledged[k])
      ensures HoldsAcknowledged(StoredDatasets(), acknowledged)
      ensures running ==> OnePerPlace(datasets) && runtimes.Keys == datasets.Keys && HoldsAcknowledged(datasets, Kept())
    {
      hide DriversMatch, HoldsAcknowledged, EntryWellFormed, Increasing, OnePerPlace, HeldIn, LostIn, PendingIn;
      for i := 0 to |calls|
        invariant Valid() && old(journal) <= journal
      {
        Perform(calls[i].0, calls[i].1);
      }
    }
  }
}
