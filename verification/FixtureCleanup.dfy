/** The cleanup of one local fixture dataset: a two-phase commit, built by hand, between the
    transaction that deletes the dataset's rows and the directory that holds its media files.
    Media files are renamed into a quarantine directory, the deletion is committed, and the
    quarantine is emptied. The next run first restores or empties whatever a crash left there. */
module FixtureCleanup {
  import opened Text
  import opened MediaNames

  const FIXTURE_DATASET_PREFIX := "MOCHAT-LOCAL-SIM-"
  const MESSAGE_TABLE_COUNT := 10

  type Content = string

  // ----- The database rows of one tenant enterprise -----

  datatype MediaRow = MediaRow(id: string, msgid: string)

  datatype Participant = Participant(wxId: string, name: string)

  /** Committed rows. `sources` are the message ids registered for the binding's source, `runs`
      counts its synchronisation runs; the other tables also hold rows of other sources. */
  datatype Ledger = Ledger(
    sources: seq<string>,
    media: seq<MediaRow>,
    components: seq<string>,
    messages: seq<seq<string>>,
    runs: nat,
    contacts: seq<Participant>,
    employees: seq<Participant>)
  {
    ghost predicate Valid() {
      |messages| == MESSAGE_TABLE_COUNT
    }
  }

  /** What survives a crash. */
  datatype Durable = Durable(ledger: Ledger, archive: map<string, Content>, quarantine: map<string, Content>)

  /** What one run read: message ids, and media ids of their rows. The loops over both results never ask
      whether the iteration ended early, so a run may have read less than there is without noticing. */
  datatype Reading = Reading(ids: seq<string>, media: seq<string>)

  function Shorter(k: nat, length: nat): nat {
    if k < length then k else length
  }

  ghost predicate ReadsFrom(ledger: Ledger, reading: Reading) {
    && reading.ids <= ledger.sources
    && forall id :: id in reading.media ==> exists m :: m in reading.ids && MediaRow(id, m) in ledger.media
  }

  /** No iteration was cut short. */
  ghost predicate Complete(ledger: Ledger, reading: Reading) {
    && reading.ids == ledger.sources
    && forall r :: r in ledger.media && r.msgid in ledger.sources ==> r.id in reading.media
  }

  // ----- Row deletion -----

  function KeepRows(rows: seq<MediaRow>, gone: set<string>): (kept: seq<MediaRow>)
    ensures forall r :: r in kept <==> r in rows && r.msgid !in gone
  {
    if rows == [] then []
    else if rows[0].msgid in gone then KeepRows(rows[1..], gone)
    else [rows[0]] + KeepRows(rows[1..], gone)
  }

  function KeepIds(ids: seq<string>, gone: set<string>): (kept: seq<string>)
    ensures forall m :: m in kept <==> m in ids && m !in gone
  {
    if ids == [] then []
    else if ids[0] in gone then KeepIds(ids[1..], gone)
    else [ids[0]] + KeepIds(ids[1..], gone)
  }

  function KeepTables(tables: seq<seq<string>>, gone: set<string>): (kept: seq<seq<string>>)
    ensures |kept| == |tables| && forall i :: 0 <= i < |tables| ==> kept[i] == KeepIds(tables[i], gone)
  {
    seq(|tables|, i requires 0 <= i < |tables| => KeepIds(tables[i], gone))
  }

  function KeepOthers(people: seq<Participant>, p: Participant): (kept: seq<Participant>)
    ensures forall q :: q in kept <==> q in people && q != p
    ensures |kept| <= |people|
  {
    if people == [] then []
    else if people[0] == p then KeepOthers(people[1..], p)
    else [people[0]] + KeepOthers(people[1..], p)
  }

  /** The ids of the media rows of one message. */
  function MediaIdsOf(rows: seq<MediaRow>, msgid: string): (ids: seq<string>)
    ensures forall id :: id in ids <==> MediaRow(id, msgid) in rows
  {
    if rows == [] then []
    else if rows[0].msgid == msgid then [rows[0].id] + MediaIdsOf(rows[1..], msgid)
    else MediaIdsOf(rows[1..], msgid)
  }

  /** The ids are ids of rows of these messages. */
  ghost predicate OnlyRead(rows: seq<MediaRow>, msgids: set<string>, ids: seq<string>) {
    forall id :: id in ids ==> exists m :: m in msgids && MediaRow(id, m) in rows
  }

  ghost predicate AllRead(rows: seq<MediaRow>, msgids: set<string>, ids: seq<string>) {
    forall r :: r in rows && r.msgid in msgids ==> r.id in ids
  }

  lemma ReadOneMore(rows: seq<MediaRow>, gone: set<string>, msgid: string, found: seq<string>, ids: seq<string>)
    requires ids <= MediaIdsOf(KeepRows(rows, gone), msgid)
    ensures OnlyRead(rows, gone, found) ==> OnlyRead(rows, gone + {msgid}, found + ids)
    ensures AllRead(rows, gone, found) && ids == MediaIdsOf(KeepRows(rows, gone), msgid) ==> AllRead(rows, gone + {msgid}, found + ids)
  {
    assert forall id :: id in ids ==> id in MediaIdsOf(KeepRows(rows, gone), msgid);
    assert forall id :: id in found + ids ==> id in found || id in ids;
    forall r | r in rows && r.msgid !in gone && r.msgid == msgid
      ensures r.id in MediaIdsOf(KeepRows(rows, gone), msgid)
    {
      assert r == MediaRow(r.id, msgid);
    }
  }

  lemma {:induction false} KeepRowsTwice(rows: seq<MediaRow>, gone: set<string>, m: string)
    ensures KeepRows(KeepRows(rows, gone), {m}) == KeepRows(rows, gone + {m})
    ensures |KeepRows(rows, gone + {m})| <= |KeepRows(rows, gone)| <= |rows|
  {
    if rows != [] {
      KeepRowsTwice(rows[1..], gone, m);
      var rest := KeepRows(rows[1..], gone);
      assert ([rows[0]] + rest)[1..] == rest;
    }
  }

  lemma {:induction false} KeepIdsTwice(ids: seq<string>, gone: set<string>, m: string)
    ensures KeepIds(KeepIds(ids, gone), {m}) == KeepIds(ids, gone + {m})
    ensures |KeepIds(ids, gone + {m})| <= |KeepIds(ids, gone)| <= |ids|
  {
    if ids != [] {
      KeepIdsTwice(ids[1..], gone, m);
      var rest := KeepIds(ids[1..], gone);
      assert ([ids[0]] + rest)[1..] == rest;
    }
  }

  lemma {:induction false} KeepAllRows(rows: seq<MediaRow>)
    ensures KeepRows(rows, {}) == rows
  {
    if rows != [] { KeepAllRows(rows[1..]); }
  }

  lemma {:induction false} KeepAllIds(ids: seq<string>)
    ensures KeepIds(ids, {}) == ids
  {
    if ids != [] { KeepAllIds(ids[1..]); }
  }

  lemma KeepTablesTwice(tables: seq<seq<string>>, gone: set<string>, m: string)
    ensures KeepTables(KeepTables(tables, gone), {m}) == KeepTables(tables, gone + {m})
  {
    forall i | 0 <= i < |tables| {
      KeepIdsTwice(tables[i], gone, m);
    }
  }

  lemma KeepAllTables(tables: seq<seq<string>>)
    ensures KeepTables(tables, {}) == tables
  {
    forall i | 0 <= i < |tables| {
      KeepAllIds(tables[i]);
    }
  }

  function RowTotal(tables: seq<seq<string>>): nat {
    if tables == [] then 0 else |tables[0]| + RowTotal(tables[1..])
  }

  lemma {:induction false} RowTotalOfUpdate(tables: seq<seq<string>>, i: nat, t: seq<string>)
    requires i < |tables|
    ensures RowTotal(tables[i := t]) + |tables[i]| == RowTotal(tables) + |t|
  {
    if i == 0 {
      assert tables[0 := t][1..] == tables[1..];
    } else {
      RowTotalOfUpdate(tables[1..], i - 1, t);
      assert tables[i := t][1..] == tables[1..][i - 1 := t];
    }
  }

  function Contact(dataset: string): Participant {
    Participant(dataset + "-EXTERNAL-01", dataset + " 本地验收客户")
  }

  function Employee(dataset: string): Participant {
    Participant(dataset + "-STAFF-01", dataset + " 本地验收员工")
  }

  /** The rows a cleanup commits: no row of the messages read is left, no source row at all, and the
      rest is untouched. */
  ghost function Purged(ledger: Ledger, dataset: string, ids: seq<string>): Ledger {
    var gone := set m | m in ids;
    Ledger([], KeepRows(ledger.media, gone), KeepIds(ledger.components, gone), KeepTables(ledger.messages, gone), 0,
           KeepOthers(ledger.contacts, Contact(dataset)), KeepOthers(ledger.employees, Employee(dataset)))
  }

  // ----- Files -----

  /** Every media file, wherever it is. */
  ghost function Files(s: Durable): map<string, Content> {
    s.archive + s.quarantine
  }

  ghost predicate Disjoint(s: Durable) {
    s.archive.Keys !! s.quarantine.Keys
  }

  ghost predicate OwnedByAny(rawIds: seq<string>, name: string) {
    exists i :: 0 <= i < |rawIds| && Owns(rawIds[i], name)
  }

  /** The file belongs to a media row that a cleanup of this source deletes. */
  ghost predicate Doomed(ledger: Ledger, name: string) {
    exists r :: r in ledger.media && r.msgid in ledger.sources && Owns(r.id, name)
  }

  lemma RemovingOne(files: map<string, Content>, name: string)
    ensures name in files ==> |files - {name}| == |files| - 1
    ensures name !in files ==> files - {name} == files
  {
    if name in files {
      assert files.Keys == (files - {name}).Keys + {name};
    }
  }

  lemma RestoringKeepsFiles(s: Durable, name: string)
    requires Disjoint(s) && name in s.quarantine
    ensures
      var t := s.(archive := s.archive[name := s.quarantine[name]], quarantine := s.quarantine - {name});
      Disjoint(t) && Files(t) == Files(s)
  {
  }

  lemma QuarantiningKeepsFiles(s: Durable, name: string)
    requires Disjoint(s) && name in s.archive
    ensures
      var t := s.(archive := s.archive - {name}, quarantine := s.quarantine[name := s.archive[name]]);
      Disjoint(t) && Files(t) == Files(s)
  {
  }

  /** The files and the set of quarantined names determine both directories. */
  lemma FilesDetermineDirectories(s: Durable, t: Durable)
    requires Disjoint(s) && Disjoint(t) && Files(s) == Files(t)
    requires s.quarantine.Keys == t.quarantine.Keys
    ensures s.archive == t.archive && s.quarantine == t.quarantine
  {
    assert s.archive == Files(s) - s.quarantine.Keys;
    assert t.archive == Files(t) - t.quarantine.Keys;
    assert s.quarantine == map n | n in Files(s) && n in s.quarantine :: Files(s)[n];
    assert t.quarantine == map n | n in Files(t) && n in t.quarantine :: Files(t)[n];
  }

  // ----- Checks made before anything moves -----

  predicate MessageIdsAllowed(dataset: string, ids: seq<string>) {
    var prefix := TrimSpace(dataset) + "-";
    HasPrefix(prefix, FIXTURE_DATASET_PREFIX) && forall m :: m in ids ==> HasPrefix(m, prefix)
  }

  predicate ScopeAllowed(tenantId: int, corpId: int, dataset: string) {
    tenantId > 0 && corpId > 0 && HasPrefix(TrimSpace(dataset), FIXTURE_DATASET_PREFIX)
  }

  /** What a cleanup needs in order to succeed when no step fails: allowed scope and message ids,
      canonical media ids, a storage root if there is media, and only media names in the quarantine. */
  ghost predicate Cleanable(s: Durable, tenantId: int, corpId: int, dataset: string, rooted: bool) {
    && ScopeAllowed(tenantId, corpId, dataset)
    && MessageIdsAllowed(TrimSpace(dataset), s.ledger.sources)
    && (forall r :: r in s.ledger.media && r.msgid in s.ledger.sources ==> rooted && ObjectName(r.id).Some?)
    && (rooted ==> forall n :: n in s.quarantine ==> SafeFileName(n))
  }

  /** The same for what a run read; what it did not read is not checked either. */
  ghost predicate Admissible(s: Durable, tenantId: int, corpId: int, dataset: string, rooted: bool, reading: Reading) {
    && ScopeAllowed(tenantId, corpId, dataset)
    && MessageIdsAllowed(TrimSpace(dataset), reading.ids)
    && (reading.media == [] || (rooted && forall id :: id in reading.media ==> ObjectName(id).Some?))
    && (rooted ==> forall n :: n in s.quarantine ==> SafeFileName(n))
  }

  /** The durable state a successful cleanup leaves. */
  ghost function CleanedState(s: Durable, dataset: string, rooted: bool, reading: Reading): Durable {
    var ledger := Purged(s.ledger, TrimSpace(dataset), reading.ids);
    if !rooted then Durable(ledger, s.archive, s.quarantine)
    else if reading.ids == [] then Durable(ledger, s.archive, map[])
    else Durable(ledger, map n | n in Files(s) && !OwnedByAny(reading.media, n) :: Files(s)[n], map[])
  }

  /** Everything one cleanup run can do to the durable state, wherever it is cut short and
      whichever of its steps fail. `replyLost` says the commit took effect but reported failure. */
  ghost predicate CleanupStep(s: Durable, t: Durable, dataset: string, rooted: bool, reading: Reading, replyLost: bool) {
    && ReadsFrom(s.ledger, reading) && Disjoint(t)
    && (t.ledger == s.ledger || t.ledger == Purged(s.ledger, TrimSpace(dataset), reading.ids))
    && (forall n :: n in Files(t) ==> n in Files(s) && Files(t)[n] == Files(s)[n])
    && (forall n :: n in Files(s) && n !in Files(t) ==>
          if reading.ids == [] then n in s.quarantine
          else t.ledger == Purged(s.ledger, TrimSpace(dataset), reading.ids) && OwnedByAny(reading.media, n))
    && (forall n :: n in s.archive && !OwnedByAny(reading.media, n) ==> n in t.archive)
    && (forall n :: n in t.quarantine ==> n in s.quarantine || OwnedByAny(reading.media, n))
    && (t.ledger != s.ledger && reading.ids != [] && !replyLost ==> forall n :: n in t.archive ==> !OwnedByAny(reading.media, n))
    && (t.ledger != s.ledger && reading.ids != [] && rooted ==> forall n :: n in t.quarantine ==> OwnedByAny(reading.media, n))
    && (reading.ids == [] ==> t.archive == s.archive)
  }

  datatype CleanupCounts = CleanupCounts(messages: nat, media: nat, components: nat, participants: nat, runs: nat, files: nat)

  /** The counts of a successful run account for every deleted row. */
  ghost predicate CountsDeletedRows(before: Ledger, after: Ledger, counts: CleanupCounts) {
    && counts.media + |after.media| == |before.media|
    && counts.components + |after.components| == |before.components|
    && counts.messages + RowTotal(after.messages) == RowTotal(before.messages)
    && counts.participants + |after.contacts| + |after.employees| == |before.contacts| + |before.employees|
    && counts.runs == before.runs
  }

  /** The files counted as removed are the ones that are gone, except that leftovers thrown away
      while reconciling are not counted. */
  ghost predicate CountsRemovedFiles(before: Durable, after: Durable, removed: nat, rooted: bool, reading: Reading) {
    removed + |after.archive| + |after.quarantine| ==
    if rooted && reading.ids == [] then |before.archive| else |Files(before)|
  }

  // ----- The three phases of a run, on durable states -----

  /** After reconciling: restored if any message id was read, otherwise some leftovers thrown away. */
  ghost predicate Reconciled(s: Durable, r: Durable, reading: Reading) {
    && ReadsFrom(s.ledger, reading)
    && r.ledger == s.ledger && Disjoint(s) && Disjoint(r) && r.quarantine.Keys <= s.quarantine.Keys
    && (reading.ids != [] ==> Files(r) == Files(s))
    && (reading.ids == [] ==> r.archive == s.archive && forall n :: n in r.quarantine ==> r.quarantine[n] == s.quarantine[n])
  }

  /** After staging: files of the media ids read, and only those, moved into the quarantine. */
  ghost predicate StagedFrom(r: Durable, g: Durable, reading: Reading) {
    && g.ledger == r.ledger && Disjoint(g) && Files(g) == Files(r) && r.quarantine.Keys <= g.quarantine.Keys
    && forall n :: n in g.quarantine && n !in r.quarantine ==> OwnedByAny(reading.media, n)
  }

  /** Ready to commit: reconciled, and every file of the media ids read is in the quarantine. */
  ghost predicate Prepared(s: Durable, r: Durable, g: Durable, reading: Reading, rooted: bool) {
    && Reconciled(s, r, reading) && StagedFrom(r, g, reading) && g.ledger == s.ledger
    && (forall n :: n in g.archive ==> !OwnedByAny(reading.media, n))
    && (if rooted then r.quarantine == map[] else r == s)
  }

  /** After the commit: those files leave the quarantine for good, or go back when the reply was lost. */
  ghost predicate CommittedFrom(g: Durable, t: Durable, dataset: string, reading: Reading, replyLost: bool) {
    && t.ledger == Purged(g.ledger, TrimSpace(dataset), reading.ids) && Disjoint(t) && t.quarantine.Keys <= g.quarantine.Keys
    && (if replyLost then Files(t) == Files(g)
        else t.archive == g.archive && forall n :: n in t.quarantine ==> t.quarantine[n] == g.quarantine[n])
    && forall n :: n in g.quarantine && n !in t.quarantine ==> OwnedByAny(reading.media, n)
  }

  lemma NothingOwned(rawIds: seq<string>)
    requires rawIds == []
    ensures forall n :: !OwnedByAny(rawIds, n)
  {
  }

  lemma NothingOwnedWithoutMessages(ledger: Ledger, reading: Reading)
    requires ReadsFrom(ledger, reading) && reading.ids == []
    ensures forall n :: !OwnedByAny(reading.media, n)
  {
    assert forall i :: 0 <= i < |reading.media| ==> reading.media[i] in reading.media;
  }

  lemma UncommittedStep(s: Durable, r: Durable, g: Durable, dataset: string, rooted: bool, reading: Reading, replyLost: bool)
    requires Reconciled(s, r, reading) && StagedFrom(r, g, reading)
    ensures CleanupStep(s, g, dataset, rooted, reading, replyLost)
  {
    hide OwnedByAny, Purged;
    if reading.ids == [] {
      NothingOwnedWithoutMessages(s.ledger, reading);
      assert g.quarantine.Keys == r.quarantine.Keys;
      FilesDetermineDirectories(r, g);
    }
  }

  lemma CommittedStep(s: Durable, r: Durable, g: Durable, t: Durable, dataset: string, rooted: bool, reading: Reading, replyLost: bool)
    requires Reconciled(s, r, reading) && StagedFrom(r, g, reading) && CommittedFrom(g, t, dataset, reading, replyLost)
    requires forall n :: n in g.archive ==> !OwnedByAny(reading.media, n)
    requires rooted ==> r.quarantine == map[]
    ensures CleanupStep(s, t, dataset, rooted, reading, replyLost)
  {
    hide OwnedByAny, Purged;
    UncommittedStep(s, r, g, dataset, rooted, reading, replyLost);
    if reading.ids == [] {
      NothingOwnedWithoutMessages(s.ledger, reading);
      if replyLost {
        assert t.quarantine.Keys == g.quarantine.Keys;
        FilesDetermineDirectories(g, t);
      }
    }
  }

  /** The ids collected from the deleted rows own doomed files only, and all of them if every
      iteration ran to its end. */
  lemma CollectedIdsOwnTheDoomed(ledger: Ledger, reading: Reading)
    requires ReadsFrom(ledger, reading)
    ensures forall n :: OwnedByAny(reading.media, n) ==> Doomed(ledger, n)
    ensures Complete(ledger, reading) ==> forall n :: Doomed(ledger, n) ==> OwnedByAny(reading.media, n)
  {
    hide Owns, ObjectName;
    forall n | OwnedByAny(reading.media, n)
      ensures Doomed(ledger, n)
    {
      var i :| 0 <= i < |reading.media| && Owns(reading.media[i], n);
      assert reading.media[i] in reading.media;
    }
    forall n | Complete(ledger, reading) && Doomed(ledger, n)
      ensures OwnedByAny(reading.media, n)
    {
      var r :| r in ledger.media && r.msgid in ledger.sources && Owns(r.id, n);
      assert r.id in reading.media;
    }
  }

  /** A dataset that may be cleaned is not refused because a run read less of it, and a run that read
      all of it is refused exactly when the dataset may not be cleaned. */
  lemma CleanableMeans(s: Durable, tenantId: int, corpId: int, dataset: string, rooted: bool, reading: Reading)
    requires ReadsFrom(s.ledger, reading)
    ensures Cleanable(s, tenantId, corpId, dataset, rooted) ==> Admissible(s, tenantId, corpId, dataset, rooted, reading)
    ensures Complete(s.ledger, reading) && Admissible(s, tenantId, corpId, dataset, rooted, reading) ==>
      Cleanable(s, tenantId, corpId, dataset, rooted)
  {
    hide ObjectName, SafeFileName, ScopeAllowed, HasPrefix;
    assert forall m :: m in reading.ids ==> m in s.ledger.sources;
    if reading.media != [] {
      assert reading.media[0] in reading.media;
    }
  }

  lemma WholeRun(s: Durable, r: Durable, g: Durable, t: Durable, dataset: string, rooted: bool, reading: Reading)
    requires Reconciled(s, r, reading) && StagedFrom(r, g, reading)
    requires t.ledger == Purged(s.ledger, TrimSpace(dataset), reading.ids) && t.archive == g.archive
    requires forall n :: n in g.archive ==> !OwnedByAny(reading.media, n)
    requires rooted ==> r.quarantine == map[] && t.quarantine == map[]
    requires !rooted ==> r == s && t.quarantine == g.quarantine && forall n :: !OwnedByAny(reading.media, n)
    ensures t == CleanedState(s, dataset, rooted, reading)
  {
    hide OwnedByAny, Purged;
    if !rooted {
      assert g.quarantine.Keys == s.quarantine.Keys;
      FilesDetermineDirectories(s, g);
    } else if reading.ids == [] {
      NothingOwnedWithoutMessages(s.ledger, reading);
      assert g.quarantine.Keys == r.quarantine.Keys;
      FilesDetermineDirectories(r, g);
    } else {
      assert t.archive == map n | n in Files(s) && !OwnedByAny(reading.media, n) :: Files(s)[n];
    }
  }

  lemma FileCount(s: Durable)
    requires Disjoint(s)
    ensures |Files(s)| == |s.archive| + |s.quarantine|
  {
    assert Files(s).Keys == s.archive.Keys + s.quarantine.Keys;
  }

  lemma RemovedFilesAreCounted(s: Durable, r: Durable, g: Durable, t: Durable, removed: nat, rooted: bool, reading: Reading)
    requires Reconciled(s, r, reading) && StagedFrom(r, g, reading) && t.archive == g.archive && Disjoint(t)
    requires removed + |t.quarantine| == |g.quarantine|
    requires rooted ==> r.quarantine == map[]
    requires !rooted ==> r == s
    ensures CountsRemovedFiles(s, t, removed, rooted, reading)
  {
    hide OwnedByAny;
    FileCount(g);
    FileCount(r);
    if rooted && reading.ids == [] {
      assert Files(r) == s.archive;
    }
  }

  ghost predicate Distinct(names: seq<string>) {
    forall i, j :: 0 <= i < j < |names| ==> names[i] != names[j]
  }

  /** Restoring takes a stat and a rename for each listed file, the last one first. With the first of
      these steps at `from`, file k of `count` goes back exactly when the process lives to see its
      rename and the rename takes effect. */
  ghost predicate GoesBack(fate: nat -> Fate, from: nat, count: nat, k: nat)
    requires k < count
  {
    var rename := from + 2 * (count - 1 - k) + 1;
    fate(rename) in {Done, ReplyLost} && forall n :: from <= n < rename ==> fate(n) != Crashed
  }

  /** The state of such a restore before it comes to the file below `index`. */
  ghost predicate PutBack(fate: nat -> Fate, from: nat, files: seq<string>, index: nat, held: set<string>, at: nat, crashed: bool) {
    && index <= |files| && Distinct(files)
    && at == from + 2 * (|files| - index)
    && (crashed <==> exists n :: from <= n < at && fate(n) == Crashed)
    && (forall k :: 0 <= k < index ==> files[k] in held)
    && forall k :: index <= k < |files| ==> (files[k] !in held <==> GoesBack(fate, from, |files|, k))
  }

  lemma PutBackStart(fate: nat -> Fate, from: nat, files: seq<string>, held: set<string>)
    requires Distinct(files) && forall n :: n in files ==> n in held
    ensures PutBack(fate, from, files, |files|, held, from, false)
    ensures forall k :: 0 <= k < |files| ==> files[k] in held
  {
  }

  lemma PutBackStep(fate: nat -> Fate, from: nat, files: seq<string>, index: nat,
                    held: set<string>, at: nat, crashed: bool, held': set<string>, at': nat, crashed': bool)
    requires PutBack(fate, from, files, index + 1, held, at, crashed)
    requires held' == held || held' == held - {files[index]}
    requires files[index] in held ==>
      && at' == at + 2
      && crashed' == (crashed || fate(at) == Crashed || fate(at + 1) == Crashed)
      && (files[index] !in held' <==> !crashed && fate(at) != Crashed && fate(at + 1) in {Done, ReplyLost})
    ensures PutBack(fate, from, files, index, held', at', crashed')
  {
    assert files[index] in held;
    assert GoesBack(fate, from, |files|, index) <==> files[index] !in held';
    forall k | index < k < |files|
      ensures files[k] !in held' <==> GoesBack(fate, from, |files|, k)
    {
      hide GoesBack;
      assert files[k] != files[index];
    }
  }

  lemma PutBackEnd(fate: nat -> Fate, from: nat, files: seq<string>, held: set<string>, at: nat, crashed: bool)
    requires PutBack(fate, from, files, 0, held, at, crashed)
    ensures forall k :: 0 <= k < |files| ==> (files[k] !in held <==> GoesBack(fate, from, |files|, k))
  {
    hide GoesBack;
  }

  /** What is where when the commit took effect at step `at` but reported a failure: `files` had been
      staged, and the renames that put them back decide which of them are in the archive again. */
  ghost predicate LostReply(s: Durable, t: Durable, reading: Reading, files: seq<string>, fate: nat -> Fate, at: nat) {
    && Disjoint(t) && Files(t) == Files(s) && Distinct(files)
    && (forall n :: n in files <==> n in Files(s) && OwnedByAny(reading.media, n))
    && (forall n :: n in t.quarantine ==> n in files)
    && forall k :: 0 <= k < |files| ==> (files[k] in t.archive <==> GoesBack(fate, at + 1, |files|, k))
  }

  lemma LostReplyOfRun(s: Durable, r: Durable, g: Durable, t: Durable, reading: Reading, files: seq<string>, fate: nat -> Fate, at: nat)
    requires Reconciled(s, r, reading) && StagedFrom(r, g, reading) && reading.ids != []
    requires forall n :: n in g.archive ==> !OwnedByAny(reading.media, n)
    requires r.quarantine == map[] && Disjoint(t) && Files(t) == Files(g) && Distinct(files)
    requires forall n :: n in files <==> n in g.quarantine
    requires forall n :: n in t.quarantine ==> n in g.quarantine
    requires forall k :: 0 <= k < |files| ==> (files[k] !in t.quarantine <==> GoesBack(fate, at + 1, |files|, k))
    ensures LostReply(s, t, reading, files, fate, at)
  {
    hide OwnedByAny, GoesBack;
    assert forall n :: n in Files(t) <==> n in t.archive || n in t.quarantine;
    assert forall n :: n in Files(g) <==> n in g.archive || n in g.quarantine;
    forall k | 0 <= k < |files|
      ensures files[k] in t.archive <==> GoesBack(fate, at + 1, |files|, k)
    {
      assert files[k] in files;
      assert files[k] in Files(t);
    }
  }

  // ----- The run -----

  /** The fate of one step outside the process: it happened, it did not, it happened but was
      reported as a failure, or the process died before it. */
  datatype Fate = Done | Failed | ReplyLost | Crashed

  datatype Error = ScopeInvalid | DatabaseFailed | ForeignMessages | QuarantineUnsafe
                 | StorageRootMissing | MediaIdUnsafe | FileSystemFailed | CommitFailed

  datatype Reply = Cleaned(counts: CleanupCounts) | Refused(error: Error)

  /** The files one staging moved; `rooted` is false for the zero value, which names no directory. */
  datatype Staged = Staged(rooted: bool, files: seq<string>)

  class Host {
    var ledger: Ledger
    var archive: map<string, Content>
    var quarantine: map<string, Content>
    var quarantineDir: bool
    var clock: nat
    var crashed: bool
    const fate: nat -> Fate
    const cut: nat -> Option<nat>

    /** `fate` decides what becomes of each step; `cut` says after how many rows the iteration over the
        result of a SELECT ends early. */
    constructor (ledger: Ledger, archive: map<string, Content>, fate: nat -> Fate, cut: nat -> Option<nat>)
      requires ledger.Valid()
      ensures Valid() && State() == Durable(ledger, archive, map[]) && !crashed && clock == 0
      ensures this.fate == fate && this.cut == cut
    {
      this.ledger, this.archive, this.quarantine, this.quarantineDir := ledger, archive, map[], false;
      this.clock, this.crashed, this.fate, this.cut := 0, false, fate, cut;
    }

    ghost function State(): Durable
      reads this
    {
      Durable(ledger, archive, quarantine)
    }

    ghost predicate Valid()
      reads this
    {
      ledger.Valid() && Disjoint(State()) && (quarantine != map[] ==> quarantineDir)
    }

    /** No iteration from here on ends early. */
    ghost predicate Unbroken(from: nat) {
      forall n :: n >= from ==> cut(n).None?
    }

    /** No step from here on fails. */
    ghost predicate Smooth(from: nat)
      reads this
    {
      !crashed && forall n :: n >= from ==> fate(n) == Done
    }

    /** At most one step from here on fails, and it fails cleanly. */
    ghost predicate SmoothBut(from: nat, fault: nat)
      reads this
    {
      !crashed && fate(fault) in {Done, Failed} && forall n :: n >= from && n != fault ==> fate(n) == Done
    }

    /** A new process: whatever killed the last one is over. */
    method Restart()
      modifies this`crashed
      ensures !crashed
    {
      crashed := false;
    }

    /** Consult the fate of the next step. After a crash nothing happens any more. */
    method Step() returns (f: Fate)
      modifies this`clock, this`crashed
      ensures clock == old(clock) + 1
      ensures if old(crashed) then f == Crashed else f == fate(old(clock))
      ensures crashed == (f == Crashed)
    {
      f := if crashed then Crashed else fate(clock);
      crashed := f == Crashed;
      clock := clock + 1;
    }

    /** A statement inside the open transaction: nothing durable changes. */
    method Query() returns (ok: bool)
      modifies this`clock, this`crashed
      ensures clock == old(clock) + 1
      ensures ok ==> !crashed && !old(crashed)
      ensures old(crashed) ==> crashed
      ensures ok == (!old(crashed) && fate(old(clock)) == Done)
      ensures crashed == (old(crashed) || fate(old(clock)) == Crashed)
    {
      var f := Step();
      ok := f == Done;
    }

    /** A SELECT and the loop over its rows. An iteration that ends early is not told apart from one at
        the end of the rows: neither the loop nor closing the result reports it. */
    method ReadRows(all: seq<string>) returns (ok: bool, rows: seq<string>)
      modifies this`clock, this`crashed
      ensures clock == old(clock) + 1
      ensures ok == (!old(crashed) && fate(old(clock)) == Done)
      ensures crashed == (old(crashed) || fate(old(clock)) == Crashed)
      ensures rows <= all
      ensures ok && cut(old(clock)).None? ==> rows == all
      ensures ok && cut(old(clock)).Some? ==> |rows| == Shorter(cut(old(clock)).value, |all|)
    {
      var end := cut(clock);
      rows := [];
      ok := Query();
      if !ok {
        return;
      }
      while |rows| < |all| && end != Some(|rows|)
        invariant rows <= all
        invariant end.Some? ==> |rows| <= Shorter(end.value, |all|)
      {
        rows := rows + [all[|rows|]];
      }
    }

    method Enumerate(names: set<string>) returns (list: seq<string>)
      ensures forall n :: n in list <==> n in names
      ensures forall i, j :: 0 <= i < j < |list| ==> list[i] != list[j]
    {
      list := [];
      var rest := names;
      while rest != {}
        invariant rest <= names
        invariant forall n :: n in list <==> n in names && n !in rest
        invariant forall i, j :: 0 <= i < j < |list| ==> list[i] != list[j]
        decreases rest
      {
        var n :| n in rest;
        list, rest := list + [n], rest - {n};
      }
    }

    /** os.Rename from the archive into the quarantine. */
    method MoveToQuarantine(name: string) returns (ok: bool)
      requires Valid() && quarantineDir
      modifies this`archive, this`quarantine, this`clock, this`crashed
      ensures Valid() && quarantineDir && Files(State()) == old(Files(State()))
      ensures clock == old(clock) + 1 && crashed == (old(crashed) || fate(old(clock)) == Crashed)
      ensures || (archive == old(archive) && quarantine == old(quarantine))
              || (name in old(archive) && archive == old(archive) - {name} && quarantine.Keys == old(quarantine).Keys + {name})
      ensures ok ==> name in old(archive) && name !in archive
      ensures !ok && (old(crashed) || fate(old(clock)) in {Failed, Crashed}) ==> archive == old(archive) && quarantine == old(quarantine)
      ensures name in old(archive) ==> ok == (!old(crashed) && fate(old(clock)) == Done)
    {
      ok := false;
      var f := Step();
      if name in archive && f in {Done, ReplyLost} {
        QuarantiningKeepsFiles(State(), name);
        archive, quarantine := archive - {name}, quarantine[name := archive[name]];
        ok := f == Done;
      }
    }

    /** os.Rename from the quarantine back into the archive. */
    method MoveToArchive(name: string) returns (ok: bool)
      requires Valid()
      modifies this`archive, this`quarantine, this`clock, this`crashed
      ensures Valid() && Files(State()) == old(Files(State()))
      ensures clock == old(clock) + 1 && crashed == (old(crashed) || fate(old(clock)) == Crashed)
      ensures || (quarantine == old(quarantine) && archive == old(archive))
              || (name in old(quarantine) && quarantine.Keys == old(quarantine).Keys - {name})
      ensures ok ==> name !in quarantine
      ensures name in old(quarantine) ==> ok == (!old(crashed) && fate(old(clock)) == Done)
      ensures name in old(quarantine) ==> (name !in quarantine <==> !old(crashed) && fate(old(clock)) in {Done, ReplyLost})
    {
      ok := false;
      var f := Step();
      if name in quarantine && f in {Done, ReplyLost} {
        RestoringKeepsFiles(State(), name);
        archive, quarantine := archive[name := quarantine[name]], quarantine - {name};
        ok := f == Done;
      }
    }

    /** os.Remove of the quarantine directory; it fails while files are left in it. */
    method RemoveQuarantineDir() returns (ok: bool)
      requires Valid()
      modifies this`quarantineDir, this`clock, this`crashed
      ensures Valid()
      ensures clock == old(clock) + 1 && crashed == (old(crashed) || fate(old(clock)) == Crashed)
      ensures ok ==> quarantine == map[]
      ensures quarantine == map[] && !old(crashed) && fate(old(clock)) == Done ==> ok
    {
      ok := false;
      var f := Step();
      if quarantine == map[] && f in {Done, ReplyLost} {
        quarantineDir := false;
        ok := f == Done;
      }
    }

    /** One pass of the loop of restoreFixtureMediaFiles: a file known to be absent is skipped. */
    method RestoreOne(name: string) returns (ok: bool)
      requires Valid()
      modifies this`archive, this`quarantine, this`clock, this`crashed
      ensures Valid() && Files(State()) == old(Files(State())) && clock >= old(clock)
      ensures quarantine.Keys == old(quarantine).Keys || quarantine.Keys == old(quarantine).Keys - {name}
      ensures ok ==> name !in quarantine
      ensures old(crashed) ==> crashed
      ensures old(Smooth(clock)) ==> ok && Smooth(clock)
      ensures name in old(quarantine) ==>
        && clock == old(clock) + 2
        && crashed == (old(crashed) || fate(old(clock)) == Crashed || fate(old(clock) + 1) == Crashed)
        && (name !in quarantine <==> !old(crashed) && fate(old(clock)) != Crashed && fate(old(clock) + 1) in {Done, ReplyLost})
    {
      var statted := Query();
      if statted && name !in quarantine {
        return true;
      }
      ok := MoveToArchive(name);
    }

    /** restoreFixtureMediaFiles: last staged first; the first failing rename is remembered. */
    method Restore(staged: Staged) returns (ok: bool)
      requires Valid()
      modifies this`archive, this`quarantine, this`quarantineDir, this`clock, this`crashed
      ensures Valid() && Files(State()) == old(Files(State())) && clock >= old(clock)
      ensures forall n :: n in quarantine ==> n in old(quarantine)
      ensures forall n :: n in old(quarantine) && n !in staged.files ==> n in quarantine
      ensures old(crashed) ==> crashed
      ensures ok ==> forall n :: n in staged.files ==> n !in quarantine
      ensures old(Smooth(clock)) ==> ok && Smooth(clock)
      ensures old(!crashed && Distinct(staged.files) && forall n :: n in staged.files ==> n in quarantine) ==>
        forall k :: 0 <= k < |staged.files| ==> (staged.files[k] !in quarantine <==> GoesBack(fate, old(clock), |staged.files|, k))
    {
      hide Files, PutBack, GoesBack, Distinct;
      ghost var exact := !crashed && Distinct(staged.files) && forall n :: n in staged.files ==> n in quarantine;
      ok := true;
      var index := |staged.files|;
      if exact {
        PutBackStart(fate, clock, staged.files, quarantine.Keys);
      }
      while index > 0
        invariant 0 <= index <= |staged.files|
        invariant Valid() && Files(State()) == old(Files(State())) && clock >= old(clock)
        invariant quarantine.Keys <= old(quarantine).Keys
        invariant forall n :: n in old(quarantine) && n !in staged.files ==> n in quarantine
        invariant old(crashed) ==> crashed
        invariant ok ==> forall k :: index <= k < |staged.files| ==> staged.files[k] !in quarantine
        invariant old(Smooth(clock)) ==> ok && Smooth(clock)
        invariant exact ==> PutBack(fate, old(clock), staged.files, index, quarantine.Keys, clock, crashed)
      {
        ghost var held, at, dead := quarantine.Keys, clock, crashed;
        index := index - 1;
        var moved := RestoreOne(staged.files[index]);
        if exact {
          PutBackStep(fate, old(clock), staged.files, index, held, at, dead, quarantine.Keys, clock, crashed);
        }
        if !moved {
          ok := false;
        }
      }
      if exact {
        PutBackEnd(fate, old(clock), staged.files, quarantine.Keys, clock, crashed);
      }
      if staged.rooted {
        var _ := RemoveQuarantineDir();
      }
    }

    /** os.Remove of one quarantined file. A file that is not there counts as deleted but not as present. */
    method RemoveQuarantined(name: string) returns (deleted: bool, present: bool)
      requires Valid()
      modifies this`quarantine, this`clock, this`crashed
      ensures Valid() && present == (name in old(quarantine))
      ensures clock == old(clock) + 1 && crashed == (old(crashed) || fate(old(clock)) == Crashed)
      ensures quarantine == old(quarantine) || quarantine == old(quarantine) - {name}
      ensures deleted ==> quarantine == old(quarantine) - {name} && |quarantine| == |old(quarantine)| - (if present then 1 else 0)
      ensures deleted == (!old(crashed) && fate(old(clock)) == Done)
    {
      present := name in quarantine;
      RemovingOne(quarantine, name);
      var f := Step();
      if present && f in {Done, ReplyLost} {
        quarantine := quarantine - {name};
      }
      deleted := f == Done;
    }

    /** The loop of purgeFixtureMediaFiles: remove in order and stop at the first real failure. */
    method PurgeFiles(files: seq<string>) returns (removed: nat, ok: bool)
      requires Valid()
      modifies this`quarantine, this`clock, this`crashed
      ensures Valid() && clock >= old(clock)
      ensures forall n :: n in quarantine ==> n in old(quarantine) && quarantine[n] == old(quarantine)[n]
      ensures forall n :: n in old(quarantine) && n !in files ==> n in quarantine
      ensures ok ==> forall n :: n in files ==> n !in quarantine
      ensures ok ==> removed == |old(quarantine)| - |quarantine|
      ensures ok && old(crashed) ==> crashed
      ensures old(Smooth(clock)) ==> ok && Smooth(clock)
    {
      hide Files;
      removed, ok := 0, true;
      var index := 0;
      while ok && index < |files|
        invariant 0 <= index <= |files|
        invariant Valid() && clock >= old(clock)
        invariant forall n :: n in quarantine ==> n in old(quarantine) && quarantine[n] == old(quarantine)[n]
        invariant forall n :: n in old(quarantine) && n !in files ==> n in quarantine
        invariant ok ==> forall k :: 0 <= k < index ==> files[k] !in quarantine
        invariant ok ==> removed == |old(quarantine)| - |quarantine|
        invariant old(crashed) ==> crashed
        invariant old(Smooth(clock)) ==> ok && Smooth(clock)
        decreases |files| - index, ok
      {
        var deleted, present := RemoveQuarantined(files[index]);
        if deleted && present {
          removed := removed + 1;
        }
        ok := deleted;
        index := index + 1;
      }
    }

    /** purgeFixtureMediaFiles. */
    method Purge(staged: Staged) returns (removed: nat, ok: bool)
      requires Valid()
      modifies this`quarantine, this`quarantineDir, this`clock, this`crashed
      ensures Valid() && clock >= old(clock)
      ensures forall n :: n in quarantine ==> n in old(quarantine) && quarantine[n] == old(quarantine)[n]
      ensures forall n :: n in old(quarantine) && n !in staged.files ==> n in quarantine
      ensures ok ==> forall n :: n in staged.files ==> n !in quarantine
      ensures old(Smooth(clock)) && (staged.rooted ==> forall n :: n in old(quarantine) ==> n in staged.files) ==> ok
      ensures old(Smooth(clock)) ==> Smooth(clock)
      ensures ok && staged.rooted ==> quarantine == map[]
      ensures ok ==> removed == |old(quarantine)| - |quarantine|
    {
      removed, ok := PurgeFiles(staged.files);
      if ok && staged.rooted {
        ok := RemoveQuarantineDir();
      }
    }

    /** The pairs reconciling works on, rebuilt from the directory alone; the zero value when there is no directory. */
    method ListQuarantine() returns (ok: bool, error: Error, staged: Staged)
      requires Valid()
      modifies this`clock, this`crashed
      ensures Valid() && clock == old(clock) + 1 && error != CommitFailed
      ensures ok ==> forall n :: n in staged.files <==> n in quarantine
      ensures ok ==> !crashed && forall n :: n in quarantine ==> SafeFileName(n)
      ensures ok && !staged.rooted ==> quarantine == map[]
      ensures old(Smooth(clock)) ==> Smooth(clock) && (ok <==> forall n :: n in quarantine ==> SafeFileName(n))
    {
      hide SafeFileName;
      error, staged := FileSystemFailed, Staged(false, []);
      ok := Query();
      if !ok || !quarantineDir {
        return;
      }
      var names := Enumerate(quarantine.Keys);
      var index := 0;
      while index < |names|
        invariant 0 <= index <= |names|
        invariant staged.files == names[..index]
        invariant forall k :: 0 <= k < index ==> SafeFileName(names[k])
      {
        if !SafeFileName(names[index]) {
          assert names[index] in names;
          return false, QuarantineUnsafe, staged;
        }
        staged := Staged(true, staged.files + [names[index]]);
        index := index + 1;
      }
      staged := Staged(true, names);
    }

    /** reconcileFixtureMediaQuarantine: what the last run left is put back while the dataset's
        messages still exist, and thrown away once they are gone. */
    method Reconcile(rooted: bool, restore: bool) returns (ok: bool, error: Error)
      requires Valid()
      modifies this`archive, this`quarantine, this`quarantineDir, this`clock, this`crashed
      ensures Valid() && clock >= old(clock) && error != CommitFailed
      ensures forall n :: n in quarantine ==> n in old(quarantine)
      ensures restore ==> Files(State()) == old(Files(State()))
      ensures !restore ==> archive == old(archive) && forall n :: n in quarantine ==> quarantine[n] == old(quarantine)[n]
      ensures ok && rooted ==> quarantine == map[] && forall n :: n in old(quarantine) ==> SafeFileName(n)
      ensures !rooted ==> ok && archive == old(archive) && quarantine == old(quarantine)
      ensures old(Smooth(clock)) ==> (ok <==> !rooted || forall n :: n in old(quarantine) ==> SafeFileName(n))
      ensures old(Smooth(clock)) && ok ==> Smooth(clock)
    {
      hide SafeFileName;
      error := FileSystemFailed;
      if !rooted {
        return true, error;
      }
      var staged;
      ok, error, staged := ListQuarantine();
      if !ok || !staged.rooted {
        return;
      }
      if restore {
        ok := Restore(staged);
      } else {
        var _, purged := Purge(staged);
        ok := purged;
      }
    }

    /** The files of one media row that are in the archive: the object itself, then its parts. */
    method CandidatePaths(id: string) returns (ok: bool, paths: seq<string>)
      modifies this`clock, this`crashed
      ensures clock == old(clock) + 1 && crashed == (old(crashed) || fate(old(clock)) == Crashed)
      ensures ok == (!old(crashed) && fate(old(clock)) == Done)
      ensures forall n :: n in paths <==> n == id || (n in archive && IsPartOf(id, n))
    {
      ok := Query();
      var parts := Enumerate(set n | n in archive && IsPartOf(id, n));
      paths := [id] + parts;
    }

    /** Nothing was lost since `before`, and nothing left the quarantine. */
    ghost predicate Staging(before: Durable)
      reads this
    {
      && Valid() && Disjoint(before) && Files(State()) == Files(before)
      && forall n :: n in before.quarantine ==> n in quarantine
    }

    /** `staged` lists what was moved since `before`, and only that. */
    ghost predicate Holding(before: Durable, staged: Staged)
      reads this
    {
      Staging(before) && Distinct(staged.files) && forall n :: n in staged.files <==> n in quarantine && n !in before.quarantine
    }

    /** The error path of staging: put everything listed back. */
    method Unwind(staged: Staged, ghost before: Durable)
      requires Staging(before)
      requires forall n :: n in staged.files ==> n in quarantine && n !in before.quarantine
      modifies this`archive, this`quarantine, this`quarantineDir, this`clock, this`crashed
      ensures Staging(before) && clock >= old(clock)
      ensures forall n :: n in quarantine ==> n in old(quarantine)
      ensures old(Smooth(clock)) ==> Smooth(clock)
      ensures old(Smooth(clock) && Holding(before, staged)) ==> archive == before.archive && quarantine == before.quarantine
    {
      var _ := Restore(staged);
      if old(Smooth(clock) && Holding(before, staged)) {
        assert quarantine.Keys == before.quarantine.Keys;
        FilesDetermineDirectories(State(), before);
      }
    }

    /** The inner loop of staging: each path that exists is renamed and recorded. */
    method StagePaths(paths: seq<string>, staged: Staged, ghost before: Durable, ghost fault: nat) returns (ok: bool, moved: Staged)
      requires Holding(before, staged) && quarantineDir && staged.rooted && !crashed
      modifies this`archive, this`quarantine, this`clock, this`crashed
      ensures Staging(before) && quarantineDir && clock >= old(clock)
      ensures forall n :: n in moved.files ==> n in quarantine && n !in before.quarantine
      ensures forall n :: n in quarantine && n !in old(quarantine) ==> n in paths
      ensures forall n :: n in archive ==> n in old(archive)
      ensures ok ==> Holding(before, moved) && moved.rooted && !crashed
      ensures ok ==> forall n :: n in paths ==> n !in archive
      ensures old(SmoothBut(clock, fault)) ==> Holding(before, moved) && if ok then SmoothBut(clock, fault) else Smooth(clock)
      ensures old(Smooth(clock)) ==> ok && Smooth(clock)
    {
      hide Files;
      moved := staged;
      var j := 0;
      while j < |paths|
        invariant 0 <= j <= |paths|
        invariant Holding(before, moved) && quarantineDir && moved.rooted && !crashed && clock >= old(clock)
        invariant forall n :: n in quarantine && n !in old(quarantine) ==> n in paths
        invariant forall n :: n in archive ==> n in old(archive)
        invariant forall k :: 0 <= k < j ==> paths[k] !in archive
        invariant old(SmoothBut(clock, fault)) ==> SmoothBut(clock, fault)
        invariant old(Smooth(clock)) ==> Smooth(clock)
      {
        var path := paths[j];
        j := j + 1;
        var statted := Query();
        if !statted {
          return false, moved;
        }
        if path !in archive {
          continue;
        }
        var renamed := MoveToQuarantine(path);
        if !renamed {
          return false, moved;
        }
        moved := moved.(files := moved.files + [path]);
      }
      ok := true;
    }

    /** One pass of the outer loop of staging: the files of one media row. */
    method StageOne(mediaId: string, staged: Staged, ghost before: Durable, ghost fault: nat) returns (ok: bool, error: Error, moved: Staged)
      requires Holding(before, staged) && quarantineDir && staged.rooted && !crashed
      modifies this`archive, this`quarantine, this`quarantineDir, this`clock, this`crashed
      ensures Staging(before) && clock >= old(clock) && error != CommitFailed
      ensures forall n :: n in quarantine && n !in old(quarantine) ==> Owns(mediaId, n)
      ensures ok ==> Holding(before, moved) && quarantineDir && moved.rooted && !crashed
      ensures ok ==> ObjectName(mediaId).Some?
      ensures ok ==> forall n :: n in archive ==> n in old(archive) && !Owns(mediaId, n)
      ensures ok && old(SmoothBut(clock, fault)) ==> SmoothBut(clock, fault)
      ensures !ok && old(SmoothBut(clock, fault)) && (ObjectName(mediaId).Some? || old(Smooth(clock))) ==>
        archive == before.archive && quarantine == before.quarantine
      ensures old(Smooth(clock)) ==> Smooth(clock) && (ok <==> ObjectName(mediaId).Some?)
    {
      error, moved := FileSystemFailed, staged;
      var name := ObjectName(mediaId);
      if name.None? {
        Unwind(staged, before);
        return false, MediaIdUnsafe, moved;
      }
      var globbed, paths := CandidatePaths(name.value);
      if !globbed {
        Unwind(staged, before);
        return false, error, moved;
      }
      assert forall n :: n in archive && Owns(mediaId, n) ==> n in paths;
      ok, moved := StagePaths(paths, staged, before, fault);
      if !ok {
        Unwind(moved, before);
      }
    }

    /** stageFixtureMediaFiles. `fault` names the one step allowed to fail in the all-or-nothing clause. */
    method Stage(rooted: bool, mediaIds: seq<string>, ghost fault: nat) returns (ok: bool, error: Error, staged: Staged)
      requires Valid()
      modifies this`archive, this`quarantine, this`quarantineDir, this`clock, this`crashed
      ensures Staging(old(State())) && clock >= old(clock) && error != CommitFailed
      ensures forall n :: n in quarantine && n !in old(quarantine) ==> OwnedByAny(mediaIds, n)
      ensures ok ==> Holding(old(State()), staged) && staged.rooted == (mediaIds != [])
      ensures ok && mediaIds == [] ==> staged.files == []
      ensures ok ==> forall n :: n in archive ==> !OwnedByAny(mediaIds, n)
      ensures ok && mediaIds != [] ==> rooted && forall id :: id in mediaIds ==> ObjectName(id).Some?
      ensures ok && old(crashed) ==> crashed
      ensures !ok && old(SmoothBut(clock, fault)) && (old(Smooth(clock)) || forall id :: id in mediaIds ==> ObjectName(id).Some?) ==>
        archive == old(archive) && quarantine == old(quarantine)
      ensures old(Smooth(clock)) ==> Smooth(clock)
      ensures old(Smooth(clock)) ==> (ok <==> mediaIds == [] || (rooted && forall id :: id in mediaIds ==> ObjectName(id).Some?))
    {
      hide Files, Owns, ObjectName;
      error, staged := FileSystemFailed, Staged(false, []);
      if mediaIds == [] {
        return true, error, staged;
      }
      if !rooted {
        return false, StorageRootMissing, staged;
      }
      ghost var before := State();
      var made := Query();
      if !made {
        return false, error, staged;
      }
      quarantineDir := true;
      staged := Staged(true, []);
      var i := 0;
      while i < |mediaIds|
        invariant 0 <= i <= |mediaIds|
        invariant Holding(before, staged) && quarantineDir && staged.rooted && !crashed && clock > old(clock) && error != CommitFailed
        invariant forall n :: n in quarantine && n !in before.quarantine ==> OwnedByAny(mediaIds, n)
        invariant forall j :: 0 <= j < i ==> ObjectName(mediaIds[j]).Some?
        invariant forall j, n :: 0 <= j < i && n in archive ==> !Owns(mediaIds[j], n)
        invariant old(SmoothBut(clock, fault)) ==> SmoothBut(clock, fault)
        invariant old(Smooth(clock)) ==> Smooth(clock)
      {
        ok, error, staged := StageOne(mediaIds[i], staged, before, fault);
        if !ok {
          return false, error, Staged(false, []);
        }
        i := i + 1;
      }
      ok := true;
    }

    /** The inner loop over the message tables. */
    method DeleteFromTables(tables: seq<seq<string>>, msgid: string) returns (ok: bool, kept: seq<seq<string>>, removed: nat)
      modifies this`clock, this`crashed
      ensures clock >= old(clock)
      ensures |kept| == |tables|
      ensures ok ==> kept == KeepTables(tables, {msgid}) && RowTotal(kept) + removed == RowTotal(tables)
      ensures old(Smooth(clock)) ==> ok && Smooth(clock)
    {
      ok, kept, removed := true, tables, 0;
      var index := 0;
      while index < |tables|
        invariant 0 <= index <= |tables| == |kept|
        invariant forall i :: 0 <= i < index ==> kept[i] == KeepIds(tables[i], {msgid})
        invariant forall i :: index <= i < |tables| ==> kept[i] == tables[i]
        invariant RowTotal(kept) + removed == RowTotal(tables)
        invariant clock >= old(clock)
        invariant old(Smooth(clock)) ==> Smooth(clock)
      {
        ok := Query();
        if !ok {
          return;
        }
        var rest := KeepIds(kept[index], {msgid});
        KeepIdsTwice(kept[index], {}, msgid);
        KeepAllIds(kept[index]);
        assert {} + {msgid} == {msgid};
        RowTotalOfUpdate(kept, index, rest);
        removed := removed + (|kept[index]| - |rest|);
        kept := kept[index := rest];
        index := index + 1;
      }
    }

    /** The loop over the dataset's messages: collect the media ids, delete the dependent rows. */
    method DeleteMessageRows(ids: seq<string>) returns (ok: bool, tx: Ledger, mediaIds: seq<string>, counts: CleanupCounts)
      requires Valid()
      modifies this`clock, this`crashed
      ensures clock >= old(clock)
      ensures ok ==>
        var gone := set m | m in ids;
        tx == ledger.(media := KeepRows(ledger.media, gone), components := KeepIds(ledger.components, gone),
                      messages := KeepTables(ledger.messages, gone))
      ensures ok ==> OnlyRead(ledger.media, (set m | m in ids), mediaIds)
      ensures ok && Unbroken(old(clock)) ==> AllRead(ledger.media, (set m | m in ids), mediaIds)
      ensures ok ==> counts.media + |tx.media| == |ledger.media| && counts.components + |tx.components| == |ledger.components|
      ensures ok ==> counts.messages + RowTotal(tx.messages) == RowTotal(ledger.messages)
      ensures ok ==> counts.participants == 0 && counts.runs == 0 && counts.files == 0
      ensures ok && old(crashed) ==> crashed
      ensures old(Smooth(clock)) ==> ok && Smooth(clock)
    {
      hide KeepRows, KeepIds, KeepTables, RowTotal;
      ok, tx, mediaIds, counts := true, ledger, [], CleanupCounts(0, 0, 0, 0, 0, 0);
      KeepAllRows(ledger.media);
      KeepAllIds(ledger.components);
      KeepAllTables(ledger.messages);
      ghost var gone: set<string> := {};
      var i := 0;
      while i < |ids|
        invariant 0 <= i <= |ids|
        invariant forall m :: m in gone <==> m in ids[..i]
        invariant tx == ledger.(media := KeepRows(ledger.media, gone), components := KeepIds(ledger.components, gone),
                                messages := KeepTables(ledger.messages, gone))
        invariant OnlyRead(ledger.media, gone, mediaIds)
        invariant Unbroken(old(clock)) ==> AllRead(ledger.media, gone, mediaIds)
        invariant counts.media + |tx.media| == |ledger.media| && counts.components + |tx.components| == |ledger.components|
        invariant counts.messages + RowTotal(tx.messages) == RowTotal(ledger.messages)
        invariant counts.participants == 0 && counts.runs == 0 && counts.files == 0
        invariant clock >= old(clock) && (old(crashed) ==> crashed)
        invariant old(Smooth(clock)) ==> Smooth(clock)
      {
        ok, tx, mediaIds, counts := DeleteOneMessage(ids[i], tx, mediaIds, counts, gone);
        if !ok {
          return;
        }
        gone := gone + {ids[i]};
        assert ids[..i + 1] == ids[..i] + [ids[i]];
        i := i + 1;
      }
      assert ids[..i] == ids;
      assert gone == set m | m in ids;
    }

    /** One pass of that loop. `gone` is what earlier passes deleted. */
    method DeleteOneMessage(msgid: string, before: Ledger, found: seq<string>, counted: CleanupCounts, ghost gone: set<string>)
      returns (ok: bool, tx: Ledger, mediaIds: seq<string>, counts: CleanupCounts)
      requires before == ledger.(media := KeepRows(ledger.media, gone), components := KeepIds(ledger.components, gone),
                                 messages := KeepTables(ledger.messages, gone))
      requires OnlyRead(ledger.media, gone, found)
      modifies this`clock, this`crashed
      ensures clock >= old(clock)
      ensures ok ==> tx == ledger.(media := KeepRows(ledger.media, gone + {msgid}), components := KeepIds(ledger.components, gone + {msgid}),
                                   messages := KeepTables(ledger.messages, gone + {msgid}))
      ensures ok ==> OnlyRead(ledger.media, gone + {msgid}, mediaIds)
      ensures ok && Unbroken(old(clock)) && AllRead(ledger.media, gone, found) ==> AllRead(ledger.media, gone + {msgid}, mediaIds)
      ensures ok ==> counts.media + |tx.media| == counted.media + |before.media|
      ensures ok ==> counts.components + |tx.components| == counted.components + |before.components|
      ensures ok ==> counts.messages + RowTotal(tx.messages) == counted.messages + RowTotal(before.messages)
      ensures ok ==> counts == counted.(media := counts.media, components := counts.components, messages := counts.messages)
      ensures ok ==> !crashed && !old(crashed)
      ensures old(Smooth(clock)) ==> ok && Smooth(clock)
    {
      hide KeepRows, KeepIds, KeepTables, RowTotal, MediaIdsOf, AllRead, OnlyRead;
      tx, mediaIds, counts := before, found, counted;
      var rows;
      ok, rows := ReadRows(MediaIdsOf(before.media, msgid));
      if !ok {
        return;
      }
      ReadOneMore(ledger.media, gone, msgid, found, rows);
      mediaIds := found + rows;
      ok := Query();
      if !ok {
        return;
      }
      KeepIdsTwice(ledger.components, gone, msgid);
      tx := tx.(components := KeepIds(tx.components, {msgid}));
      counts := counts.(components := counts.components + (|before.components| - |tx.components|));
      ok := Query();
      if !ok {
        return;
      }
      KeepRowsTwice(ledger.media, gone, msgid);
      tx := tx.(media := KeepRows(tx.media, {msgid}));
      counts := counts.(media := counts.media + (|before.media| - |tx.media|));
      var deleted, tables, removed := DeleteFromTables(before.messages, msgid);
      ok := deleted && !crashed;
      if ok {
        KeepTablesTwice(ledger.messages, gone, msgid);
        tx := tx.(messages := tables);
        counts := counts.(messages := counts.messages + removed);
      }
    }

    /** The rest of the transaction: the source's own rows, its runs and the two participants. */
    method DeleteSourceRows(dataset: string, before: Ledger, counted: CleanupCounts) returns (ok: bool, tx: Ledger, counts: CleanupCounts)
      requires counted.participants == 0 && counted.runs == 0
      modifies this`clock, this`crashed
      ensures clock >= old(clock)
      ensures ok ==> tx == before.(sources := [], runs := 0, contacts := KeepOthers(before.contacts, Contact(dataset)),
                                   employees := KeepOthers(before.employees, Employee(dataset)))
      ensures ok ==> counts.participants + |tx.contacts| + |tx.employees| == |before.contacts| + |before.employees|
      ensures ok ==> counts.runs == before.runs && counts == counted.(participants := counts.participants, runs := counts.runs)
      ensures ok ==> !crashed && !old(crashed)
      ensures old(Smooth(clock)) ==> ok && Smooth(clock)
    {
      tx, counts := before, counted;
      ok := Query();
      if !ok {
        return;
      }
      tx := tx.(sources := []);
      ok := Query();
      if !ok {
        return;
      }
      counts := counts.(runs := tx.runs);
      tx := tx.(runs := 0);
      ok := Query();
      if !ok {
        return;
      }
      tx := tx.(contacts := KeepOthers(tx.contacts, Contact(dataset)));
      counts := counts.(participants := |before.contacts| - |tx.contacts|);
      ok := Query();
      if !ok {
        return;
      }
      tx := tx.(employees := KeepOthers(tx.employees, Employee(dataset)));
      counts := counts.(participants := counts.participants + (|before.employees| - |tx.employees|));
    }

    /** Every deletion of the transaction, in order, for the message ids that were read. */
    method DeleteRows(dataset: string, ids: seq<string>) returns (ok: bool, tx: Ledger, mediaIds: seq<string>, counts: CleanupCounts)
      requires Valid() && ids <= ledger.sources
      modifies this`clock, this`crashed
      ensures clock >= old(clock)
      ensures ok ==> tx == Purged(ledger, dataset, ids) && tx.Valid()
      ensures ok ==> ReadsFrom(ledger, Reading(ids, mediaIds))
      ensures ok && Unbroken(old(clock)) && ids == ledger.sources ==> Complete(ledger, Reading(ids, mediaIds))
      ensures ok ==> CountsDeletedRows(ledger, tx, counts)
      ensures ok ==> !crashed && !old(crashed)
      ensures old(Smooth(clock)) ==> ok && Smooth(clock)
    {
      ok, tx, mediaIds, counts := DeleteMessageRows(ids);
      if ok {
        ok, tx, counts := DeleteSourceRows(dataset, tx, counts);
      }
    }

    /** The checks a run makes before it touches anything, and the message ids it read for them. */
    method Admit(tenantId: int, corpId: int, rawDataset: string) returns (ok: bool, error: Error, ids: seq<string>)
      modifies this`clock, this`crashed
      ensures clock >= old(clock) && error != CommitFailed
      ensures ids <= ledger.sources
      ensures ok && Unbroken(old(clock)) ==> ids == ledger.sources
      ensures ok ==> ScopeAllowed(tenantId, corpId, rawDataset) && MessageIdsAllowed(TrimSpace(rawDataset), ids)
      ensures old(Smooth(clock)) ==> Smooth(clock)
      ensures old(Smooth(clock)) ==> (ok <==> ScopeAllowed(tenantId, corpId, rawDataset) && MessageIdsAllowed(TrimSpace(rawDataset), ids))
    {
      ok, error, ids := false, DatabaseFailed, [];
      if !ScopeAllowed(tenantId, corpId, rawDataset) {
        return ok, ScopeInvalid, ids;
      }
      var begun := Query();
      if !begun {
        return;
      }
      var selected;
      selected, ids := ReadRows(ledger.sources);
      if !selected {
        return;
      }
      if !MessageIdsAllowed(TrimSpace(rawDataset), ids) {
        return ok, ForeignMessages, ids;
      }
      ok := true;
    }

    /** Everything before the commit. `recovered` is the durable state once the leftovers are dealt with. */
    method Prepare(tenantId: int, corpId: int, rawDataset: string, rooted: bool)
      returns (ok: bool, error: Error, tx: Ledger, counts: CleanupCounts, staged: Staged, ghost recovered: Durable, ghost reading: Reading)
      requires Valid()
      modifies this`archive, this`quarantine, this`quarantineDir, this`clock, this`crashed
      ensures Valid() && clock >= old(clock) && error != CommitFailed
      ensures Reconciled(old(State()), recovered, reading) && StagedFrom(recovered, State(), reading)
      ensures ok ==> Prepared(old(State()), recovered, State(), reading, rooted)
      ensures ok && Unbroken(old(clock)) ==> Complete(ledger, reading)
      ensures ok ==> Admissible(old(State()), tenantId, corpId, rawDataset, rooted, reading)
      ensures ok ==> tx == Purged(ledger, TrimSpace(rawDataset), reading.ids) && tx.Valid() && Holding(recovered, staged)
      ensures ok && !staged.rooted ==> staged.files == [] && reading.media == []
      ensures ok && !rooted ==> !staged.rooted
      ensures ok ==> CountsDeletedRows(ledger, tx, counts)
      ensures old(Smooth(clock)) ==> (ok <==> Admissible(old(State()), tenantId, corpId, rawDataset, rooted, reading))
      ensures old(Smooth(clock)) && ok ==> Smooth(clock)
    {
      hide Files, OwnedByAny, ObjectName, ScopeAllowed, MessageIdsAllowed, SafeFileName, Purged, TrimSpace, RowTotal, Complete;
      recovered := State();
      ok, error, tx, counts, staged := false, DatabaseFailed, ledger, CleanupCounts(0, 0, 0, 0, 0, 0), Staged(false, []);
      var ids;
      ok, error, ids := Admit(tenantId, corpId, rawDataset);
      reading := Reading(ids, []);
      if !ok {
        return;
      }
      ok, error := Reconcile(rooted, |ids| > 0);
      recovered := State();
      if !ok {
        return;
      }
      var mediaIds;
      error := DatabaseFailed;
      ok, tx, mediaIds, counts := DeleteRows(TrimSpace(rawDataset), ids);
      if !ok {
        return;
      }
      reading := Reading(ids, mediaIds);
      ok, error, staged := Stage(rooted, mediaIds, 0);
    }

    /** The commit, and the attempt to put the files back when it reports a failure. */
    method Commit(tx: Ledger, staged: Staged) returns (committed: Fate)
      requires Valid() && tx.Valid()
      modifies this
      ensures Valid() && clock > old(clock)
      ensures committed == (if old(crashed) then Crashed else fate(old(clock)))
      ensures ledger == if committed in {Done, ReplyLost} then tx else old(ledger)
      ensures committed == Done ==> archive == old(archive) && quarantine == old(quarantine) && crashed == old(crashed)
      ensures Files(State()) == old(Files(State()))
      ensures forall n :: n in quarantine ==> n in old(quarantine)
      ensures forall n :: n in old(quarantine) && n !in staged.files ==> n in quarantine
      ensures committed == ReplyLost && old(Distinct(staged.files) && forall n :: n in staged.files ==> n in quarantine) ==>
        forall k :: 0 <= k < |staged.files| ==> (staged.files[k] !in quarantine <==> GoesBack(fate, old(clock) + 1, |staged.files|, k))
    {
      hide GoesBack, Distinct;
      committed := Step();
      if committed in {Done, ReplyLost} {
        ledger := tx;
      }
      if committed != Done {
        var _ := Restore(staged);
      }
    }

    /** Committing what was prepared: it took effect and said so, or the run is over. */
    method CommitPrepared(tx: Ledger, staged: Staged, rawDataset: string, rooted: bool,
                          ghost start: Durable, ghost recovered: Durable, ghost reading: Reading)
      returns (ok: bool)
      requires Valid() && tx.Valid() && tx == Purged(ledger, TrimSpace(rawDataset), reading.ids)
      requires Prepared(start, recovered, State(), reading, rooted) && Holding(recovered, staged)
      modifies this
      ensures Valid() && clock > old(clock)
      ensures ok ==> State() == old(State()).(ledger := tx) && crashed == old(crashed)
      ensures !ok ==> CleanupStep(start, State(), rawDataset, rooted, reading, true)
      ensures !ok && ledger != start.ledger ==> fate(old(clock)) == ReplyLost
      ensures !ok && ledger != start.ledger && rooted && reading.ids != [] ==>
        LostReply(start, State(), reading, staged.files, fate, old(clock))
      ensures old(Smooth(clock)) ==> ok && Smooth(clock)
    {
      hide Files, OwnedByAny, CleanupStep, Reconciled, Purged, TrimSpace, LostReply, GoesBack, Distinct;
      ghost var parked := State();
      var committed := Commit(tx, staged);
      ok := committed == Done;
      if committed == ReplyLost {
        CommittedStep(start, recovered, parked, State(), rawDataset, rooted, reading, true);
        if rooted && reading.ids != [] {
          LostReplyOfRun(start, recovered, parked, State(), reading, staged.files, fate, old(clock));
        }
      } else if !ok {
        UncommittedStep(start, recovered, State(), rawDataset, rooted, reading, true);
        assert ledger == start.ledger;
      }
    }

    /** The end of cleanupIngestedFixture: commit, then empty the quarantine, or put the files back. */
    method CommitAndPurge(tx: Ledger, counts: CleanupCounts, staged: Staged, rawDataset: string, rooted: bool,
                          ghost start: Durable, ghost recovered: Durable, ghost reading: Reading)
      returns (reply: Reply)
      requires Valid() && tx.Valid() && tx == Purged(ledger, TrimSpace(rawDataset), reading.ids)
      requires Prepared(start, recovered, State(), reading, rooted) && Holding(recovered, staged)
      requires !staged.rooted ==> staged.files == [] && reading.media == []
      requires !rooted ==> !staged.rooted
      modifies this
      ensures Valid() && clock >= old(clock)
      ensures CleanupStep(start, State(), rawDataset, rooted, reading, reply == Refused(CommitFailed))
      ensures reply.Cleaned? ==> State() == CleanedState(start, rawDataset, rooted, reading)
      ensures old(Smooth(clock)) ==> reply.Cleaned?
      ensures reply.Cleaned? ==> ledger == tx && reply.counts == counts.(files := reply.counts.files)
      ensures reply.Cleaned? ==> CountsRemovedFiles(start, State(), reply.counts.files, rooted, reading)
      ensures reply == Refused(CommitFailed) && ledger != start.ledger ==> clock > old(clock) && fate(old(clock)) == ReplyLost
      ensures reply == Refused(CommitFailed) && ledger != start.ledger && rooted && reading.ids != [] ==>
        LostReply(start, State(), reading, staged.files, fate, old(clock))
    {
      hide Files, OwnedByAny, CleanedState, CleanupStep, Reconciled, Purged, TrimSpace, CountsRemovedFiles, LostReply, GoesBack, Distinct;
      ghost var parked := State();
      var committed := CommitPrepared(tx, staged, rawDataset, rooted, start, recovered, reading);
      if !committed {
        return Refused(CommitFailed);
      }
      var removed, purged := Purge(staged);
      CommittedStep(start, recovered, parked, State(), rawDataset, rooted, reading, false);
      if !purged {
        return Refused(FileSystemFailed);
      }
      if !rooted {
        NothingOwned(reading.media);
      }
      WholeRun(start, recovered, parked, State(), rawDataset, rooted, reading);
      RemovedFilesAreCounted(start, recovered, parked, State(), removed, rooted, reading);
      reply := Cleaned(counts.(files := removed));
    }

    /** cleanupIngestedFixture. Leaving early rolls the transaction back: `ledger` changes only at the commit.
        `reading` is what the run read, `staged` what it had moved when it came to commit, at step `committedAt`. */
    method Cleanup(tenantId: int, corpId: int, rawDataset: string, rooted: bool)
      returns (reply: Reply, ghost reading: Reading, ghost staged: seq<string>, ghost committedAt: nat)
      requires Valid()
      modifies this
      ensures Valid() && clock >= old(clock)
      ensures CleanupStep(old(State()), State(), rawDataset, rooted, reading, reply == Refused(CommitFailed))
      ensures Unbroken(old(clock)) && (reply.Cleaned? || ledger != old(ledger)) ==> Complete(old(ledger), reading)
      ensures reply.Cleaned? ==> Admissible(old(State()), tenantId, corpId, rawDataset, rooted, reading)
      ensures reply.Cleaned? ==> State() == CleanedState(old(State()), rawDataset, rooted, reading)
      ensures old(Smooth(clock)) ==> (reply.Cleaned? <==> Admissible(old(State()), tenantId, corpId, rawDataset, rooted, reading))
      ensures reply.Cleaned? ==> CountsDeletedRows(old(ledger), ledger, reply.counts)
      ensures reply.Cleaned? ==> CountsRemovedFiles(old(State()), State(), reply.counts.files, rooted, reading)
      ensures reply == Refused(CommitFailed) && ledger != old(ledger) ==>
        old(clock) <= committedAt < clock && fate(committedAt) == ReplyLost
      ensures reply == Refused(CommitFailed) && ledger != old(ledger) && rooted && reading.ids != [] ==>
        LostReply(old(State()), State(), reading, staged, fate, committedAt)
    {
      hide Files, OwnedByAny, CleanedState, Admissible, CleanupStep, Reconciled, StagedFrom, Prepared, Purged, TrimSpace, RowTotal,
           CountsRemovedFiles, ReadsFrom, Complete, LostReply, GoesBack, Distinct;
      ghost var start := State();
      ghost var recovered;
      var ok, error, tx, counts, moved;
      ok, error, tx, counts, moved, recovered, reading := Prepare(tenantId, corpId, rawDataset, rooted);
      committedAt, staged := clock, moved.files;
      if ok {
        reply := CommitAndPurge(tx, counts, moved, rawDataset, rooted, start, recovered, reading);
      } else {
        UncommittedStep(start, recovered, State(), rawDataset, rooted, reading, false);
        reply := Refused(error);
      }
    }

    /** Staging followed by restoring, as a failed commit does it: both directories are as before,
        also when the same id is listed twice. */
    method StageAndRestore(rooted: bool, mediaIds: seq<string>) returns (ok: bool)
      requires Valid() && Smooth(clock)
      modifies this
      ensures Valid() && ledger == old(ledger)
      ensures archive == old(archive) && quarantine == old(quarantine)
      ensures ok <==> mediaIds == [] || (rooted && forall id :: id in mediaIds ==> ObjectName(id).Some?)
    {
      hide Files, ObjectName, OwnedByAny;
      ghost var before := State();
      var error, staged;
      ok, error, staged := Stage(rooted, mediaIds, clock);
      if ok {
        Unwind(staged, before);
      }
    }
  }
}
