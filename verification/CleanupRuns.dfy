/** Whole histories of fixture datasets that share one archive: cleanup runs that may be cut short
    anywhere, and ingestion between them. */
module CleanupRuns {
  import opened Text
  import opened MediaNames
  import opened FixtureCleanup

  /** What belongs to one dataset alone: its source's message ids and runs, and its quarantine. */
  datatype Place = Place(sources: seq<string>, runs: nat, quarantine: map<string, Content>)

  /** The rows and the archive that all datasets share, and a record of what content was stored under
      each media name. `shared` holds no sources and runs of its own; they are in the places. */
  datatype World = World(shared: Ledger, archive: map<string, Content>, places: map<string, Place>, stored: map<string, Content>)

  /** The durable state as a cleanup of the dataset at `k` sees it. */
  ghost function View(w: World, k: string): Durable
    requires k in w.places
  {
    Durable(w.shared.(sources := w.places[k].sources, runs := w.places[k].runs), w.archive, w.places[k].quarantine)
  }

  ghost predicate Anywhere(w: World, n: string) {
    n in w.archive || exists k :: k in w.places && n in w.places[k].quarantine
  }

  datatype Event =
    | CleanupRan(place: string, dataset: string, rooted: bool, reading: Reading, replyLost: bool)
    | MessageRegistered(place: string, msgid: string)
    | MediaRowAdded(row: MediaRow)
    | FileStored(name: string, content: Content)
    | PartPublished(part: string, id: string)
    | PartRemoved(part: string)

  /** The part belongs to the media row with this object id. */
  ghost predicate PartOfRow(media: seq<MediaRow>, part: string, id: string) {
    IsPartOf(id, part) && exists r :: r in media && ObjectName(r.id) == Some(id)
  }

  ghost predicate Next(w: World, e: Event, w': World) {
    match e
    case CleanupRan(k, dataset, rooted, reading, replyLost) =>
      && k in w.places && w'.places.Keys == w.places.Keys && w'.stored == w.stored
      && (forall j :: j in w.places && j != k ==> w'.places[j] == w.places[j])
      && CleanupStep(View(w, k), View(w', k), dataset, rooted, reading, replyLost)
    case MessageRegistered(k, msgid) =>
      && k in w.places
      && w' == w.(places := w.places[k := w.places[k].(sources := w.places[k].sources + [msgid])])
    case MediaRowAdded(row) =>
      // a media row gets a new random id: no row and no file has used it
      && (forall r :: r in w.shared.media ==> ObjectName(r.id) != ObjectName(row.id))
      && (forall n :: Owns(row.id, n) ==> !Anywhere(w, n) && n !in w.stored)
      && w' == w.(shared := w.shared.(media := w.shared.media + [row]))
    case FileStored(name, content) =>
      && (exists r :: r in w.shared.media && Owns(r.id, name))
      && !Anywhere(w, name) && name !in w.stored
      && w' == w.(archive := w.archive[name := content], stored := w.stored[name := content])
    case PartPublished(part, id) =>
      // the finished part gets the final name, or only goes if the same content already has it
      && PartOfRow(w.shared.media, part, id) && part in w.archive
      && (!Anywhere(w, id) || (id in w.archive && w.archive[id] == w.archive[part]))
      && w' == w.(archive := (w.archive - {part})[id := w.archive[part]], stored := (w.stored - {part})[id := w.archive[part]])
    case PartRemoved(part) =>
      && (exists id :: PartOfRow(w.shared.media, part, id))
      && part in w.archive
      && w' == w.(archive := w.archive - {part}, stored := w.stored - {part})
  }

  /** The file is in exactly one place, with this content. */
  ghost predicate InOnePlace(w: World, n: string, content: Content) {
    || (n in w.archive && w.archive[n] == content && forall k :: k in w.places ==> n !in w.places[k].quarantine)
    || (n !in w.archive && exists k :: && k in w.places && n in w.places[k].quarantine && w.places[k].quarantine[n] == content
                                       && forall j :: j in w.places && j != k ==> n !in w.places[j].quarantine)
  }

  /** Every stored file of a committed media row is there, unchanged, in exactly one place. */
  ghost predicate LiveFilesSafe(w: World) {
    forall r, n :: r in w.shared.media && n in w.stored && Owns(r.id, n) ==> InOnePlace(w, n, w.stored[n])
  }

  ghost predicate DistinctObjects(media: seq<MediaRow>) {
    forall r, q :: r in media && q in media && ObjectName(r.id).Some? && ObjectName(r.id) == ObjectName(q.id) ==> r == q
  }

  /** Archive and quarantines have no name in common. */
  ghost predicate Separate(w: World) {
    && (forall k, n :: k in w.places && n in w.places[k].quarantine ==> n !in w.archive)
    && forall j, k, n :: j in w.places && k in w.places && n in w.places[j].quarantine && n in w.places[k].quarantine ==> j == k
  }

  /** A quarantine holds no file of another source's row. */
  ghost predicate QuarantinesScoped(w: World) {
    forall k, r, n :: k in w.places && r in w.shared.media && n in w.places[k].quarantine && Owns(r.id, n) ==>
      r.msgid in w.places[k].sources
  }

  /** Every file of a row was stored at some time. */
  ghost predicate Recorded(w: World) {
    forall r, n :: r in w.shared.media && Owns(r.id, n) && Anywhere(w, n) ==> n in w.stored
  }

  ghost predicate Inv(w: World) {
    Separate(w) && DistinctObjects(w.shared.media) && QuarantinesScoped(w) && LiveFilesSafe(w) && Recorded(w)
  }

  /** No file of a row whose message id was not read waits in the quarantine. */
  ghost predicate NoneExposed(s: Durable, reading: Reading) {
    forall r, n :: r in s.ledger.media && n in s.quarantine && Owns(r.id, n) ==> r.msgid in reading.ids
  }

  /** What a run may overlook in the message ids without harm: with a storage root anything but all of
      them, otherwise only what has no file in the quarantine. */
  ghost predicate Sheltered(s: Durable, rooted: bool, reading: Reading) {
    (rooted && reading.ids != []) || NoneExposed(s, reading)
  }

  lemma RemainingRows(s: Durable, t: Durable, dataset: string, ids: seq<string>)
    requires t.ledger == s.ledger || t.ledger == Purged(s.ledger, TrimSpace(dataset), ids)
    ensures forall r :: r in t.ledger.media ==> r in s.ledger.media
    ensures t.ledger != s.ledger ==> forall r :: r in t.ledger.media ==> r.msgid !in ids
    ensures t.ledger == Purged(s.ledger, TrimSpace(dataset), ids) ==> t.ledger.sources == []
  {
  }

  /** The row that remains owns its files alone, so a run that read other messages did not collect them. */
  lemma OnlyReadRowsAreCollected(ledger: Ledger, reading: Reading, r: MediaRow, n: string)
    requires ReadsFrom(ledger, reading) && DistinctObjects(ledger.media)
    requires r in ledger.media && Owns(r.id, n) && OwnedByAny(reading.media, n)
    ensures r.msgid in reading.ids && r.msgid in ledger.sources
  {
    var i :| 0 <= i < |reading.media| && Owns(reading.media[i], n);
    var id := reading.media[i];
    assert id in reading.media;
    var m :| m in reading.ids && MediaRow(id, m) in ledger.media;
    OwnerIsUnique(r.id, id, n);
    assert r == MediaRow(id, m);
  }

  /** Its files stay where some place holds them, unless no message id was read at all. */
  lemma LiveFilesStay(s: Durable, t: Durable, dataset: string, rooted: bool, reading: Reading, replyLost: bool, r: MediaRow, n: string)
    requires DistinctObjects(s.ledger.media) && CleanupStep(s, t, dataset, rooted, reading, replyLost)
    requires r in t.ledger.media && Owns(r.id, n) && n in Files(s)
    ensures r in s.ledger.media
    ensures n in Files(t) || (reading.ids == [] && n in s.quarantine)
    ensures n in Files(t) ==> Files(t)[n] == Files(s)[n]
  {
    hide Owns, ObjectName, Purged, OwnedByAny;
    RemainingRows(s, t, dataset, reading.ids);
    if OwnedByAny(reading.media, n) {
      OnlyReadRowsAreCollected(s.ledger, reading, r, n);
    }
  }

  lemma QuarantineStaysScoped(s: Durable, t: Durable, dataset: string, rooted: bool, reading: Reading, replyLost: bool, r: MediaRow, n: string)
    requires DistinctObjects(s.ledger.media) && CleanupStep(s, t, dataset, rooted, reading, replyLost)
    requires Sheltered(s, rooted, reading)
    requires r in t.ledger.media && n in t.quarantine && Owns(r.id, n)
    requires n in s.quarantine ==> r.msgid in s.ledger.sources
    ensures r.msgid in t.ledger.sources
  {
    hide Owns, ObjectName, Purged, OwnedByAny;
    RemainingRows(s, t, dataset, reading.ids);
    if OwnedByAny(reading.media, n) {
      OnlyReadRowsAreCollected(s.ledger, reading, r, n);
    }
  }

  lemma StepAddsNoFile(s: Durable, t: Durable, e: Event, n: string)
    requires e.CleanupRan? && CleanupStep(s, t, e.dataset, e.rooted, e.reading, e.replyLost)
    ensures n in t.archive || n in t.quarantine ==> n in s.archive || n in s.quarantine
    ensures n in t.archive ==> n !in t.quarantine
  {
    hide Purged, OwnedByAny, ReadsFrom;
    assert n in t.archive || n in t.quarantine ==> n in Files(t);
  }

  /** The files of the dataset's view are apart from those of every other place. */
  lemma CleanupKeepsSeparate(w: World, w': World, e: Event)
    requires Separate(w) && e.CleanupRan? && Next(w, e, w')
    ensures Separate(w')
  {
    hide CleanupStep;
    var k := e.place;
    forall n
      ensures n in w'.archive || n in w'.places[k].quarantine ==> n in w.archive || n in w.places[k].quarantine
      ensures n in w'.archive ==> n !in w'.places[k].quarantine
    {
      StepAddsNoFile(View(w, k), View(w', k), e, n);
    }
  }

  lemma InSomePlace(w: World, n: string, k: string)
    requires Separate(w) && k in w.places && n in Files(View(w, k))
    ensures InOnePlace(w, n, Files(View(w, k))[n])
  {
    assert n in w.archive || n in w.places[k].quarantine;
  }

  /** Where a file is: in the view of the dataset at `k`, or in the quarantine of another. */
  lemma WhereItIs(w: World, n: string, content: Content, k: string)
    requires InOnePlace(w, n, content) && k in w.places
    ensures
      || (n in Files(View(w, k)) && Files(View(w, k))[n] == content)
      || exists j :: j in w.places && j != k && n in w.places[j].quarantine && w.places[j].quarantine[n] == content
  {
  }

  lemma CleanupKeepsInv(w: World, w': World, e: Event)
    requires Inv(w) && e.CleanupRan? && Next(w, e, w')
    requires Sheltered(View(w, e.place), e.rooted, e.reading)
    ensures Inv(w')
  {
    hide Owns, ObjectName, Purged, OwnedByAny, CleanupStep, InOnePlace, Separate, Files, Anywhere;
    var k := e.place;
    var s, t := View(w, k), View(w', k);
    CleanupKeepsSeparate(w, w', e);
    assert forall r :: r in t.ledger.media ==> r in s.ledger.media by { StepKeepsRows(s, t, e); }
    forall r, n | r in w'.shared.media && n in w'.places[k].quarantine && Owns(r.id, n)
      ensures r.msgid in w'.places[k].sources
    {
      QuarantineStaysScoped(s, t, e.dataset, e.rooted, e.reading, e.replyLost, r, n);
    }
    forall r, n | r in w'.shared.media && n in w'.stored && Owns(r.id, n)
      ensures InOnePlace(w', n, w'.stored[n])
    {
      LiveFileStaysInOnePlace(w, w', e, r, n);
    }
    forall r, n | r in w'.shared.media && Owns(r.id, n) && Anywhere(w', n)
      ensures n in w'.stored
    {
      NothingAppears(w, w', e, n);
    }
  }

  lemma NothingAppears(w: World, w': World, e: Event, n: string)
    requires e.CleanupRan? && Next(w, e, w') && Anywhere(w', n)
    ensures Anywhere(w, n)
  {
    hide OwnedByAny, Purged, ReadsFrom;
    var s, t := View(w, e.place), View(w', e.place);
    assert n in t.archive || n in t.quarantine ==> n in Files(t);
    assert n in Files(s) ==> n in w.archive || n in w.places[e.place].quarantine;
  }

  lemma StepKeepsRows(s: Durable, t: Durable, e: Event)
    requires e.CleanupRan? && CleanupStep(s, t, e.dataset, e.rooted, e.reading, e.replyLost)
    ensures forall r :: r in t.ledger.media ==> r in s.ledger.media
  {
    hide OwnedByAny;
    RemainingRows(s, t, e.dataset, e.reading.ids);
  }

  lemma LiveFileStaysInOnePlace(w: World, w': World, e: Event, r: MediaRow, n: string)
    requires Separate(w) && DistinctObjects(w.shared.media) && e.CleanupRan? && Next(w, e, w')
    requires r in w'.shared.media && n in w.stored && Owns(r.id, n) && InOnePlace(w, n, w.stored[n])
    requires e.reading.ids != [] || n !in w.places[e.place].quarantine
    ensures InOnePlace(w', n, w'.stored[n])
  {
    hide Owns, ObjectName, OwnedByAny, CleanupStep, InOnePlace, Separate, Files;
    var k := e.place;
    var s, t := View(w, k), View(w', k);
    CleanupKeepsSeparate(w, w', e);
    WhereItIs(w, n, w.stored[n], k);
    if n in Files(s) && Files(s)[n] == w.stored[n] {
      LiveFilesStay(s, t, e.dataset, e.rooted, e.reading, e.replyLost, r, n);
      InSomePlace(w', n, k);
    } else {
      var j :| j in w.places && j != k && n in w.places[j].quarantine && w.places[j].quarantine[n] == w.stored[n];
      InThatPlace(w', n, j);
    }
  }

  lemma InThatPlace(w: World, n: string, j: string)
    requires Separate(w) && j in w.places && n in w.places[j].quarantine
    ensures InOnePlace(w, n, w.places[j].quarantine[n])
  {
  }

  lemma NewRowKeepsInv(w: World, row: MediaRow, w': World)
    requires Inv(w) && Next(w, MediaRowAdded(row), w')
    ensures Inv(w')
  {
    hide Owns, ObjectName;
    assert forall n :: Anywhere(w', n) ==> Anywhere(w, n);
    forall r, n | r in w'.shared.media && n in w'.stored && Owns(r.id, n)
      ensures InOnePlace(w', n, w'.stored[n])
    {
      assert r in w.shared.media && InOnePlace(w, n, w.stored[n]);
    }
  }

  lemma NewFileKeepsInv(w: World, name: string, content: Content, w': World)
    requires Inv(w) && Next(w, FileStored(name, content), w')
    ensures Inv(w')
  {
    hide Owns, ObjectName;
    assert forall k :: k in w.places ==> name !in w.places[k].quarantine;
    forall r, n | r in w'.shared.media && n in w'.stored && Owns(r.id, n)
      ensures InOnePlace(w', n, w'.stored[n])
    {
      if n != name {
        assert InOnePlace(w, n, w.stored[n]);
      }
    }
    assert forall n :: Anywhere(w', n) ==> n == name || Anywhere(w, n);
  }

  lemma PartPublishedKeepsInv(w: World, part: string, id: string, w': World)
    requires Inv(w) && Next(w, PartPublished(part, id), w')
    ensures Inv(w')
  {
    hide Owns, ObjectName, IsPartOf;
    assert forall k :: k in w.places ==> id !in w.places[k].quarantine;
    forall r, n | r in w'.shared.media && n in w'.stored && Owns(r.id, n)
      ensures InOnePlace(w', n, w'.stored[n])
    {
      if n != id {
        assert n in w.stored && n != part && InOnePlace(w, n, w.stored[n]);
      }
    }
    assert forall n :: Anywhere(w', n) ==> n == id || (n != part && Anywhere(w, n));
  }

  lemma PartRemovedKeepsInv(w: World, part: string, w': World)
    requires Inv(w) && Next(w, PartRemoved(part), w')
    ensures Inv(w')
  {
    hide Owns, ObjectName, IsPartOf, PartOfRow;
    forall r, n | r in w'.shared.media && n in w'.stored && Owns(r.id, n)
      ensures InOnePlace(w', n, w'.stored[n])
    {
      assert n in w.stored && n != part && InOnePlace(w, n, w.stored[n]);
    }
    assert forall n :: Anywhere(w', n) ==> n != part && Anywhere(w, n);
  }

  lemma RegistrationKeepsInv(w: World, k: string, msgid: string, w': World)
    requires Inv(w) && Next(w, MessageRegistered(k, msgid), w')
    ensures Inv(w')
  {
    hide Owns, ObjectName;
    assert forall j :: j in w'.places ==> w'.places[j].quarantine == w.places[j].quarantine;
    forall r, n | r in w'.shared.media && n in w'.stored && Owns(r.id, n)
      ensures InOnePlace(w', n, w'.stored[n])
    {
      assert InOnePlace(w, n, w.stored[n]);
    }
    assert forall n :: Anywhere(w', n) ==> Anywhere(w, n);
  }

  /** A cleanup that read all message ids, or overlooked some without harm. Nothing is asked of the
      media ids, nor of any other event. */
  ghost predicate NoHarm(w: World, e: Event) {
    e.CleanupRan? ==>
      && e.place in w.places
      && (e.reading.ids == w.places[e.place].sources || Sheltered(View(w, e.place), e.rooted, e.reading))
  }

  lemma StepKeepsInv(w: World, e: Event, w': World)
    requires Inv(w) && Next(w, e, w') && NoHarm(w, e)
    ensures Inv(w')
  {
    match e
    case CleanupRan(k, dataset, rooted, reading, replyLost) =>
      hide Owns, ObjectName, CleanupStep;
      assert Sheltered(View(w, k), rooted, reading);
      CleanupKeepsInv(w, w', e);
    case MessageRegistered(k, msgid) =>
      RegistrationKeepsInv(w, k, msgid, w');
    case MediaRowAdded(row) =>
      NewRowKeepsInv(w, row, w');
    case FileStored(name, content) =>
      NewFileKeepsInv(w, name, content, w');
    case PartPublished(part, id) =>
      PartPublishedKeepsInv(w, part, id, w');
    case PartRemoved(part) =>
      PartRemovedKeepsInv(w, part, w');
  }

  /** A history: the world before each event and after the last. */
  ghost predicate History(ws: seq<World>, es: seq<Event>) {
    |ws| == |es| + 1 && forall i :: 0 <= i < |es| ==> Next(ws[i], es[i], ws[i + 1])
  }

  lemma HistoryFromSecond(ws: seq<World>, es: seq<Event>)
    requires History(ws, es) && es != []
    ensures History(ws[1..], es[1..]) && Next(ws[0], es[0], ws[1])
  {
    hide Next;
    forall i | 0 <= i < |es[1..]|
      ensures Next(ws[1..][i], es[1..][i], ws[1..][i + 1])
    {
      assert Next(ws[i + 1], es[i + 1], ws[i + 2]);
    }
  }

  /** Main safety result: over every history of cleanups of any number of datasets and ingestion, with
      any failure or crash inside any cleanup and any media iteration cut short, no media file of a
      committed row is lost, changed or duplicated, so long as no cleanup overlooks message ids to harm. */
  lemma {:induction false} FilesAreSafeInEveryHistory(ws: seq<World>, es: seq<Event>)
    requires History(ws, es) && Inv(ws[0])
    requires forall i :: 0 <= i < |es| ==> NoHarm(ws[i], es[i])
    ensures forall i :: 0 <= i < |ws| ==> Inv(ws[i]) && LiveFilesSafe(ws[i])
    decreases |es|
  {
    hide Inv, Next, NoHarm;
    if es != [] {
      HistoryFromSecond(ws, es);
      StepKeepsInv(ws[0], es[0], ws[1]);
      forall i | 0 <= i < |es[1..]|
        ensures NoHarm(ws[1..][i], es[1..][i])
      {
        assert NoHarm(ws[i + 1], es[i + 1]);
      }
      FilesAreSafeInEveryHistory(ws[1..], es[1..]);
    }
    forall i | 0 <= i < |ws|
      ensures Inv(ws[i]) && LiveFilesSafe(ws[i])
    {
      if i > 0 {
        assert ws[1..][i - 1] == ws[i];
      }
      InvHasLiveFilesSafe(ws[i]);
    }
  }

  lemma InvHasLiveFilesSafe(w: World)
    requires Inv(w)
    ensures LiveFilesSafe(w)
  {
  }

  // ----- Where safety ends -----

  /** Any run that read at least one message id keeps the live files safe. */
  lemma NonemptyReadingKeepsLiveFiles(w: World, w': World, e: Event)
    requires Inv(w) && e.CleanupRan? && Next(w, e, w') && e.reading.ids != []
    ensures LiveFilesSafe(w')
  {
    hide Owns, ObjectName, OwnedByAny, CleanupStep, InOnePlace, Separate, Files, Anywhere;
    StepKeepsRows(View(w, e.place), View(w', e.place), e);
    forall r, n | r in w'.shared.media && n in w'.stored && Owns(r.id, n)
      ensures InOnePlace(w', n, w'.stored[n])
    {
      LiveFileStaysInOnePlace(w, w', e, r, n);
    }
  }

  /** A run that read no message id throws the quarantine away. If the ids were there and only the
      iteration ended early, that destroys live files: it keeps them safe exactly when the quarantine
      holds no file of any row. */
  lemma EmptyReadingKeepsLiveFilesExactlyWhen(w: World, w': World, e: Event)
    requires Inv(w) && e.CleanupRan? && Next(w, e, w') && e.rooted && e.reading.ids == []
    requires View(w', e.place) == CleanedState(View(w, e.place), e.dataset, true, e.reading)
    ensures LiveFilesSafe(w') <==> NoneExposed(View(w, e.place), e.reading)
  {
    hide Owns, ObjectName, OwnedByAny, CleanupStep;
    var k := e.place;
    KeepAllRows(w.shared.media);
    assert (set m | m in e.reading.ids) == {};
    assert w'.shared.media == w.shared.media && w'.archive == w.archive;
    if NoneExposed(View(w, k), e.reading) {
      CleanupKeepsInv(w, w', e);
    } else {
      var r, n :| r in w.shared.media && n in w.places[k].quarantine && Owns(r.id, n);
      assert Anywhere(w, n);
      assert n in w'.stored;
      assert !InOnePlace(w', n, w'.stored[n]);
    }
  }

  /** Without a storage root such a run leaves the harm to the next one: the invariant survives exactly
      when no file of an overlooked row waits in the quarantine. */
  lemma RootlessRunKeepsInvExactlyWhen(w: World, w': World, e: Event)
    requires Inv(w) && e.CleanupRan? && Next(w, e, w') && !e.rooted
    requires View(w', e.place) == CleanedState(View(w, e.place), e.dataset, false, e.reading)
    ensures Inv(w') <==> NoneExposed(View(w, e.place), e.reading)
  {
    hide Owns, ObjectName, OwnedByAny, CleanupStep, LiveFilesSafe, Recorded, Separate;
    var k := e.place;
    if NoneExposed(View(w, k), e.reading) {
      CleanupKeepsInv(w, w', e);
    } else {
      var r, n :| r in w.shared.media && n in w.places[k].quarantine && Owns(r.id, n) && r.msgid !in e.reading.ids;
      assert r in w'.shared.media && n in w'.places[k].quarantine;
      assert w'.places[k].sources == [];
    }
  }

  // ----- Recovery -----

  /** A leftover the next uninterrupted cleanup can still find. */
  ghost predicate Reachable(s: Durable, n: string) {
    if s.ledger.sources == [] then n in s.quarantine else Doomed(s.ledger, n)
  }

  /** A leftover that a run with this reading removes. */
  ghost predicate Collected(s: Durable, reading: Reading, n: string) {
    if reading.ids == [] then n in s.quarantine else OwnedByAny(reading.media, n)
  }

  /** Each file that ever belonged to the dataset (`mine`) is gone or can still be found. */
  ghost predicate Tracked(s: Durable, mine: set<string>) {
    forall n :: n in mine && n in Files(s) ==> Reachable(s, n)
  }

  ghost predicate Clean(s: Durable, mine: set<string>) {
    forall n :: n in mine ==> n !in s.archive && n !in s.quarantine
  }

  ghost predicate NoRowsFor(ledger: Ledger, msgid: string) {
    && msgid !in ledger.sources && msgid !in ledger.components
    && (forall r :: r in ledger.media ==> r.msgid != msgid)
    && forall t :: t in ledger.messages ==> msgid !in t
  }

  /** A run that read everything removes what can be found, and nothing else. */
  lemma CompleteReadingCollectsTheReachable(s: Durable, reading: Reading, n: string)
    requires ReadsFrom(s.ledger, reading) && Complete(s.ledger, reading)
    ensures Collected(s, reading, n) <==> Reachable(s, n)
  {
    hide Doomed, OwnedByAny;
    CollectedIdsOwnTheDoomed(s.ledger, reading);
  }

  /** What a successful cleanup leaves behind, exactly, whatever it read. */
  lemma SuccessIsCleanExactlyWhenCollected(s: Durable, mine: set<string>, dataset: string, rooted: bool, reading: Reading)
    requires Disjoint(s)
    ensures Clean(CleanedState(s, dataset, rooted, reading), mine) <==>
            forall n :: n in mine && (n in s.archive || n in s.quarantine) ==> rooted && Collected(s, reading, n)
  {
    hide OwnedByAny, Purged;
    var t := CleanedState(s, dataset, rooted, reading);
    assert forall n :: n in Files(s) <==> n in s.archive || n in s.quarantine;
    if Clean(t, mine) {
      forall n | n in mine && (n in s.archive || n in s.quarantine)
        ensures rooted && Collected(s, reading, n)
      {
        assert n !in t.archive && n !in t.quarantine;
      }
    }
  }

  /** What an uninterrupted, successful cleanup leaves behind, exactly. */
  lemma SuccessIsCleanExactlyWhenTracked(s: Durable, mine: set<string>, dataset: string, rooted: bool, reading: Reading)
    requires Disjoint(s) && ReadsFrom(s.ledger, reading) && Complete(s.ledger, reading)
    ensures Clean(CleanedState(s, dataset, rooted, reading), mine) <==>
            forall n :: n in mine && (n in s.archive || n in s.quarantine) ==> rooted && Reachable(s, n)
  {
    hide OwnedByAny, Purged, Clean, CleanedState, Collected, Reachable;
    SuccessIsCleanExactlyWhenCollected(s, mine, dataset, rooted, reading);
    forall n ensures Collected(s, reading, n) <==> Reachable(s, n) {
      CompleteReadingCollectsTheReachable(s, reading, n);
    }
  }

  /** A run that crashes or fails anywhere keeps every leftover findable, unless its commit took
      effect without saying so or after an iteration that ended early. */
  lemma InterruptedRunKeepsTracked(s: Durable, t: Durable, dataset: string, rooted: bool, reading: Reading, mine: set<string>)
    requires Disjoint(s) && Tracked(s, mine) && CleanupStep(s, t, dataset, rooted, reading, false)
    requires t.ledger == s.ledger || Complete(s.ledger, reading)
    ensures Tracked(t, mine)
  {
    hide Doomed, OwnedByAny;
    CollectedIdsOwnTheDoomed(s.ledger, reading);
    assert forall n :: n in Files(t) <==> n in t.archive || n in t.quarantine;
    assert forall n :: n in Files(s) <==> n in s.archive || n in s.quarantine;
  }

  /** The exact condition for a run with a storage root whose commit took effect: what is left of the
      dataset stays findable exactly when the run had read the media id of every file. */
  lemma CommittedRunKeepsTrackedExactlyWhenCollected(s: Durable, t: Durable, dataset: string, reading: Reading, mine: set<string>)
    requires Disjoint(s) && CleanupStep(s, t, dataset, true, reading, false)
    requires s.ledger.sources != [] && t.ledger != s.ledger
    ensures Tracked(t, mine) <==> forall n :: n in mine && n in Files(s) ==> Collected(s, reading, n)
  {
    hide OwnedByAny, ReadsFrom;
    RemainingRows(s, t, dataset, reading.ids);
    assert forall n :: n in Files(t) <==> n in t.archive || n in t.quarantine;
    assert forall n :: n in Files(s) <==> n in s.archive || n in s.quarantine;
    forall n | n in mine && n in Files(s) && Tracked(t, mine)
      ensures Collected(s, reading, n)
    {
      assert n in Files(t) ==> n in t.quarantine;
    }
    if forall n :: n in mine && n in Files(s) ==> Collected(s, reading, n) {
      forall n | n in mine && n in Files(t)
        ensures n in t.quarantine
      {
        assert Collected(s, reading, n);
      }
    }
  }

  /** An archive file that no row owns. */
  ghost predicate Orphaned(archive: map<string, Content>, media: seq<MediaRow>, n: string) {
    n in archive && forall r :: r in media ==> !Owns(r.id, n)
  }

  /** What becomes of the file of a row whose media id was overlooked, when the run succeeds: if its
      message id was read, the file is orphaned; if not, the row stays too, but no source names its message. */
  lemma OverlookedFileAfterSuccess(s: Durable, dataset: string, reading: Reading, r: MediaRow, n: string)
    requires ReadsFrom(s.ledger, reading) && DistinctObjects(s.ledger.media) && reading.ids != []
    requires r in s.ledger.media && Owns(r.id, n) && n in Files(s) && !OwnedByAny(reading.media, n)
    ensures
      var t := CleanedState(s, dataset, true, reading);
      && n in t.archive && t.ledger.sources == []
      && if r.msgid in reading.ids then Orphaned(t.archive, t.ledger.media, n) else r in t.ledger.media
  {
    hide Owns, ObjectName, OwnedByAny;
    var t := CleanedState(s, dataset, true, reading);
    if r.msgid in reading.ids {
      forall q | q in t.ledger.media
        ensures !Owns(q.id, n)
      {
        if Owns(q.id, n) {
          OwnerIsUnique(r.id, q.id, n);
          SameObject(s.ledger.media, r, q, n);
        }
      }
    }
  }

  lemma SameObject(media: seq<MediaRow>, r: MediaRow, q: MediaRow, n: string)
    requires DistinctObjects(media) && r in media && q in media && Owns(r.id, n) && Owns(q.id, n)
    ensures r == q
  {
    OwnerIsUnique(r.id, q.id, n);
  }

  lemma InterruptedRunStaysCleanable(s: Durable, t: Durable, tenantId: int, corpId: int, dataset: string, rooted: bool, reading: Reading,
                                     replyLost: bool)
    requires Cleanable(s, tenantId, corpId, dataset, true) && CleanupStep(s, t, dataset, rooted, reading, replyLost)
    ensures Cleanable(t, tenantId, corpId, dataset, true)
  {
    hide ScopeAllowed, SafeFileName, ObjectName, Purged, OwnedByAny;
    RemainingRows(s, t, dataset, reading.ids);
    CollectedIdsOwnTheDoomed(s.ledger, reading);
    forall n | n in t.quarantine
      ensures SafeFileName(n)
    {
      if n !in s.quarantine {
        var r :| r in s.ledger.media && r.msgid in s.ledger.sources && Owns(r.id, n);
        StagedNamesAreAccepted(r.id, n);
      }
    }
  }

  /** A message is still registered, or nothing of it is left. */
  ghost predicate AllOrNothing(ledger: Ledger, msgid: string) {
    msgid in ledger.sources || NoRowsFor(ledger, msgid)
  }

  lemma PurgedRowsAreGone(before: Ledger, after: Ledger, dataset: string, msgid: string)
    requires AllOrNothing(before, msgid)
    requires after == before || after == Purged(before, dataset, before.sources)
    ensures AllOrNothing(after, msgid)
    ensures after == Purged(before, dataset, before.sources) ==> NoRowsFor(after, msgid)
  {
    if after == Purged(before, dataset, before.sources) {
      forall x | x in after.messages
        ensures msgid !in x
      {
        var i :| 0 <= i < |after.messages| && after.messages[i] == x;
        assert before.messages[i] in before.messages;
      }
    }
  }

  /** What runs that failed somewhere pass on to the next one. */
  ghost predicate CanFinish(s: Durable, tenantId: int, corpId: int, dataset: string, mine: set<string>, msgids: set<string>) {
    && Disjoint(s) && Cleanable(s, tenantId, corpId, dataset, true) && Tracked(s, mine)
    && forall m :: m in msgids ==> AllOrNothing(s.ledger, m)
  }

  /** Nothing of the dataset is left. */
  ghost predicate Finished(s: Durable, mine: set<string>, msgids: set<string>) {
    && s.ledger.sources == [] && s.quarantine == map[] && Clean(s, mine)
    && forall m :: m in msgids ==> NoRowsFor(s.ledger, m)
  }

  /** The run did not commit, or it read everything and its commit said so. */
  ghost predicate InterruptedRun(s: Durable, t: Durable, dataset: string, rooted: bool, reading: Reading) {
    CleanupStep(s, t, dataset, rooted, reading, false) && (t.ledger == s.ledger || Complete(s.ledger, reading))
  }

  lemma InterruptedRunCanFinish(s: Durable, t: Durable, tenantId: int, corpId: int, dataset: string, rooted: bool, reading: Reading,
                                mine: set<string>, msgids: set<string>)
    requires CanFinish(s, tenantId, corpId, dataset, mine, msgids) && InterruptedRun(s, t, dataset, rooted, reading)
    ensures CanFinish(t, tenantId, corpId, dataset, mine, msgids)
  {
    hide Cleanable, Tracked, Purged, OwnedByAny, AllOrNothing, Files, ReadsFrom;
    InterruptedRunKeepsTracked(s, t, dataset, rooted, reading, mine);
    InterruptedRunStaysCleanable(s, t, tenantId, corpId, dataset, rooted, reading, false);
    forall m | m in msgids
      ensures AllOrNothing(t.ledger, m)
    {
      PurgedRowsAreGone(s.ledger, t.ledger, TrimSpace(dataset), m);
    }
  }

  lemma SuccessfulRunFinishes(s: Durable, tenantId: int, corpId: int, dataset: string, reading: Reading,
                              mine: set<string>, msgids: set<string>)
    requires CanFinish(s, tenantId, corpId, dataset, mine, msgids)
    requires ReadsFrom(s.ledger, reading) && Complete(s.ledger, reading)
    ensures Finished(CleanedState(s, dataset, true, reading), mine, msgids)
  {
    hide Cleanable, OwnedByAny, AllOrNothing, NoRowsFor, ReadsFrom, Reachable, Clean;
    SuccessIsCleanExactlyWhenTracked(s, mine, dataset, true, reading);
    assert forall n :: n in s.archive || n in s.quarantine ==> n in Files(s);
    forall m | m in msgids
      ensures NoRowsFor(CleanedState(s, dataset, true, reading).ledger, m)
    {
      PurgedRowsAreGone(s.ledger, CleanedState(s, dataset, true, reading).ledger, TrimSpace(dataset), m);
    }
  }

  /** A series of such runs, each with or without a storage root. */
  ghost predicate InterruptedRuns(states: seq<Durable>, readings: seq<Reading>, roots: seq<bool>, dataset: string) {
    && |states| == |readings| + 1 == |roots| + 1
    && forall i :: 0 <= i < |readings| ==> InterruptedRun(states[i], states[i + 1], dataset, roots[i], readings[i])
  }

  /** After any such series an uninterrupted run that reads everything is accepted and finishes the job. */
  lemma {:induction false} OneUninterruptedRunFinishesTheJob(
      states: seq<Durable>, readings: seq<Reading>, roots: seq<bool>, tenantId: int, corpId: int, dataset: string,
      mine: set<string>, msgids: set<string>, reading: Reading)
    requires InterruptedRuns(states, readings, roots, dataset)
    requires CanFinish(states[0], tenantId, corpId, dataset, mine, msgids)
    requires var last := states[|states| - 1].ledger; ReadsFrom(last, reading) && Complete(last, reading)
    ensures
      var last := states[|states| - 1];
      && Admissible(last, tenantId, corpId, dataset, true, reading)
      && Finished(CleanedState(last, dataset, true, reading), mine, msgids)
    decreases |readings|
  {
    hide CanFinish, Finished, InterruptedRun, ReadsFrom, Complete, Admissible, CleanedState;
    if readings == [] {
      CanFinishMeans(states[0], tenantId, corpId, dataset, mine, msgids, reading);
      SuccessfulRunFinishes(states[0], tenantId, corpId, dataset, reading, mine, msgids);
    } else {
      InterruptedRunCanFinish(states[0], states[1], tenantId, corpId, dataset, roots[0], readings[0], mine, msgids);
      forall i | 0 <= i < |readings[1..]|
        ensures InterruptedRun(states[1..][i], states[1..][i + 1], dataset, roots[1..][i], readings[1..][i])
      {
        assert InterruptedRun(states[i + 1], states[i + 2], dataset, roots[i + 1], readings[i + 1]);
      }
      assert states[1..][|states[1..]| - 1] == states[|states| - 1];
      OneUninterruptedRunFinishesTheJob(states[1..], readings[1..], roots[1..], tenantId, corpId, dataset, mine, msgids, reading);
    }
  }

  /** Main recovery result: any number of runs, each in a new process and each failing or crashing
      anywhere, some perhaps without a storage root, then one more. If no iteration ends early, no earlier run lost the reply of its commit
      and nothing fails in the last one, it is not refused, every row of every message is deleted and no
      file is left. `lost` says that some earlier commit took effect and reported failure. */
  method FinishAfterInterruptions(host: Host, tenantId: int, corpId: int, dataset: string, roots: seq<bool>,
                                  ghost mine: set<string>, ghost msgids: set<string>)
    returns (reply: Reply, ghost lost: bool, ghost lastStart: nat)
    requires host.Valid() && CanFinish(host.State(), tenantId, corpId, dataset, mine, msgids)
    modifies host
    ensures host.Valid() && lastStart >= old(host.clock)
    ensures lost ==> exists n :: old(host.clock) <= n < lastStart && host.fate(n) == ReplyLost
    ensures host.Unbroken(old(host.clock)) && !lost && (forall n :: n >= lastStart ==> host.fate(n) == Done) ==>
      reply.Cleaned? && Finished(host.State(), mine, msgids)
  {
    hide CanFinish, Finished, CleanupStep, CleanedState, Complete, Admissible, LostReply, CountsDeletedRows, CountsRemovedFiles;
    lost := false;
    var i := 0;
    while i < |roots|
      invariant host.Valid() && host.clock >= old(host.clock)
      invariant lost ==> exists n :: old(host.clock) <= n < host.clock && host.fate(n) == ReplyLost
      invariant host.Unbroken(old(host.clock)) && !lost ==> CanFinish(host.State(), tenantId, corpId, dataset, mine, msgids)
    {
      ghost var clean := lost;
      lost := InterruptedAttempt(host, tenantId, corpId, dataset, roots[i], mine, msgids);
      lost := lost || clean;
      i := i + 1;
    }
    host.Restart();
    lastStart := host.clock;
    ghost var before := host.State();
    ghost var reading, staged, committedAt;
    reply, reading, staged, committedAt := host.Cleanup(tenantId, corpId, dataset, true);
    if host.Unbroken(old(host.clock)) && !lost && forall n :: n >= lastStart ==> host.fate(n) == Done {
      StepReadsFrom(before, host.State(), dataset, reading, reply == Refused(CommitFailed));
      CanFinishMeans(before, tenantId, corpId, dataset, mine, msgids, reading);
      SuccessfulRunFinishes(before, tenantId, corpId, dataset, reading, mine, msgids);
    }
  }

  lemma StepReadsFrom(s: Durable, t: Durable, dataset: string, reading: Reading, replyLost: bool)
    requires CleanupStep(s, t, dataset, true, reading, replyLost)
    ensures ReadsFrom(s.ledger, reading)
  {
  }

  lemma CanFinishMeans(s: Durable, tenantId: int, corpId: int, dataset: string, mine: set<string>, msgids: set<string>, reading: Reading)
    requires CanFinish(s, tenantId, corpId, dataset, mine, msgids) && ReadsFrom(s.ledger, reading)
    ensures Admissible(s, tenantId, corpId, dataset, true, reading)
  {
    hide Cleanable, Admissible, Tracked, AllOrNothing, ReadsFrom;
    CleanableMeans(s, tenantId, corpId, dataset, true, reading);
  }

  /** One of the earlier runs. */
  method InterruptedAttempt(host: Host, tenantId: int, corpId: int, dataset: string, rooted: bool, ghost mine: set<string>, ghost msgids: set<string>)
    returns (ghost lost: bool)
    requires host.Valid()
    modifies host
    ensures host.Valid() && host.clock >= old(host.clock)
    ensures lost ==> exists n :: old(host.clock) <= n < host.clock && host.fate(n) == ReplyLost
    ensures host.Unbroken(old(host.clock)) && !lost && old(CanFinish(host.State(), tenantId, corpId, dataset, mine, msgids)) ==>
      CanFinish(host.State(), tenantId, corpId, dataset, mine, msgids)
  {
    hide CanFinish, CleanupStep, CleanedState, Complete, Admissible, LostReply, CountsDeletedRows, CountsRemovedFiles;
    ghost var before := host.State();
    host.Restart();
    ghost var reading, staged, committedAt;
    var reply;
    reply, reading, staged, committedAt := host.Cleanup(tenantId, corpId, dataset, rooted);
    lost := reply == Refused(CommitFailed) && host.ledger != before.ledger;
    if CanFinish(before, tenantId, corpId, dataset, mine, msgids) && !lost && host.Unbroken(old(host.clock)) {
      if reply == Refused(CommitFailed) {
        StepWithoutEffect(before, host.State(), dataset, rooted, reading);
      }
      InterruptedRunCanFinish(before, host.State(), tenantId, corpId, dataset, rooted, reading, mine, msgids);
    }
  }

  lemma StepWithoutEffect(s: Durable, t: Durable, dataset: string, rooted: bool, reading: Reading)
    requires CleanupStep(s, t, dataset, rooted, reading, true) && t.ledger == s.ledger
    ensures CleanupStep(s, t, dataset, rooted, reading, false)
  {
  }

  // ----- Where recovery ends -----

  /** The commit took effect, its reply was lost, and the staged files were put back as far as the
      renames worked: leftovers stay findable exactly when every file had been collected and the
      rename of none of them took effect. */
  lemma LostReplyKeepsTrackedExactlyWhenNothingWentBack(
      s: Durable, t: Durable, reading: Reading, files: seq<string>, fate: nat -> Fate, at: nat, mine: set<string>)
    requires LostReply(s, t, reading, files, fate, at) && t.ledger.sources == []
    ensures Tracked(t, mine) <==>
      && (forall n :: n in mine && n in Files(s) ==> OwnedByAny(reading.media, n))
      && forall k :: 0 <= k < |files| && files[k] in mine ==> !GoesBack(fate, at + 1, |files|, k)
  {
    hide OwnedByAny, GoesBack, Distinct;
    assert forall n :: n in Files(t) <==> n in t.archive || n in t.quarantine;
    if Tracked(t, mine) {
      forall k | 0 <= k < |files| && files[k] in mine
        ensures !GoesBack(fate, at + 1, |files|, k)
      {
        assert files[k] in files;
      }
    }
    forall n | n in mine && n in files && n !in t.quarantine
      ensures exists k :: 0 <= k < |files| && files[k] in mine && GoesBack(fate, at + 1, |files|, k)
    {
      var k :| 0 <= k < |files| && files[k] == n;
    }
  }

  /** With nothing failing after the commit every file goes back, so leftovers stay findable exactly
      when the dataset had no file before the run. */
  lemma LostReplyOtherwiseSmooth(
      s: Durable, t: Durable, reading: Reading, files: seq<string>, fate: nat -> Fate, at: nat, mine: set<string>)
    requires LostReply(s, t, reading, files, fate, at) && t.ledger.sources == []
    requires Tracked(s, mine) && s.ledger.sources != [] && ReadsFrom(s.ledger, reading) && Complete(s.ledger, reading)
    requires forall n :: n > at ==> fate(n) == Done
    ensures Tracked(t, mine) <==> forall n :: n in mine ==> n !in Files(s)
  {
    hide OwnedByAny, Distinct, Doomed;
    LostReplyKeepsTrackedExactlyWhenNothingWentBack(s, t, reading, files, fate, at, mine);
    CollectedIdsOwnTheDoomed(s.ledger, reading);
    forall k | 0 <= k < |files|
      ensures files[k] in files && GoesBack(fate, at + 1, |files|, k)
    {
      assert fate(at + 1 + 2 * (|files| - 1 - k) + 1) == Done;
    }
    forall n | n in mine && n in Files(s)
      ensures exists k :: 0 <= k < |files| && files[k] in mine
    {
      assert Reachable(s, n) && n in files;
    }
  }

  /** The same of a run: its commit reply is lost and every later step works. */
  method CleanUpWithLostReply(host: Host, tenantId: int, corpId: int, dataset: string, ghost mine: set<string>)
    returns (reply: Reply, ghost committedAt: nat)
    requires host.Valid() && Tracked(host.State(), mine) && host.ledger.sources != [] && host.Unbroken(host.clock)
    modifies host
    ensures host.Valid()
    ensures reply == Refused(CommitFailed) && host.ledger != old(host.ledger) && (forall n :: n > committedAt ==> host.fate(n) == Done) ==>
      (Tracked(host.State(), mine) <==> forall n :: n in mine ==> n !in Files(old(host.State())))
  {
    hide Tracked, CleanedState, Complete, Admissible, LostReply, CountsDeletedRows, CountsRemovedFiles, Files, OwnedByAny;
    ghost var before := host.State();
    ghost var reading, staged;
    reply, reading, staged, committedAt := host.Cleanup(tenantId, corpId, dataset, true);
    if reply == Refused(CommitFailed) && host.ledger != before.ledger && forall n :: n > committedAt ==> host.fate(n) == Done {
      CompleteReadsTheIds(before.ledger, reading);
      RemainingRows(before, host.State(), dataset, reading.ids);
      LostReplyOtherwiseSmooth(before, host.State(), reading, staged, host.fate, committedAt, mine);
    }
  }

  lemma CompleteReadsTheIds(ledger: Ledger, reading: Reading)
    requires Complete(ledger, reading)
    ensures reading.ids == ledger.sources
  {
  }

  /** Such a file is never removed again: an archive file that no row owns outlives every history. */
  lemma {:induction false} OrphansStayForever(ws: seq<World>, es: seq<Event>, n: string)
    requires History(ws, es) && Orphaned(ws[0].archive, ws[0].shared.media, n)
    ensures forall i :: 0 <= i < |ws| ==> Orphaned(ws[i].archive, ws[i].shared.media, n)
    decreases |es|
  {
    hide Next, Orphaned;
    if es != [] {
      HistoryFromSecond(ws, es);
      OrphanStep(ws[0], es[0], ws[1], n);
      OrphansStayForever(ws[1..], es[1..], n);
    }
    forall i | 0 <= i < |ws|
      ensures Orphaned(ws[i].archive, ws[i].shared.media, n)
    {
      if i > 0 {
        assert ws[1..][i - 1] == ws[i];
      }
    }
  }

  lemma OrphanStep(w: World, e: Event, w': World, n: string)
    requires Next(w, e, w') && Orphaned(w.archive, w.shared.media, n)
    ensures Orphaned(w'.archive, w'.shared.media, n)
  {
    hide ObjectName, IsPartOf, Purged, OwnedByAny;
    if e.CleanupRan? {
      var s, t := View(w, e.place), View(w', e.place);
      RemainingRows(s, t, e.dataset, e.reading.ids);
      CollectedIdsOwnTheDoomed(s.ledger, e.reading);
      assert !OwnedByAny(e.reading.media, n);
      assert t.archive == w'.archive && t.ledger.media == w'.shared.media;
    } else if e.MediaRowAdded? {
      assert Anywhere(w, n);
    }
  }

  /** Registering a message while dead files wait in the quarantine: the next run will put them back
      instead of removing them. Leftovers stay findable exactly when there were none to find. */
  lemma ReseedKeepsTrackedExactlyWhenNothingWasLeft(w: World, w': World, k: string, msgid: string, mine: set<string>)
    requires Inv(w) && Next(w, MessageRegistered(k, msgid), w') && w.places[k].sources == []
    requires Tracked(View(w, k), mine)
    ensures Tracked(View(w', k), mine) <==> forall n :: n in mine ==> n !in Files(View(w, k))
  {
    hide Owns, ObjectName, InOnePlace;
    assert Files(View(w', k)) == Files(View(w, k));
    forall n | n in mine && n in Files(View(w, k))
      ensures !Reachable(View(w', k), n)
    {
      assert Reachable(View(w, k), n);
      assert n in w.places[k].quarantine;
      assert w'.places[k].sources == [msgid];
    }
  }
}
