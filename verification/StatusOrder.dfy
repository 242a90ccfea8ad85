/** The verdict of the status checker and the order in which it visits declarations. */
module StatusOrder {
  import opened StatusChecker
  import opened Text

  // ----- Order-free parts -----

  predicate IsKind(d: Declaration) {
    Supported(d) && d.name == "Kind"
  }

  predicate IsStatus(d: Declaration) {
    Supported(d) && d.name == "Status"
  }

  predicate IsFetchFor(d: Declaration, key: string) {
    Supported(d) && IsBridgeFetch(d) && KeyOf(d) == key
  }

  /** Two methods of one receiver that may not both be there. */
  predicate Clash(d: Declaration, e: Declaration) {
    KeyOf(d) == KeyOf(e) && ((IsKind(d) && IsKind(e)) || (IsStatus(d) && IsStatus(e)))
  }

  predicate ReceiverIsFine(d: Declaration) {
    !Supported(d) ==> d.name != "Kind" && d.name != "Status"
  }

  /** Every receiver is supported and has one Kind and one Status at most. */
  ghost predicate SingleMethods(ds: multiset<Declaration>) {
    && (forall d :: d in ds ==> ReceiverIsFine(d))
    && (forall d, e :: d in ds && e in ds && Clash(d, e) ==> d == e && ds[d] == 1)
  }

  /** No Fetch of a bridge source comes before its Kind. */
  ghost predicate KindsComeFirst(ds: seq<Declaration>) {
    forall i, j :: 0 <= i < j < |ds| && IsKind(ds[j]) ==> !IsFetchFor(ds[i], KeyOf(ds[j]))
  }

  /** Whether the last Fetch of the bridge source calls fetchMessages. */
  function LastFetch(ds: seq<Declaration>, key: string): bool {
    if ds == [] then false
    else if IsFetchFor(ds[|ds| - 1], key) then ds[|ds| - 1].fetches
    else LastFetch(ds[..|ds| - 1], key)
  }

  lemma SingleMethodsStep(ds: multiset<Declaration>, d: Declaration)
    ensures SingleMethods(ds + multiset{d}) <==>
      SingleMethods(ds) && ReceiverIsFine(d) && forall e :: e in ds ==> !Clash(d, e)
  {
    hide KeyOf, Supported, IsBridgeFetch;
    var all := ds + multiset{d};
    assert forall e :: e in all <==> e in ds || e == d;
    assert forall e :: all[e] == ds[e] + (if e == d then 1 else 0);
    if SingleMethods(all) {
      forall e | e in ds
        ensures !Clash(d, e)
      {
        assert Clash(d, e) ==> d == e && all[d] == 1;
      }
    }
  }

  lemma KindsComeFirstStep(ds: seq<Declaration>, d: Declaration)
    ensures KindsComeFirst(ds + [d]) <==>
      KindsComeFirst(ds) && (IsKind(d) ==> forall e :: e in ds ==> !IsFetchFor(e, KeyOf(d)))
  {
    hide KeyOf, IsKind, IsFetchFor;
    var all := ds + [d];
    if KindsComeFirst(all) && IsKind(d) {
      forall e | e in ds
        ensures !IsFetchFor(e, KeyOf(d))
      {
        var i :| 0 <= i < |ds| && ds[i] == e;
        assert all[i] == e && all[|ds|] == d;
      }
    }
    if KindsComeFirst(all) {
      assert forall i :: 0 <= i < |ds| ==> all[i] == ds[i];
    }
  }

  /** A list is orderly exactly when its methods are single, whatever their order, and Kind precedes Fetch. */
  lemma {:induction false} OrderlyMeans(ds: seq<Declaration>)
    ensures Orderly(ds) <==> SingleMethods(multiset(ds)) && KindsComeFirst(ds)
  {
    hide KeyOf, Orderly, SingleMethods, KindsComeFirst;
    if ds == [] {
      NothingToOrder();
    } else {
      var before, d := ds[..|ds| - 1], ds[|ds| - 1];
      assert ds == before + [d];
      OrderlyMeans(before);
      OrderlyStep(before, d);
      SingleMethodsStep(multiset(before), d);
      KindsComeFirstStep(before, d);
      FitsAfterMeans(before, d);
    }
  }

  lemma NothingToOrder()
    ensures Orderly([]) && SingleMethods(multiset([])) && KindsComeFirst([])
  {
  }

  lemma FitsAfterMeans(ds: seq<Declaration>, d: Declaration)
    ensures FitsAfter(ds, d) <==>
      && ReceiverIsFine(d) && (forall e :: e in multiset(ds) ==> !Clash(d, e))
      && (IsKind(d) ==> forall e :: e in ds ==> !IsFetchFor(e, KeyOf(d)))
  {
    hide KeyOf, IsBridgeFetch;
    assert forall e :: e in ds <==> e in multiset(ds);
  }

  // ----- The verdict -----

  predicate IsBridgeReceiver(m: Declaration) {
    ReceiverTypeName(m.receiver) == "BridgeSource" && IsArchiveDirectory(m.directory)
  }

  ghost predicate HasKindNaming(ds: seq<Declaration>, key: string, source: string) {
    exists k :: k in ds && IsKind(k) && KeyOf(k) == key && SourceOfBody(k.body) == source
  }

  /** The Status has a Kind of its own, and is accepted under what that Kind says. */
  ghost predicate Judged(ds: seq<Declaration>, m: Declaration, fetches: bool) {
    || HasKindNaming(ds, KeyOf(m), "simulated")
    || (HasKindNaming(ds, KeyOf(m), "external") && m.body.Some? && BodyAccepted(m.body.value, IsBridgeReceiver(m) && fetches))
  }

  ghost predicate EveryStatusJudged(ds: seq<Declaration>) {
    forall m :: m in ds && IsStatus(m) ==> Judged(ds, m, LastFetch(ds, KeyOf(m)))
  }

  ghost predicate StatusWhereKind(ds: seq<Declaration>) {
    (exists d :: d in ds && Supported(d) && OpensKind(d)) ==> exists m :: m in ds && IsStatus(m)
  }

  function Flag(c: Collection, key: string): bool {
    key in c.kinds && c.kinds[key].bridgeFetcher
  }

  lemma {:induction false} FlagIsLastFetch(ds: seq<Declaration>, key: string)
    ensures Flag(Collected(ds), key) == LastFetch(ds, key)
  {
    hide KeyOf, SourceOfBody;
    if ds != [] {
      FlagIsLastFetch(ds[..|ds| - 1], key);
    }
  }

  lemma {:induction false} MethodsAreStatuses(ds: seq<Declaration>)
    ensures forall m :: m in Collected(ds).methods ==> m in ds && IsStatus(m)
  {
    hide KeyOf, SourceOfBody;
    if ds != [] {
      MethodsAreStatuses(ds[..|ds| - 1]);
      assert ds == ds[..|ds| - 1] + [ds[|ds| - 1]];
    }
  }

  lemma AcceptedMeansJudged(ds: seq<Declaration>, m: Declaration)
    requires Orderly(ds)
    ensures StatusAccepted(m, Collected(ds).kinds) <==> Judged(ds, m, LastFetch(ds, KeyOf(m)))
  {
    hide KeyOf, Orderly, Collected, SourceOfBody, BodyAccepted, LastFetch, OpensKind;
    var key, kinds := KeyOf(m), Collected(ds).kinds;
    FlagIsLastFetch(ds, key);
    forall k | k in ds && IsKind(k) && KeyOf(k) == key
      ensures key in kinds && kinds[key].source == SourceOfBody(k.body)
    {
      CollectedContents(ds, k);
    }
    if key in kinds && kinds[key].source != "" {
      NamedSourceComesFromKind(ds, key);
    }
  }

  lemma OpenedMeansEntries(ds: seq<Declaration>)
    ensures Collected(ds).kinds != map[] <==> exists d :: d in ds && Supported(d) && OpensKind(d)
  {
    hide KeyOf, OpensKind, Collected;
    var kinds := Collected(ds).kinds;
    if kinds != map[] {
      var key :| key in kinds;
      CollectedKeys(ds, key);
    }
    if exists d :: d in ds && Supported(d) && OpensKind(d) {
      var d :| d in ds && Supported(d) && OpensKind(d);
      CollectedKeys(ds, KeyOf(d));
    }
  }

  /** The verdict in terms of the declarations: apart from Kind and Fetch, only the last Fetch depends on order. */
  lemma VerdictMeans(ds: seq<Declaration>)
    ensures Report(ds) == [] <==> Orderly(ds) && EveryStatusJudged(ds) && StatusWhereKind(ds)
  {
    hide KeyOf, Report, Orderly, Collected, Judged, StatusAccepted, LastFetch, OpensKind;
    ReportIsEmptyExactlyWhenAllIsAccepted(ds);
    if Orderly(ds) {
      var methods := Collected(ds).methods;
      MethodsAreStatuses(ds);
      OpenedMeansEntries(ds);
      forall m | m in ds && IsStatus(m)
        ensures m in methods
      {
        CollectedContents(ds, m);
      }
      forall m | m in methods
        ensures StatusAccepted(m, Collected(ds).kinds) <==> Judged(ds, m, LastFetch(ds, KeyOf(m)))
      {
        AcceptedMeansJudged(ds, m);
      }
      assert methods == [] || methods[0] in methods;
    }
  }

  // ----- Any reordering -----

  lemma SameMembers(ds: seq<Declaration>, es: seq<Declaration>)
    requires multiset(ds) == multiset(es)
    ensures forall d :: d in ds <==> d in es
  {
    assert forall d :: d in ds <==> d in multiset(ds);
    assert forall d :: d in es <==> d in multiset(es);
  }

  lemma JudgedBySameMembers(ds: seq<Declaration>, es: seq<Declaration>, m: Declaration, fetches: bool)
    requires forall d :: d in ds <==> d in es
    ensures Judged(ds, m, fetches) <==> Judged(es, m, fetches)
  {
    hide KeyOf, IsKind, SourceOfBody, BodyAccepted;
  }

  /** The Status would be accepted under this reading of the bridge's Fetch. */
  ghost predicate AcceptedAs(m: Declaration, fetches: bool) {
    m.body.Some? && BodyAccepted(m.body.value, fetches)
  }

  /** Where another order makes another Fetch the last one, each external bridge is accepted under that one too. */
  ghost predicate FlagsDoNotMatter(ds: seq<Declaration>, es: seq<Declaration>) {
    forall m :: m in ds && IsStatus(m) && IsBridgeReceiver(m) && !HasKindNaming(ds, KeyOf(m), "simulated") ==>
      LastFetch(es, KeyOf(m)) == LastFetch(ds, KeyOf(m)) || AcceptedAs(m, LastFetch(es, KeyOf(m)))
  }

  /** A source that passes also passes in another order exactly when no Fetch comes before its Kind there, and
      where the last Fetch is another one, the Status is accepted under that one as well. */
  lemma ReorderedSourcePassesExactlyWhen(ds: seq<Declaration>, es: seq<Declaration>)
    requires multiset(ds) == multiset(es) && Report(ds) == []
    ensures Report(es) == [] <==> KindsComeFirst(es) && FlagsDoNotMatter(ds, es)
  {
    hide KeyOf, Report, Orderly, SingleMethods, KindsComeFirst, Judged, LastFetch, StatusWhereKind;
    SameMembers(ds, es);
    VerdictMeans(ds);
    VerdictMeans(es);
    OrderlyMeans(ds);
    OrderlyMeans(es);
    SameStatusWhereKind(ds, es);
    forall m | m in ds && IsStatus(m)
      ensures Judged(es, m, LastFetch(es, KeyOf(m))) <==>
        (IsBridgeReceiver(m) && !HasKindNaming(ds, KeyOf(m), "simulated") && LastFetch(es, KeyOf(m)) != LastFetch(ds, KeyOf(m)) ==>
           AcceptedAs(m, LastFetch(es, KeyOf(m))))
    {
      assert Judged(ds, m, LastFetch(ds, KeyOf(m)));
      JudgedBySameMembers(ds, es, m, LastFetch(es, KeyOf(m)));
      JudgedUnderAnotherFetch(ds, m, LastFetch(ds, KeyOf(m)), LastFetch(es, KeyOf(m)));
    }
  }

  lemma SameStatusWhereKind(ds: seq<Declaration>, es: seq<Declaration>)
    requires forall d :: d in ds <==> d in es
    ensures StatusWhereKind(ds) <==> StatusWhereKind(es)
  {
    hide Supported, OpensKind, IsStatus;
  }

  lemma JudgedUnderAnotherFetch(ds: seq<Declaration>, m: Declaration, before: bool, after: bool)
    requires Judged(ds, m, before)
    ensures Judged(ds, m, after) <==>
      (IsBridgeReceiver(m) && !HasKindNaming(ds, KeyOf(m), "simulated") && after != before ==> AcceptedAs(m, after))
  {
    hide KeyOf, HasKindNaming, BodyAccepted;
  }

  /** So two orders give the same verdict when in both Kind precedes Fetch and the last Fetch says the same. */
  lemma ReorderingKeepsTheVerdict(ds: seq<Declaration>, es: seq<Declaration>)
    requires multiset(ds) == multiset(es) && KindsComeFirst(ds) && KindsComeFirst(es)
    requires forall m :: m in ds && IsStatus(m) && IsBridgeReceiver(m) ==> LastFetch(es, KeyOf(m)) == LastFetch(ds, KeyOf(m))
    ensures Report(ds) == [] <==> Report(es) == []
  {
    hide Report, KindsComeFirst, LastFetch;
    SameMembers(ds, es);
    if Report(ds) == [] {
      ReorderedSourcePassesExactlyWhen(ds, es);
    }
    if Report(es) == [] {
      ReorderedSourcePassesExactlyWhen(es, ds);
    }
  }

  // ----- Neighbours -----

  predicate KindThenFetch(a: Declaration, b: Declaration) {
    IsKind(a) && IsFetchFor(b, KeyOf(a))
  }

  predicate DifferingFetches(a: Declaration, b: Declaration) {
    IsFetchFor(a, KeyOf(a)) && IsFetchFor(b, KeyOf(a)) && a.fetches != b.fetches
  }

  ghost predicate HasFetch(ds: seq<Declaration>, key: string) {
    exists d :: d in ds && IsFetchFor(d, key)
  }

  lemma {:induction false} LastFetchOfAppend(ds: seq<Declaration>, after: seq<Declaration>, key: string)
    ensures LastFetch(ds + after, key) == if HasFetch(after, key) then LastFetch(after, key) else LastFetch(ds, key)
  {
    hide KeyOf, IsFetchFor;
    if after == [] {
      assert ds + after == ds;
    } else {
      var front, last := after[..|after| - 1], after[|after| - 1];
      assert (ds + after)[..|ds + after| - 1] == ds + front && after == front + [last];
      LastFetchOfAppend(ds, front, key);
      assert last in after;
      assert forall d :: d in front ==> d in after;
      assert forall d :: d in after ==> d in front || d == last;
    }
  }

  ghost predicate NoFetchBefore(xs: seq<Declaration>, ys: seq<Declaration>) {
    forall x, y :: x in xs && y in ys && IsKind(y) ==> !IsFetchFor(x, KeyOf(y))
  }

  lemma KindsComeFirstOfAppend(xs: seq<Declaration>, ys: seq<Declaration>)
    ensures KindsComeFirst(xs + ys) <==> KindsComeFirst(xs) && KindsComeFirst(ys) && NoFetchBefore(xs, ys)
  {
    hide KeyOf, IsKind, IsFetchFor;
    var all := xs + ys;
    assert forall i :: 0 <= i < |xs| ==> all[i] == xs[i];
    assert forall i :: |xs| <= i < |all| ==> all[i] == ys[i - |xs|];
    if KindsComeFirst(all) {
      forall x, y | x in xs && y in ys && IsKind(y)
        ensures !IsFetchFor(x, KeyOf(y))
      {
        var i :| 0 <= i < |xs| && xs[i] == x;
        var j :| 0 <= j < |ys| && ys[j] == y;
        assert all[i] == x && all[|xs| + j] == y;
      }
      forall i, j | 0 <= i < j < |ys| && IsKind(ys[j])
        ensures !IsFetchFor(ys[i], KeyOf(ys[j]))
      {
        assert all[|xs| + i] == ys[i] && all[|xs| + j] == ys[j];
      }
    }
    if KindsComeFirst(xs) && KindsComeFirst(ys) && NoFetchBefore(xs, ys) {
      forall i, j | 0 <= i < j < |all| && IsKind(all[j])
        ensures !IsFetchFor(all[i], KeyOf(all[j]))
      {
        assert i < |xs| ==> all[i] in xs;
        assert j >= |xs| ==> all[j] in ys;
      }
    }
  }

  lemma OneComesFirst(d: Declaration)
    ensures KindsComeFirst([d])
  {
  }

  lemma SwappedKindsComeFirst(before: seq<Declaration>, a: Declaration, b: Declaration, after: seq<Declaration>)
    requires KindsComeFirst(before + ([a] + [b]) + after)
    ensures KindsComeFirst(before + ([b] + [a]) + after) <==> !KindThenFetch(a, b)
  {
    hide KeyOf, IsKind, IsFetchFor, KindsComeFirst, NoFetchBefore;
    OneComesFirst(a);
    OneComesFirst(b);
    NoFetchBeforePair(b, a);
    assert forall d :: d in [a] + [b] <==> d in [b] + [a];
    assert forall d :: d in before + ([a] + [b]) <==> d in before + ([b] + [a]);
    NoFetchBeforeSameMembers(before, before, [a] + [b], [b] + [a]);
    NoFetchBeforeSameMembers(before + ([a] + [b]), before + ([b] + [a]), after, after);
    KindsComeFirstOfAppend(before + ([a] + [b]), after);
    KindsComeFirstOfAppend(before, [a] + [b]);
    KindsComeFirstOfAppend([a], [b]);
    KindsComeFirstOfAppend(before + ([b] + [a]), after);
    KindsComeFirstOfAppend(before, [b] + [a]);
    KindsComeFirstOfAppend([b], [a]);
  }

  lemma NoFetchBeforePair(x: Declaration, y: Declaration)
    ensures NoFetchBefore([x], [y]) <==> !KindThenFetch(y, x)
  {
    hide KeyOf, IsKind, IsFetchFor;
    assert x in [x] && y in [y];
  }

  lemma NoFetchBeforeSameMembers(xs: seq<Declaration>, xs': seq<Declaration>, ys: seq<Declaration>, ys': seq<Declaration>)
    requires (forall d :: d in xs <==> d in xs') && (forall d :: d in ys <==> d in ys')
    ensures NoFetchBefore(xs, ys) <==> NoFetchBefore(xs', ys')
  {
    hide KeyOf, IsKind, IsFetchFor;
  }

  /** Exchanging two neighbours of an orderly list leaves the verdict as it is, unless they are the Kind and the
      Fetch of one bridge source, and then the list fails, or they are two Fetches of one bridge source that
      say different things and no later one follows. */
  lemma SwappingNeighboursKeepsTheVerdict(before: seq<Declaration>, a: Declaration, b: Declaration, after: seq<Declaration>)
    requires Orderly(before + ([a] + [b]) + after)
    ensures KindThenFetch(a, b) ==> Report(before + ([b] + [a]) + after) != []
    ensures !KindThenFetch(a, b) && !(DifferingFetches(a, b) && !HasFetch(after, KeyOf(a))) ==>
      (Report(before + ([a] + [b]) + after) == [] <==> Report(before + ([b] + [a]) + after) == [])
  {
    hide KeyOf, Report, Orderly, KindsComeFirst, LastFetch, SingleMethods, IsFetchFor, HasFetch;
    var ds, es := before + ([a] + [b]) + after, before + ([b] + [a]) + after;
    OrderlyMeans(ds);
    OrderlyMeans(es);
    VerdictMeans(es);
    SwappedKindsComeFirst(before, a, b, after);
    assert multiset(ds) == multiset(es);
    if !KindThenFetch(a, b) && !(DifferingFetches(a, b) && !HasFetch(after, KeyOf(a))) {
      forall key
        ensures LastFetch(es, key) == LastFetch(ds, key)
      {
        LastFetchOfAppend(before + ([a] + [b]), after, key);
        LastFetchOfAppend(before + ([b] + [a]), after, key);
        LastFetchOfPair(before, a, b, key);
      }
      ReorderingKeepsTheVerdict(ds, es);
    }
  }

  lemma LastFetchOfPair(before: seq<Declaration>, a: Declaration, b: Declaration, key: string)
    ensures LastFetch(before + ([a] + [b]), key) == LastFetch(before + ([b] + [a]), key) ||
            (DifferingFetches(a, b) && KeyOf(a) == key)
  {
    hide KeyOf;
    assert (before + ([a] + [b]))[..|before| + 1] == before + [a] && (before + [a])[..|before|] == before;
    assert (before + ([b] + [a]))[..|before| + 1] == before + [b] && (before + [b])[..|before|] == before;
  }

  /** With two Fetches of one bridge source that say different things, the last one decides: the verdict turns
      on whether the Status is accepted as a bridge, or as a source without one. */
  lemma LastOfTwoFetchesDecides(kind: Declaration, status: Declaration, first: Declaration, last: Declaration)
    requires IsKind(kind) && SourceOfBody(kind.body) == "external" && IsStatus(status) && IsBridgeReceiver(status)
    requires KeyOf(kind) == KeyOf(status) && IsFetchFor(first, KeyOf(status)) && IsFetchFor(last, KeyOf(status))
    ensures Report([kind, status, first, last]) == [] <==> AcceptedAs(status, last.fetches)
  {
    hide KeyOf, Report, Orderly, SourceOfBody, BodyAccepted, IsBridgeReceiver;
    var ds := [kind, status, first, last];
    VerdictMeans(ds);
    OrderlyMeans(ds);
    assert ds[..3] == [kind, status, first];
    assert LastFetch(ds, KeyOf(status)) == last.fetches;
    assert kind in ds && status in ds;
    assert multiset(ds) == multiset{kind, status, first, last};
  }
}
