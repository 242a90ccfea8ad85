/** What a run of the fixture manager says about its acknowledged sends: the events that matter to them, in
    order, and what has become of a send after them. */
module SendJournal {
  import opened Text

  datatype Event<S> =
    | Acknowledged(key: string, send: S)
    | CleanupFailed(key: string)
    | Saved(cleaned: Option<string>)
    | Started

  /** A cleanup of the dataset removed it from memory but could not be saved, and since then there has been
      neither a save nor a restart. */
  ghost predicate PendingIn<S>(journal: seq<Event<S>>, key: string) {
    exists f :: 0 <= f < |journal| && journal[f] == CleanupFailed(key) &&
                forall j :: f < j < |journal| ==> !journal[j].Saved? && !journal[j].Started?
  }

  /** This save takes the dataset off the state file. */
  ghost predicate DroppedAt<S>(journal: seq<Event<S>>, j: nat, key: string)
    requires j < |journal|
  {
    journal[j].Saved? && (journal[j].cleaned == Some(key) || PendingIn(journal[..j], key))
  }

  ghost predicate HeldSince<S>(journal: seq<Event<S>>, a: nat, key: string, send: S)
    requires a < |journal|
  {
    journal[a] == Acknowledged(key, send) && forall j :: a < j < |journal| ==> !DroppedAt(journal, j, key)
  }

  ghost predicate HeldIn<S(!new)>(journal: seq<Event<S>>, key: string, send: S) {
    exists a :: 0 <= a < |journal| && HeldSince(journal, a, key, send)
  }

  ghost predicate LostAt<S(!new)>(journal: seq<Event<S>>, j: nat, key: string, send: S)
    requires j < |journal|
  {
    journal[j].Saved? && journal[j].cleaned != Some(key) && PendingIn(journal[..j], key) && HeldIn(journal[..j], key, send)
  }

  /** The send was held when a save that was no cleanup of its dataset followed a failed cleanup of it,
      with no restart in between. */
  ghost predicate LostIn<S(!new)>(journal: seq<Event<S>>, key: string, send: S) {
    exists j :: 0 <= j < |journal| && LostAt(journal, j, key, send)
  }

  lemma PendingNext<S>(journal: seq<Event<S>>, e: Event<S>, key: string)
    ensures PendingIn(journal + [e], key) <==> e == CleanupFailed(key) || (PendingIn(journal, key) && !e.Saved? && !e.Started?)
  {
    var all := journal + [e];
    if PendingIn(journal, key) && !e.Saved? && !e.Started? {
      var f :| 0 <= f < |journal| && journal[f] == CleanupFailed(key) &&
               forall j :: f < j < |journal| ==> !journal[j].Saved? && !journal[j].Started?;
      assert all[f] == CleanupFailed(key);
    }
    if e == CleanupFailed(key) {
      assert all[|journal|] == CleanupFailed(key);
    }
    if PendingIn(all, key) && e != CleanupFailed(key) {
      var f :| 0 <= f < |all| && all[f] == CleanupFailed(key) &&
               forall j :: f < j < |all| ==> !all[j].Saved? && !all[j].Started?;
      assert all[|journal|] == e && journal[f] == CleanupFailed(key);
      forall j | f < j < |journal|
        ensures !journal[j].Saved? && !journal[j].Started?
      {
        assert all[j] == journal[j];
      }
    }
  }

  lemma DroppedInFront<S>(journal: seq<Event<S>>, e: Event<S>, j: nat, key: string)
    requires j < |journal|
    ensures DroppedAt(journal + [e], j, key) <==> DroppedAt(journal, j, key)
  {
    assert (journal + [e])[..j] == journal[..j];
  }

  lemma DroppedByLast<S>(journal: seq<Event<S>>, e: Event<S>, key: string)
    ensures DroppedAt(journal + [e], |journal|, key) <==> e.Saved? && (e.cleaned == Some(key) || PendingIn(journal, key))
  {
    assert (journal + [e])[..|journal|] == journal;
  }

  lemma HeldNext<S(!new)>(journal: seq<Event<S>>, e: Event<S>, key: string, send: S)
    ensures HeldIn(journal + [e], key, send) <==>
      || e == Acknowledged(key, send)
      || (HeldIn(journal, key, send) && !(e.Saved? && (e.cleaned == Some(key) || PendingIn(journal, key))))
  {
    hide PendingIn, DroppedAt;
    var all := journal + [e];
    DroppedByLast(journal, e, key);
    forall j | 0 <= j < |journal|
      ensures DroppedAt(all, j, key) <==> DroppedAt(journal, j, key)
    {
      DroppedInFront(journal, e, j, key);
    }
    if e == Acknowledged(key, send) {
      assert HeldSince(all, |journal|, key, send);
    }
    if HeldIn(journal, key, send) && !DroppedAt(all, |journal|, key) {
      var a :| 0 <= a < |journal| && HeldSince(journal, a, key, send);
      assert HeldSince(all, a, key, send);
    }
    if HeldIn(all, key, send) && e != Acknowledged(key, send) {
      var a :| 0 <= a < |all| && HeldSince(all, a, key, send);
      assert all[|journal|] == e;
      assert HeldSince(journal, a, key, send);
    }
  }

  lemma LostNext<S(!new)>(journal: seq<Event<S>>, e: Event<S>, key: string, send: S)
    ensures LostIn(journal + [e], key, send) <==>
      || LostIn(journal, key, send)
      || (e.Saved? && e.cleaned != Some(key) && PendingIn(journal, key) && HeldIn(journal, key, send))
  {
    hide PendingIn, HeldIn;
    var all := journal + [e];
    forall j | 0 <= j < |journal|
      ensures LostAt(all, j, key, send) <==> LostAt(journal, j, key, send)
    {
      assert all[..j] == journal[..j];
    }
    assert all[..|journal|] == journal;
    assert LostAt(all, |journal|, key, send) <==>
      e.Saved? && e.cleaned != Some(key) && PendingIn(journal, key) && HeldIn(journal, key, send);
    if LostIn(journal, key, send) {
      var j :| 0 <= j < |journal| && LostAt(journal, j, key, send);
      assert LostAt(all, j, key, send);
    }
    if LostIn(all, key, send) && !LostAt(all, |journal|, key, send) {
      var j :| 0 <= j < |all| && LostAt(all, j, key, send);
      assert LostAt(journal, j, key, send);
    }
  }

  /** What becomes of an acknowledged send: it is held, a later cleanup of its dataset was acknowledged, or
      it was lost to a failed one. */
  lemma {:induction false} HeldCleanedOrLost<S(!new)>(journal: seq<Event<S>>, a: nat, key: string, send: S)
    requires a < |journal| && journal[a] == Acknowledged(key, send)
    ensures || HeldIn(journal, key, send) || LostIn(journal, key, send)
            || exists j :: a < j < |journal| && journal[j] == Saved(Some(key))
    decreases |journal|
  {
    hide PendingIn, HeldIn, LostIn;
    var before, e := journal[..|journal| - 1], journal[|journal| - 1];
    assert journal == before + [e];
    HeldNext(before, e, key, send);
    LostNext(before, e, key, send);
    if a < |before| {
      HeldCleanedOrLost(before, a, key, send);
      assert forall j :: 0 <= j < |before| ==> journal[j] == before[j];
      assert e.Saved? && e.cleaned == Some(key) ==> journal[|before|] == Saved(Some(key));
    }
  }
}
