/** Activating the integration of a fixture: the rows of one tenant enterprise, and what resolving,
    preparing and activating a binding makes of them. A transaction takes effect as a whole or not at all. */
module Activation {
  import opened Text
  import opened Sorting
  import opened FixtureManager

  const ARCHIVE_READ := "archive.read"

  /** An employee or a contact; `active` says that it is not deleted and, for an employee, enabled and audited. */
  datatype Person = Person(name: string, active: bool)

  datatype Integration = Integration(mode: string, status: string, verifiedWxCorpId: string, scope: Option<seq<string>>,
                                     providerAppId: string, credential: string, verificationLevel: string, version: nat)

  datatype Rows = Rows(
    integration: Integration,
    bindingMode: string, bindingStatus: int, bindingWxCorpId: string, bindingVersion: nat,
    corpWxCorpId: string, corpChatStatus: int,
    staff: map<string, Person>, contacts: map<string, Person>,
    operations: nat)

  datatype Error =
    | BindingScopeInvalid | NoCurrentIntegration | DelegatedAppMissing | IdentityChanged | CapabilityScopeInvalid
    | ModeDiffers | ProductionIdentity | CommitFailed

  datatype Resolution = Resolved(binding: Binding) | Refused(error: Error)

  // ----- Enterprise identities -----

  function UpperChar(c: char): char {
    if 'a' <= c <= 'z' then c - 'a' + 'A' else c
  }

  function ToUpper(s: string): string {
    seq(|s|, i requires 0 <= i < |s| => UpperChar(s[i]))
  }

  function LocalWxCorpId(tenantId: nat): string {
    "wwMOCHATLOCALSIM" + PadLeft(Decimal(tenantId), 8)
  }

  predicate WxCorpIdAllowed(tenantId: int, value: string) {
    var upper := ToUpper(TrimSpace(value));
    tenantId > 0 && (upper == "" || HasPrefix(upper, "WWSIM") || upper == ToUpper(LocalWxCorpId(tenantId)))
  }

  function FirstNonBlank(a: string, b: string, c: string): string {
    if a != "" then a else if b != "" then b else c
  }

  /** resolveSeedBinding, for a tenant whose current integration has these rows. */
  function ResolveSeedBinding(rows: Rows, tenantId: int, corpId: int, requestedMode: string): Resolution {
    var wxCorpId := FirstNonBlank(rows.integration.verifiedWxCorpId, rows.bindingWxCorpId, rows.corpWxCorpId);
    if rows.integration.mode != rows.bindingMode then Refused(NoCurrentIntegration)
    else if rows.bindingMode != requestedMode then Refused(ModeDiffers)
    else if !WxCorpIdAllowed(tenantId, wxCorpId) then Refused(ProductionIdentity)
    else Resolved(Binding(tenantId, corpId, if TrimSpace(wxCorpId) == "" then LocalWxCorpId(tenantId) else wxCorpId, requestedMode))
  }

  lemma ToUpperOfLocal(tenantId: nat)
    ensures TrimSpace(LocalWxCorpId(tenantId)) == LocalWxCorpId(tenantId) != ""
  {
    hide TrimSpace, PadLeft, Decimal;
    var digits := PadLeft(Decimal(tenantId), 8);
    PaddedIsDigits(Decimal(tenantId), 8);
    var id := LocalWxCorpId(tenantId);
    assert id[|id| - 1] == digits[|digits| - 1] && digits[|digits| - 1] in digits;
    TrimSpaceTrims(id);
  }

  lemma {:induction false} PaddedIsDigits(s: string, width: nat)
    requires s != [] && forall c :: c in s ==> IsDigit(c)
    ensures PadLeft(s, width) != [] && forall c :: c in PadLeft(s, width) ==> IsDigit(c)
    decreases width - |s|
  {
    if |s| < width {
      PaddedIsDigits("0" + s, width);
    }
  }

  /** A resolved binding always names an enterprise of the simulator's own family, and never none. */
  lemma ResolvedBindingIsSimulated(rows: Rows, tenantId: int, corpId: int, requestedMode: string)
    requires ResolveSeedBinding(rows, tenantId, corpId, requestedMode).Resolved?
    ensures var b := ResolveSeedBinding(rows, tenantId, corpId, requestedMode).binding;
      TrimSpace(b.wxCorpId) != "" && WxCorpIdAllowed(tenantId, b.wxCorpId)
  {
    hide TrimSpace, ToUpper, LocalWxCorpId;
    ToUpperOfLocal(tenantId);
  }

  // ----- Capability scope -----

  function Itself(s: string): string {
    s
  }

  /** The trimmed capabilities, without the blank ones. */
  function Capabilities(scope: seq<string>): set<string> {
    set value | value in scope && TrimSpace(value) != "" :: TrimSpace(value)
  }

  /** The sorted list of a set of capabilities, each once. */
  ghost predicate IsScopeOf(scope: seq<string>, capabilities: set<string>) {
    AscendingBy(scope, Itself) && forall value :: value in scope <==> value in capabilities
  }

  method NormalizedFixtureScope(scope: seq<string>) returns (result: seq<string>)
    ensures IsScopeOf(result, Capabilities(scope))
  {
    hide TrimSpace;
    var seen: set<string> := {};
    result := [];
    for i := 0 to |scope|
      invariant seen == Capabilities(scope[..i]) && DistinctBy(result, Itself)
      invariant forall value :: value in result <==> value in seen
    {
      var value := TrimSpace(scope[i]);
      CapabilitiesNext(scope[..i], scope[i]);
      assert scope[..i + 1] == scope[..i] + [scope[i]];
      if value == "" || value in seen {
        continue;
      }
      seen := seen + {value};
      result := result + [value];
    }
    assert scope[..|scope|] == scope;
    result := SortBy(result, Itself);
  }

  lemma CapabilitiesNext(scope: seq<string>, value: string)
    ensures Capabilities(scope + [value]) == Capabilities(scope) + (if TrimSpace(value) == "" then {} else {TrimSpace(value)})
  {
    hide TrimSpace;
    assert value in scope + [value];
    assert forall v :: v in scope + [value] <==> v in scope || v == value;
  }

  /** A set of capabilities has one sorted list, and that list is its own normal form. */
  lemma NormalScopeIsUniqueAndFixed(scope: seq<string>, capabilities: seq<string>, other: seq<string>)
    requires IsScopeOf(scope, Capabilities(capabilities)) && IsScopeOf(other, Capabilities(scope))
    ensures other == scope
  {
    hide TrimSpace, LexLeq;
    forall value | value in scope
      ensures TrimSpace(value) == value != ""
    {
      var raw :| raw in capabilities && TrimSpace(raw) != "" && value == TrimSpace(raw);
      TrimSpaceTrims(raw);
    }
    forall value
      ensures value in other <==> value in scope
    {
      if value in scope {
        assert TrimSpace(value) in Capabilities(scope);
      }
    }
    AscendingIsUnique(other, scope, Itself);
  }

  // ----- Activation -----

  function StaffName(dataset: string): string {
    TrimSpace(dataset) + " 本地验收员工"
  }

  function ContactName(dataset: string): string {
    TrimSpace(dataset) + " 本地验收客户"
  }

  /** The rows once the two participants of the dataset are present, active and named after it. */
  function WithParticipants(rows: Rows, dataset: string): Rows {
    rows.(staff := rows.staff[TrimSpace(dataset) + "-STAFF-01" := Person(StaffName(dataset), true)],
          contacts := rows.contacts[TrimSpace(dataset) + "-EXTERNAL-01" := Person(ContactName(dataset), true)])
  }

  predicate AlreadyActive(rows: Rows) {
    && rows.integration.status == "active" && rows.integration.verificationLevel == "local_contract"
    && rows.bindingStatus == 2 && rows.corpChatStatus == 1
    && rows.integration.verifiedWxCorpId != ""
    && rows.integration.verifiedWxCorpId == rows.bindingWxCorpId == rows.corpWxCorpId
    && rows.integration.scope.Some? && ARCHIVE_READ in Capabilities(rows.integration.scope.value)
  }

  predicate ScopeValid(b: Binding, dataset: string) {
    HasPrefix(TrimSpace(dataset), FIXTURE_DATASET_PREFIX) && WxCorpIdAllowed(b.tenantId, b.wxCorpId)
  }

  /** Why an activation is refused. */
  function Refusal(rows: Rows, b: Binding, dataset: string): Option<Error> {
    if !ScopeValid(b, dataset) then Some(BindingScopeInvalid)
    else if rows.integration.mode != b.mode || rows.bindingMode != b.mode then Some(NoCurrentIntegration)
    else if b.mode == MODE_DELEGATED && (rows.integration.providerAppId == "" || rows.integration.credential == "") then Some(DelegatedAppMissing)
    else if rows.integration.verifiedWxCorpId != "" && rows.integration.verifiedWxCorpId != b.wxCorpId then Some(IdentityChanged)
    else if rows.integration.scope.None? then Some(CapabilityScopeInvalid)
    else None
  }

  /** What an activation that is not refused makes of the rows. */
  ghost predicate Activated(before: Rows, after: Rows, b: Binding, dataset: string) {
    if before.integration.scope.None? then false
    else if AlreadyActive(before) then after == WithParticipants(before, dataset)
    else
      && after.integration.scope.Some?
      && IsScopeOf(after.integration.scope.value, Capabilities(before.integration.scope.value) + {ARCHIVE_READ})
      && after == WithParticipants(before, dataset).(
           integration := before.integration.(status := "active", verifiedWxCorpId := b.wxCorpId, scope := after.integration.scope,
                                              verificationLevel := "local_contract", version := before.integration.version + 1),
           bindingStatus := 2, bindingWxCorpId := b.wxCorpId, bindingVersion := before.bindingVersion + 1,
           corpWxCorpId := b.wxCorpId, corpChatStatus := 1, operations := before.operations + 1)
  }

  class Tables {
    var rows: Rows

    constructor (rows: Rows)
      ensures this.rows == rows
    {
      this.rows := rows;
    }

    method EnsureParticipants(next: Rows, dataset: string) returns (out: Rows)
      ensures out == WithParticipants(next, dataset)
    {
      out := next;
      var staffId, contactId := TrimSpace(dataset) + "-STAFF-01", TrimSpace(dataset) + "-EXTERNAL-01";
      if staffId !in out.staff || out.staff[staffId] != Person(StaffName(dataset), true) {
        out := out.(staff := out.staff[staffId := Person(StaffName(dataset), true)]);
      }
      if contactId !in out.contacts || out.contacts[contactId] != Person(ContactName(dataset), true) {
        out := out.(contacts := out.contacts[contactId := Person(ContactName(dataset), true)]);
      }
      assert out.staff == WithParticipants(next, dataset).staff;
      assert out.contacts == WithParticipants(next, dataset).contacts;
    }

    /** activateFixtureBinding. `commits` says whether the commit takes effect, `replies` whether the caller learns of it. */
    method Activate(b: Binding, dataset: string, commits: bool, replies: bool) returns (error: Option<Error>)
      modifies this
      ensures Refusal(old(rows), b, dataset).Some? ==> error == Refusal(old(rows), b, dataset) && rows == old(rows)
      ensures Refusal(old(rows), b, dataset).None? ==> (error.None? <==> commits && replies)
      ensures Refusal(old(rows), b, dataset).None? ==> if commits then Activated(old(rows), rows, b, dataset) else rows == old(rows)
    {
      hide TrimSpace, WxCorpIdAllowed;
      if !HasPrefix(TrimSpace(dataset), FIXTURE_DATASET_PREFIX) || !WxCorpIdAllowed(b.tenantId, b.wxCorpId) {
        return Some(BindingScopeInvalid);
      }
      var current := rows.integration;
      if current.mode != b.mode || rows.bindingMode != b.mode {
        return Some(NoCurrentIntegration);
      }
      if current.mode == MODE_DELEGATED && (current.providerAppId == "" || current.credential == "") {
        return Some(DelegatedAppMissing);
      }
      if current.verifiedWxCorpId != "" && current.verifiedWxCorpId != b.wxCorpId {
        return Some(IdentityChanged);
      }
      if current.scope.None? {
        return Some(CapabilityScopeInvalid);
      }
      var scope := NormalizedFixtureScope(current.scope.value);
      var next := EnsureParticipants(rows, dataset);
      var active := current.status == "active" && current.verificationLevel == "local_contract" && rows.bindingStatus == 2 && rows.corpChatStatus == 1
        && current.verifiedWxCorpId != "" && current.verifiedWxCorpId == rows.bindingWxCorpId && current.verifiedWxCorpId == rows.corpWxCorpId
        && ARCHIVE_READ in scope;
      if !active {
        ScopeWithArchiveRead(scope, current.scope.value);
        scope := NormalizedFixtureScope(scope + [ARCHIVE_READ]);
        next := next.(corpWxCorpId := b.wxCorpId, corpChatStatus := 1);
        next := next.(bindingStatus := 2, bindingWxCorpId := b.wxCorpId, bindingVersion := next.bindingVersion + 1);
        next := next.(integration := current.(status := "active", verifiedWxCorpId := b.wxCorpId, scope := Some(scope),
                                              verificationLevel := "local_contract", version := current.version + 1));
        next := next.(operations := next.operations + 1);
      }
      if commits {
        rows := next;
      }
      error := if commits && replies then None else Some(CommitFailed);
    }
  }

  lemma ScopeWithArchiveRead(scope: seq<string>, raw: seq<string>)
    requires IsScopeOf(scope, Capabilities(raw))
    ensures Capabilities(scope + [ARCHIVE_READ]) == Capabilities(raw) + {ARCHIVE_READ}
  {
    hide TrimSpace, Capabilities, IsScopeOf;
    ArchiveReadIsTrimmed();
    CapabilitiesNext(scope, ARCHIVE_READ);
    CapabilitiesOfScope(scope, raw);
  }

  lemma ArchiveReadIsTrimmed()
    ensures TrimSpace(ARCHIVE_READ) == ARCHIVE_READ != ""
  {
    TrimSpaceTrims(ARCHIVE_READ);
  }

  lemma CapabilitiesOfScope(scope: seq<string>, raw: seq<string>)
    requires IsScopeOf(scope, Capabilities(raw))
    ensures Capabilities(scope) == Capabilities(raw)
  {
    hide TrimSpace, LexLeq;
    forall value | value in Capabilities(raw)
      ensures value in scope && TrimSpace(value) == value != ""
    {
      var x :| x in raw && TrimSpace(x) != "" && value == TrimSpace(x);
      TrimSpaceTrims(x);
    }
  }

  // ----- Activating again -----

  /** An activated binding is not refused when it is activated again. */
  lemma ActivatedIsAcceptedAgain(before: Rows, after: Rows, b: Binding, dataset: string)
    requires Refusal(before, b, dataset).None? && Activated(before, after, b, dataset)
    ensures Refusal(after, b, dataset).None?
  {
    hide TrimSpace, WxCorpIdAllowed, IsScopeOf, AlreadyActive;
  }

  lemma NamedActivationIsActive(before: Rows, after: Rows, b: Binding, dataset: string)
    requires Refusal(before, b, dataset).None? && Activated(before, after, b, dataset)
    ensures AlreadyActive(after) <==> b.wxCorpId != ""
  {
    hide TrimSpace, WxCorpIdAllowed, LexLeq;
    if !AlreadyActive(before) {
      ArchiveReadIsTrimmed();
      assert ARCHIVE_READ in after.integration.scope.value;
      assert ARCHIVE_READ in Capabilities(after.integration.scope.value);
    }
  }

  /** Activating a binding once more changes nothing exactly when the binding names an enterprise.
      Otherwise each activation raises the versions. */
  lemma ActivatingAgainChangesNothingExactlyWhenNamed(before: Rows, once: Rows, twice: Rows, b: Binding, dataset: string)
    requires Refusal(before, b, dataset).None?
    requires Activated(before, once, b, dataset) && Activated(once, twice, b, dataset)
    ensures twice == once <==> b.wxCorpId != ""
    ensures b.wxCorpId == "" ==> twice.integration.version == once.integration.version + 1 == before.integration.version + 2
  {
    hide TrimSpace, WxCorpIdAllowed, IsScopeOf, Capabilities;
    NamedActivationIsActive(before, once, b, dataset);
    ParticipantsAreKept(before, once, b, dataset);
  }

  lemma ParticipantsAreKept(before: Rows, once: Rows, b: Binding, dataset: string)
    requires Activated(before, once, b, dataset)
    ensures WithParticipants(once, dataset) == once
  {
    hide TrimSpace, IsScopeOf, AlreadyActive;
    assert once.staff == WithParticipants(before, dataset).staff;
    assert once.contacts == WithParticipants(before, dataset).contacts;
    assert WithParticipants(once, dataset).staff == once.staff;
    assert WithParticipants(once, dataset).contacts == once.contacts;
  }

  /** However often a named binding is activated, with commits that take effect or not and replies that
      arrive or not, the rows change once: as soon as one commit has taken effect. */
  method ActivateRepeatedly(tables: Tables, b: Binding, dataset: string, commits: seq<(bool, bool)>)
    requires Refusal(tables.rows, b, dataset).None? && b.wxCorpId != ""
    modifies tables
    ensures if exists c :: c in commits && c.0 then Activated(old(tables.rows), tables.rows, b, dataset) else tables.rows == old(tables.rows)
  {
    hide Refusal, Activated;
    ghost var done := false;
    for i := 0 to |commits|
      invariant done <==> exists c :: c in commits[..i] && c.0
      invariant Refusal(tables.rows, b, dataset).None?
      invariant if done then Activated(old(tables.rows), tables.rows, b, dataset) else tables.rows == old(tables.rows)
    {
      ghost var before := tables.rows;
      var error := tables.Activate(b, dataset, commits[i].0, commits[i].1);
      assert commits[..i + 1] == commits[..i] + [commits[i]];
      if commits[i].0 {
        ActivatedIsAcceptedAgain(before, tables.rows, b, dataset);
        if done {
          ActivatingAgainChangesNothingExactlyWhenNamed(old(tables.rows), before, tables.rows, b, dataset);
        }
        done := true;
      }
    }
    assert commits[..|commits|] == commits;
  }

  /** Once a resolved binding has been activated, resolving it gives the same binding. */
  lemma ResolvedBindingIsStable(before: Rows, after: Rows, tenantId: int, corpId: int, mode: string, dataset: string)
    requires ResolveSeedBinding(before, tenantId, corpId, mode).Resolved?
    requires var b := ResolveSeedBinding(before, tenantId, corpId, mode).binding;
      Refusal(before, b, dataset).None? && Activated(before, after, b, dataset)
    ensures ResolveSeedBinding(after, tenantId, corpId, mode) == ResolveSeedBinding(before, tenantId, corpId, mode)
  {
    hide TrimSpace, LexLeq, ToUpper, LocalWxCorpId, IsScopeOf;
    ResolvedBindingIsSimulated(before, tenantId, corpId, mode);
  }
}
