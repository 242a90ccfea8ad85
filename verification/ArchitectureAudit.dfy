/** The audit itself: findings for protected files, module directories and imports, the exceptions
    that suppress some of them for a while, and the sorted list of violations. */
module ArchitectureAudit {
  import opened Text
  import opened ArchitecturePaths
  import opened ArchitecturePolicy

  const RULE_DOMAIN := "ARCH-DOMAIN-DEPENDENCY"
  const RULE_PORTS := "ARCH-PORTS-DEPENDENCY"
  const RULE_APPLICATION := "ARCH-APPLICATION-DEPENDENCY"
  const RULE_ADAPTERS := "ARCH-ADAPTERS-DEPENDENCY"
  const RULE_TRANSPORT := "ARCH-TRANSPORT-DEPENDENCY"
  const RULE_MODULE := "ARCH-MODULE-DEPENDENCY"
  const RULE_LEGACY := "ARCH-LEGACY-DEPENDENCY"
  const RULE_PRIVATE := "ARCH-CROSS-MODULE-PRIVATE"
  const RULE_FORBIDDEN_FILE := "ARCH-FORBIDDEN-LEGACY-FILE"
  const RULE_FILE_SIZE := "ARCH-PROTECTED-FILE-SIZE"
  const RULE_FILE_MISSING := "ARCH-PROTECTED-FILE-MISSING"
  const RULE_DEBT_EXPIRED := "ARCH-PROTECTED-DEBT-EXPIRED"
  const RULE_REGISTRATION := "ARCH-MODULE-REGISTRATION"
  const RULE_EXCEPTION_EXPIRED := "ARCH-EXCEPTION-EXPIRED"

  datatype Violation = Violation(ruleId: string, path: string, detail: string)

  /** A violation with the import it is about, empty when it is not about an import. */
  datatype Finding = Finding(violation: Violation, importPath: string)

  datatype SourceFile = SourceFile(path: string, imports: seq<string>)

  /** What the walk over the repository finds: Go files in walking order, the module directories,
      and the sizes of the protected files that exist. */
  datatype Tree = Tree(files: seq<SourceFile>, moduleDirs: set<string>, sizes: map<string, nat>)

  /** The libraries the audit asks: which imports are standard library, and which file names match a pattern. */
  datatype Toolchain = Toolchain(std: string -> bool, glob: (string, string) -> bool)

  function Quoted(s: string): string {
    "\"" + s + "\""
  }

  // ----- Rules for one import -----

  predicate IsPackageFamily(target: string, root: string) {
    target == root || HasPrefix(target, root + "/")
  }

  predicate IsLegacyImport(target: string) {
    || IsPackageFamily(target, "jiyi/mochat-go/internal/dashboard")
    || IsPackageFamily(target, "jiyi/mochat-go/internal/store")
    || IsPackageFamily(target, "jiyi/mochat-go/internal/server")
    || IsPackageFamily(target, "jiyi/mochat-go/internal/config")
  }

  predicate SharedContractAllowed(layer: Layer, target: string) {
    match layer
    case Adapters =>
      IsPackageFamily(target, "jiyi/mochat-go/internal/mysqlconn") || IsPackageFamily(target, "jiyi/mochat-go/internal/outboundhttp")
    case Transport =>
      || IsPackageFamily(target, "jiyi/mochat-go/internal/app/modules")
      || IsPackageFamily(target, "jiyi/mochat-go/internal/httpresponse")
      || IsPackageFamily(target, "jiyi/mochat-go/internal/session")
    case ModuleRoot => IsPackageFamily(target, "jiyi/mochat-go/internal/app/modules")
    case _ => false
  }

  predicate StandardLibraryAllowed(layer: Layer, target: string) {
    match layer
    case Domain => !IsPackageFamily(target, "database/sql") && !IsPackageFamily(target, "net/http")
    case Ports => !IsPackageFamily(target, "database/sql") && !IsPackageFamily(target, "net/http")
    case Application => !IsPackageFamily(target, "database/sql") && !IsPackageFamily(target, "net/http")
    case Transport => !IsPackageFamily(target, "database/sql")
    case Adapters => true
    case ModuleRoot => true
    case Unknown => false
  }

  predicate PublicImportGranted(policy: Policy, path: string, moduleName: string, layer: Layer, target: string) {
    var package := ModulePackagePath(path, moduleName);
    exists g :: g in policy.publicImports && g.moduleName == moduleName && g.package == package && LayerByName(g.layer) == layer && g.target == target
  }

  predicate PackageImportGranted(policy: Policy, path: string, moduleName: string, target: string) {
    var package := ModulePackagePath(path, moduleName);
    exists g :: g in policy.packageImports && g.moduleName == moduleName && g.package == package && g.target == target
  }

  predicate TestImportGranted(policy: Policy, path: string, moduleName: string, target: string) {
    HasSuffix(path, "_test.go") &&
    var package := ModulePackagePath(path, moduleName);
    exists g :: g in policy.testImports && g.moduleName == moduleName && g.package == package && g.target == target
  }

  /** The policy lists this very import of this file. */
  predicate Granted(policy: Policy, path: string, moduleName: string, layer: Layer, target: string) {
    || PackageImportGranted(policy, path, moduleName, target)
    || PublicImportGranted(policy, path, moduleName, layer, target)
    || TestImportGranted(policy, path, moduleName, target)
  }

  predicate InwardLayerAllowed(layer: Layer, imported: Layer) {
    match layer
    case Domain => imported == Domain
    case Ports => imported == Domain
    case Application => imported == Domain || imported == Ports
    case Adapters => imported == Domain || imported == Ports
    case Transport => imported == Application || imported == Domain || imported == Ports
    case ModuleRoot => imported != Unknown
    case Unknown => false
  }

  predicate AllowedByLayer(policy: Policy, std: string -> bool, path: string, moduleName: string, layer: Layer, target: string) {
    if Granted(policy, path, moduleName, layer, target) then true
    else if target == "C" || std(target) then StandardLibraryAllowed(layer, target)
    else
      var (importedModule, importedLayer) := ClassifyImport(target, policy.modulePackages);
      if importedModule != "" then importedModule == moduleName && InwardLayerAllowed(layer, importedLayer)
      else if SharedContractAllowed(layer, target) then true
      else if IsPackageFamily(target, "jiyi/mochat-go") then false
      else layer == Adapters
  }

  function LayerRule(layer: Layer): string
    requires layer != Unknown
  {
    match layer
    case Domain => RULE_DOMAIN
    case Ports => RULE_PORTS
    case Application => RULE_APPLICATION
    case Adapters => RULE_ADAPTERS
    case Transport => RULE_TRANSPORT
    case ModuleRoot => RULE_MODULE
  }

  function ImportFinding(ruleId: string, path: string, target: string): Finding {
    Finding(Violation(ruleId, path, "imports " + Quoted(target)), target)
  }

  /** An import of another module's adapters or transport that no public or test grant covers. */
  predicate CrossesIntoPrivate(policy: Policy, path: string, moduleName: string, layer: Layer, target: string) {
    var (importedModule, importedLayer) := ClassifyImport(target, policy.modulePackages);
    && importedModule != "" && importedModule != moduleName && (importedLayer == Adapters || importedLayer == Transport)
    && !PublicImportGranted(policy, path, moduleName, layer, target) && !TestImportGranted(policy, path, moduleName, target)
  }

  function DependencyFindings(policy: Policy, std: string -> bool, path: string, moduleName: string, layer: Layer, target: string): seq<Finding>
    requires layer != Unknown
  {
    (if CrossesIntoPrivate(policy, path, moduleName, layer, target) then [ImportFinding(RULE_PRIVATE, path, target)] else []) +
    (if IsLegacyImport(target) then [ImportFinding(RULE_LEGACY, path, target)]
     else if AllowedByLayer(policy, std, path, moduleName, layer, target) then []
     else [ImportFinding(LayerRule(layer), path, target)])
  }

  // ----- Findings for one file -----

  function ImportFindings(policy: Policy, std: string -> bool, path: string, moduleName: string, layer: Layer, imports: seq<string>): seq<Finding>
    requires layer != Unknown
  {
    if imports == [] then []
    else
      ImportFindings(policy, std, path, moduleName, layer, imports[..|imports| - 1]) +
      DependencyFindings(policy, std, path, moduleName, layer, imports[|imports| - 1])
  }

  function ForbiddenFindings(patterns: seq<string>, glob: (string, string) -> bool, path: string): seq<Finding> {
    if patterns == [] then []
    else
      var last := patterns[|patterns| - 1];
      ForbiddenFindings(patterns[..|patterns| - 1], glob, path) +
      (if glob(last, path) then [Finding(Violation(RULE_FORBIDDEN_FILE, path, "matches forbidden file pattern " + Quoted(last)), "")] else [])
  }

  const UNPLACED_DETAIL := "module source must live in domain, ports, application, adapters, transport, or the module root"

  function FileFindings(policy: Policy, tools: Toolchain, file: SourceFile): seq<Finding> {
    var path := NormalizePath(file.path);
    var (moduleName, layer) := ClassifyFile(path, policy.modulePackages);
    ForbiddenFindings(policy.forbiddenNewFiles, tools.glob, path) +
    (if layer == Unknown then if moduleName != "" then [Finding(Violation(RULE_MODULE, path, UNPLACED_DETAIL), "")] else []
     else ImportFindings(policy, tools.std, path, moduleName, layer, file.imports))
  }

  function TreeFindings(policy: Policy, tools: Toolchain, files: seq<SourceFile>): seq<Finding> {
    if files == [] then []
    else TreeFindings(policy, tools, files[..|files| - 1]) + FileFindings(policy, tools, files[|files| - 1])
  }

  // ----- Protected files -----

  predicate DebtExpired(debt: ProtectedDebt, today: int) {
    debt.expiresOn.day.Some? && today >= debt.expiresOn.day.value
  }

  function DecimalInt(n: int): string {
    if n >= 0 then Decimal(n) else "-" + Decimal(-n)
  }

  function LimitFindings(limit: SizeLimit, sizes: map<string, nat>, today: int): seq<Finding> {
    if limit.path !in sizes then [Finding(Violation(RULE_FILE_MISSING, limit.path, "protected file is missing"), "")]
    else
      (if limit.debt.Some? && DebtExpired(limit.debt.value, today)
       then [Finding(Violation(RULE_DEBT_EXPIRED, limit.path, "protected-file debt expired on " + limit.debt.value.expiresOn.text), "")] else []) +
      (if sizes[limit.path] > limit.maxBytes
       then [Finding(Violation(RULE_FILE_SIZE, limit.path,
                               Decimal(sizes[limit.path]) + " bytes exceeds " + DecimalInt(limit.maxBytes) + "-byte limit"), "")] else [])
  }

  function ProtectedFindings(limits: seq<SizeLimit>, sizes: map<string, nat>, today: int): seq<Finding> {
    if limits == [] then []
    else ProtectedFindings(limits[..|limits| - 1], sizes, today) + LimitFindings(limits[|limits| - 1], sizes, today)
  }

  // ----- Module directories -----

  function UnregisteredModule(name: string): Violation {
    Violation(RULE_REGISTRATION, "internal/modules/" + name, "module directory is not registered as production or example")
  }

  function MissingModule(name: string, kind: string): Violation {
    Violation(RULE_REGISTRATION, "internal/modules/" + name, kind + " module declared in policy is missing")
  }

  function ModuleKind(policy: Policy, name: string): string {
    if name in policy.exampleModules then "example" else "production"
  }

  ghost function ModuleViolations(dirs: set<string>, policy: Policy): multiset<Violation> {
    multiset(set m | m in dirs && m !in policy.Registered() :: UnregisteredModule(m)) +
    multiset(set m | m in policy.Registered() && m !in dirs :: MissingModule(m, ModuleKind(policy, m)))
  }

  // ----- Exceptions -----

  predicate Matches(e: Exception, item: Finding) {
    e.Valid() && e.ruleId == item.violation.ruleId && e.path == item.violation.path && e.target == item.importPath
  }

  predicate ExceptionExpired(e: Exception, today: int) {
    e.expiresOn.day.Some? && today > e.expiresOn.day.value
  }

  /** The first valid exception written for this very finding. */
  function FirstMatch(exceptions: seq<Exception>, item: Finding): (r: Option<Exception>)
    ensures r.None? <==> forall e :: e in exceptions ==> !Matches(e, item)
    ensures r.Some? ==> r.value in exceptions && Matches(r.value, item)
  {
    if exceptions == [] then None
    else if Matches(exceptions[0], item) then Some(exceptions[0])
    else FirstMatch(exceptions[1..], item)
  }

  function ExpiredFinding(e: Exception, item: Finding): Finding {
    Finding(Violation(RULE_EXCEPTION_EXPIRED, item.violation.path,
                      "exception for " + Quoted(item.importPath) + " expired on " + e.expiresOn.text), "")
  }

  /** What becomes of one finding: nothing, itself, or itself preceded by the news of the expiry. */
  function ApplyOne(item: Finding, exceptions: seq<Exception>, today: int): seq<Finding> {
    var e := FirstMatch(exceptions, item);
    if e.None? then [item]
    else if ExceptionExpired(e.value, today) then [ExpiredFinding(e.value, item), item]
    else []
  }

  function ApplyAll(findings: seq<Finding>, exceptions: seq<Exception>, today: int): seq<Finding> {
    if findings == [] then []
    else ApplyAll(findings[..|findings| - 1], exceptions, today) + ApplyOne(findings[|findings| - 1], exceptions, today)
  }

  function Violations(findings: seq<Finding>): (vs: seq<Violation>)
    ensures |vs| == |findings| && forall i :: 0 <= i < |findings| ==> vs[i] == findings[i].violation
  {
    seq(|findings|, i requires 0 <= i < |findings| => findings[i].violation)
  }

  /** The violations of a tree under a policy on a day, without their order. */
  ghost function Expected(tree: Tree, policy: Policy, tools: Toolchain, today: int): multiset<Violation> {
    multiset(Violations(ProtectedFindings(policy.protectedFiles, tree.sizes, today))) +
    ModuleViolations(tree.moduleDirs, policy) +
    multiset(Violations(ApplyAll(TreeFindings(policy, tools, tree.files), policy.exceptions, today)))
  }

  // ----- Order -----

  predicate ViolationLeq(a: Violation, b: Violation) {
    if a.ruleId != b.ruleId then LexLeq(a.ruleId, b.ruleId)
    else if a.path != b.path then LexLeq(a.path, b.path)
    else LexLeq(a.detail, b.detail)
  }

  ghost predicate Sorted(vs: seq<Violation>) {
    forall i, j :: 0 <= i < j < |vs| ==> ViolationLeq(vs[i], vs[j])
  }

  lemma ViolationOrder(a: Violation, b: Violation, c: Violation)
    ensures ViolationLeq(a, b) || ViolationLeq(b, a)
    ensures ViolationLeq(a, b) && ViolationLeq(b, a) ==> a == b
    ensures ViolationLeq(a, b) && ViolationLeq(b, c) ==> ViolationLeq(a, c)
  {
    hide LexLeq;
    LexLeqTotal(a.ruleId, b.ruleId);
    LexLeqTotal(a.path, b.path);
    LexLeqTotal(a.detail, b.detail);
    if ViolationLeq(a, b) && ViolationLeq(b, a) {
      LexAntisymmetric(a.ruleId, b.ruleId);
      LexAntisymmetric(a.path, b.path);
      LexAntisymmetric(a.detail, b.detail);
    }
    LexTransitive(a.ruleId, b.ruleId, c.ruleId);
    LexTransitive(a.path, b.path, c.path);
    LexTransitive(a.detail, b.detail, c.detail);
    LexAntisymmetric(a.ruleId, b.ruleId);
    LexAntisymmetric(b.ruleId, c.ruleId);
    LexAntisymmetric(a.path, b.path);
    LexAntisymmetric(b.path, c.path);
  }

  lemma LexAntisymmetric(a: string, b: string)
    ensures LexLeq(a, b) && LexLeq(b, a) ==> a == b
  {
    if LexLeq(a, b) && LexLeq(b, a) {
      LexLeqAntisymmetric(a, b);
    }
  }

  lemma LexTransitive(a: string, b: string, c: string)
    ensures LexLeq(a, b) && LexLeq(b, c) ==> LexLeq(a, c)
  {
    if LexLeq(a, b) && LexLeq(b, c) {
      LexLeqTransitive(a, b, c);
    }
  }

  /** Two sorted lists of the same violations are the same list. */
  lemma {:induction false} SortedListIsUnique(a: seq<Violation>, b: seq<Violation>)
    requires Sorted(a) && Sorted(b) && multiset(a) == multiset(b)
    ensures a == b
  {
    hide ViolationLeq;
    SameMultisetSameLength(a, b);
    if a != [] {
      FirstIsLeast(a, b[0]);
      FirstIsLeast(b, a[0]);
      ViolationOrder(a[0], b[0], a[0]);
      assert a == [a[0]] + a[1..] && b == [b[0]] + b[1..];
      assert multiset(a[1..]) == multiset(a) - multiset{a[0]};
      assert multiset(b[1..]) == multiset(b) - multiset{b[0]};
      SortedListIsUnique(a[1..], b[1..]);
    }
  }

  lemma SameMultisetSameLength<T>(a: seq<T>, b: seq<T>)
    requires multiset(a) == multiset(b)
    ensures |a| == |b|
    ensures forall x :: x in a <==> x in b
  {
    assert |multiset(a)| == |a| && |multiset(b)| == |b|;
    assert forall x :: x in a <==> x in multiset(a);
    assert forall x :: x in b <==> x in multiset(b);
  }

  lemma FirstIsLeast(vs: seq<Violation>, v: Violation)
    requires Sorted(vs) && v in vs
    ensures ViolationLeq(vs[0], v)
  {
    hide ViolationLeq;
    var i :| 0 <= i < |vs| && vs[i] == v;
    if i == 0 {
      ViolationOrder(v, v, v);
    }
  }

  // ----- The loops -----

  method SortFindings(findings: seq<Finding>) returns (out: seq<Finding>)
    ensures Sorted(Violations(out)) && multiset(Violations(out)) == multiset(Violations(findings))
  {
    hide ViolationLeq;
    out := [];
    for i := 0 to |findings|
      invariant Sorted(Violations(out)) && multiset(Violations(out)) == multiset(Violations(findings[..i]))
    {
      out := InsertFinding(out, findings[i]);
      assert findings[..i + 1] == findings[..i] + [findings[i]];
      ViolationsOfAppend(findings[..i], [findings[i]]);
    }
    assert findings[..|findings|] == findings;
  }

  lemma ViolationsOfAppend(a: seq<Finding>, b: seq<Finding>)
    ensures Violations(a + b) == Violations(a) + Violations(b)
  {
  }

  method InsertFinding(sorted: seq<Finding>, item: Finding) returns (out: seq<Finding>)
    requires Sorted(Violations(sorted))
    ensures Sorted(Violations(out))
    ensures multiset(Violations(out)) == multiset(Violations(sorted)) + multiset{item.violation}
  {
    hide ViolationLeq;
    var at := 0;
    while at < |sorted| && ViolationLeq(sorted[at].violation, item.violation)
      invariant 0 <= at <= |sorted|
      invariant forall k :: 0 <= k < at ==> ViolationLeq(sorted[k].violation, item.violation)
    {
      at := at + 1;
    }
    out := sorted[..at] + [item] + sorted[at..];
    forall k | at <= k < |sorted|
      ensures ViolationLeq(item.violation, sorted[k].violation)
    {
      ViolationOrder(item.violation, sorted[at].violation, sorted[k].violation);
    }
    var vs := Violations(sorted);
    assert Violations(out) == vs[..at] + [item.violation] + vs[at..];
    assert vs == vs[..at] + vs[at..];
  }

  /** applyExceptions, with its two passes over the exceptions. */
  method ApplyExceptions(findings: seq<Finding>, exceptions: seq<Exception>, today: int) returns (kept: seq<Finding>)
    ensures kept == ApplyAll(findings, exceptions, today)
  {
    hide Matches, ExceptionExpired;
    kept := [];
    for i := 0 to |findings|
      invariant kept == ApplyAll(findings[..i], exceptions, today)
    {
      var item := findings[i];
      var matched, j := false, 0;
      while j < |exceptions| && !matched
        invariant 0 <= j <= |exceptions|
        invariant !matched ==> FirstMatch(exceptions, item) == FirstMatch(exceptions[j..], item)
        invariant matched ==> FirstMatch(exceptions, item).Some?
        invariant !matched || ExceptionExpired(FirstMatch(exceptions, item).value, today) ==>
          kept == ApplyAll(findings[..i], exceptions, today) +
                  if matched then [ExpiredFinding(FirstMatch(exceptions, item).value, item)] else []
        invariant matched && !ExceptionExpired(FirstMatch(exceptions, item).value, today) ==> kept == ApplyAll(findings[..i], exceptions, today)
        decreases |exceptions| - j, !matched
      {
        if Matches(exceptions[j], item) {
          matched := true;
          if ExceptionExpired(exceptions[j], today) {
            kept := kept + [ExpiredFinding(exceptions[j], item)];
          }
        } else {
          j := j + 1;
        }
      }
      var expired := MatchExpired(exceptions, item, today);
      if !matched || expired {
        kept := kept + [item];
      }
      assert findings[..i + 1][..i] == findings[..i];
    }
    assert findings[..|findings|] == findings;
  }

  /** exceptionMatchExpired. */
  method MatchExpired(exceptions: seq<Exception>, item: Finding, today: int) returns (expired: bool)
    ensures expired <==> FirstMatch(exceptions, item).Some? && ExceptionExpired(FirstMatch(exceptions, item).value, today)
  {
    hide Matches, ExceptionExpired;
    for j := 0 to |exceptions|
      invariant FirstMatch(exceptions, item) == FirstMatch(exceptions[j..], item)
    {
      if Matches(exceptions[j], item) {
        return ExceptionExpired(exceptions[j], today);
      }
    }
    expired := false;
  }

  /** reconcileModules. Both loops run over maps, in any order. */
  method ReconcileModules(dirs: set<string>, policy: Policy) returns (findings: seq<Finding>)
    ensures multiset(Violations(findings)) == ModuleViolations(dirs, policy)
    ensures forall f :: f in findings ==> f.importPath == ""
  {
    var registered := policy.Registered();
    var stray := ListUnregistered(dirs - registered);
    var missing := ListMissing(registered - dirs, policy);
    findings := stray + missing;
    ViolationsOfAppend(stray, missing);
    assert (set m | m in dirs && m !in registered :: UnregisteredModule(m)) == set m | m in dirs - registered :: UnregisteredModule(m);
    assert (set m | m in registered && m !in dirs :: MissingModule(m, ModuleKind(policy, m)))
        == set m | m in registered - dirs :: MissingModule(m, ModuleKind(policy, m));
  }

  method ListUnregistered(names: set<string>) returns (findings: seq<Finding>)
    ensures multiset(Violations(findings)) == multiset(set m | m in names :: UnregisteredModule(m))
    ensures forall f :: f in findings ==> f.importPath == ""
  {
    findings := [];
    var rest := names;
    ghost var listed: set<Violation> := {};
    while rest != {}
      invariant rest <= names && listed == set m | m in names - rest :: UnregisteredModule(m)
      invariant multiset(Violations(findings)) == multiset(listed)
      invariant forall f :: f in findings ==> f.importPath == ""
      decreases rest
    {
      var m :| m in rest;
      var v := UnregisteredModule(m);
      forall n | n in names - rest
        ensures UnregisteredModule(n) != v
      {
        SamePrefixSameName(n, m);
      }
      ViolationsOfAppend(findings, [Finding(v, "")]);
      findings, rest, listed := findings + [Finding(v, "")], rest - {m}, listed + {v};
    }
    assert names - rest == names;
  }

  method ListMissing(names: set<string>, policy: Policy) returns (findings: seq<Finding>)
    ensures multiset(Violations(findings)) == multiset(set m | m in names :: MissingModule(m, ModuleKind(policy, m)))
    ensures forall f :: f in findings ==> f.importPath == ""
  {
    findings := [];
    var rest := names;
    ghost var listed: set<Violation> := {};
    while rest != {}
      invariant rest <= names && listed == set m | m in names - rest :: MissingModule(m, ModuleKind(policy, m))
      invariant multiset(Violations(findings)) == multiset(listed)
      invariant forall f :: f in findings ==> f.importPath == ""
      decreases rest
    {
      var m :| m in rest;
      var v := MissingModule(m, ModuleKind(policy, m));
      forall n | n in names - rest
        ensures MissingModule(n, ModuleKind(policy, n)) != v
      {
        SamePrefixSameName(n, m);
      }
      ViolationsOfAppend(findings, [Finding(v, "")]);
      findings, rest, listed := findings + [Finding(v, "")], rest - {m}, listed + {v};
    }
    assert names - rest == names;
  }

  lemma SamePrefixSameName(a: string, b: string)
    ensures "internal/modules/" + a == "internal/modules/" + b ==> a == b
  {
    if "internal/modules/" + a == "internal/modules/" + b {
      assert a == ("internal/modules/" + a)[|"internal/modules/"|..];
      assert b == ("internal/modules/" + b)[|"internal/modules/"|..];
    }
  }

  /** Non-import findings meet no valid exception. */
  lemma {:induction false} OtherFindingsAreNeverSuppressed(findings: seq<Finding>, exceptions: seq<Exception>, today: int)
    requires forall f :: f in findings ==> f.importPath == ""
    ensures ApplyAll(findings, exceptions, today) == findings
  {
    if findings != [] {
      var last := findings[|findings| - 1];
      OtherFindingsAreNeverSuppressed(findings[..|findings| - 1], exceptions, today);
      assert last in findings;
      BlankIsNotATarget();
      assert findings == findings[..|findings| - 1] + [last];
    }
  }

  lemma BlankIsNotATarget()
    ensures forall e: Exception :: e.Valid() ==> e.target != ""
  {
  }

  lemma {:induction false} ProtectedFindingsHaveNoImport(limits: seq<SizeLimit>, sizes: map<string, nat>, today: int)
    ensures forall f :: f in ProtectedFindings(limits, sizes, today) ==> f.importPath == ""
  {
    if limits != [] {
      ProtectedFindingsHaveNoImport(limits[..|limits| - 1], sizes, today);
    }
  }

  lemma {:induction false} ApplyAllOfAppend(a: seq<Finding>, b: seq<Finding>, exceptions: seq<Exception>, today: int)
    ensures ApplyAll(a + b, exceptions, today) == ApplyAll(a, exceptions, today) + ApplyAll(b, exceptions, today)
  {
    hide ApplyOne;
    if b == [] {
      assert a + b == a;
    } else {
      ApplyAllOfAppend(a, b[..|b| - 1], exceptions, today);
      assert (a + b)[..|a + b| - 1] == a + b[..|b| - 1];
      assert (a + b)[|a + b| - 1] == b[|b| - 1];
    }
  }

  /** Audit: the violations come out sorted, and they are the ones the tree, the policy and the day call for. */
  method Audit(tree: Tree, policy: Policy, tools: Toolchain, today: int) returns (violations: seq<Violation>)
    ensures Sorted(violations) && multiset(violations) == Expected(tree, policy, tools, today)
  {
    hide LimitFindings, FileFindings, ApplyOne, ModuleViolations, Sorted;
    var findings := [];
    for i := 0 to |policy.protectedFiles|
      invariant findings == ProtectedFindings(policy.protectedFiles[..i], tree.sizes, today)
    {
      findings := findings + LimitFindings(policy.protectedFiles[i], tree.sizes, today);
      assert policy.protectedFiles[..i + 1][..i] == policy.protectedFiles[..i];
    }
    assert policy.protectedFiles[..|policy.protectedFiles|] == policy.protectedFiles;
    ghost var protected := findings;
    var modules := ReconcileModules(tree.moduleDirs, policy);
    findings := findings + modules;
    ghost var before := findings;
    for i := 0 to |tree.files|
      invariant findings == before + TreeFindings(policy, tools, tree.files[..i])
    {
      findings := findings + FileFindings(policy, tools, tree.files[i]);
      assert tree.files[..i + 1][..i] == tree.files[..i];
    }
    assert tree.files[..|tree.files|] == tree.files;
    ghost var walked := TreeFindings(policy, tools, tree.files);
    var kept := ApplyExceptions(findings, policy.exceptions, today);
    AllSuppressedOrKept(protected, modules, walked, policy.exceptions, today, policy.protectedFiles, tree.sizes);
    var sorted := SortFindings(kept);
    violations := Violations(sorted);
  }

  lemma AllSuppressedOrKept(protected: seq<Finding>, modules: seq<Finding>, walked: seq<Finding>, exceptions: seq<Exception>, today: int,
                            limits: seq<SizeLimit>, sizes: map<string, nat>)
    requires protected == ProtectedFindings(limits, sizes, today) && forall f :: f in modules ==> f.importPath == ""
    ensures
      multiset(Violations(ApplyAll(protected + modules + walked, exceptions, today))) ==
      multiset(Violations(protected)) + multiset(Violations(modules)) + multiset(Violations(ApplyAll(walked, exceptions, today)))
  {
    ProtectedFindingsHaveNoImport(limits, sizes, today);
    OtherFindingsAreNeverSuppressed(protected, exceptions, today);
    OtherFindingsAreNeverSuppressed(modules, exceptions, today);
    ApplyAllOfAppend(protected + modules, walked, exceptions, today);
    ApplyAllOfAppend(protected, modules, exceptions, today);
    var rest := ApplyAll(walked, exceptions, today);
    ViolationsOfAppend(protected + modules, rest);
    ViolationsOfAppend(protected, modules);
  }
}
