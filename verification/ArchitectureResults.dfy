/** What a passing audit guarantees: layering along every import path, privacy of other modules'
    adapters and transport, one definite list of violations, and exceptions that only buy time. */
module ArchitectureResults {
  import opened Text
  import opened ArchitecturePaths
  import opened ArchitecturePolicy
  import opened ArchitectureAudit

  // ----- One definite answer -----

  /** The violation list is a function of tree, policy, toolchain and day: whatever order maps are
      walked in and however the sort treats equal findings, two audits return the same list. */
  lemma AuditIsAFunction(tree: Tree, policy: Policy, tools: Toolchain, today: int, a: seq<Violation>, b: seq<Violation>)
    requires Sorted(a) && multiset(a) == Expected(tree, policy, tools, today)
    requires Sorted(b) && multiset(b) == Expected(tree, policy, tools, today)
    ensures a == b
  {
    hide Sorted, Expected;
    SortedListIsUnique(a, b);
  }

  // ----- Time -----

  lemma OneFindingOverTime(item: Finding, exceptions: seq<Exception>, earlier: int, later: int)
    requires earlier <= later
    ensures multiset(Violations(ApplyOne(item, exceptions, earlier))) <= multiset(Violations(ApplyOne(item, exceptions, later)))
  {
    hide FirstMatch, Matches;
    if ApplyOne(item, exceptions, earlier) == [] {
      assert Violations([]) == [];
    } else {
      assert ApplyOne(item, exceptions, earlier) == ApplyOne(item, exceptions, later);
    }
  }

  lemma {:induction false} FindingsOverTime(findings: seq<Finding>, exceptions: seq<Exception>, earlier: int, later: int)
    requires earlier <= later
    ensures multiset(Violations(ApplyAll(findings, exceptions, earlier))) <= multiset(Violations(ApplyAll(findings, exceptions, later)))
  {
    if findings != [] {
      hide ApplyOne;
      var front, last := findings[..|findings| - 1], findings[|findings| - 1];
      FindingsOverTime(front, exceptions, earlier, later);
      OneFindingOverTime(last, exceptions, earlier, later);
      ViolationsOfAppend(ApplyAll(front, exceptions, earlier), ApplyOne(last, exceptions, earlier));
      ViolationsOfAppend(ApplyAll(front, exceptions, later), ApplyOne(last, exceptions, later));
    }
  }

  lemma LimitOverTime(limit: SizeLimit, sizes: map<string, nat>, earlier: int, later: int)
    requires earlier <= later
    ensures multiset(Violations(LimitFindings(limit, sizes, earlier))) <= multiset(Violations(LimitFindings(limit, sizes, later)))
  {
    hide DecimalInt, Decimal;
    var before, after := LimitFindings(limit, sizes, earlier), LimitFindings(limit, sizes, later);
    if before != after {
      assert after == [after[0]] + before;
      ViolationsOfAppend([after[0]], before);
    }
  }

  lemma {:induction false} LimitsOverTime(limits: seq<SizeLimit>, sizes: map<string, nat>, earlier: int, later: int)
    requires earlier <= later
    ensures multiset(Violations(ProtectedFindings(limits, sizes, earlier))) <= multiset(Violations(ProtectedFindings(limits, sizes, later)))
  {
    if limits != [] {
      hide LimitFindings;
      var front, last := limits[..|limits| - 1], limits[|limits| - 1];
      LimitsOverTime(front, sizes, earlier, later);
      LimitOverTime(last, sizes, earlier, later);
      ViolationsOfAppend(ProtectedFindings(front, sizes, earlier), LimitFindings(last, sizes, earlier));
      ViolationsOfAppend(ProtectedFindings(front, sizes, later), LimitFindings(last, sizes, later));
    }
  }

  /** For a fixed tree and policy, violations only accumulate as days go by. */
  lemma ViolationsOnlyAccumulate(tree: Tree, policy: Policy, tools: Toolchain, earlier: int, later: int)
    requires earlier <= later
    ensures Expected(tree, policy, tools, earlier) <= Expected(tree, policy, tools, later)
  {
    hide TreeFindings, ModuleViolations, ProtectedFindings, ApplyAll;
    LimitsOverTime(policy.protectedFiles, tree.sizes, earlier, later);
    FindingsOverTime(TreeFindings(policy, tools, tree.files), policy.exceptions, earlier, later);
  }

  /** A finding is suppressed exactly while the first valid exception written for it has not expired,
      and a finding that is not about an import is never suppressed. */
  lemma SuppressedExactlyWhileExcepted(item: Finding, exceptions: seq<Exception>, today: int)
    ensures ApplyOne(item, exceptions, today) == [] <==>
            FirstMatch(exceptions, item).Some? && today <= FirstMatch(exceptions, item).value.expiresOn.day.value
    ensures item in ApplyOne(item, exceptions, today) <==> ApplyOne(item, exceptions, today) != []
    ensures item.importPath == "" ==> ApplyOne(item, exceptions, today) == [item]
  {
    BlankIsNotATarget();
  }

  lemma {:induction false} NothingSuppressedAfterTheLastExpiry(findings: seq<Finding>, exceptions: seq<Exception>, today: int)
    requires forall e :: e in exceptions && e.Valid() ==> ExceptionExpired(e, today)
    ensures multiset(Violations(findings)) <= multiset(Violations(ApplyAll(findings, exceptions, today)))
  {
    if findings != [] {
      hide FirstMatch, Matches;
      var front, last := findings[..|findings| - 1], findings[|findings| - 1];
      NothingSuppressedAfterTheLastExpiry(front, exceptions, today);
      var kept := ApplyOne(last, exceptions, today);
      assert kept[|kept| - 1] == last by { LastIsKept(last, exceptions, today); }
      assert findings == front + [last];
      assert kept == kept[..|kept| - 1] + [last];
      ViolationsOfAppend(front, [last]);
      ViolationsOfAppend(ApplyAll(front, exceptions, today), kept);
      ViolationsOfAppend(kept[..|kept| - 1], [last]);
    }
  }

  lemma LastIsKept(item: Finding, exceptions: seq<Exception>, today: int)
    requires forall e :: e in exceptions && e.Valid() ==> ExceptionExpired(e, today)
    ensures var kept := ApplyOne(item, exceptions, today); kept != [] && kept[|kept| - 1] == item
  {
  }

  /** Once every exception has expired, each raw finding of every file is reported. */
  lemma EverythingIsReportedAfterTheLastExpiry(tree: Tree, policy: Policy, tools: Toolchain, today: int)
    requires forall e :: e in policy.exceptions && e.Valid() ==> ExceptionExpired(e, today)
    ensures multiset(Violations(TreeFindings(policy, tools, tree.files))) <= Expected(tree, policy, tools, today)
  {
    hide TreeFindings, ModuleViolations, ProtectedFindings, ApplyAll;
    NothingSuppressedAfterTheLastExpiry(TreeFindings(policy, tools, tree.files), policy.exceptions, today);
  }

  // ----- When an audit is clean -----

  ghost function ClassOf(file: SourceFile, policy: Policy): (string, Layer) {
    ClassifyFile(NormalizePath(file.path), policy.modulePackages)
  }

  /** The file is there, within its limit, and its debt, if any, has not expired. */
  predicate WithinLimit(limit: SizeLimit, sizes: map<string, nat>, today: int) {
    && limit.path in sizes && sizes[limit.path] <= limit.maxBytes
    && !(limit.debt.Some? && DebtExpired(limit.debt.value, today))
  }

  /** No forbidden name, a known place, and of each import only findings that an exception suppresses. */
  ghost predicate FileIsClean(policy: Policy, tools: Toolchain, today: int, file: SourceFile) {
    var path := NormalizePath(file.path);
    var (moduleName, layer) := ClassOf(file, policy);
    && (forall pattern :: pattern in policy.forbiddenNewFiles ==> !tools.glob(pattern, path))
    && (layer == Unknown ==> moduleName == "")
    && (layer != Unknown ==> forall target :: target in file.imports ==>
          AllSuppressed(DependencyFindings(policy, tools.std, path, moduleName, layer, target), policy, today))
  }

  ghost predicate AllSuppressed(findings: seq<Finding>, policy: Policy, today: int) {
    forall item :: item in findings ==> ApplyOne(item, policy.exceptions, today) == []
  }

  lemma {:induction false} NothingKeptExactlyWhenSuppressed(findings: seq<Finding>, policy: Policy, today: int)
    ensures ApplyAll(findings, policy.exceptions, today) == [] <==> AllSuppressed(findings, policy, today)
  {
    hide ApplyOne;
    if findings != [] {
      var front, last := findings[..|findings| - 1], findings[|findings| - 1];
      assert findings == front + [last];
      NothingKeptExactlyWhenSuppressed(front, policy, today);
    }
  }

  lemma {:induction false} SuppressedFileByFile(policy: Policy, tools: Toolchain, today: int, files: seq<SourceFile>)
    ensures AllSuppressed(TreeFindings(policy, tools, files), policy, today) <==>
      forall file :: file in files ==> AllSuppressed(FileFindings(policy, tools, file), policy, today)
  {
    hide ApplyOne, FileFindings;
    if files != [] {
      var front, last := files[..|files| - 1], files[|files| - 1];
      assert files == front + [last];
      SuppressedFileByFile(policy, tools, today, front);
    }
  }

  lemma {:induction false} SuppressedImportByImport(policy: Policy, std: string -> bool, path: string, moduleName: string, layer: Layer,
                                                    imports: seq<string>, today: int)
    requires layer != Unknown
    ensures AllSuppressed(ImportFindings(policy, std, path, moduleName, layer, imports), policy, today) <==>
      forall target :: target in imports ==> AllSuppressed(DependencyFindings(policy, std, path, moduleName, layer, target), policy, today)
  {
    hide ApplyOne, DependencyFindings;
    if imports != [] {
      var front, last := imports[..|imports| - 1], imports[|imports| - 1];
      assert imports == front + [last];
      SuppressedImportByImport(policy, std, path, moduleName, layer, front, today);
    }
  }

  lemma {:induction false} ForbiddenIsNeverSuppressed(patterns: seq<string>, glob: (string, string) -> bool, path: string, policy: Policy, today: int)
    ensures AllSuppressed(ForbiddenFindings(patterns, glob, path), policy, today) <==>
      forall pattern :: pattern in patterns ==> !glob(pattern, path)
  {
    hide ApplyOne;
    if patterns != [] {
      var front, last := patterns[..|patterns| - 1], patterns[|patterns| - 1];
      assert patterns == front + [last];
      ForbiddenIsNeverSuppressed(front, glob, path, policy, today);
      if glob(last, path) {
        var item := Finding(Violation(RULE_FORBIDDEN_FILE, path, "matches forbidden file pattern " + Quoted(last)), "");
        assert item in ForbiddenFindings(patterns, glob, path);
        SuppressedExactlyWhileExcepted(item, policy.exceptions, today);
      }
    }
  }

  lemma FileIsCleanExactlyWhenSuppressed(policy: Policy, tools: Toolchain, today: int, file: SourceFile)
    ensures AllSuppressed(FileFindings(policy, tools, file), policy, today) <==> FileIsClean(policy, tools, today, file)
  {
    hide ApplyOne, NormalizePath, ClassifyFile, ForbiddenFindings, ImportFindings, DependencyFindings;
    var path := NormalizePath(file.path);
    var (moduleName, layer) := ClassOf(file, policy);
    ForbiddenIsNeverSuppressed(policy.forbiddenNewFiles, tools.glob, path, policy, today);
    if layer != Unknown {
      SuppressedImportByImport(policy, tools.std, path, moduleName, layer, file.imports, today);
    } else {
      SuppressedExactlyWhileExcepted(Finding(Violation(RULE_MODULE, path, UNPLACED_DETAIL), ""), policy.exceptions, today);
    }
  }

  lemma NoLimitFindingExactlyWhenWithin(limit: SizeLimit, sizes: map<string, nat>, today: int)
    ensures LimitFindings(limit, sizes, today) == [] <==> WithinLimit(limit, sizes, today)
  {
  }

  lemma {:induction false} NothingProtectedExactlyWhenWithin(limits: seq<SizeLimit>, sizes: map<string, nat>, today: int)
    ensures ProtectedFindings(limits, sizes, today) == [] <==> forall limit :: limit in limits ==> WithinLimit(limit, sizes, today)
  {
    hide LimitFindings, WithinLimit;
    if limits != [] {
      var front, last := limits[..|limits| - 1], limits[|limits| - 1];
      assert limits == front + [last];
      NothingProtectedExactlyWhenWithin(front, sizes, today);
      NoLimitFindingExactlyWhenWithin(last, sizes, today);
    }
  }

  lemma NoModuleViolationExactlyWhenSame(dirs: set<string>, policy: Policy)
    ensures ModuleViolations(dirs, policy) == multiset{} <==> dirs == policy.Registered()
  {
    var strays := set m | m in dirs && m !in policy.Registered() :: UnregisteredModule(m);
    var missing := set m | m in policy.Registered() && m !in dirs :: MissingModule(m, ModuleKind(policy, m));
    assert forall m :: m in dirs && m !in policy.Registered() ==> UnregisteredModule(m) in strays && UnregisteredModule(m) in ModuleViolations(dirs, policy);
    assert forall m :: m in policy.Registered() && m !in dirs ==>
      MissingModule(m, ModuleKind(policy, m)) in missing && MissingModule(m, ModuleKind(policy, m)) in ModuleViolations(dirs, policy);
    if dirs == policy.Registered() {
      assert strays == {} && missing == {};
    }
  }

  lemma NoViolationsOf(findings: seq<Finding>)
    ensures multiset(Violations(findings)) == multiset{} <==> findings == []
  {
    assert |multiset(Violations(findings))| == |findings|;
  }

  /** An audit reports nothing exactly when every protected file is within its limit, the module directories
      are the registered modules, and every file is clean. */
  lemma AuditIsCleanExactlyWhen(tree: Tree, policy: Policy, tools: Toolchain, today: int)
    ensures Expected(tree, policy, tools, today) == multiset{} <==>
      && (forall limit :: limit in policy.protectedFiles ==> WithinLimit(limit, tree.sizes, today))
      && tree.moduleDirs == policy.Registered()
      && (forall file :: file in tree.files ==> FileIsClean(policy, tools, today, file))
  {
    hide TreeFindings, FileFindings, ModuleViolations, ProtectedFindings, ApplyAll, AllSuppressed, FileIsClean, WithinLimit;
    var walked := TreeFindings(policy, tools, tree.files);
    NoViolationsOf(ProtectedFindings(policy.protectedFiles, tree.sizes, today));
    NothingProtectedExactlyWhenWithin(policy.protectedFiles, tree.sizes, today);
    NoModuleViolationExactlyWhenSame(tree.moduleDirs, policy);
    NoViolationsOf(ApplyAll(walked, policy.exceptions, today));
    NothingKeptExactlyWhenSuppressed(walked, policy, today);
    SuppressedFileByFile(policy, tools, today, tree.files);
    forall file | file in tree.files
      ensures AllSuppressed(FileFindings(policy, tools, file), policy, today) <==> FileIsClean(policy, tools, today, file)
    {
      FileIsCleanExactlyWhenSuppressed(policy, tools, today, file);
    }
  }

  // ----- What a passing audit says about one import -----

  /** A valid exception that has not expired names this import of this file. */
  ghost predicate Excepted(policy: Policy, path: string, target: string, today: int) {
    exists e :: e in policy.exceptions && e.Valid() && e.path == path && e.target == target && !ExceptionExpired(e, today)
  }

  lemma SuppressedImportIsExcepted(policy: Policy, std: string -> bool, path: string, moduleName: string, layer: Layer, target: string, today: int)
    requires layer != Unknown && AllSuppressed(DependencyFindings(policy, std, path, moduleName, layer, target), policy, today)
    ensures DependencyFindings(policy, std, path, moduleName, layer, target) != [] ==> Excepted(policy, path, target, today)
  {
    hide CrossesIntoPrivate, IsLegacyImport, AllowedByLayer;
    var findings := DependencyFindings(policy, std, path, moduleName, layer, target);
    if findings != [] {
      var item := findings[0];
      assert item in findings && item.violation.path == path && item.importPath == target;
      assert FirstMatch(policy.exceptions, item).Some?;
    }
  }

  /** After a clean audit, an import that no exception names meets every rule. */
  lemma PassingImport(tree: Tree, policy: Policy, tools: Toolchain, today: int, file: SourceFile, target: string)
    requires Expected(tree, policy, tools, today) == multiset{}
    requires file in tree.files && target in file.imports && ClassOf(file, policy).0 != ""
    requires !Excepted(policy, NormalizePath(file.path), target, today)
    ensures
      var path := NormalizePath(file.path);
      var (moduleName, layer) := ClassOf(file, policy);
      && layer != Unknown && !IsLegacyImport(target)
      && !CrossesIntoPrivate(policy, path, moduleName, layer, target)
      && AllowedByLayer(policy, tools.std, path, moduleName, layer, target)
  {
    hide Expected, NormalizePath, ClassifyFile, CrossesIntoPrivate, IsLegacyImport, AllowedByLayer, WithinLimit;
    AuditIsCleanExactlyWhen(tree, policy, tools, today);
    var path := NormalizePath(file.path);
    var (moduleName, layer) := ClassOf(file, policy);
    SuppressedImportIsExcepted(policy, tools.std, path, moduleName, layer, target, today);
  }

  // ----- Import paths -----

  const REPOSITORY := "jiyi/mochat-go"

  /** The import path of the package a file belongs to. */
  function PackageOf(path: string): string {
    var segments := Split(path, '/');
    if |segments| == 1 then REPOSITORY else REPOSITORY + "/" + Join(segments[..|segments| - 1], '/')
  }

  /** An import path through the tree: each file imports the package that the next file belongs to. */
  ghost predicate ImportChain(tree: Tree, files: seq<SourceFile>, targets: seq<string>) {
    && |files| == |targets|
    && (forall i :: 0 <= i < |files| ==> files[i] in tree.files && PlainPath(Split(files[i].path, '/')))
    && (forall i :: 0 <= i < |files| ==> targets[i] in files[i].imports)
    && (forall i :: 0 < i < |files| ==> PackageOf(files[i].path) == targets[i - 1])
  }

  /** The policy lists this import, as a grant or as an exception in force. */
  ghost predicate Listed(policy: Policy, file: SourceFile, target: string, today: int) {
    var path := NormalizePath(file.path);
    var (moduleName, layer) := ClassOf(file, policy);
    Granted(policy, path, moduleName, layer, target) || Excepted(policy, path, target, today)
  }

  predicate Inner(layer: Layer) {
    layer == Domain || layer == Ports || layer == Application
  }

  predicate ReachesDatabaseOrHttp(target: string) {
    IsPackageFamily(target, "database/sql") || IsPackageFamily(target, "net/http")
  }

  /** The target is a standard package other than database/sql and net/http, or the domain or ports layer of the module itself. */
  predicate Confined(target: string, moduleName: string, policy: Policy, std: string -> bool) {
    if target == "C" || std(target) then !ReachesDatabaseOrHttp(target)
    else ClassifyImport(target, policy.modulePackages) in {(moduleName, Domain), (moduleName, Ports)}
  }

  /** No package of the repository itself is standard library. */
  ghost predicate RepositoryIsNotStandard(std: string -> bool) {
    forall t :: IsPackageFamily(t, REPOSITORY) ==> !std(t)
  }

  lemma UnlistedInnerImportIsConfined(tree: Tree, policy: Policy, tools: Toolchain, today: int, file: SourceFile, target: string)
    requires Expected(tree, policy, tools, today) == multiset{}
    requires file in tree.files && target in file.imports
    requires ClassOf(file, policy).0 != "" && Inner(ClassOf(file, policy).1) && !Listed(policy, file, target, today)
    ensures Confined(target, ClassOf(file, policy).0, policy, tools.std)
    ensures target != "C" && !tools.std(target) && ClassOf(file, policy).1 != Application ==>
            ClassifyImport(target, policy.modulePackages).1 == Domain
  {
    hide Expected, Excepted, NormalizePath, ClassifyFile, CrossesIntoPrivate, IsLegacyImport, ClassifyImport, Granted, IsPackageFamily;
    PassingImport(tree, policy, tools, today, file, target);
    var (moduleName, layer) := ClassOf(file, policy);
    assert AllowedByLayer(policy, tools.std, NormalizePath(file.path), moduleName, layer, target);
    assert !Granted(policy, NormalizePath(file.path), moduleName, layer, target);
    var (importedModule, importedLayer) := ClassifyImport(target, policy.modulePackages);
  }

  /** The directories of a package path below internal/modules, read off its text. */
  lemma DirectoriesBelowModules(dirs: seq<string>, rest: string)
    requires dirs != [] && (forall d :: d in dirs ==> '/' !in d)
    requires REPOSITORY + "/" + Join(dirs, '/') == MODULE_PREFIX + rest
    ensures dirs == ["internal", "modules"] + Split(rest, '/')
  {
    hide Join, Split;
    var start := REPOSITORY + "/";
    var tail := Join(dirs, '/');
    assert MODULE_PREFIX == start + "internal/modules/";
    assert tail == (start + tail)[|start|..];
    assert "internal/modules/" + rest == (MODULE_PREFIX + rest)[|start|..];
    assert tail == "internal" + ['/'] + ("modules" + ['/'] + rest);
    assert '/' !in "internal" && '/' !in "modules";
    SplitFirst("internal", "modules" + ['/'] + rest, '/');
    SplitFirst("modules", rest, '/');
    SplitOfJoin(dirs, '/');
  }

  /** A file whose package lies below internal/modules, taken apart. */
  lemma PathOfImportedFile(path: string, target: string) returns (moduleName: string, below: seq<string>, file: string)
    requires PlainPath(Split(path, '/')) && PackageOf(path) == target && HasPrefix(target, MODULE_PREFIX)
    ensures path == Join(ModuleFile(moduleName, below, file), '/') && PlainPath(ModuleFile(moduleName, below, file))
    ensures target == MODULE_PREFIX + Join([moduleName] + below, '/') && PlainPath([moduleName] + below)
  {
    hide Join, Split, PlainName;
    var segments := Split(path, '/');
    var rest := TrimPrefix(target, MODULE_PREFIX);
    assert target == MODULE_PREFIX + rest;
    assert |target| >= |MODULE_PREFIX| > |REPOSITORY|;
    JoinOfSplit(path, '/');
    var dirs := segments[..|segments| - 1];
    assert forall d :: d in dirs ==> d in segments;
    DirectoriesBelowModules(dirs, rest);
    var parts := Split(rest, '/');
    JoinOfSplit(rest, '/');
    moduleName, below, file := parts[0], parts[1..], segments[|segments| - 1];
    assert segments == dirs + [file] == ModuleFile(moduleName, below, file);
    assert [moduleName] + below == parts;
    assert forall d :: d in parts ==> d in dirs;
  }

  lemma ClassifiedTargetIsBelowModules(target: string, packages: seq<ModulePackage>)
    requires ClassifyImport(target, packages).0 != ""
    ensures HasPrefix(target, MODULE_PREFIX)
  {
  }

  /** A file belongs to the module and layer that importing its package points to. */
  lemma NextFileIsWhereTheImportPoints(path: string, target: string, packages: seq<ModulePackage>)
    requires PlainPath(Split(path, '/')) && PackageOf(path) == target && ClassifyImport(target, packages).0 != ""
    ensures ClassifyFile(NormalizePath(path), packages) == ClassifyImport(target, packages)
  {
    hide Join, Split, NormalizePath, ClassifyFile, ClassifyImport, PlainPath, PackageOf;
    ClassifiedTargetIsBelowModules(target, packages);
    var moduleName, below, file := PathOfImportedFile(path, target);
    PlainPathIsNormal(ModuleFile(moduleName, below, file));
    FileClass(moduleName, below, file, packages);
    ImportClass(moduleName, below, packages);
  }

  /** Main layering result. After an audit without violations, follow any import path, of any length,
      from a file in the domain, ports or application layer of a module: as long as no import on it is
      listed in the policy, every package it reaches is in the domain or ports layer of the same
      module, from the second step on in its domain layer, or is a standard package other than
      database/sql and net/http. */
  lemma {:induction false} InnerLayersStayInside(
      tree: Tree, policy: Policy, tools: Toolchain, today: int, files: seq<SourceFile>, targets: seq<string>, i: nat)
    requires Expected(tree, policy, tools, today) == multiset{} && RepositoryIsNotStandard(tools.std)
    requires ImportChain(tree, files, targets) && i < |files|
    requires ClassOf(files[0], policy).0 != "" && Inner(ClassOf(files[0], policy).1)
    requires forall j :: 0 <= j <= i ==> !Listed(policy, files[j], targets[j], today)
    ensures Confined(targets[i], ClassOf(files[0], policy).0, policy, tools.std)
    ensures ClassOf(files[i], policy).0 == ClassOf(files[0], policy).0 && Inner(ClassOf(files[i], policy).1)
    ensures i > 0 && targets[i] != "C" && !tools.std(targets[i]) ==> ClassifyImport(targets[i], policy.modulePackages).1 == Domain
    decreases i
  {
    hide Expected, Listed, ClassifyImport, ClassifyFile, NormalizePath;
    if i > 0 {
      InnerLayersStayInside(tree, policy, tools, today, files, targets, i - 1);
      PackageIsNotStandard(files[i].path, tools.std);
      NextFileIsWhereTheImportPoints(files[i].path, targets[i - 1], policy.modulePackages);
    }
    UnlistedInnerImportIsConfined(tree, policy, tools, today, files[i], targets[i]);
  }

  lemma PackageIsNotStandard(path: string, std: string -> bool)
    requires RepositoryIsNotStandard(std)
    ensures PackageOf(path) != "C" && !std(PackageOf(path))
  {
    assert IsPackageFamily(PackageOf(path), REPOSITORY);
  }

  /** With empty grant and exception lists nothing is listed, so every import path is confined. */
  lemma WithoutGrantsEveryPathIsConfined(
      tree: Tree, policy: Policy, tools: Toolchain, today: int, files: seq<SourceFile>, targets: seq<string>, i: nat)
    requires Expected(tree, policy, tools, today) == multiset{} && RepositoryIsNotStandard(tools.std)
    requires ImportChain(tree, files, targets) && i < |files|
    requires ClassOf(files[0], policy).0 != "" && Inner(ClassOf(files[0], policy).1)
    requires policy.publicImports == [] && policy.packageImports == [] && policy.testImports == [] && policy.exceptions == []
    ensures Confined(targets[i], ClassOf(files[0], policy).0, policy, tools.std)
  {
    hide Expected, ImportChain, Confined, ClassOf;
    InnerLayersStayInside(tree, policy, tools, today, files, targets, i);
  }

  // ----- Privacy between modules -----

  lemma PublicTargetsAreNotPrivate(consumer: string, target: string, registered: set<string>, packages: seq<ModulePackage>)
    requires PublicTargetAllowed(consumer, target, registered)
    ensures ClassifyImport(target, packages).1 !in {Adapters, Transport}
  {
    hide Split;
  }

  /** Main privacy result: whatever the validated policy grants in its package and public imports,
      without exceptions a passing module file outside the tests imports no adapters and no transport
      package of another module. */
  lemma PrivateLayersStayPrivate(
      tree: Tree, policy: Policy, tools: Toolchain, today: int, patternOk: string -> bool, file: SourceFile, target: string)
    requires Validated(policy, patternOk) && policy.exceptions == []
    requires Expected(tree, policy, tools, today) == multiset{}
    requires file in tree.files && target in file.imports && ClassOf(file, policy).0 != ""
    requires !HasSuffix(NormalizePath(file.path), "_test.go")
    ensures
      var (importedModule, importedLayer) := ClassifyImport(target, policy.modulePackages);
      importedModule == "" || importedModule == ClassOf(file, policy).0 || importedLayer !in {Adapters, Transport}
  {
    hide Expected, NormalizePath, ClassifyFile, ClassifyImport, IsLegacyImport, AllowedByLayer, ModulesOk, FilesOk, RestOk, PolicyLayer, PublicTargetAllowed,
      ModulePackagePath;
    PassingImport(tree, policy, tools, today, file, target);
    forall g | g in policy.publicImports && g.target == target
      ensures ClassifyImport(target, policy.modulePackages).1 !in {Adapters, Transport}
    {
      PublicTargetsAreNotPrivate(g.moduleName, target, policy.Registered(), policy.modulePackages);
    }
  }
}
