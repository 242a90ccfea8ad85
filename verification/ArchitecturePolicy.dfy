/** The architecture policy: its entries, its validation, and the three classifiers that place a
    file, an import and a policy entry in a module layer. */
module ArchitecturePolicy {
  import opened Text
  import opened ArchitecturePaths

  // ----- Layers -----

  datatype Layer = Unknown | Domain | Ports | Application | Adapters | Transport | ModuleRoot

  function LayerByName(name: string): Layer {
    if name == "domain" then Domain
    else if name == "ports" then Ports
    else if name == "application" then Application
    else if name == "adapters" then Adapters
    else if name == "transport" then Transport
    else if name == "module" then ModuleRoot
    else Unknown
  }

  predicate ValidLayerName(name: string) {
    name == "domain" || name == "ports" || name == "application" || name == "adapters" || name == "transport" || name == "module"
  }

  // ----- Policy entries -----

  /** A date field: its text, and the day number the date library reads from it, if any. */
  datatype Date = Date(text: string, day: Option<int>)

  datatype ModulePackage = ModulePackage(moduleName: string, path: string, layer: string)
  datatype PublicModuleImport = PublicModuleImport(moduleName: string, package: string, layer: string, target: string)
  datatype PackageImport = PackageImport(moduleName: string, package: string, target: string)
  datatype TestImport = TestImport(moduleName: string, package: string, target: string)

  datatype ProtectedDebt = ProtectedDebt(owner: string, reason: string, action: string, baseline: string, createdOn: Date, expiresOn: Date)
  {
    predicate Valid() {
      && TrimSpace(owner) != "" && TrimSpace(reason) != "" && TrimSpace(action) != "" && TrimSpace(baseline) != ""
      && TrimSpace(createdOn.text) != "" && TrimSpace(expiresOn.text) != ""
      && createdOn.day.Some? && expiresOn.day.Some?
      && createdOn.day.value <= expiresOn.day.value <= createdOn.day.value + 90
    }
  }

  datatype SizeLimit = SizeLimit(path: string, targetBytes: int, maxBytes: int, debt: Option<ProtectedDebt>)

  datatype Exception = Exception(
    ruleId: string, path: string, target: string, reason: string, owner: string, createdOn: Date, expiresOn: Date, cleanup: string)
  {
    predicate Valid() {
      && TrimSpace(ruleId) != "" && TrimSpace(path) != "" && TrimSpace(target) != "" && TrimSpace(reason) != ""
      && TrimSpace(owner) != "" && TrimSpace(createdOn.text) != "" && TrimSpace(expiresOn.text) != "" && TrimSpace(cleanup) != ""
      && !HasWildcard(path) && !IsAbsolute(path)
      && createdOn.day.Some? && expiresOn.day.Some?
      && createdOn.day.value <= expiresOn.day.value <= createdOn.day.value + 90
    }
  }

  datatype Policy = Policy(
    productionModules: seq<string>, exampleModules: seq<string>, modulePackages: seq<ModulePackage>,
    publicImports: seq<PublicModuleImport>, packageImports: seq<PackageImport>, testImports: seq<TestImport>,
    protectedFiles: seq<SizeLimit>, forbiddenNewFiles: seq<string>, exceptions: seq<Exception>)
  {
    function Registered(): set<string> {
      (set m | m in productionModules) + (set m | m in exampleModules)
    }
  }

  predicate HasWildcard(path: string) {
    '*' in path || '?' in path || '[' in path || ']' in path
  }

  predicate IsAbsolute(path: string) {
    HasPrefix(path, "/")
  }

  predicate ValidExactImport(target: string) {
    target != "" && !HasWildcard(target) && '\\' !in target
  }

  // ----- Classifiers -----

  const MODULE_PREFIX := "jiyi/mochat-go/internal/modules/"

  /** The layer of the first entry that declares the package. */
  function DeclaredLayer(packages: seq<ModulePackage>, moduleName: string, path: string): Layer {
    if packages == [] then Unknown
    else if packages[0].moduleName == moduleName && path == packages[0].path then LayerByName(packages[0].layer)
    else DeclaredLayer(packages[1..], moduleName, path)
  }

  /** classifyWithPolicy: the module and layer of a file. */
  function ClassifyFile(path: string, packages: seq<ModulePackage>): (string, Layer) {
    ClassifyFrom(Split(NormalizePath(path), '/'), 0, packages)
  }

  function ClassifyFrom(parts: seq<string>, index: nat, packages: seq<ModulePackage>): (string, Layer)
    decreases |parts| - index
  {
    if index + 2 >= |parts| then ("", Unknown)
    else if parts[index] != "internal" || parts[index + 1] != "modules" then ClassifyFrom(parts, index + 1, packages)
    else
      var moduleName := parts[index + 2];
      if moduleName == "" then ("", Unknown)
      else if index + 3 == |parts| || index + 4 == |parts| then (moduleName, ModuleRoot)
      else if parts[index + 3] == "domain" then (moduleName, Domain)
      else if parts[index + 3] == "ports" then (moduleName, Ports)
      else if parts[index + 3] == "application" then (moduleName, Application)
      else if parts[index + 3] == "adapters" then (moduleName, Adapters)
      else if parts[index + 3] == "transport" then (moduleName, Transport)
      else (moduleName, DeclaredLayer(packages, moduleName, Join(parts[index + 3..|parts| - 1], '/')))
  }

  /** classifyModuleImportWithPolicy: the module and layer of an import path. */
  function ClassifyImport(target: string, packages: seq<ModulePackage>): (string, Layer) {
    if !HasPrefix(target, MODULE_PREFIX) then ("", Unknown)
    else
      var parts := Split(TrimPrefix(target, MODULE_PREFIX), '/');
      if parts[0] == "" then ("", Unknown)
      else if |parts| == 1 then (parts[0], ModuleRoot)
      else if parts[1] == "domain" then (parts[0], Domain)
      else if parts[1] == "ports" then (parts[0], Ports)
      else if parts[1] == "application" then (parts[0], Application)
      else if parts[1] == "adapters" then (parts[0], Adapters)
      else if parts[1] == "transport" then (parts[0], Transport)
      else (parts[0], DeclaredLayer(packages, parts[0], Join(parts[1..], '/')))
  }

  /** policyPackageLayer: the layer name validation gives a package of a module. */
  function PolicyLayer(moduleName: string, package: string, packages: seq<ModulePackage>): Option<string> {
    var path := NormalizePath(package);
    if path == "." then Some("module")
    else
      var first := Split(path, '/')[0];
      if first == "domain" || first == "ports" || first == "application" || first == "adapters" || first == "transport" then Some(first)
      else DeclaredLayerName(packages, moduleName, path)
  }

  function DeclaredLayerName(packages: seq<ModulePackage>, moduleName: string, path: string): Option<string> {
    if packages == [] then None
    else if packages[0].moduleName == moduleName && packages[0].path == path then Some(packages[0].layer)
    else DeclaredLayerName(packages[1..], moduleName, path)
  }

  /** modulePackagePath: the package of a file, relative to its module. */
  function ModulePackagePath(path: string, moduleName: string): string {
    var trimmed := TrimPrefix(NormalizePath(path), "internal/modules/" + moduleName + "/");
    var directory := NormalizePath(DirOf(trimmed));
    if directory == "." || directory == "" then "." else directory
  }

  // ----- The classifiers agree -----

  function LayerOfName(name: Option<string>): Layer {
    if name.None? then Unknown else LayerByName(name.value)
  }

  lemma {:induction false} DeclarationsAgree(packages: seq<ModulePackage>, moduleName: string, path: string)
    requires forall p :: p in packages ==> ValidLayerName(p.layer)
    ensures LayerOfName(DeclaredLayerName(packages, moduleName, path)) == DeclaredLayer(packages, moduleName, path)
    ensures DeclaredLayerName(packages, moduleName, path).None? <==> DeclaredLayer(packages, moduleName, path) == Unknown
  {
    if packages != [] {
      assert packages[0] in packages;
      DeclarationsAgree(packages[1..], moduleName, path);
    }
  }

  function ModuleFile(moduleName: string, dirs: seq<string>, file: string): seq<string> {
    ["internal", "modules", moduleName] + dirs + [file]
  }

  lemma FileClass(moduleName: string, dirs: seq<string>, file: string, packages: seq<ModulePackage>)
    requires PlainPath(ModuleFile(moduleName, dirs, file))
    ensures
      ClassifyFile(Join(ModuleFile(moduleName, dirs, file), '/'), packages) ==
      (moduleName, LayerOfDirs(moduleName, dirs, packages))
  {
    hide Join, Split, NormalizePath;
    var parts := ModuleFile(moduleName, dirs, file);
    PlainPathIsNormal(parts);
    assert parts[0] == "internal" && parts[1] == "modules" && parts[2] == moduleName;
    assert parts[2] in parts;
    if dirs != [] {
      assert parts[3] == dirs[0];
      assert parts[3..|parts| - 1] == dirs;
    }
  }

  /** The layer that the directories below a module stand for. */
  function LayerOfDirs(moduleName: string, dirs: seq<string>, packages: seq<ModulePackage>): Layer {
    if dirs == [] then ModuleRoot
    else if dirs[0] in {"domain", "ports", "application", "adapters", "transport"} then LayerByName(dirs[0])
    else DeclaredLayer(packages, moduleName, Join(dirs, '/'))
  }

  lemma ImportClass(moduleName: string, dirs: seq<string>, packages: seq<ModulePackage>)
    requires PlainPath([moduleName] + dirs)
    ensures
      ClassifyImport(MODULE_PREFIX + Join([moduleName] + dirs, '/'), packages) ==
      (moduleName, LayerOfDirs(moduleName, dirs, packages))
  {
    hide Join, Split;
    var parts := [moduleName] + dirs;
    var target := MODULE_PREFIX + Join(parts, '/');
    assert forall s :: s in parts ==> '/' !in s;
    SplitOfJoin(parts, '/');
    assert TrimPrefix(target, MODULE_PREFIX) == Join(parts, '/');
    assert parts[0] in parts;
    assert parts[1..] == dirs;
  }

  lemma PackagePathOfFile(moduleName: string, dirs: seq<string>, file: string)
    requires PlainPath(ModuleFile(moduleName, dirs, file))
    ensures
      ModulePackagePath(Join(ModuleFile(moduleName, dirs, file), '/'), moduleName) ==
      if dirs == [] then "." else Join(dirs, '/')
  {
    hide Split, NormalizePath, DirOf;
    var parts := ModuleFile(moduleName, dirs, file);
    var rest := dirs + [file];
    PlainPathIsNormal(parts);
    assert parts == ["internal", "modules", moduleName] + rest;
    JoinAppend(["internal", "modules", moduleName], rest, '/');
    assert Join(["internal", "modules", moduleName], '/') == "internal/modules/" + moduleName by {
      JoinCons("internal", ["modules", moduleName], '/');
      JoinCons("modules", [moduleName], '/');
    }
    hide Join;
    var prefix := "internal/modules/" + moduleName + "/";
    assert Join(parts, '/') == prefix + Join(rest, '/');
    assert TrimPrefix(Join(parts, '/'), prefix) == Join(rest, '/');
    assert forall s :: s in rest ==> s in parts;
    DirOfPlainPath(dirs, file);
    if dirs == [] {
      NormalizeDot();
    } else {
      assert forall s :: s in dirs ==> s in parts;
      PlainPathIsNormal(dirs);
      PlainPathIsReduced(dirs);
      CleanOfReduced(dirs);
    }
  }

  lemma NormalizeDot()
    ensures NormalizePath(".") == "."
  {
    hide TrimSpace, Split;
    TrimSpaceTrims(".");
    assert Trimmed(".");
    NoSlashSplit(".");
    assert ["."][1..] == [];
    assert Reduce(["."], false, []) == [];
    CleanOfDot(".");
    assert Slashes(".") == ".";
    assert !HasPrefix(".", "./");
  }

  lemma PolicyLayerOfDirs(moduleName: string, dirs: seq<string>, packages: seq<ModulePackage>)
    requires dirs != [] ==> PlainPath(dirs)
    requires forall p :: p in packages ==> ValidLayerName(p.layer)
    ensures
      var name := PolicyLayer(moduleName, if dirs == [] then "." else Join(dirs, '/'), packages);
      && LayerOfName(name) == LayerOfDirs(moduleName, dirs, packages)
      && (name.None? <==> LayerOfDirs(moduleName, dirs, packages) == Unknown)
  {
    hide Join, Split, NormalizePath;
    if dirs == [] {
      NormalizeDot();
    } else {
      PlainPathIsNormal(dirs);
      PlainPathIsReduced(dirs);
      CleanOfReduced(dirs);
      DeclarationsAgree(packages, moduleName, Join(dirs, '/'));
    }
  }

  /** Main agreement result: for every file below a module, whatever the directories and declared
      packages, the file, the import of its package and the policy's own view of that package get the
      same module and layer, unknown included. */
  lemma ClassifiersAgree(moduleName: string, dirs: seq<string>, file: string, packages: seq<ModulePackage>)
    requires PlainPath(ModuleFile(moduleName, dirs, file))
    requires forall p :: p in packages ==> ValidLayerName(p.layer)
    ensures
      var path := Join(ModuleFile(moduleName, dirs, file), '/');
      var target := MODULE_PREFIX + Join([moduleName] + dirs, '/');
      var byPolicy := PolicyLayer(moduleName, ModulePackagePath(path, moduleName), packages);
      && ClassifyFile(path, packages) == ClassifyImport(target, packages)
      && ClassifyFile(path, packages).0 == moduleName
      && ClassifyFile(path, packages).1 == LayerOfName(byPolicy)
      && (byPolicy.None? <==> ClassifyFile(path, packages).1 == Unknown)
  {
    hide Join, Split, NormalizePath, ClassifyFile, ClassifyImport, PolicyLayer, ModulePackagePath;
    var parts := ModuleFile(moduleName, dirs, file);
    assert parts[2] == moduleName;
    assert forall s :: s in [moduleName] + dirs ==> s in parts;
    assert forall s :: s in dirs ==> s in parts;
    FileClass(moduleName, dirs, file, packages);
    ImportClass(moduleName, dirs, packages);
    PackagePathOfFile(moduleName, dirs, file);
    PolicyLayerOfDirs(moduleName, dirs, packages);
  }

  // ----- Validation -----

  function NormalPackage(p: ModulePackage): ModulePackage {
    ModulePackage(TrimSpace(p.moduleName), NormalizePath(p.path), TrimSpace(p.layer))
  }

  function NormalPublicImport(p: PublicModuleImport): PublicModuleImport {
    PublicModuleImport(TrimSpace(p.moduleName), NormalizePath(p.package), TrimSpace(p.layer), TrimSpace(p.target))
  }

  function NormalPackageImport(p: PackageImport): PackageImport {
    PackageImport(TrimSpace(p.moduleName), NormalizePath(p.package), TrimSpace(p.target))
  }

  function NormalTestImport(p: TestImport): TestImport {
    TestImport(TrimSpace(p.moduleName), NormalizePath(p.package), TrimSpace(p.target))
  }

  function NormalLimit(l: SizeLimit): SizeLimit {
    l.(path := NormalizePath(l.path), targetBytes := if l.targetBytes == 0 then l.maxBytes else l.targetBytes)
  }

  function NormalException(e: Exception): Exception {
    e.(path := NormalizePath(e.path))
  }

  predicate LimitAllowed(l: SizeLimit) {
    && l.path != "" && !IsAbsolute(l.path) && !HasWildcard(l.path) && 0 <= l.targetBytes <= l.maxBytes
    && if l.maxBytes > l.targetBytes then l.debt.Some? && l.debt.value.Valid() else l.debt.None?
  }

  predicate PackageAllowed(p: ModulePackage, registered: set<string>) {
    p.moduleName in registered && p.path != "" && !IsAbsolute(p.path) && !HasWildcard(p.path) && ValidLayerName(p.layer)
  }

  /** validPublicModuleTarget: only the root or the ports package of another registered module. */
  predicate PublicTargetAllowed(consumer: string, target: string, registered: set<string>) {
    && ValidExactImport(target) && HasPrefix(target, MODULE_PREFIX)
    && var parts := Split(TrimPrefix(target, MODULE_PREFIX), '/');
       && parts[0] != consumer && parts[0] in registered
       && (|parts| == 1 || (|parts| == 2 && parts[1] == "ports"))
  }

  predicate PublicImportAllowed(p: PublicModuleImport, registered: set<string>, packages: seq<ModulePackage>) {
    && p.moduleName in registered && p.package != "" && ValidLayerName(p.layer)
    && PolicyLayer(p.moduleName, p.package, packages) == Some(p.layer)
    && PublicTargetAllowed(p.moduleName, p.target, registered)
  }

  predicate PackageImportAllowed(p: PackageImport, registered: set<string>) {
    && p.moduleName in registered && p.package != "" && !IsAbsolute(p.package) && !HasWildcard(p.package)
    && ValidExactImport(p.target)
  }

  predicate TestImportAllowed(p: TestImport, registered: set<string>, packages: seq<ModulePackage>) {
    && p.moduleName in registered && p.package != "" && ValidExactImport(p.target)
    && PolicyLayer(p.moduleName, p.package, packages) in {Some("adapters"), Some("transport"), Some("module")}
  }

  predicate ModuleNameAllowed(name: string) {
    name != "" && '/' !in name && '\\' !in name
  }

  function PackageKey(p: ModulePackage): string {
    p.moduleName + ":" + p.path
  }

  ghost predicate DistinctKeys(packages: seq<ModulePackage>) {
    forall i, j :: 0 <= i < j < |packages| ==> PackageKey(packages[i]) != PackageKey(packages[j])
  }

  ghost predicate DistinctNames(names: seq<string>) {
    forall i, j :: 0 <= i < j < |names| ==> names[i] != names[j]
  }

  ghost function MapSeq<T>(items: seq<T>, f: T -> T): (r: seq<T>)
    ensures |r| == |items| && forall i :: 0 <= i < |items| ==> r[i] == f(items[i])
  {
    seq(|items|, i requires 0 <= i < |items| => f(items[i]))
  }

  /** The policy with every field in normal form. */
  ghost function Normalized(p: Policy): Policy {
    Policy(
      MapSeq(p.productionModules, TrimSpace), MapSeq(p.exampleModules, TrimSpace), MapSeq(p.modulePackages, NormalPackage),
      MapSeq(p.publicImports, NormalPublicImport), MapSeq(p.packageImports, NormalPackageImport),
      MapSeq(p.testImports, NormalTestImport), MapSeq(p.protectedFiles, NormalLimit),
      MapSeq(p.forbiddenNewFiles, NormalizePath), MapSeq(p.exceptions, NormalException))
  }

  /** What validation demands of a policy in normal form. */
  ghost predicate Validated(p: Policy, patternOk: string -> bool) {
    ModulesOk(p) && FilesOk(p) && ImportsOk(p) && RestOk(p, patternOk)
  }

  ghost predicate FilesOk(p: Policy) {
    && (forall l :: l in p.protectedFiles ==> LimitAllowed(l))
    && (forall x :: x in p.modulePackages ==> PackageAllowed(x, p.Registered())) && DistinctKeys(p.modulePackages)
  }

  ghost predicate ImportsOk(p: Policy) {
    && (forall x :: x in p.publicImports ==> PublicImportAllowed(x, p.Registered(), p.modulePackages))
    && (forall x :: x in p.packageImports ==> PackageImportAllowed(x, p.Registered()))
    && (forall x :: x in p.testImports ==> TestImportAllowed(x, p.Registered(), p.modulePackages))
  }

  predicate PatternAllowed(pattern: string, patternOk: string -> bool) {
    pattern != "" && !IsAbsolute(pattern) && patternOk(pattern)
  }

  ghost predicate RestOk(p: Policy, patternOk: string -> bool) {
    && (forall f :: f in p.forbiddenNewFiles ==> PatternAllowed(f, patternOk))
    && (forall e :: e in p.exceptions ==> e.Valid())
  }

  ghost predicate ModulesOk(p: Policy) {
    DistinctNames(p.productionModules + p.exampleModules) && forall m :: m in p.productionModules + p.exampleModules ==> ModuleNameAllowed(m)
  }

  lemma ModuleListsOk(production: seq<string>, examples: seq<string>)
    ensures
      (DistinctNames(production + examples) && forall m :: m in production + examples ==> ModuleNameAllowed(m)) <==>
      && (forall i :: 0 <= i < |production| ==> ModuleNameAllowed(production[i]))
      && (forall i, j :: 0 <= i < j < |production| ==> production[i] != production[j])
      && (forall i :: 0 <= i < |examples| ==> ModuleNameAllowed(examples[i]) && examples[i] !in production)
      && (forall i, j :: 0 <= i < j < |examples| ==> examples[i] != examples[j])
  {
    hide ModuleNameAllowed;
    var all := production + examples;
    assert forall i :: 0 <= i < |production| ==> all[i] == production[i];
    assert forall i :: 0 <= i < |examples| ==> all[|production| + i] == examples[i];
    if DistinctNames(all) && forall m :: m in all ==> ModuleNameAllowed(m) {
      assert forall i :: 0 <= i < |examples| ==> examples[i] in all;
      forall i | 0 <= i < |examples|
        ensures examples[i] !in production
      {
        assert all[|production| + i] == examples[i];
      }
    }
  }

  /** Rewrite a list in place until an item is not allowed. */
  method NormalizeList<T>(items: seq<T>, normal: T -> T, allowed: T -> bool) returns (ok: bool, out: seq<T>)
    ensures ok <==> forall x :: x in MapSeq(items, normal) ==> allowed(x)
    ensures ok ==> out == MapSeq(items, normal)
  {
    ghost var target := MapSeq(items, normal);
    out := items;
    for i := 0 to |items|
      invariant |out| == |items|
      invariant forall k :: 0 <= k < i ==> out[k] == target[k] && allowed(target[k])
      invariant forall k :: i <= k < |items| ==> out[k] == items[k]
    {
      out := out[i := normal(out[i])];
      if !allowed(out[i]) {
        assert target[i] in target;
        return false, out;
      }
    }
    ok := true;
  }

  /** normalizeModuleList: trim, reject bad names, reject names already registered. */
  method NormalizeModuleList(names: seq<string>, registered: set<string>) returns (ok: bool, out: seq<string>, all: set<string>)
    ensures |out| == |names|
    ensures ok ==> forall i :: 0 <= i < |names| ==> out[i] == TrimSpace(names[i])
    ensures ok ==> all == registered + set m | m in out
    ensures ok <==>
      && (forall i :: 0 <= i < |names| ==> ModuleNameAllowed(TrimSpace(names[i])) && TrimSpace(names[i]) !in registered)
      && (forall i, j :: 0 <= i < j < |names| ==> TrimSpace(names[i]) != TrimSpace(names[j]))
  {
    hide TrimSpace;
    out, all := names, registered;
    for i := 0 to |names|
      invariant |out| == |names|
      invariant forall k :: 0 <= k < i ==> out[k] == TrimSpace(names[k]) && ModuleNameAllowed(out[k]) && out[k] !in registered
      invariant forall k :: i <= k < |names| ==> out[k] == names[k]
      invariant forall j, k :: 0 <= j < k < i ==> TrimSpace(names[j]) != TrimSpace(names[k])
      invariant forall m :: m in all <==> m in registered || exists k :: 0 <= k < i && TrimSpace(names[k]) == m
    {
      var name := TrimSpace(names[i]);
      if !ModuleNameAllowed(name) || name in all {
        return false, out, all;
      }
      all, out := all + {name}, out[i := name];
    }
    ok := true;
    assert forall m :: m in out <==> exists k :: 0 <= k < |out| && out[k] == m;
  }

  /** The loop over the declared packages, with its set of keys already seen. */
  method NormalizePackages(items: seq<ModulePackage>, registered: set<string>) returns (ok: bool, out: seq<ModulePackage>)
    ensures ok ==> out == MapSeq(items, NormalPackage)
    ensures ok <==>
      (forall x :: x in MapSeq(items, NormalPackage) ==> PackageAllowed(x, registered)) && DistinctKeys(MapSeq(items, NormalPackage))
  {
    hide NormalPackage, PackageAllowed, PackageKey;
    ghost var target := MapSeq(items, NormalPackage);
    out := items;
    var seen: set<string> := {};
    for i := 0 to |items|
      invariant |out| == |items|
      invariant forall k :: 0 <= k < i ==> out[k] == target[k] && PackageAllowed(target[k], registered)
      invariant forall k :: i <= k < |items| ==> out[k] == items[k]
      invariant forall j, k :: 0 <= j < k < i ==> PackageKey(target[j]) != PackageKey(target[k])
      invariant forall x :: x in seen <==> exists k :: 0 <= k < i && PackageKey(target[k]) == x
    {
      out := out[i := NormalPackage(out[i])];
      var key := PackageKey(out[i]);
      if !PackageAllowed(out[i], registered) || key in seen {
        assert target[i] in target;
        return false, out;
      }
      seen := seen + {key};
    }
    ok := true;
  }

  class PolicyDocument {
    var policy: Policy

    constructor (policy: Policy)
      ensures this.policy == policy
    {
      this.policy := policy;
    }

    /** The two module lists. */
    method ValidateModules() returns (ok: bool)
      modifies this
      ensures policy == old(policy).(productionModules := policy.productionModules, exampleModules := policy.exampleModules)
      ensures ok ==>
        policy.productionModules == Normalized(old(policy)).productionModules && policy.exampleModules == Normalized(old(policy)).exampleModules
      ensures ok <==> ModulesOk(Normalized(old(policy)))
    {
      hide TrimSpace, ModuleNameAllowed, NormalizePath;
      ghost var n := Normalized(policy);
      ModuleListsOk(n.productionModules, n.exampleModules);
      var names, registered, more;
      ok, names, registered := NormalizeModuleList(policy.productionModules, {});
      policy := policy.(productionModules := names);
      if !ok {
        return;
      }
      assert names == n.productionModules;
      ok, more, registered := NormalizeModuleList(policy.exampleModules, registered);
      policy := policy.(exampleModules := more);
      if ok {
        assert more == n.exampleModules;
      }
    }

    /** The protected files and the declared packages. */
    method ValidateFiles() returns (ok: bool)
      modifies this
      ensures policy == old(policy).(protectedFiles := policy.protectedFiles, modulePackages := policy.modulePackages)
      ensures
        var files := MapSeq(old(policy.protectedFiles), NormalLimit);
        var packages := MapSeq(old(policy.modulePackages), NormalPackage);
        && (ok ==> policy.protectedFiles == files && policy.modulePackages == packages)
        && (ok <==> FilesOk(old(policy).(protectedFiles := files, modulePackages := packages)))
    {
      hide LimitAllowed, NormalLimit, NormalPackage, PackageAllowed, DistinctKeys;
      var registered := policy.Registered();
      var limits, packages;
      ok, limits := NormalizeList(policy.protectedFiles, NormalLimit, LimitAllowed);
      policy := policy.(protectedFiles := limits);
      if !ok {
        return;
      }
      ok, packages := NormalizePackages(policy.modulePackages, registered);
      policy := policy.(modulePackages := packages);
    }

    /** The three lists of granted imports. */
    method ValidateImports() returns (ok: bool)
      modifies this
      ensures policy == old(policy).(publicImports := policy.publicImports, packageImports := policy.packageImports, testImports := policy.testImports)
      ensures
        var publics := MapSeq(old(policy.publicImports), NormalPublicImport);
        var grants := MapSeq(old(policy.packageImports), NormalPackageImport);
        var tests := MapSeq(old(policy.testImports), NormalTestImport);
        && (ok ==> policy.publicImports == publics && policy.packageImports == grants && policy.testImports == tests)
        && (ok <==> ImportsOk(old(policy).(publicImports := publics, packageImports := grants, testImports := tests)))
    {
      hide NormalPublicImport, NormalPackageImport, NormalTestImport, PublicImportAllowed, PackageImportAllowed, TestImportAllowed;
      var registered, packages := policy.Registered(), policy.modulePackages;
      var publics, grants, tests;
      ok, publics := NormalizeList(policy.publicImports, NormalPublicImport, x => PublicImportAllowed(x, registered, packages));
      policy := policy.(publicImports := publics);
      if !ok {
        return;
      }
      ok, grants := NormalizeList(policy.packageImports, NormalPackageImport, x => PackageImportAllowed(x, registered));
      policy := policy.(packageImports := grants);
      if !ok {
        return;
      }
      ok, tests := NormalizeList(policy.testImports, NormalTestImport, x => TestImportAllowed(x, registered, packages));
      policy := policy.(testImports := tests);
    }

    /** The forbidden file patterns and the exceptions. */
    method ValidateRest(patternOk: string -> bool) returns (ok: bool)
      modifies this
      ensures policy == old(policy).(forbiddenNewFiles := policy.forbiddenNewFiles, exceptions := policy.exceptions)
      ensures
        var patterns := MapSeq(old(policy.forbiddenNewFiles), NormalizePath);
        var exceptions := MapSeq(old(policy.exceptions), NormalException);
        && (ok ==> policy.forbiddenNewFiles == patterns && policy.exceptions == exceptions)
        && (ok <==> RestOk(old(policy).(forbiddenNewFiles := patterns, exceptions := exceptions), patternOk))
    {
      hide NormalizePath, NormalException, PatternAllowed;
      var patterns, exceptions;
      ok, patterns := NormalizeList(policy.forbiddenNewFiles, NormalizePath, f => PatternAllowed(f, patternOk));
      policy := policy.(forbiddenNewFiles := patterns);
      if !ok {
        return;
      }
      ok, exceptions := NormalizeList(policy.exceptions, NormalException, (e: Exception) => e.Valid());
      policy := policy.(exceptions := exceptions);
    }

    /** normalizeAndValidate: every field is rewritten in normal form, and the policy is accepted
        exactly when that normal form meets all the rules. */
    method NormalizeAndValidate(patternOk: string -> bool) returns (ok: bool)
      modifies this
      ensures ok ==> policy == Normalized(old(policy))
      ensures ok <==> Validated(Normalized(old(policy)), patternOk)
    {
      hide MapSeq, ModulesOk, TrimSpace, NormalizePath, NormalLimit, NormalPackage, NormalPublicImport, NormalPackageImport, NormalTestImport,
        NormalException, LimitAllowed, PackageAllowed, PublicImportAllowed, PackageImportAllowed, TestImportAllowed, PatternAllowed, DistinctKeys;
      ok := ValidateModules();
      if ok {
        ok := ValidateFiles();
      }
      if ok {
        ok := ValidateImports();
      }
      if ok {
        ok := ValidateRest(patternOk);
      }
    }
  }
}
