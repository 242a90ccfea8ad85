/** The source fingerprint: which files it covers, and the byte stream its aggregate hash is fed with. */
module Fingerprint {
  import opened Text
  import opened Sorting

  type Bytes = seq<bv8>

  /** The regular files below the root, by path relative to it. */
  type Tree = map<string, Bytes>

  const INCLUDE_ROOTS: seq<string> := [".github", "cmd", "deploy", "internal", "scripts", "web"]
  const INCLUDE_FILES: seq<string> := [".dockerignore", "Dockerfile", "go.mod", "go.sum"]
  const IGNORE_PARTS: set<string> := {".git", ".DS_Store", "node_modules"}
  const IGNORE_PREFIXES: seq<string> := ["docs/evidence", "output", "storage", "tmp"]

  predicate Below(path: string, directory: string) {
    HasPrefix(path, directory + "/")
  }

  predicate IsEnvironmentFile(part: string) {
    part == ".env" || (HasPrefix(part, ".env.") && part != ".env.example")
  }

  predicate ShouldIgnore(path: string) {
    || (exists part :: part in Split(path, '/') && part in IGNORE_PARTS)
    || (exists part :: part in Split(path, '/') && IsEnvironmentFile(part))
    || (exists prefix :: prefix in IGNORE_PREFIXES && (path == prefix || Below(path, prefix)))
  }

  /** A path at or below one of the roots. */
  predicate AtRoots(path: string, roots: seq<string>) {
    exists root :: root in roots && (path == root || Below(path, root))
  }

  /** A file of the tree that the fingerprint must cover. */
  predicate Included(tree: Tree, path: string) {
    && path in tree && !ShouldIgnore(path)
    && (path in INCLUDE_FILES || AtRoots(path, INCLUDE_ROOTS))
  }

  /** What listing a directory recursively gives: every file below it, in any order and any number of
      times, together with anything else that lies below it. */
  ghost predicate Lists(listing: string -> seq<string>, tree: Tree) {
    forall root :: root in INCLUDE_ROOTS ==>
      && (forall path :: path in tree && Below(path, root) ==> path in listing(root))
      && (forall path :: path in listing(root) ==> Below(path, root))
  }

  /** A file is not a directory as well. */
  predicate FilesHoldNoFiles(tree: Tree) {
    forall root, path :: root in INCLUDE_ROOTS && root in tree && path in tree ==> !Below(path, root)
  }

  predicate Distinct<T(==)>(s: seq<T>) {
    forall i, j :: 0 <= i < j < |s| ==> s[i] != s[j]
  }

  /** The files found so far: those of the named files, and those at the roots, gone through. */
  ghost predicate Covers(tree: Tree, yielded: seq<string>, files: seq<string>, roots: seq<string>) {
    forall path :: path in yielded <==>
      path in tree && !ShouldIgnore(path) && (path in files || AtRoots(path, roots))
  }

  ghost predicate SeenIs(seen: set<string>, yielded: seq<string>) {
    Distinct(yielded) && forall path :: path in seen <==> path in yielded
  }

  lemma AtRootsNext(path: string, roots: seq<string>, root: string)
    ensures AtRoots(path, roots + [root]) <==> AtRoots(path, roots) || path == root || Below(path, root)
  {
    hide Below;
    assert root in roots + [root];
    if AtRoots(path, roots) {
      var r :| r in roots && (path == r || Below(path, r));
      assert r in roots + [root];
    }
  }

  /** The files at one root: the root itself when it is a file, or else what is listed below it. */
  ghost predicate TakesRoot(tree: Tree, before: seq<string>, after: seq<string>, root: string) {
    forall path :: path in after <==>
      path in before || (path in tree && !ShouldIgnore(path) && (path == root || Below(path, root)))
  }

  lemma CoversNextRoot(tree: Tree, before: seq<string>, after: seq<string>, files: seq<string>, roots: seq<string>, root: string)
    requires Covers(tree, before, files, roots) && TakesRoot(tree, before, after, root)
    ensures Covers(tree, after, files, roots + [root])
  {
    hide ShouldIgnore, Below, AtRoots;
    forall path
      ensures AtRoots(path, roots + [root]) <==> AtRoots(path, roots) || path == root || Below(path, root)
    {
      AtRootsNext(path, roots, root);
    }
  }

  method TakeNamedFiles(tree: Tree) returns (seen: set<string>, yielded: seq<string>)
    ensures SeenIs(seen, yielded) && Covers(tree, yielded, INCLUDE_FILES, [])
  {
    hide ShouldIgnore, Below;
    seen, yielded := {}, [];
    for i := 0 to |INCLUDE_FILES|
      invariant SeenIs(seen, yielded) && Covers(tree, yielded, INCLUDE_FILES[..i], [])
    {
      var name := INCLUDE_FILES[i];
      assert INCLUDE_FILES[..i + 1] == INCLUDE_FILES[..i] + [name];
      NamesDiffer(i);
      if name in tree && !ShouldIgnore(name) {
        seen := seen + {name};
        yielded := yielded + [name];
      }
    }
    assert INCLUDE_FILES[..|INCLUDE_FILES|] == INCLUDE_FILES;
  }

  lemma NamesDiffer(i: nat)
    requires i < |INCLUDE_FILES|
    ensures INCLUDE_FILES[i] !in INCLUDE_FILES[..i]
  {
    assert |INCLUDE_FILES[0]| == 13 && |INCLUDE_FILES[1]| == 10 && |INCLUDE_FILES[2]| == 6 && INCLUDE_FILES[3][3] == 's';
  }

  method TakeListed(tree: Tree, paths: seq<string>, seen0: set<string>, yielded0: seq<string>)
    returns (seen: set<string>, yielded: seq<string>)
    requires SeenIs(seen0, yielded0)
    ensures SeenIs(seen, yielded)
    ensures forall path :: path in yielded <==> path in yielded0 || (path in paths && path in tree && !ShouldIgnore(path))
  {
    hide ShouldIgnore;
    seen, yielded := seen0, yielded0;
    for k := 0 to |paths|
      invariant SeenIs(seen, yielded)
      invariant forall path :: path in yielded <==> path in yielded0 || (path in paths[..k] && path in tree && !ShouldIgnore(path))
    {
      assert paths[..k + 1] == paths[..k] + [paths[k]];
      if paths[k] !in tree || ShouldIgnore(paths[k]) || paths[k] in seen {
        continue;
      }
      seen := seen + {paths[k]};
      yielded := yielded + [paths[k]];
    }
    assert paths[..|paths|] == paths;
  }

  method TakeRoot(tree: Tree, listing: string -> seq<string>, root: string, seen0: set<string>, yielded0: seq<string>)
    returns (seen: set<string>, yielded: seq<string>)
    requires Lists(listing, tree) && FilesHoldNoFiles(tree) && root in INCLUDE_ROOTS
    requires SeenIs(seen0, yielded0)
    ensures SeenIs(seen, yielded) && TakesRoot(tree, yielded0, yielded, root)
  {
    hide ShouldIgnore, Below;
    seen, yielded := seen0, yielded0;
    if root in tree {
      if !ShouldIgnore(root) && root !in seen {
        seen := seen + {root};
        yielded := yielded + [root];
      }
    } else {
      seen, yielded := TakeListed(tree, listing(root), seen, yielded);
    }
  }

  /** iter_files yields each included file once, whatever the listings look like. */
  method IterFiles(tree: Tree, listing: string -> seq<string>) returns (yielded: seq<string>)
    requires Lists(listing, tree) && FilesHoldNoFiles(tree)
    ensures Distinct(yielded)
    ensures forall path :: path in yielded <==> Included(tree, path)
  {
    hide ShouldIgnore, Below, TakesRoot, Covers, Lists, FilesHoldNoFiles;
    var seen: set<string>;
    seen, yielded := TakeNamedFiles(tree);
    for i := 0 to |INCLUDE_ROOTS|
      invariant SeenIs(seen, yielded) && Covers(tree, yielded, INCLUDE_FILES, INCLUDE_ROOTS[..i])
    {
      ghost var before := yielded;
      seen, yielded := TakeRoot(tree, listing, INCLUDE_ROOTS[i], seen, yielded);
      CoversNextRoot(tree, before, yielded, INCLUDE_FILES, INCLUDE_ROOTS[..i], INCLUDE_ROOTS[i]);
      assert INCLUDE_ROOTS[..i + 1] == INCLUDE_ROOTS[..i] + [INCLUDE_ROOTS[i]];
    }
    assert INCLUDE_ROOTS[..|INCLUDE_ROOTS|] == INCLUDE_ROOTS;
    CoversAll(tree, yielded);
  }

  lemma CoversAll(tree: Tree, yielded: seq<string>)
    requires Covers(tree, yielded, INCLUDE_FILES, INCLUDE_ROOTS)
    ensures forall path :: path in yielded <==> Included(tree, path)
  {
    hide ShouldIgnore, Below;
  }

  // ----- The stream -----

  const NUL := '\0'
  const LINE_END := '\n'

  /** The SHA-256 hex digest of a file's bytes: 64 characters. */
  type Hex = s: string | |s| == 64 witness seq(64, _ => '0')

  datatype Item = Item(path: string, size: nat, digest: Hex)

  function PathOf(item: Item): string {
    item.path
  }

  function Record(item: Item): string {
    item.path + [NUL] + (Decimal(item.size) + [NUL] + (item.digest + [LINE_END]))
  }

  /** What the aggregate hash is fed with. */
  function Stream(items: seq<Item>): string {
    if items == [] then "" else Record(items[0]) + Stream(items[1..])
  }

  predicate NulFree(item: Item) {
    NUL !in item.path
  }

  lemma RecordCancels(a: Item, x: string, b: Item, y: string)
    requires NulFree(a) && NulFree(b)
    requires Record(a) + x == Record(b) + y
    ensures a == b && x == y
  {
    hide Decimal;
    DecimalIsNulFree(a.size);
    DecimalIsNulFree(b.size);
    var afterPathA, afterPathB := Decimal(a.size) + [NUL] + (a.digest + [LINE_END] + x), Decimal(b.size) + [NUL] + (b.digest + [LINE_END] + y);
    assert Record(a) + x == a.path + [NUL] + afterPathA;
    assert Record(b) + y == b.path + [NUL] + afterPathB;
    FirstSeparatorCancels(a.path, afterPathA, b.path, afterPathB, NUL);
    var restA, restB := a.digest + [LINE_END] + x, b.digest + [LINE_END] + y;
    FirstSeparatorCancels(Decimal(a.size), restA, Decimal(b.size), restB, NUL);
    DecimalInjective(a.size, b.size);
    assert restA[..64] == a.digest && restB[..64] == b.digest;
    assert restA[65..] == x && restB[65..] == y;
  }

  lemma DecimalIsNulFree(n: nat)
    ensures NUL !in Decimal(n)
  {
    hide Decimal;
    assert !IsDigit(NUL);
  }

  /** The stream can be decoded in one way only. */
  lemma {:induction false} StreamIsUniquelyDecodable(a: seq<Item>, b: seq<Item>)
    requires forall item :: item in a || item in b ==> NulFree(item)
    requires Stream(a) == Stream(b)
    ensures a == b
  {
    hide Record, NulFree;
    if a == [] || b == [] {
      RecordsAreNotEmpty();
    } else {
      assert a[0] in a && b[0] in b;
      RecordCancels(a[0], Stream(a[1..]), b[0], Stream(b[1..]));
      StreamIsUniquelyDecodable(a[1..], b[1..]);
      assert a == [a[0]] + a[1..] && b == [b[0]] + b[1..];
    }
  }

  lemma RecordsAreNotEmpty()
    ensures forall item :: |Record(item)| > 0
  {
  }

  // ----- The fingerprint -----

  ghost function ItemOf(tree: Tree, path: string, sha256: Bytes -> Hex): Item
    requires path in tree
  {
    Item(path, |tree[path]|, sha256(tree[path]))
  }

  /** The covered files with their size and digest. */
  ghost function Covered(tree: Tree, sha256: Bytes -> Hex): set<Item> {
    set path | path in tree && Included(tree, path) :: ItemOf(tree, path, sha256)
  }

  ghost predicate IsManifest(items: seq<Item>, tree: Tree, sha256: Bytes -> Hex) {
    && AscendingBy(items, PathOf)
    && forall item :: item in items <==> item in Covered(tree, sha256)
  }

  lemma FilesAreCovered(paths: seq<string>, files: seq<Item>, tree: Tree, sha256: Bytes -> Hex)
    requires forall path :: path in paths <==> Included(tree, path)
    requires |files| == |paths|
    requires forall k :: 0 <= k < |paths| ==> paths[k] in tree && files[k] == ItemOf(tree, paths[k], sha256)
    ensures forall item :: item in files <==> item in Covered(tree, sha256)
  {
    hide ShouldIgnore, AtRoots;
    forall item | item in Covered(tree, sha256)
      ensures item in files
    {
      var path :| path in tree && Included(tree, path) && item == ItemOf(tree, path, sha256);
      var k :| 0 <= k < |paths| && paths[k] == path;
      assert files[k] == item;
    }
    forall item | item in files
      ensures item in Covered(tree, sha256)
    {
      var k :| 0 <= k < |files| && files[k] == item;
      assert paths[k] in paths;
    }
  }

  /** build_fingerprint: the sorted list of covered files, and the stream that its hash is taken of. */
  method BuildFingerprint(tree: Tree, listing: string -> seq<string>, sha256: Bytes -> Hex)
    returns (items: seq<Item>, aggregate: string)
    requires Lists(listing, tree) && FilesHoldNoFiles(tree)
    ensures IsManifest(items, tree, sha256)
    ensures aggregate == Stream(items)
  {
    hide ShouldIgnore, AtRoots, Lists, FilesHoldNoFiles, Record, LexLeq;
    var paths := IterFiles(tree, listing);
    forall k | 0 <= k < |paths|
      ensures paths[k] in tree
    {
      assert paths[k] in paths;
    }
    var files: seq<Item> := [];
    for i := 0 to |paths|
      invariant |files| == i && forall k :: 0 <= k < i ==> files[k] == ItemOf(tree, paths[k], sha256)
    {
      var data := tree[paths[i]];
      files := files + [Item(paths[i], |data|, sha256(data))];
    }
    FilesAreCovered(paths, files, tree, sha256);
    items := SortBy(files, PathOf);
    aggregate := "";
    for i := 0 to |items|
      invariant aggregate + Stream(items[i..]) == Stream(items)
    {
      aggregate := aggregate + Record(items[i]);
    }
    assert items[|items|..] == [];
  }

  /** The manifest does not depend on the order in which directories are listed: the covered files have one. */
  lemma ManifestIsUnique(a: seq<Item>, b: seq<Item>, left: Tree, right: Tree, sha256: Bytes -> Hex)
    requires IsManifest(a, left, sha256) && IsManifest(b, right, sha256)
    requires Covered(left, sha256) == Covered(right, sha256)
    ensures a == b
  {
    hide Included, LexLeq;
    AscendingIsUnique(a, b, PathOf);
  }

  /** Two trees give the same stream exactly when they have the same covered paths, sizes and digests. */
  lemma SameStreamExactlyWhenSameFiles(a: seq<Item>, b: seq<Item>, left: Tree, right: Tree, sha256: Bytes -> Hex)
    requires IsManifest(a, left, sha256) && IsManifest(b, right, sha256)
    requires forall path :: path in left || path in right ==> NUL !in path
    ensures Stream(a) == Stream(b) <==> Covered(left, sha256) == Covered(right, sha256)
  {
    hide Included, Stream, LexLeq;
    forall item | item in a || item in b
      ensures NulFree(item)
    {
    }
    if Stream(a) == Stream(b) {
      StreamIsUniquelyDecodable(a, b);
      assert Covered(left, sha256) == Covered(right, sha256);
    }
    if Covered(left, sha256) == Covered(right, sha256) {
      ManifestIsUnique(a, b, left, right, sha256);
    }
  }
}
