/** Slash-separated paths as the architecture auditor normalises them. */
module ArchitecturePaths {
  import opened Text

  /** A segment that cleaning neither drops nor resolves. */
  predicate Plain(segment: string) {
    segment != "" && segment != "." && segment != ".." && '/' !in segment
  }

  /** What is left of the segments once empty and `.` segments are dropped and `..` is resolved
      against the segments kept so far. */
  function Reduce(segments: seq<string>, rooted: bool, kept: seq<string>): seq<string> {
    if segments == [] then kept
    else
      var s := segments[0];
      if s == "" || s == "." then Reduce(segments[1..], rooted, kept)
      else if s == ".." then
        if kept != [] && kept[|kept| - 1] != ".." then Reduce(segments[1..], rooted, kept[..|kept| - 1])
        else if rooted then Reduce(segments[1..], rooted, kept)
        else Reduce(segments[1..], rooted, kept + [".."])
      else Reduce(segments[1..], rooted, kept + [s])
  }

  /** filepath.Clean on a slash-separated path. */
  function Clean(path: string): string {
    var rooted := path != "" && path[0] == '/';
    var text := Join(Reduce(Split(path, '/'), rooted, []), '/');
    if rooted then "/" + text else if text == "" then "." else text
  }

  function Slashes(path: string): (r: string)
    ensures |r| == |path|
    ensures forall i :: 0 <= i < |path| ==> r[i] == if path[i] == '\\' then '/' else path[i]
  {
    seq(|path|, i requires 0 <= i < |path| => if path[i] == '\\' then '/' else path[i])
  }

  /** normalizePortablePath. */
  function NormalizePath(path: string): string {
    var trimmed := TrimSpace(path);
    if trimmed == "" then "" else TrimPrefix(Clean(Slashes(trimmed)), "./")
  }

  // ----- Cleaning twice is cleaning once -----

  /** What Reduce produces: `..` only in front, and only in relative paths. */
  ghost predicate Reduced(segments: seq<string>, rooted: bool) {
    && (forall i :: 0 <= i < |segments| ==> segments[i] == ".." || Plain(segments[i]))
    && (forall i :: 0 <= i < |segments| && segments[i] == ".." ==> !rooted && forall j :: 0 <= j < i ==> segments[j] == "..")
  }

  lemma {:induction false} ReduceReduces(segments: seq<string>, rooted: bool, kept: seq<string>)
    requires Reduced(kept, rooted) && forall s :: s in segments ==> '/' !in s
    ensures Reduced(Reduce(segments, rooted, kept), rooted)
  {
    if segments != [] {
      var s := segments[0];
      assert s in segments;
      if s == "" || s == "." {
        ReduceReduces(segments[1..], rooted, kept);
      } else if s == ".." {
        if kept != [] && kept[|kept| - 1] != ".." {
          ReduceReduces(segments[1..], rooted, kept[..|kept| - 1]);
        } else if rooted {
          ReduceReduces(segments[1..], rooted, kept);
        } else {
          ReduceReduces(segments[1..], rooted, kept + [".."]);
        }
      } else {
        ReduceReduces(segments[1..], rooted, kept + [s]);
      }
    }
  }

  lemma {:induction false} ReduceKeepsReduced(segments: seq<string>, rooted: bool, kept: seq<string>)
    requires Reduced(kept + segments, rooted)
    ensures Reduce(segments, rooted, kept) == kept + segments
  {
    if segments != [] {
      var s := segments[0];
      assert (kept + segments)[|kept|] == s;
      assert kept + segments == (kept + [s]) + segments[1..];
      if s == ".." && kept != [] {
        assert (kept + segments)[|kept| - 1] == kept[|kept| - 1];
      }
      ReduceKeepsReduced(segments[1..], rooted, kept + [s]);
    }
  }

  lemma {:induction false} ReduceSkipsEmptyEnd(segments: seq<string>, rooted: bool, kept: seq<string>)
    ensures Reduce(segments + [""], rooted, kept) == Reduce(segments, rooted, kept)
  {
    var longer := segments + [""];
    if segments == [] {
      assert longer[1..] == [];
    } else {
      var s := segments[0];
      assert longer[0] == s && longer[1..] == segments[1..] + [""];
      if s == "" || s == "." {
        ReduceSkipsEmptyEnd(segments[1..], rooted, kept);
      } else if s == ".." {
        if kept != [] && kept[|kept| - 1] != ".." {
          ReduceSkipsEmptyEnd(segments[1..], rooted, kept[..|kept| - 1]);
        } else if rooted {
          ReduceSkipsEmptyEnd(segments[1..], rooted, kept);
        } else {
          ReduceSkipsEmptyEnd(segments[1..], rooted, kept + [".."]);
        }
      } else {
        ReduceSkipsEmptyEnd(segments[1..], rooted, kept + [s]);
      }
    }
  }

  lemma {:induction false} JoinShape(parts: seq<string>)
    requires parts != [] && parts[0] != ""
    ensures Join(parts, '/') != "" && Join(parts, '/')[0] == parts[0][0]
    ensures Join(parts, '/') == "." ==> parts == ["."]
  {
    if |parts| > 1 {
      assert |Join(parts, '/')| >= |parts[0]| + 1;
    }
  }

  /** A relative path of reduced segments is its own clean form. */
  lemma CleanOfReduced(segments: seq<string>)
    requires segments != [] && Reduced(segments, false)
    ensures Clean(Join(segments, '/')) == Join(segments, '/')
    ensures Split(Join(segments, '/'), '/') == segments
    ensures Join(segments, '/')[0] != '/' && Join(segments, '/') != "."
  {
    hide Join, Split, Reduce;
    assert forall s :: s in segments ==> '/' !in s;
    assert segments[0] == ".." || Plain(segments[0]);
    JoinShape(segments);
    SplitOfJoin(segments, '/');
    assert [] + segments == segments;
    ReduceKeepsReduced(segments, false, []);
  }

  lemma CleanOfRooted(segments: seq<string>)
    requires Reduced(segments, true)
    ensures Clean("/" + Join(segments, '/')) == "/" + Join(segments, '/')
  {
    hide Join, Split;
    var path := "/" + Join(segments, '/');
    assert path == "" + ['/'] + Join(segments, '/');
    SplitFirst("", Join(segments, '/'), '/');
    var parts := Split(Join(segments, '/'), '/');
    assert ([""] + parts)[1..] == parts;
    assert Reduce([""] + parts, true, []) == Reduce(parts, true, []);
    if segments == [] {
      EmptyPath();
    } else {
      assert forall s :: s in segments ==> '/' !in s;
      SplitOfJoin(segments, '/');
      assert [] + segments == segments;
      ReduceKeepsReduced(segments, true, []);
    }
  }

  lemma EmptyPath()
    ensures Join([], '/') == "" && Split("", '/') == [""] && Reduce([""], true, []) == [] && Reduce([""], false, []) == []
  {
    assert [""][1..] == [];
  }

  lemma CleanIsReduced(path: string)
    ensures
      var rooted := path != "" && path[0] == '/';
      Reduced(Reduce(Split(path, '/'), rooted, []), rooted)
  {
    ReduceReduces(Split(path, '/'), path != "" && path[0] == '/', []);
  }

  lemma CleanIdempotent(path: string)
    ensures Clean(Clean(path)) == Clean(path)
  {
    hide Reduce, Split, Join, Reduced;
    var rooted := path != "" && path[0] == '/';
    var segments := Reduce(Split(path, '/'), rooted, []);
    CleanIsReduced(path);
    if rooted {
      CleanOfRooted(segments);
    } else if segments == [] {
      CleanOfDot(path);
    } else {
      ReducedStart(segments);
      CleanOfReduced(segments);
    }
  }

  lemma ReducedStart(segments: seq<string>)
    requires segments != [] && Reduced(segments, false)
    ensures Join(segments, '/') != ""
  {
    hide Join;
    assert segments[0] == ".." || Plain(segments[0]);
    JoinShape(segments);
  }

  lemma CleanOfDot(path: string)
    requires (path == "" || path[0] != '/') && Reduce(Split(path, '/'), false, []) == []
    ensures Clean(path) == "." && Clean(".") == "."
  {
    EmptyPath();
    assert Split(".", '/') == ["."];
    assert ["."][1..] == [];
  }

  // ----- When normalising twice is normalising once -----

  function Weight(segments: seq<string>): nat {
    if segments == [] then 0 else |segments[0]| + 1 + Weight(segments[1..])
  }

  lemma {:induction false} WeightOfAppend(a: seq<string>, b: seq<string>)
    ensures Weight(a + b) == Weight(a) + Weight(b)
  {
    if a == [] {
      assert a + b == b;
    } else {
      assert (a + b)[1..] == a[1..] + b;
      WeightOfAppend(a[1..], b);
    }
  }

  lemma {:induction false} ReduceIsLighter(segments: seq<string>, rooted: bool, kept: seq<string>)
    ensures Weight(Reduce(segments, rooted, kept)) <= Weight(kept) + Weight(segments)
  {
    if segments != [] {
      var s, rest := segments[0], segments[1..];
      if s == "" || s == "." {
        ReduceIsLighter(rest, rooted, kept);
      } else if s == ".." {
        if kept != [] && kept[|kept| - 1] != ".." {
          var front := kept[..|kept| - 1];
          assert kept == front + [kept[|kept| - 1]];
          WeightOfAppend(front, [kept[|kept| - 1]]);
          ReduceIsLighter(rest, rooted, front);
        } else if rooted {
          ReduceIsLighter(rest, rooted, kept);
        } else {
          WeightOfAppend(kept, [".."]);
          ReduceIsLighter(rest, rooted, kept + [".."]);
        }
      } else {
        WeightOfAppend(kept, [s]);
        ReduceIsLighter(rest, rooted, kept + [s]);
      }
    }
  }

  lemma {:induction false} JoinLength(parts: seq<string>)
    requires parts != []
    ensures |Join(parts, '/')| == Weight(parts) - 1
  {
    if |parts| == 1 {
      assert parts[1..] == [];
    } else {
      JoinLength(parts[1..]);
    }
  }

  lemma CleanIsNoLonger(path: string)
    requires path != ""
    ensures 0 < |Clean(path)| <= |path|
  {
    var parts := Split(path, '/');
    var rooted := path[0] == '/';
    var kept := Reduce(parts, rooted, []);
    JoinOfSplit(path, '/');
    JoinLength(parts);
    ReduceIsLighter(parts, rooted, []);
    if kept != [] {
      JoinLength(kept);
    }
    if rooted {
      assert path == "" + ['/'] + path[1..];
      SplitFirst("", path[1..], '/');
      assert parts[0] == "" && parts[1..] == Split(path[1..], '/');
      assert kept == Reduce(parts[1..], true, []);
      ReduceIsLighter(parts[1..], true, []);
    }
  }

  lemma {:induction false} ReduceOnlyKeeps(segments: seq<string>, rooted: bool, kept: seq<string>)
    ensures forall s :: s in Reduce(segments, rooted, kept) ==> s in segments || s in kept || s == ".."
  {
    if segments != [] {
      var s, rest := segments[0], segments[1..];
      if s == "" || s == "." {
        ReduceOnlyKeeps(rest, rooted, kept);
      } else if s == ".." {
        if kept != [] && kept[|kept| - 1] != ".." {
          ReduceOnlyKeeps(rest, rooted, kept[..|kept| - 1]);
        } else if rooted {
          ReduceOnlyKeeps(rest, rooted, kept);
        } else {
          ReduceOnlyKeeps(rest, rooted, kept + [".."]);
        }
      } else {
        ReduceOnlyKeeps(rest, rooted, kept + [s]);
      }
    }
  }

  lemma {:induction false} JoinCharacters(parts: seq<string>, c: char)
    requires c != '/' && forall p :: p in parts ==> c !in p
    ensures c !in Join(parts, '/')
  {
    if |parts| > 1 {
      assert parts[0] in parts;
      JoinCharacters(parts[1..], c);
    } else if |parts| == 1 {
      assert parts[0] in parts;
    }
  }

  lemma {:induction false} SplitCharacters(s: string, c: char)
    requires c !in s
    ensures forall p :: p in Split(s, '/') ==> c !in p
    decreases |s|
  {
    var i := IndexOf(s, '/');
    if i < |s| {
      SplitCharacters(s[i + 1..], c);
      assert Split(s, '/') == [s[..i]] + Split(s[i + 1..], '/');
    } else {
      assert Split(s, '/') == [s];
    }
  }

  lemma CleanKeepsOutBackslashes(path: string)
    requires '\\' !in path
    ensures '\\' !in Clean(path)
  {
    hide Join, Split, Reduce;
    var rooted := path != "" && path[0] == '/';
    var kept := Reduce(Split(path, '/'), rooted, []);
    SplitCharacters(path, '\\');
    ReduceOnlyKeeps(Split(path, '/'), rooted, []);
    assert '\\' !in "..";
    JoinCharacters(kept, '\\');
  }

  lemma CleanNeverStartsWithDotSlash(path: string)
    ensures !HasPrefix(Clean(path), "./")
  {
    hide Split, Reduce;
    var rooted := path != "" && path[0] == '/';
    var kept := Reduce(Split(path, '/'), rooted, []);
    CleanIsReduced(path);
    var r := Clean(path);
    assert HasPrefix(r, "./") ==> |r| >= 2 && r[0] == "./"[0] == '.' && r[1] == "./"[1] == '/';
    if !rooted && kept != [] {
      assert kept[0] == ".." || Plain(kept[0]);
      var text := Join(kept, '/');
      JoinShape(kept);
      if |kept[0]| >= 2 {
        assert text[1] == kept[0][1] && kept[0][1] in kept[0];
      } else if |kept| == 1 {
        assert text == kept[0];
      } else {
        assert text[0] == kept[0][0];
        assert kept[0] == [text[0]];
      }
    }
  }

  lemma SlashesOfClean(path: string)
    requires '\\' !in path
    ensures Slashes(path) == path
  {
    assert forall i :: 0 <= i < |path| ==> path[i] in path;
  }

  /** Normalising is idempotent on a path exactly when its result is not left with white space at an end. */
  lemma NormalizeTwiceExactlyWhenTrimmed(path: string)
    ensures NormalizePath(NormalizePath(path)) == NormalizePath(path) <==> Trimmed(NormalizePath(path))
  {
    hide Clean;
    var t := TrimSpace(path);
    if t != "" {
      var u := Slashes(t);
      assert '\\' !in u by { assert forall i :: 0 <= i < |u| ==> u[i] != '\\'; }
      var r := Clean(u);
      CleanNeverStartsWithDotSlash(u);
      CleanKeepsOutBackslashes(u);
      CleanIsNoLonger(u);
      CleanIdempotent(u);
      SlashesOfClean(r);
      TrimSpaceTrims(r);
      var s := TrimSpace(r);
      if !Trimmed(r) {
        TrimmingShortens(r);
        if s != "" {
          CleanIsNoLonger(Slashes(s));
        }
      }
    }
  }

  function BeforeCleaning(path: string): string {
    Slashes(TrimSpace(path))
  }

  predicate Rooted(path: string) {
    path != "" && path[0] == '/'
  }

  /** The segments of a path that cleaning keeps. */
  function KeptSegments(path: string): seq<string> {
    var u := BeforeCleaning(path);
    Reduce(Split(u, '/'), Rooted(u), [])
  }

  predicate BeginsWithSpace(s: string) {
    s != "" && IsSpace(s[0])
  }

  predicate EndsWithSpace(s: string) {
    s != "" && IsSpace(s[|s| - 1])
  }

  /** No white space comes to an end of the path: the last kept segment does not end in it, nor does the first
      one of a relative path begin with it. */
  predicate EndsStaySolid(path: string) {
    var kept := KeptSegments(path);
    || kept == []
    || (!EndsWithSpace(kept[|kept| - 1]) && (Rooted(BeforeCleaning(path)) || !BeginsWithSpace(kept[0])))
  }

  lemma EndsOfClean(u: string)
    ensures var kept := Reduce(Split(u, '/'), Rooted(u), []);
      Trimmed(Clean(u)) <==> kept == [] || (!EndsWithSpace(kept[|kept| - 1]) && (Rooted(u) || !BeginsWithSpace(kept[0])))
  {
    hide Split, Reduce, Join;
    var kept := Reduce(Split(u, '/'), Rooted(u), []);
    CleanIsReduced(u);
    if kept == [] {
      EmptyPath();
      PunctuationIsSolid();
    } else {
      JoinEnds(kept);
      PunctuationIsSolid();
    }
  }

  lemma PunctuationIsSolid()
    ensures !IsSpace('/') && !IsSpace('.')
  {
  }

  /** Normalising is idempotent on a path exactly when no white space comes to an end of it: a blank that
      stands next to a dropped `.`, an empty segment or a resolved `..` is what makes the difference. */
  lemma NormalizeTwiceExactlyWhenEndsStaySolid(path: string)
    ensures NormalizePath(NormalizePath(path)) == NormalizePath(path) <==> EndsStaySolid(path)
  {
    hide Clean, Split, Reduce;
    NormalizeTwiceExactlyWhenTrimmed(path);
    var u := BeforeCleaning(path);
    if TrimSpace(path) == "" {
      EmptyPath();
    } else {
      CleanNeverStartsWithDotSlash(u);
      EndsOfClean(u);
    }
  }

  /** So normalising is idempotent on every path without white space. */
  lemma NormalizingTwiceWithoutSpaces(path: string)
    requires SpaceFree(path)
    ensures NormalizePath(NormalizePath(path)) == NormalizePath(path)
  {
    hide Split, Reduce, NormalizePath, TrimSpace;
    NormalizeTwiceExactlyWhenEndsStaySolid(path);
    SpaceFreeIsTrimmed(path);
    var u := BeforeCleaning(path);
    var parts := Split(u, '/');
    ReduceOnlyKeeps(parts, Rooted(u), []);
    PunctuationIsSolid();
    forall c | IsSpace(c)
      ensures forall part :: part in parts ==> c !in part
    {
      assert c !in path && c !in u;
      SplitCharacters(u, c);
    }
    forall s, i | s in KeptSegments(path) && 0 <= i < |s|
      ensures !IsSpace(s[i])
    {
      assert s[i] in s;
      assert s in parts || s == "..";
    }
  }

  lemma SpaceFreeIsTrimmed(path: string)
    requires SpaceFree(path)
    ensures TrimSpace(path) == path
  {
    assert path != "" ==> path[0] in path && path[|path| - 1] in path;
    TrimSpaceTrims(path);
  }

  lemma TrimmingShortens(s: string)
    requires !Trimmed(s)
    ensures |TrimSpace(s)| < |s|
  {
    TrimLeftIsSuffix(s);
    TrimSpaceTrims(s);
  }

  /** Such paths exist: the blank after `./` comes to the front once the dot is cleaned away. */
  lemma NormalizingDotSlashBlankTwice(name: string)
    requires PlainName(name)
    ensures NormalizePath("./ " + name) == " " + name
    ensures NormalizePath(NormalizePath("./ " + name)) == name
  {
    hide Join, Split, TrimSpace;
    var path, blank := "./ " + name, " " + name;
    assert name[0] in name && name[|name| - 1] in name;
    assert path[|path| - 1] == name[|name| - 1];
    TrimSpaceTrims(path);
    TrimSpaceOfBlank(name);
    SlashesOfClean(path);
    SlashesOfClean(name);
    assert path == "." + ['/'] + blank;
    SplitFirst(".", blank, '/');
    NoSlashSplit(blank);
    NoSlashSplit(name);
    var parts := ["."] + [blank];
    assert parts[1..] == [blank] && [blank][1..] == [] && [name][1..] == [];
    assert Reduce([blank], false, []) == [blank] && Reduce([name], false, []) == [name];
    assert Reduce(parts, false, []) == [blank];
    JoinOne(blank);
    JoinOne(name);
    CleanNeverStartsWithDotSlash(path);
    CleanNeverStartsWithDotSlash(name);
  }

  lemma TrimSpaceOfBlank(name: string)
    requires PlainName(name)
    ensures TrimSpace(" " + name) == name
  {
    assert name[0] in name && name[|name| - 1] in name;
    TrimSpaceTrims(name);
    assert (" " + name)[1..] == name;
  }

  lemma NoSlashSplit(s: string)
    requires '/' !in s
    ensures Split(s, '/') == [s]
  {
  }

  // ----- Plain paths -----

  /** A segment as file and directory names have it when no white space is involved. */
  ghost predicate PlainName(segment: string) {
    Plain(segment) && SpaceFree(segment) && '\\' !in segment
  }

  ghost predicate PlainPath(segments: seq<string>) {
    segments != [] && forall s :: s in segments ==> PlainName(s)
  }

  lemma PlainPathIsReduced(segments: seq<string>)
    requires PlainPath(segments)
    ensures Reduced(segments, false)
  {
    assert forall i :: 0 <= i < |segments| ==> segments[i] in segments && Plain(segments[i]);
  }

  lemma {:induction false} JoinEnds(parts: seq<string>)
    requires parts != [] && forall i :: 0 <= i < |parts| ==> parts[i] != ""
    ensures Join(parts, '/') != ""
    ensures Join(parts, '/')[0] == parts[0][0]
    ensures var last := parts[|parts| - 1]; Join(parts, '/')[|Join(parts, '/')| - 1] == last[|last| - 1]
  {
    if |parts| > 1 {
      JoinEnds(parts[1..]);
      assert Join(parts, '/') == parts[0] + "/" + Join(parts[1..], '/');
    }
  }

  lemma PlainPathIsNormal(segments: seq<string>)
    requires PlainPath(segments)
    ensures NormalizePath(Join(segments, '/')) == Join(segments, '/')
    ensures Split(Join(segments, '/'), '/') == segments
  {
    hide Clean, Join, Split;
    var path := Join(segments, '/');
    PlainPathIsReduced(segments);
    CleanOfReduced(segments);
    assert forall i :: 0 <= i < |segments| ==> segments[i] in segments && segments[i] != "";
    JoinEnds(segments);
    var first, last := segments[0], segments[|segments| - 1];
    assert first in segments && last in segments;
    assert first[0] in first && last[|last| - 1] in last;
    TrimSpaceTrims(path);
    JoinCharacters(segments, '\\');
    SlashesOfClean(path);
    CleanNeverStartsWithDotSlash(path);
  }

  /** Position just after the last slash. */
  function AfterLastSlash(path: string): (i: nat)
    ensures i <= |path|
  {
    if path == "" then 0
    else if path[|path| - 1] == '/' then |path|
    else AfterLastSlash(path[..|path| - 1])
  }

  /** filepath.Dir. */
  function DirOf(path: string): string {
    Clean(path[..AfterLastSlash(path)])
  }

  lemma {:induction false} AfterLastSlashAt(front: string, file: string)
    requires '/' !in file
    ensures AfterLastSlash(front + ['/'] + file) == |front| + 1
    decreases |file|
  {
    var path := front + ['/'] + file;
    if file != "" {
      assert path[|path| - 1] == file[|file| - 1] && file[|file| - 1] in file;
      assert path[..|path| - 1] == front + ['/'] + file[..|file| - 1];
      AfterLastSlashAt(front, file[..|file| - 1]);
    }
  }

  lemma {:induction false} NoSlash(file: string)
    requires '/' !in file
    ensures AfterLastSlash(file) == 0
  {
    if file != "" {
      assert file[|file| - 1] in file;
      NoSlash(file[..|file| - 1]);
    }
  }

  /** The directory of a plain file path. */
  lemma DirOfPlainPath(dirs: seq<string>, file: string)
    requires PlainPath(dirs + [file])
    ensures DirOf(Join(dirs + [file], '/')) == if dirs == [] then "." else Join(dirs, '/')
  {
    hide Clean;
    assert file == (dirs + [file])[|dirs|] && file in dirs + [file];
    if dirs == [] {
      assert dirs + [file] == [file];
      NoSlash(file);
      assert Clean("") == "." by { CleanOfEmpty(); }
      assert file[..0] == "";
    } else {
      assert forall d :: d in dirs ==> d in dirs + [file];
      JoinAppend(dirs, [file], '/');
      AfterLastSlashAt(Join(dirs, '/'), file);
      CleanOfTrailingSlash(dirs);
      assert (Join(dirs, '/') + ['/'] + file)[..|Join(dirs, '/')| + 1] == Join(dirs, '/') + "/";
    }
  }

  lemma CleanOfEmpty()
    ensures Clean("") == "."
  {
    EmptyPath();
  }

  lemma CleanOfTrailingSlash(dirs: seq<string>)
    requires PlainPath(dirs)
    ensures Clean(Join(dirs, '/') + "/") == Join(dirs, '/')
  {
    hide Join, Split, Reduce;
    PlainPathIsReduced(dirs);
    CleanOfReduced(dirs);
    var path := Join(dirs, '/') + "/";
    JoinAppend(dirs, [""], '/');
    assert Join([""], '/') == "" by { JoinOne(""); }
    assert path == Join(dirs + [""], '/');
    assert forall s :: s in dirs + [""] ==> '/' !in s;
    SplitOfJoin(dirs + [""], '/');
    ReduceSkipsEmptyEnd(dirs, false, []);
    assert [] + dirs == dirs;
    ReduceKeepsReduced(dirs, false, []);
    assert path[0] == Join(dirs, '/')[0];
  }

  lemma JoinOne(s: string)
    ensures Join([s], '/') == s
  {
  }
}
