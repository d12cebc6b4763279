/** Directory-scoped configuration: the directories that a change touches, and which configured directory
    they select. */
module Directories {
  import opened Text

  // ----- The directories above a file

  /** The joined prefixes of `parts` of at most `i` parts, longest first. */
  function Prefixes(parts: seq<string>, i: nat): seq<string>
    requires i <= |parts|
  {
    if i == 0 then [] else [Join(parts[..i], '/')] + Prefixes(parts, i - 1)
  }

  /** The directories above a file, deepest first. */
  function Above(file: string): seq<string> {
    var parts := Split(file, '/');
    Prefixes(parts, |parts| - 1)
  }

  /** `Set.add` */
  function Add(paths: seq<string>, path: string): seq<string> {
    if path in paths then paths else paths + [path]
  }

  function AddAll(paths: seq<string>, more: seq<string>): seq<string>
    decreases |more|
  {
    if more == [] then paths else AddAll(Add(paths, more[0]), more[1..])
  }

  function UniquePaths(files: seq<string>): seq<string> {
    if files == [] then [] else AddAll(UniquePaths(files[..|files| - 1]), Above(files[|files| - 1]))
  }

  method ExtractUniqueDirectoryPaths(files: seq<string>) returns (paths: seq<string>)
    ensures paths == UniquePaths(files)
  {
    paths := [];
    for f := 0 to |files|
      invariant paths == UniquePaths(files[..f])
    {
      assert files[..f + 1][..f] == files[..f];
      var parts := Split(files[f], '/');
      var i := |parts| - 1;
      ghost var before := paths;
      while i > 0
        invariant 0 <= i < |parts|
        invariant AddAll(before, Above(files[f])) == AddAll(paths, Prefixes(parts, i))
      {
        assert Prefixes(parts, i)[1..] == Prefixes(parts, i - 1);
        paths := Add(paths, Join(parts[..i], '/'));
        i := i - 1;
      }
    }
    assert files[..|files|] == files;
  }

  lemma {:induction false} JoinConcat(a: seq<string>, b: seq<string>)
    requires a != [] && b != []
    ensures Join(a + b, '/') == Join(a, '/') + "/" + Join(b, '/')
  {
    if |a| == 1 {
      assert (a + b)[1..] == b;
    } else {
      assert (a + b)[1..] == a[1..] + b;
      JoinConcat(a[1..], b);
      assert (a[0] + "/" + Join(a[1..], '/')) + "/" + Join(b, '/')
          == a[0] + "/" + (Join(a[1..], '/') + "/" + Join(b, '/'));
    }
  }

  /** `path` is the part of `file` before one of its slashes. */
  predicate IsAbove(path: string, file: string) {
    |path| < |file| && file[|path|] == '/' && file[..|path|] == path
  }

  lemma {:induction false} PrefixesMembers(parts: seq<string>, i: nat, path: string)
    requires i <= |parts|
    ensures path in Prefixes(parts, i) <==> exists k | 1 <= k <= i :: path == Join(parts[..k], '/')
  {
    if i > 0 {
      PrefixesMembers(parts, i - 1, path);
      if path in Prefixes(parts, i) && path != Join(parts[..i], '/') {
        assert path in Prefixes(parts, i - 1);
      }
    }
  }

  lemma JoinedPrefixIsAbove(file: string, k: nat)
    requires 1 <= k < |Split(file, '/')|
    ensures IsAbove(Join(Split(file, '/')[..k], '/'), file)
  {
    var parts := Split(file, '/');
    JoinSplit(file, '/');
    assert parts == parts[..k] + parts[k..];
    JoinConcat(parts[..k], parts[k..]);
    var path := Join(parts[..k], '/');
    hide Join, Split;
    assert file == path + "/" + Join(parts[k..], '/');
  }

  lemma AboveIsJoinedPrefix(file: string, path: string) returns (k: nat)
    requires IsAbove(path, file)
    ensures 1 <= k < |Split(file, '/')| && path == Join(Split(file, '/')[..k], '/')
  {
    hide Join, Split;
    var rest := file[|path| + 1..];
    assert file == path + "/" + rest;
    SplitAtSeparator(path, rest, '/');
    JoinSplit(path, '/');
    k := |Split(path, '/')|;
    assert Split(file, '/')[..k] == Split(path, '/');
  }

  /** The directories above a file are its text before each slash. */
  lemma AboveMembers(file: string, path: string)
    ensures path in Above(file) <==> IsAbove(path, file)
  {
    hide Join, Split, IsAbove;
    var parts := Split(file, '/');
    PrefixesMembers(parts, |parts| - 1, path);
    if k :| 1 <= k <= |parts| - 1 && path == Join(parts[..k], '/') {
      JoinedPrefixIsAbove(file, k);
    }
    if IsAbove(path, file) {
      var k := AboveIsJoinedPrefix(file, path);
    }
  }

  lemma {:induction false} AddAllMembers(paths: seq<string>, more: seq<string>)
    requires Distinct(paths)
    ensures Distinct(AddAll(paths, more))
    ensures forall p :: p in AddAll(paths, more) <==> p in paths || p in more
    decreases |more|
  {
    if more != [] {
      AddAllMembers(Add(paths, more[0]), more[1..]);
      assert more == [more[0]] + more[1..];
    }
  }

  /** The result has each directory above a file once. */
  lemma {:induction false} UniquePathsMembers(files: seq<string>)
    ensures Distinct(UniquePaths(files))
    ensures forall p :: p in UniquePaths(files) <==> exists f | f in files :: IsAbove(p, f)
  {
    hide Above, IsAbove;
    if files != [] {
      var init, last := files[..|files| - 1], files[|files| - 1];
      UniquePathsMembers(init);
      AddAllMembers(UniquePaths(init), Above(last));
      forall p ensures p in UniquePaths(files) <==> exists f | f in files :: IsAbove(p, f) {
        AboveMembers(last, p);
        assert last in files && forall f | f in init :: f in files;
        if f :| f in files && IsAbove(p, f) {
          assert f in init || f == last;
        }
      }
    }
  }

  /** Each path is shorter than those before it. */
  predicate Deepest(paths: seq<string>) {
    forall i, j | 0 <= i < j < |paths| :: |paths[i]| > |paths[j]|
  }

  lemma {:induction false} PrefixesDeepest(parts: seq<string>, i: nat)
    requires i <= |parts|
    ensures Deepest(Prefixes(parts, i))
    ensures i > 0 ==> Prefixes(parts, i)[0] == Join(parts[..i], '/')
  {
    hide Join;
    if i > 1 {
      PrefixesDeepest(parts, i - 1);
      assert parts[..i] == parts[..i - 1] + [parts[i - 1]];
      JoinConcat(parts[..i - 1], [parts[i - 1]]);
    } else if i == 1 {
      assert Prefixes(parts, 0) == [];
    }
  }

  lemma {:induction false} AddAllOrder(paths: seq<string>, more: seq<string>)
    requires Deepest(more)
    ensures paths <= AddAll(paths, more)
    ensures forall p | p in AddAll(paths, more)[|paths|..] :: p in more
    ensures Deepest(AddAll(paths, more)[|paths|..])
    decreases |more|
  {
    hide Deepest;
    if more == [] {
      assert AddAll(paths, more)[|paths|..] == more;
    } else {
      var added := Add(paths, more[0]);
      var all := AddAll(added, more[1..]);
      DeepestTail(more);
      AddAllOrder(added, more[1..]);
      if more[0] !in paths {
        DeepestCons(more[0], all[|added|..]);
        assert all[|paths|..] == [more[0]] + all[|added|..];
      }
    }
  }

  lemma DeepestTail(paths: seq<string>)
    requires paths != [] && Deepest(paths)
    ensures Deepest(paths[1..])
    ensures forall p | p in paths[1..] :: p in paths && |p| < |paths[0]|
  {
  }

  lemma DeepestCons(path: string, rest: seq<string>)
    requires Deepest(rest) && forall p | p in rest :: |p| < |path|
    ensures Deepest([path] + rest)
  {
    assert forall i | 0 <= i < |rest| :: rest[i] in rest;
  }

  /** A further file leaves the paths so far in place; what it adds comes behind them, deepest first. */
  lemma UniquePathsOrder(files: seq<string>, file: string)
    ensures var before, after := UniquePaths(files), UniquePaths(files + [file]);
            before <= after && Deepest(after[|before|..])
  {
    assert (files + [file])[..|files|] == files;
    var parts := Split(file, '/');
    PrefixesDeepest(parts, |parts| - 1);
    AddAllOrder(UniquePaths(files), Above(file));
  }

  /** With a directory the result has all its parents. */
  lemma ParentsIncluded(files: seq<string>, path: string, parent: string)
    requires path in UniquePaths(files) && IsAbove(parent, path)
    ensures parent in UniquePaths(files)
  {
    UniquePathsMembers(files);
    var f :| f in files && IsAbove(path, f);
    assert f[..|parent|] == path[..|parent|];
    assert IsAbove(parent, f);
  }

  // ----- Matching configured directories

  /** Without one leading slash. */
  function NormalizePath(path: string): string {
    if path != "" && path[0] == '/' then path[1..] else path
  }

  predicate Touches(dir: string, filePath: string) {
    NormalizePath(filePath) == NormalizePath(dir) || NormalizePath(dir) + "/" <= NormalizePath(filePath)
  }

  /** A path touches a directory if, one leading slash of each aside, it is the directory or goes on with a
      slash behind it. */
  lemma TouchesIff(dir: string, filePath: string)
    ensures var d := if dir != "" && dir[0] == '/' then dir[1..] else dir;
            var f := if filePath != "" && filePath[0] == '/' then filePath[1..] else filePath;
            Touches(dir, filePath) <==> |f| >= |d| && f[..|d|] == d && (|f| > |d| ==> f[|d|] == '/')
  {
    var d, f := NormalizePath(dir), NormalizePath(filePath);
    if |f| > |d| {
      assert f[..|d| + 1] == f[..|d|] + [f[|d|]];
    }
  }

  predicate Affected(dir: string, affectedPaths: seq<string>) {
    exists p | p in affectedPaths :: Touches(dir, p)
  }

  /** The positions of the affected directories. */
  function Matching(dirs: seq<string>, affectedPaths: seq<string>): seq<nat> {
    if dirs == [] then []
    else
      Matching(dirs[..|dirs| - 1], affectedPaths)
      + if Affected(dirs[|dirs| - 1], affectedPaths) then [|dirs| - 1] else []
  }

  method FilterDirectories(dirs: seq<string>, affectedPaths: seq<string>) returns (matching: seq<nat>)
    ensures matching == Matching(dirs, affectedPaths)
  {
    matching := [];
    for i := 0 to |dirs|
      invariant matching == Matching(dirs[..i], affectedPaths)
    {
      assert dirs[..i + 1][..i] == dirs[..i];
      var some := false;
      for j := 0 to |affectedPaths|
        invariant some <==> exists k | 0 <= k < j :: Touches(dirs[i], affectedPaths[k])
      {
        if Touches(dirs[i], affectedPaths[j]) {
          some := true;
        }
      }
      if some {
        matching := matching + [i];
      }
    }
    assert dirs[..|dirs|] == dirs;
  }

  /** Directory `i` is the one that is affected. */
  predicate Only(dirs: seq<string>, affectedPaths: seq<string>, i: nat) {
    i < |dirs| && forall j | 0 <= j < |dirs| :: Affected(dirs[j], affectedPaths) <==> j == i
  }

  /** `resolveConfigByDirectories`: the directory whose configuration is used, if there is just one. */
  method ResolveConfig(dirs: seq<string>, affectedPaths: seq<string>) returns (choice: Option<nat>)
    ensures choice.Some? ==> Only(dirs, affectedPaths, choice.value)
    ensures choice.None? ==> forall i: nat :: !Only(dirs, affectedPaths, i)
  {
    var matching := FilterDirectories(dirs, affectedPaths);
    OnlyMatching(dirs, affectedPaths);
    hide Only;
    if |matching| != 1 {
      return None;
    }
    return Some(matching[0]);
  }

  lemma OnlyMatching(dirs: seq<string>, affectedPaths: seq<string>)
    ensures var m := Matching(dirs, affectedPaths);
            if |m| == 1 then Only(dirs, affectedPaths, m[0]) else forall i: nat :: !Only(dirs, affectedPaths, i)
  {
    hide Affected;
    MatchingMembers(dirs, affectedPaths);
    var m := Matching(dirs, affectedPaths);
    hide Matching;
    if |m| == 1 {
      assert m[0] in m;
      forall j: nat | j < |dirs| ensures Affected(dirs[j], affectedPaths) <==> j == m[0] {
        assert j in m <==> j == m[0];
      }
    } else {
      assert |m| > 1 ==> m[0] in m && m[1] in m && m[0] < m[1];
      forall i: nat ensures !Only(dirs, affectedPaths, i) {
        if |m| > 1 {
          var other := if i == m[0] then m[1] else m[0];
          assert other < |dirs| && Affected(dirs[other], affectedPaths) && other != i;
        } else if i < |dirs| {
          assert i !in m && !Affected(dirs[i], affectedPaths);
        }
      }
    }
  }

  predicate Increasing(m: seq<nat>) {
    forall i, j | 0 <= i < j < |m| :: m[i] < m[j]
  }

  lemma {:induction false} MatchingMembers(dirs: seq<string>, affectedPaths: seq<string>)
    ensures forall i: nat :: i in Matching(dirs, affectedPaths) <==> i < |dirs| && Affected(dirs[i], affectedPaths)
    ensures Increasing(Matching(dirs, affectedPaths))
  {
    hide Affected, Increasing;
    if dirs == [] {
      assert Increasing([]) by { NoneIncreasing(); }
    } else {
      var init, last := dirs[..|dirs| - 1], |dirs| - 1;
      MatchingMembers(init, affectedPaths);
      assert forall i | 0 <= i < |init| :: init[i] == dirs[i];
      AppendIncreasing(Matching(init, affectedPaths), last);
    }
  }

  lemma NoneIncreasing()
    ensures Increasing([])
  {
  }

  lemma AppendIncreasing(m: seq<nat>, last: nat)
    requires Increasing(m) && forall i | i in m :: i < last
    ensures Increasing(m + [last]) && Increasing(m + [])
  {
    assert m + [] == m;
    assert forall i | 0 <= i < |m| :: m[i] in m;
  }

  // ----- Matching the directories of a change

  /** A file below a directory. */
  predicate Below(file: string, dir: string) {
    NormalizePath(dir) + "/" <= NormalizePath(file)
  }

  lemma TouchedBelow(dir: string, file: string, path: string)
    requires NormalizePath(dir) != "" && IsAbove(path, file) && Touches(dir, path)
    ensures Below(file, dir)
  {
    var d, p, f := NormalizePath(dir), NormalizePath(path), NormalizePath(file);
    assert path != "" ==> path[0] == file[0];
    assert p <= f;
    if p == d {
      assert |d| < |f| && f[|d|] == '/';
      assert f[..|d| + 1] == d + "/";
    } else {
      assert f[..|p|] == p && p[..|d| + 1] == d + "/";
      assert f[..|d| + 1] == d + "/";
    }
  }

  lemma BelowTouched(dir: string, file: string) returns (path: string)
    requires NormalizePath(dir) != "" && Below(file, dir)
    ensures IsAbove(path, file) && Touches(dir, path)
  {
    var d, f := NormalizePath(dir), NormalizePath(file);
    assert f[..|d| + 1] == d + "/" && f[|d|] == '/' && f[..|d|] == d;
    var skip := |file| - |f|;
    path := file[..skip + |d|];
    assert file[skip..] == f;
    assert file[skip + |d|] == f[|d|];
    if skip == 0 {
      assert path == d && path[0] == file[0];
    } else {
      assert path[0] == '/' && path[1..] == f[..|d|];
    }
  }

  /** A configured directory matches a change exactly if the change has a file below it. A path with a
      trailing slash therefore only matches files with an empty part after it. */
  lemma DirectoryMatches(dir: string, files: seq<string>)
    requires NormalizePath(dir) != ""
    ensures Affected(dir, UniquePaths(files)) <==> exists f | f in files :: Below(f, dir)
  {
    UniquePathsMembers(files);
    hide IsAbove, Touches, Below, UniquePaths, NormalizePath;
    if p :| p in UniquePaths(files) && Touches(dir, p) {
      var f :| f in files && IsAbove(p, f);
      TouchedBelow(dir, f, p);
    }
    if f :| f in files && Below(f, dir) {
      var p := BelowTouched(dir, f);
      assert p in UniquePaths(files);
    }
  }

  /** The root directory matches exactly the changes with a file name that starts with a slash. */
  lemma RootMatches(dir: string, files: seq<string>)
    requires NormalizePath(dir) == ""
    ensures Affected(dir, UniquePaths(files)) <==> exists f | f in files :: f != "" && f[0] == '/'
  {
    UniquePathsMembers(files);
    if p :| p in UniquePaths(files) && Touches(dir, p) {
      var f :| f in files && IsAbove(p, f);
      if p == "" { assert f[0] == '/'; } else { assert p[0] == f[0]; }
    }
    if f :| f in files && f != "" && f[0] == '/' {
      assert IsAbove("", f);
      assert "" in UniquePaths(files) && Touches(dir, "");
    }
  }

  /** A file that makes a directory affected. */
  predicate Reaches(file: string, dir: string) {
    if NormalizePath(dir) == "" then file != "" && file[0] == '/' else Below(file, dir)
  }

  lemma AffectedIff(dir: string, files: seq<string>)
    ensures Affected(dir, UniquePaths(files)) <==> exists f | f in files :: Reaches(f, dir)
  {
    hide Affected, UniquePaths, Below;
    if NormalizePath(dir) == "" {
      RootMatches(dir, files);
    } else {
      DirectoryMatches(dir, files);
    }
  }

  /** Whatever affects `inner` affects `outer` too: it contains it or is the same directory. */
  predicate Covers(outer: string, inner: string) {
    var o, i := NormalizePath(outer), NormalizePath(inner);
    if o == "" then i == "" || i[0] == '/' else o + "/" <= i + "/"
  }

  lemma CoversReaches(outer: string, inner: string, file: string)
    requires Covers(outer, inner) && Reaches(file, inner)
    ensures Reaches(file, outer)
  {
    var o, i, f := NormalizePath(outer), NormalizePath(inner), NormalizePath(file);
    if i != "" {
      assert f[..|i| + 1] == i + "/";
      if o == "" {
        assert f[0] == i[0] == '/';
      } else {
        assert (i + "/")[..|o| + 1] == o + "/";
        assert f[..|o| + 1] == o + "/";
      }
    }
  }

  /** A file right below a directory. */
  function FileIn(dir: string): string {
    var d := NormalizePath(dir);
    if d == "" then "/" else if d[0] == '/' then "/" + d + "/" else d + "/"
  }

  lemma FileInReaches(dir: string, outer: string)
    ensures Reaches(FileIn(dir), outer) <==> Covers(outer, dir)
  {
    var d := NormalizePath(dir);
    assert ("/" + d + "/")[1..] == d + "/";
    assert NormalizePath(FileIn(dir)) == if d == "" then "" else d + "/";
  }

  /** A configured directory can be selected, by some change, exactly if no other one contains it or is
      the same directory: a nested or repeated one never is. */
  lemma SelectableIff(dirs: seq<string>, i: nat)
    requires i < |dirs|
    ensures (exists files: seq<string> :: Only(dirs, UniquePaths(files), i))
            <==> forall j | 0 <= j < |dirs| && j != i :: !Covers(dirs[j], dirs[i])
  {
    hide Affected, UniquePaths, Covers, Reaches, FileIn;
    if files: seq<string> :| Only(dirs, UniquePaths(files), i) {
      AffectedIff(dirs[i], files);
      var f :| f in files && Reaches(f, dirs[i]);
      forall j | 0 <= j < |dirs| && j != i ensures !Covers(dirs[j], dirs[i]) {
        AffectedIff(dirs[j], files);
        if Covers(dirs[j], dirs[i]) {
          CoversReaches(dirs[j], dirs[i], f);
        }
      }
    }
    if forall j | 0 <= j < |dirs| && j != i :: !Covers(dirs[j], dirs[i]) {
      var files := [FileIn(dirs[i])];
      forall j | 0 <= j < |dirs| ensures Affected(dirs[j], UniquePaths(files)) <==> j == i {
        AffectedIff(dirs[j], files);
        FileInReaches(dirs[i], dirs[j]);
        SelfCovers(dirs[i]);
        assert FileIn(dirs[i]) in files;
      }
    }
  }

  lemma SelfCovers(dir: string)
    ensures Covers(dir, dir)
  {
  }

  /** A change that affects a directory inside another configured one selects neither. */
  lemma NestedSelectsNeither(dirs: seq<string>, files: seq<string>, outer: nat, inner: nat)
    requires outer < |dirs| && inner < |dirs| && outer != inner && Covers(dirs[outer], dirs[inner])
    requires Affected(dirs[inner], UniquePaths(files))
    ensures forall i: nat :: !Only(dirs, UniquePaths(files), i)
  {
    hide Affected, UniquePaths, Covers, Reaches;
    AffectedIff(dirs[inner], files);
    AffectedIff(dirs[outer], files);
    var f :| f in files && Reaches(f, dirs[inner]);
    CoversReaches(dirs[outer], dirs[inner], f);
  }
}
