/**
  Which files of a checked-out commit are indexed: the path filter, the directory walk,
  and the map of indexable texts that a full walk is meant to produce.
 */
module GitFiles {
  import opened Options
  import opened Text

  /** A commit: each path with its readable text, None where reading or extraction fails. */
  type Tree = map<string, Option<string>>

  /** The compiled include and exclude matchers; None when the configured list is empty. */
  datatype Filter = Filter(includes: Option<string -> bool>, excludes: Option<string -> bool>)

  datatype Config = Config(filter: Filter, workDir: string)

  /** One step of os.walk: a directory relative to the checkout ("" at the top) and its files. */
  datatype WalkEntry = WalkEntry(dir: string, names: seq<string>)

  const BINARY_EXTENSIONS: set<string> :=
    {".exe", ".so", ".dll", ".bin", ".obj", ".o", ".a", ".lib", ".dylib"}

  function Lower(s: string): string {
    seq(|s|, i requires 0 <= i < |s| =>
      if 'A' <= s[i] <= 'Z' then (s[i] as int + 32) as char else s[i])
  }

  /** The index of the last dot of a file name, |name| when there is none. */
  function LastDot(name: string): (k: nat)
    ensures k <= |name|
    ensures k < |name| ==> name[k] == '.'
    ensures forall i :: k < i < |name| ==> name[i] != '.'
    ensures k == |name| ==> Without(name, '.')
  {
    if name == "" then 0
    else
      var k := LastDot(name[1..]);
      assert forall i :: 1 <= i < |name| ==> name[i] == name[1..][i - 1];
      if k < |name| - 1 then k + 1 else if name[0] == '.' then 0 else |name|
  }

  /** os.path.splitext(path)[1]: leading dots of the file name do not start an extension. */
  function Extension(path: string): string {
    var parts := Split(path, '/');
    var name := parts[|parts| - 1];
    var dot := LastDot(name);
    if dot < |name| && exists k :: 0 <= k < dot && name[k] != '.' then name[dot..] else ""
  }

  predicate Hidden(path: string) {
    exists part :: part in Split(path, '/') && part != "" && part[0] == '.'
  }

  /** _should_index_file */
  predicate ShouldIndex(filter: Filter, path: string) {
    if Hidden(path) then false
    else if Lower(Extension(path)) in BINARY_EXTENSIONS then false
    else if filter.includes.None? && filter.excludes.None? then true
    else if filter.excludes.Some? && filter.excludes.value(path) then false
    else if filter.includes.Some? then filter.includes.value(path)
    else true
  }

  /** The filter's meaning: not hidden, not binary, excludes win over includes. */
  lemma ShouldIndexMeaning(filter: Filter, path: string)
    ensures ShouldIndex(filter, path) <==>
            && (forall k :: 0 <= k < |Split(path, '/')| ==> !("." <= Split(path, '/')[k]))
            && Lower(Extension(path)) !in BINARY_EXTENSIONS
            && (filter.excludes.Some? ==> !filter.excludes.value(path))
            && (filter.includes.Some? ==> filter.includes.value(path))
  {
    var parts := Split(path, '/');
    if Hidden(path) {
      var part :| part in parts && part != "" && part[0] == '.';
      assert "." <= part;
    } else {
      forall k | 0 <= k < |parts| ensures !("." <= parts[k]) {
        assert parts[k] in parts;
      }
    }
  }

  lemma {:induction false} LastDotOf(stem: string, ext: string)
    requires Without(ext, '.')
    ensures LastDot(stem + "." + ext) == |stem|
  {
    var name := stem + "." + ext;
    assert name[|stem|] == '.';
    assert forall i :: |stem| < i < |name| ==> name[i] == ext[i - |stem| - 1];
  }

  /** The extension is what follows the last dot of the file name, whatever the directory. */
  lemma ExtensionOf(dir: string, stem: string, ext: string)
    requires Without(stem, '/') && Without(ext, '/') && Without(ext, '.')
    requires exists k :: 0 <= k < |stem| && stem[k] != '.'
    ensures Extension(dir + "/" + (stem + "." + ext)) == "." + ext
  {
    var name := stem + "." + ext;
    assert Without(name, '/') by {
      forall k | 0 <= k < |name| ensures name[k] != '/' {
        assert k < |stem| ==> name[k] == stem[k];
        assert k > |stem| ==> name[k] == ext[k - |stem| - 1];
      }
    }
    SplitOfPart(name, '/');
    SplitConcat(dir, name, '/');
    assert dir + "/" + name == dir + ['/'] + name;
    LastDotOf(stem, ext);
    var k :| 0 <= k < |stem| && stem[k] != '.';
    assert name[k] != '.';
    assert name[|stem|..] == "." + ext;
  }

  /** A file name whose dots all lead has no extension. */
  lemma LeadingDotsOnly(dir: string, name: string, dots: nat)
    requires Without(name, '/') && dots <= |name|
    requires (forall k :: 0 <= k < dots ==> name[k] == '.') && (forall k :: dots <= k < |name| ==> name[k] != '.')
    ensures Extension(dir + "/" + name) == ""
  {
    SplitOfPart(name, '/');
    SplitConcat(dir, name, '/');
    assert dir + "/" + name == dir + ['/'] + name;
  }

  /** What reading a path of the checkout yields; unreadable and empty files look alike. */
  function Content(tree: Tree, path: string): string {
    if path in tree && tree[path].Some? then tree[path].value else ""
  }

  function Root(cfg: Config, dir: string): string {
    if dir == "" then cfg.workDir else cfg.workDir + "/" + dir
  }

  function RelPath(dir: string, name: string): string {
    if dir == "" then name else dir + "/" + name
  }

  function DirOf(path: string): string {
    var parts := Split(path, '/');
    Join(parts[..|parts| - 1], '/')
  }

  /** The full walk enters the directory of this path. */
  predicate Walked(cfg: Config, path: string) {
    !Contains(Root(cfg, DirOf(path)), ".git")
  }

  /** The work directory's own path does not look like a skipped directory. */
  predicate Clean(cfg: Config) {
    !Contains(cfg.workDir, ".git")
  }

  /** Two runs with the same patterns, each in its own clean work directory. */
  ghost predicate SameFilter(cfg: Config, cfg': Config) {
    cfg.filter == cfg'.filter && Clean(cfg) && Clean(cfg')
  }

  predicate Indexable(cfg: Config, tree: Tree, path: string) {
    path in tree && ShouldIndex(cfg.filter, path) && Walked(cfg, path) && Content(tree, path) != ""
  }

  /** The path-to-text map of a full index of this commit. */
  function FullMap(cfg: Config, tree: Tree): map<string, string> {
    map path | path in tree && Indexable(cfg, tree, path) :: Content(tree, path)
  }

  /** The filtered paths of one directory, in listing order. */
  function Kept(cfg: Config, dir: string, names: seq<string>): seq<string> {
    if names == [] then []
    else
      var path := RelPath(dir, names[|names| - 1]);
      Kept(cfg, dir, names[..|names| - 1]) + (if ShouldIndex(cfg.filter, path) then [path] else [])
  }

  /** The files a full index visits, in walk order. */
  function RepositoryFiles(cfg: Config, walk: seq<WalkEntry>): seq<string> {
    if walk == [] then []
    else
      var last := walk[|walk| - 1];
      RepositoryFiles(cfg, walk[..|walk| - 1]) +
      (if Contains(Root(cfg, last.dir), ".git") then [] else Kept(cfg, last.dir, last.names))
  }

  /** The inner loop of _get_repository_files. */
  method KeepFiles(cfg: Config, entry: WalkEntry, files: seq<string>) returns (files': seq<string>)
    ensures files' == files + Kept(cfg, entry.dir, entry.names)
  {
    hide ShouldIndex, RelPath;
    files' := files;
    for j := 0 to |entry.names|
      invariant files' == files + Kept(cfg, entry.dir, entry.names[..j])
    {
      assert entry.names[..j + 1][..j] == entry.names[..j];
      var path := RelPath(entry.dir, entry.names[j]);
      if ShouldIndex(cfg.filter, path) {
        files' := files' + [path];
      }
    }
    assert entry.names[..|entry.names|] == entry.names;
  }

  /** _get_repository_files */
  method GetRepositoryFiles(cfg: Config, walk: seq<WalkEntry>) returns (files: seq<string>)
    ensures files == RepositoryFiles(cfg, walk)
  {
    files := [];
    for i := 0 to |walk|
      invariant files == RepositoryFiles(cfg, walk[..i])
    {
      assert walk[..i + 1][..i] == walk[..i];
      if Contains(Root(cfg, walk[i].dir), ".git") {
        continue;
      }
      files := KeepFiles(cfg, walk[i], files);
    }
    assert walk[..|walk|] == walk;
  }

  predicate FileName(name: string) {
    name != "" && Without(name, '/')
  }

  /** The j-th file of the i-th walked directory is `path`. */
  ghost predicate MetAt(walk: seq<WalkEntry>, i: nat, j: nat, path: string) {
    i < |walk| && j < |walk[i].names| && RelPath(walk[i].dir, walk[i].names[j]) == path
  }

  ghost predicate Met(walk: seq<WalkEntry>, path: string) {
    exists i: nat, j: nat :: MetAt(walk, i, j, path)
  }

  ghost predicate MeetsOnce(walk: seq<WalkEntry>) {
    forall i: nat, j: nat, k: nat, l: nat, path ::
      MetAt(walk, i, j, path) && MetAt(walk, k, l, path) ==> i == k && j == l
  }

  /** Outside the directories it skips, the walk meets files of the tree only, and every readable one;
      it meets no file twice.  A clone's own `.git` directory is walked over and is in no tree;
      submodules and links to directories are in the tree and are no files to the walk. */
  ghost predicate WalkOf(cfg: Config, tree: Tree, walk: seq<WalkEntry>) {
    && ProperNames(walk)
    && (forall path :: Walked(cfg, path) && Met(walk, path) ==> path in tree)
    && (forall path :: Walked(cfg, path) && Content(tree, path) != "" ==> Met(walk, path))
    && MeetsOnce(walk)
  }

  predicate Distinct<T(==)>(s: seq<T>) {
    forall i, j :: 0 <= i < j < |s| ==> s[i] != s[j]
  }

  lemma DirOfRelPath(dir: string, name: string)
    requires FileName(name)
    ensures DirOf(RelPath(dir, name)) == dir
  {
    SplitOfPart(name, '/');
    if dir != "" {
      SplitConcat(dir, name, '/');
      assert dir + "/" + name == dir + ['/'] + name;
      assert (Split(dir, '/') + [name])[..|Split(dir, '/')|] == Split(dir, '/');
      JoinSplit(dir, '/');
    }
  }

  /** A directory below another contains ".git" iff one of the two paths does. */
  lemma ContainsBelow(dir: string, sub: string)
    ensures Contains(dir + "/" + sub, ".git") <==> Contains(dir, ".git") || Contains(sub, ".git")
  {
    var s := dir + "/" + sub;
    var n := |dir|;
    if k :| 0 <= k <= |s| && ".git" <= s[k..] {
      assert forall j :: 0 <= j < 4 ==> s[k + j] == s[k..][j];
      assert s[n] == '/';
      if k + 4 <= n {
        assert dir[k..][..4] == ".git";
      } else {
        assert k > n;
        assert sub[k - n - 1..] == s[k..];
      }
    }
    if k :| 0 <= k <= n && ".git" <= dir[k..] {
      assert s[k..] == dir[k..] + "/" + sub;
    }
    if k :| 0 <= k <= |sub| && ".git" <= sub[k..] {
      assert s[n + 1 + k..] == sub[k..];
    }
  }

  /** In a clean work directory the walk depends on the path inside the checkout only. */
  lemma CleanWalk(cfg: Config, path: string)
    requires Clean(cfg)
    ensures Walked(cfg, path) <==> !Contains(DirOf(path), ".git")
  {
    hide DirOf;
    ContainsBelow(cfg.workDir, DirOf(path));
  }

  /** So what a commit's full index holds depends on the patterns only. */
  lemma SameFilterSameFiles(cfg: Config, cfg': Config, tree: Tree, path: string)
    requires SameFilter(cfg, cfg')
    ensures Indexable(cfg, tree, path) <==> Indexable(cfg', tree, path)
  {
    hide ShouldIndex, Walked, Contains;
    CleanWalk(cfg, path);
    CleanWalk(cfg', path);
  }

  lemma SameFilterSameMap(cfg: Config, cfg': Config, tree: Tree)
    requires SameFilter(cfg, cfg')
    ensures FullMap(cfg, tree) == FullMap(cfg', tree)
  {
    hide Indexable, SameFilter;
    forall path ensures Indexable(cfg, tree, path) <==> Indexable(cfg', tree, path) {
      SameFilterSameFiles(cfg, cfg', tree, path);
    }
  }

  ghost predicate Names(dir: string, names: seq<string>, path: string) {
    exists j :: 0 <= j < |names| && RelPath(dir, names[j]) == path
  }

  lemma NamesInit(dir: string, names: seq<string>, path: string)
    requires names != []
    ensures Names(dir, names, path) <==>
            Names(dir, names[..|names| - 1], path) || RelPath(dir, names[|names| - 1]) == path
  {
    var init := names[..|names| - 1];
    if j :| 0 <= j < |names| && RelPath(dir, names[j]) == path {
      assert j < |init| ==> init[j] == names[j];
    }
    if j :| 0 <= j < |init| && RelPath(dir, init[j]) == path {
      assert names[j] == init[j];
    }
  }

  lemma {:induction false} KeptMembers(cfg: Config, dir: string, names: seq<string>, path: string)
    ensures path in Kept(cfg, dir, names) <==> ShouldIndex(cfg.filter, path) && Names(dir, names, path)
  {
    if names != [] {
      KeptMembers(cfg, dir, names[..|names| - 1], path);
      NamesInit(dir, names, path);
    }
  }

  ghost predicate DistinctPaths(dir: string, names: seq<string>) {
    forall i, j :: 0 <= i < |names| && 0 <= j < |names| && RelPath(dir, names[i]) == RelPath(dir, names[j]) ==> i == j
  }

  lemma {:induction false} KeptDistinct(cfg: Config, dir: string, names: seq<string>)
    requires DistinctPaths(dir, names)
    ensures Distinct(Kept(cfg, dir, names))
  {
    if names != [] {
      var init := names[..|names| - 1];
      assert forall j :: 0 <= j < |init| ==> init[j] == names[j];
      KeptDistinct(cfg, dir, init);
      KeptMembers(cfg, dir, init, RelPath(dir, names[|names| - 1]));
    }
  }

  ghost predicate ProperNames(walk: seq<WalkEntry>) {
    forall i, j :: 0 <= i < |walk| && 0 <= j < |walk[i].names| ==> FileName(walk[i].names[j])
  }

  lemma MetInInit(walk: seq<WalkEntry>, i: nat, j: nat, path: string)
    requires walk != []
    ensures MetAt(walk[..|walk| - 1], i, j, path) <==> i < |walk| - 1 && MetAt(walk, i, j, path)
  {
  }

  lemma MetInitOrLast(walk: seq<WalkEntry>, path: string)
    requires walk != []
    ensures var last := walk[|walk| - 1];
            Met(walk, path) <==>
            Met(walk[..|walk| - 1], path) ||
            Names(last.dir, last.names, path)
  {
    var n := |walk| - 1;
    if i: nat, j: nat :| MetAt(walk, i, j, path) {
      MetInInit(walk, i, j, path);
    }
    if i: nat, j: nat :| MetAt(walk[..n], i, j, path) {
      MetInInit(walk, i, j, path);
    }
    if j :| 0 <= j < |walk[n].names| && RelPath(walk[n].dir, walk[n].names[j]) == path {
      assert MetAt(walk, n, j, path);
    }
  }

  lemma DirectoryFiles(cfg: Config, entry: WalkEntry, path: string)
    requires forall j :: 0 <= j < |entry.names| ==> FileName(entry.names[j])
    requires Names(entry.dir, entry.names, path)
    ensures Walked(cfg, path) <==> !Contains(Root(cfg, entry.dir), ".git")
  {
    var j :| 0 <= j < |entry.names| && RelPath(entry.dir, entry.names[j]) == path;
    DirOfRelPath(entry.dir, entry.names[j]);
  }

  lemma {:induction false} FilesMembers(cfg: Config, walk: seq<WalkEntry>, path: string)
    requires ProperNames(walk)
    ensures path in RepositoryFiles(cfg, walk) <==>
            ShouldIndex(cfg.filter, path) && Walked(cfg, path) && Met(walk, path)
  {
    if walk != [] {
      var init, last := walk[..|walk| - 1], walk[|walk| - 1];
      FilesMembers(cfg, init, path);
      KeptMembers(cfg, last.dir, last.names, path);
      MetInitOrLast(walk, path);
      if Names(last.dir, last.names, path) {
        DirectoryFiles(cfg, last, path);
      }
    }
  }

  lemma MeetsOnceInit(walk: seq<WalkEntry>)
    requires walk != [] && MeetsOnce(walk)
    ensures MeetsOnce(walk[..|walk| - 1])
  {
    var init := walk[..|walk| - 1];
    forall i: nat, j: nat, k: nat, l: nat, path | MetAt(init, i, j, path) && MetAt(init, k, l, path)
      ensures i == k && j == l
    {
      MetInInit(walk, i, j, path);
      MetInInit(walk, k, l, path);
    }
  }

  /** The last directory holds no file met before, and none twice. */
  lemma LastDirectoryIsNew(walk: seq<WalkEntry>)
    requires walk != [] && MeetsOnce(walk)
    ensures var names, dir := walk[|walk| - 1].names, walk[|walk| - 1].dir;
            && DistinctPaths(dir, names)
            && (forall j :: 0 <= j < |names| ==> !Met(walk[..|walk| - 1], RelPath(dir, names[j])))
  {
    var n := |walk| - 1;
    var names, dir := walk[n].names, walk[n].dir;
    forall i, j | 0 <= i < |names| && 0 <= j < |names| && RelPath(dir, names[i]) == RelPath(dir, names[j])
      ensures i == j
    {
      assert MetAt(walk, n, i, RelPath(dir, names[i])) && MetAt(walk, n, j, RelPath(dir, names[i]));
    }
    forall j | 0 <= j < |names| ensures !Met(walk[..n], RelPath(dir, names[j])) {
      var path := RelPath(dir, names[j]);
      assert MetAt(walk, n, j, path);
      if k: nat, l: nat :| MetAt(walk[..n], k, l, path) {
        MetInInit(walk, k, l, path);
        assert false;
      }
    }
  }

  lemma {:induction false} FilesDistinct(cfg: Config, walk: seq<WalkEntry>)
    requires ProperNames(walk) && MeetsOnce(walk)
    ensures Distinct(RepositoryFiles(cfg, walk))
  {
    if walk != [] {
      var init, last := walk[..|walk| - 1], walk[|walk| - 1];
      var before, kept := RepositoryFiles(cfg, init), Kept(cfg, last.dir, last.names);
      MeetsOnceInit(walk);
      FilesDistinct(cfg, init);
      LastDirectoryIsNew(walk);
      KeptDistinct(cfg, last.dir, last.names);
      forall path | path in before && path in kept ensures false {
        FilesMembers(cfg, init, path);
        KeptMembers(cfg, last.dir, last.names, path);
      }
      DisjointConcat(before, kept);
    }
  }

  lemma DisjointConcat<T>(a: seq<T>, b: seq<T>)
    requires Distinct(a) && Distinct(b)
    requires forall x :: x in a && x in b ==> false
    ensures Distinct(a + b)
  {
    forall i, j | 0 <= i < j < |a + b| ensures (a + b)[i] != (a + b)[j] {
      if i < |a| <= j {
        assert (a + b)[i] in a && (a + b)[j] in b;
      }
    }
  }

  /** The full walk visits wanted files of the commit only, none twice, and every one that has text. */
  lemma FilesOfTree(cfg: Config, tree: Tree, walk: seq<WalkEntry>)
    requires WalkOf(cfg, tree, walk)
    ensures Distinct(RepositoryFiles(cfg, walk))
    ensures forall path :: path in RepositoryFiles(cfg, walk) ==>
                           path in tree && ShouldIndex(cfg.filter, path) && Walked(cfg, path)
    ensures forall path :: Indexable(cfg, tree, path) <==>
                           path in RepositoryFiles(cfg, walk) && Content(tree, path) != ""
  {
    hide ShouldIndex, Walked, RepositoryFiles;
    FilesDistinct(cfg, walk);
    forall path
      ensures path in RepositoryFiles(cfg, walk) ==> path in tree && ShouldIndex(cfg.filter, path) && Walked(cfg, path)
      ensures Indexable(cfg, tree, path) <==> path in RepositoryFiles(cfg, walk) && Content(tree, path) != ""
    {
      FilesMembers(cfg, walk, path);
    }
  }
}
