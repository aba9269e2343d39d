/**
  Smallest inputs: a clone as the walk sees it, the four cases that the guard Agrees of module
  GitAgreement shuts out, where incremental and full indexing part, and a removed file.
 */
module SkippedWork {
  import opened Options
  import opened Text
  import opened RagStore
  import opened GitFiles
  import opened GitDiff
  import opened FlushTiming
  import opened GitAgreement

  /** No include and no exclude patterns. */
  const CFG: Config := Config(Filter(None, None), "/w")

  const OLD: Tree := map["a" := Some("x")]
  const INDEXED: World := World(map[0 := Doc("a", "x", "full")], 1, 0)
  const EMPTY: World := World(map[], 0, 0)

  // ---- The paths of the examples ----

  lemma PlainName(name: string)
    requires FileName(name) && Without(name, '.')
    ensures ShouldIndex(CFG.filter, name) && Walked(CFG, name)
  {
    SplitOfPart(name, '/');
    assert LastDot(name) == |name|;
    assert Extension(name) == "";
    DirOfRelPath("", name);
  }

  lemma HiddenName(name: string)
    requires Without(name, '/') && "." <= name
    ensures !ShouldIndex(CFG.filter, name)
  {
    SplitOfPart(name, '/');
    assert name in Split(name, '/');
  }

  lemma UnwalkedDirectory(path: string)
    requires path == "x.git/a"
    ensures !Walked(CFG, path)
  {
    hide Split, Join;
    DirOfRelPath("x.git", "a");
    assert RelPath("x.git", "a") == path;
    var root := Root(CFG, "x.git");
    assert root == "/w/x.git";
    assert root[4..] == ".git";
    assert ".git" <= root[4..];
  }

  lemma UnwalkedParts(path: string)
    requires path == "x.git/a"
    ensures Split(path, '/') == ["x.git", "a"]
  {
    hide Split;
    SplitOfPart("a", '/');
    SplitAfterHead("x.git", "a", '/');
    assert path == "x.git" + ['/'] + "a";
  }

  lemma UnwalkedIsWanted(path: string)
    requires path == "x.git/a"
    ensures ShouldIndex(CFG.filter, path)
  {
    hide Split, LastDot;
    UnwalkedParts(path);
    assert Extension(path) == "" by {
      assert "a"[0] != '.';
    }
    assert !Hidden(path);
  }

  // ---- One-item runs ----

  lemma OldIsIndexed()
    ensures FullMap(CFG, OLD) == map["a" := "x"] && Represents(INDEXED.docs, FullMap(CFG, OLD))
  {
    hide ShouldIndex, Walked;
    PlainName("a");
    assert Indexable(CFG, OLD, "a");
    assert INDEXED.docs[0].path == "a";
    assert Holds(INDEXED.docs, "a");
  }

  lemma OneItemDiff(base: Tree, head: Tree, item: DiffItem)
    requires ItemOf(base, head, item)
    requires forall path :: path in base || path in head ==> path in Paths(item)
    ensures DiffOf(base, head, [item])
  {
    forall path | !Mentioned([item], path) ensures Get(base, path) == Get(head, path) {
      assert path !in Paths([item][0]);
    }
  }

  lemma OneItemLoop(e: Engine, tree: Tree, w: World, item: DiffItem)
    ensures Loop(e, CFG, tree, w, [item]) == Advance(e, CFG, tree, Start(w), item)
  {
    hide Advance;
    assert [item][..|[item]| - 1] == [];
    assert Loop(e, CFG, tree, w, []) == Start(w);
  }

  lemma SkippedItem(e: Engine, tree: Tree, w: World, item: DiffItem)
    requires LookupPath(CFG, tree, item).None? && Decide(CFG, tree, item, None).None?
    ensures DiffRun(e, CFG, tree, w, [item]) == Start(w)
  {
    hide LookupPath, Decide;
    OneItemLoop(e, tree, w, item);
    assert LookedUp(e, w, None) == None;
    assert Advance(e, CFG, tree, Start(w), item) == Start(w);
  }

  lemma NothingToIndex(head: Tree)
    requires forall path :: path in head ==> !Indexable(CFG, head, path)
    ensures FullMap(CFG, head) == map[]
  {
    hide Indexable;
  }

  // ---- A clone ----

  /** A file `a`, and a submodule, whose directory holds no file of this repository. */
  const CLONED: Tree := map["a" := Some("x"), "sub" := None]

  /** The walk of the clone, which lists the clone's own `.git` directory. */
  const CLONE_WALK: seq<WalkEntry> := [WalkEntry("", ["a"]), WalkEntry(".git", ["HEAD"])]

  lemma GitDirectory(path: string)
    requires path == ".git/HEAD"
    ensures !Walked(CFG, path)
  {
    hide Split, Join;
    DirOfRelPath(".git", "HEAD");
    assert RelPath(".git", "HEAD") == path;
    assert Root(CFG, ".git") == "/w/.git";
    assert ".git" <= Root(CFG, ".git")[3..];
  }

  lemma SkipsGitDirectory()
    ensures Contains(Root(CFG, ".git"), ".git") && !Contains(Root(CFG, ""), ".git")
  {
    assert ".git" <= Root(CFG, ".git")[3..];
  }

  lemma ClonedPlaces(i: nat, j: nat, path: string)
    requires MetAt(CLONE_WALK, i, j, path)
    ensures j == 0 && ((i == 0 && path == "a") || (i == 1 && path == ".git/HEAD"))
  {
    assert RelPath("", "a") == "a" && RelPath(".git", "HEAD") == ".git/HEAD";
  }

  lemma ClonedFiles()
    ensures RepositoryFiles(CFG, CLONE_WALK) == ["a"]
  {
    hide ShouldIndex, Contains;
    PlainName("a");
    SkipsGitDirectory();
    var first := CLONE_WALK[..1];
    assert first == [CLONE_WALK[0]] && first[..0] == [] && CLONE_WALK[..|CLONE_WALK| - 1] == first;
    assert RepositoryFiles(CFG, first[..0]) == [];
    assert ["a"][..0] == [] && Kept(CFG, "", []) == [] && Kept(CFG, "", ["a"]) == ["a"];
    assert RepositoryFiles(CFG, first) == ["a"];
  }

  /** What the walk is asked for holds of a clone: it meets `.git/HEAD`, which is in no commit, and does not
      meet the submodule; the full index takes the one file there is. */
  lemma CloneIsWalked()
    ensures WalkOf(CFG, CLONED, CLONE_WALK)
    ensures Met(CLONE_WALK, ".git/HEAD") && ".git/HEAD" !in CLONED
    ensures "sub" in CLONED && !Met(CLONE_WALK, "sub")
    ensures RepositoryFiles(CFG, CLONE_WALK) == ["a"]
  {
    hide Walked, RepositoryFiles;
    ClonedFiles();
    GitDirectory(".git/HEAD");
    assert MetAt(CLONE_WALK, 0, 0, "a") && MetAt(CLONE_WALK, 1, 0, ".git/HEAD");
    forall i: nat, j: nat, path | MetAt(CLONE_WALK, i, j, path)
      ensures j == 0 && ((i == 0 && path == "a") || (i == 1 && path == ".git/HEAD"))
    {
      ClonedPlaces(i, j, path);
    }
  }

  // ---- The four cases ----

  /** A modified file whose new text is empty keeps its old document. */
  lemma EmptiedFileKeepsItsDocument(e: Engine)
    ensures var head: Tree := map["a" := Some("")];
            var items := [DiffItem(Modified, "a", "a")];
            && DiffOf(OLD, head, items) && Represents(INDEXED.docs, FullMap(CFG, OLD))
            && DiffRun(e, CFG, head, INDEXED, items).errors == []
            && DiffRun(e, CFG, head, INDEXED, items).w.docs == INDEXED.docs
            && FullMap(CFG, head) == map[]
  {
    hide ShouldIndex, Walked, DiffRun;
    var head: Tree := map["a" := Some("")];
    var item := DiffItem(Modified, "a", "a");
    OldIsIndexed();
    SkippedItem(e, head, INDEXED, item);
    OneItemDiff(OLD, head, item);
    NothingToIndex(head);
  }

  /** A file renamed to a hidden path keeps its document under the old path. */
  lemma RenameToFilteredKeepsDocument(e: Engine)
    ensures var head: Tree := map[".a" := Some("x")];
            var items := [DiffItem(Renamed, "a", ".a")];
            && DiffOf(OLD, head, items) && Represents(INDEXED.docs, FullMap(CFG, OLD))
            && DiffRun(e, CFG, head, INDEXED, items).errors == []
            && DiffRun(e, CFG, head, INDEXED, items).w.docs == INDEXED.docs
            && FullMap(CFG, head) == map[]
  {
    hide ShouldIndex, Walked, DiffRun;
    var head: Tree := map[".a" := Some("x")];
    var item := DiffItem(Renamed, "a", ".a");
    OldIsIndexed();
    HiddenName(".a");
    SkippedItem(e, head, INDEXED, item);
    OneItemDiff(OLD, head, item);
    NothingToIndex(head);
  }

  /** A change type without a branch keeps the old text. */
  lemma TypeChangeKeepsOldText(e: Engine)
    ensures var head: Tree := map["a" := Some("y")];
            var items := [DiffItem(Other, "a", "a")];
            && DiffOf(OLD, head, items) && Represents(INDEXED.docs, FullMap(CFG, OLD))
            && DiffRun(e, CFG, head, INDEXED, items).errors == []
            && DiffRun(e, CFG, head, INDEXED, items).w.docs == INDEXED.docs
            && FullMap(CFG, head) == map["a" := "y"]
  {
    hide ShouldIndex, Walked, DiffRun;
    var head: Tree := map["a" := Some("y")];
    var item := DiffItem(Other, "a", "a");
    OldIsIndexed();
    PlainName("a");
    SkippedItem(e, head, INDEXED, item);
    OneItemDiff(OLD, head, item);
    assert Indexable(CFG, head, "a");
  }

  lemma OneDocumentStored(e: Engine, doc: Doc)
    requires e.reply(0).Ok?
    ensures var s := Flush(e, Push(Start(EMPTY), Some(Create(doc))), 1);
            s.errors == [] && s.w.docs == map[0 := doc]
  {
    assert [doc][..1] == [doc];
    assert Ids(0, 1) == {0};
    assert Fresh(0, [doc]) == map[0 := doc];
    assert EMPTY.docs + Fresh(0, [doc]) == map[0 := doc];
  }

  lemma AddedItem(e: Engine, tree: Tree, path: string)
    requires ShouldIndex(CFG.filter, path) && Content(tree, path) != "" && path != ""
    ensures DiffRun(e, CFG, tree, EMPTY, [DiffItem(Added, path, path)]) ==
            Flush(e, Push(Start(EMPTY), Some(Create(Doc(path, Content(tree, path), "added")))), 1)
  {
    hide ShouldIndex, Content;
    var item := DiffItem(Added, path, path);
    OneItemLoop(e, tree, EMPTY, item);
    var pushed := Push(Start(EMPTY), Some(Create(Doc(path, Content(tree, path), "added"))));
    assert Flush(e, pushed, BATCH) == pushed;
    assert Advance(e, CFG, tree, Start(EMPTY), item) == pushed;
  }

  /** A file added under a directory whose name contains ".git" is indexed by the diff and not by the walk. */
  lemma UnwalkedDirectoryIsIndexed(e: Engine)
    requires e.reply(0).Ok?
    ensures var base: Tree, head: Tree := map[], map["x.git/a" := Some("x")];
            var items := [DiffItem(Added, "x.git/a", "x.git/a")];
            && DiffOf(base, head, items) && Represents(EMPTY.docs, FullMap(CFG, base))
            && DiffRun(e, CFG, head, EMPTY, items).errors == []
            && DiffRun(e, CFG, head, EMPTY, items).w.docs == map[0 := Doc("x.git/a", "x", "added")]
            && FullMap(CFG, head) == map[]
  {
    hide ShouldIndex, Walked, DiffRun, Flush, Push;
    var path := "x.git/a";
    var base: Tree, head: Tree := map[], map[path := Some("x")];
    var item := DiffItem(Added, path, path);
    UnwalkedIsWanted(path);
    UnwalkedDirectory(path);
    AddedItem(e, head, path);
    OneDocumentStored(e, Doc(path, "x", "added"));
    OneItemDiff(base, head, item);
    NothingToIndex(head);
    NothingToIndex(base);
  }

  // ---- A removed file ----

  lemma OldIsFound(e: Engine)
    requires e.Valid()
    ensures Found(e, INDEXED.docs, "a") == Some(0)
  {
    assert INDEXED.docs[0].path == "a";
    assert Matching(INDEXED.docs, "a") == {0};
  }

  lemma RemovedItem(e: Engine)
    requires e.Valid() && e.reply(0).Ok?
    ensures var head: Tree := map[];
            DiffRun(e, CFG, head, INDEXED, [DiffItem(Deleted, "a", "a")]) ==
            Flush(e, Push(Start(INDEXED).(w := ListDocuments(INDEXED)), Some(Remove(0))), 1)
  {
    hide ShouldIndex, Found;
    var head: Tree := map[];
    var item := DiffItem(Deleted, "a", "a");
    PlainName("a");
    OldIsFound(e);
    OneItemLoop(e, head, INDEXED, item);
    var listed := Start(INDEXED).(w := ListDocuments(INDEXED));
    assert AfterLookup(e, Start(INDEXED), Some("a")) == listed;
    var pushed := Push(listed, Some(Remove(0)));
    assert Flush(e, pushed, BATCH) == pushed;
    assert Advance(e, CFG, head, Start(INDEXED), item) == pushed;
  }

  lemma OneRemoval(e: Engine)
    requires e.reply(1).Ok?
    ensures var s := Flush(e, Push(Start(INDEXED).(w := ListDocuments(INDEXED)), Some(Remove(0))), 1);
            && s.errors == (if e.canDelete then [] else [DeleteFailed])
            && s.w.docs == (if e.canDelete then map[] else INDEXED.docs)
  {
    var w := ListDocuments(INDEXED);
    assert [0][1..] == [];
    var w' := DeleteDocument(e, w, 0);
    assert DeleteInOrder(e, w', []) == w';
    assert DeleteInOrder(e, w, [0]) == w';
    assert AllDeleted(e, 1, 1) <==> DeleteAnswered(e, 1);
    assert w'.docs == if e.canDelete then map[] else INDEXED.docs;
    var s := Push(Start(INDEXED).(w := w), Some(Remove(0)));
    assert s.deletes == [0];
    assert FlushDeletes(e, s, 1).w == w';
  }

  /** A removed file's document goes when the client has the delete method; with KAITORAGClient it stays and
      the run records an error, although the engine answers every call. */
  lemma RemovedFileIsKept(e: Engine)
    requires e.Valid() && e.reply(0).Ok? && e.reply(1).Ok?
    ensures var head: Tree := map[];
            var items := [DiffItem(Deleted, "a", "a")];
            && DiffOf(OLD, head, items) && FullMap(CFG, head) == map[]
            && DiffRun(e, CFG, head, INDEXED, items).errors == (if e.canDelete then [] else [DeleteFailed])
            && DiffRun(e, CFG, head, INDEXED, items).w.docs == (if e.canDelete then map[] else INDEXED.docs)
  {
    hide DiffRun, Flush, Push;
    var head: Tree := map[];
    RemovedItem(e);
    OneRemoval(e);
    OneItemDiff(OLD, head, DiffItem(Deleted, "a", "a"));
    NothingToIndex(head);
  }
}
