/**
  What is stored, said of the files themselves: the whole text of each wanted file, once, and nothing else;
  the document each kind of diff item builds; and which files the filter leaves out by extension.
 */
module StoredTexts {
  import opened Options
  import opened Text
  import opened RagStore
  import opened GitFiles
  import opened GitDiff
  import opened FlushTiming
  import opened GitAgreement
  import opened Coverage

  /** A file that passes the filter and the walk and has this text, which is not empty. */
  ghost predicate Wanted(cfg: Config, tree: Tree, path: string, text: string) {
    && path in tree && tree[path] == Some(text) && text != ""
    && ShouldIndex(cfg.filter, path) && Walked(cfg, path)
  }

  /** Exactly one document has this path, and its text is this text. */
  ghost predicate StoredOnce(docs: map<DocId, Doc>, path: string, text: string) {
    exists id :: id in docs && docs[id].path == path && docs[id].text == text &&
                 forall other :: other in docs && docs[other].path == path ==> other == id
  }

  /** Each wanted file has exactly one document, with its whole text, and there are no other documents. */
  ghost predicate StoresTexts(cfg: Config, tree: Tree, docs: map<DocId, Doc>) {
    && (forall path, text :: Wanted(cfg, tree, path, text) ==> StoredOnce(docs, path, text))
    && (forall id :: id in docs ==> Wanted(cfg, tree, docs[id].path, docs[id].text))
  }

  /** The full map of a commit maps each wanted file to its text as it is in the commit. */
  lemma FullMapTexts(cfg: Config, tree: Tree, path: string)
    ensures path in FullMap(cfg, tree) <==> exists text :: Wanted(cfg, tree, path, text)
    ensures path in FullMap(cfg, tree) ==> path in tree && tree[path] == Some(FullMap(cfg, tree)[path])
  {
    hide ShouldIndex, Walked;
    if path in FullMap(cfg, tree) {
      assert Wanted(cfg, tree, path, tree[path].value);
    }
  }

  lemma RepresentsTexts(cfg: Config, tree: Tree, docs: map<DocId, Doc>)
    requires Represents(docs, FullMap(cfg, tree))
    ensures StoresTexts(cfg, tree, docs)
  {
    hide ShouldIndex, Walked, FullMap;
    forall path, text | Wanted(cfg, tree, path, text) ensures StoredOnce(docs, path, text) {
      FullMapTexts(cfg, tree, path);
      assert Holds(docs, path);
      var id :| id in docs && docs[id].path == path;
      assert Get(FullMap(cfg, tree), docs[id].path) == Some(docs[id].text);
    }
    forall id | id in docs ensures Wanted(cfg, tree, docs[id].path, docs[id].text) {
      assert Get(FullMap(cfg, tree), docs[id].path) == Some(docs[id].text);
      FullMapTexts(cfg, tree, docs[id].path);
    }
  }

  /** A full run without errors on an empty index stores the whole text of each wanted file, once, and
      nothing else. */
  lemma FullRunStoresTexts(e: Engine, cfg: Config, tree: Tree, w: World, walk: seq<WalkEntry>)
    requires WalkOf(cfg, tree, walk) && w.docs == map[]
    requires FullRun(e, tree, w, RepositoryFiles(cfg, walk)).errors == []
    ensures StoresTexts(cfg, tree, FullRun(e, tree, w, RepositoryFiles(cfg, walk)).w.docs)
  {
    hide FullRun, RepositoryFiles, WalkOf, Represents, StoresTexts;
    FullMeaning(e, cfg, tree, w, walk);
    RepresentsTexts(cfg, tree, FullRun(e, tree, w, RepositoryFiles(cfg, walk)).w.docs);
  }

  /** And so does an incremental run without errors, from an index that does so for the old commit, under
      the guard. */
  lemma DiffRunStoresTexts(e: Engine, cfg0: Config, cfg: Config, base: Tree, head: Tree, w: World, items: seq<DiffItem>)
    requires e.Valid() && w.Valid() && DiffOf(base, head, items) && AllAgree(cfg0, cfg, base, head, items)
    requires Represents(w.docs, FullMap(cfg0, base)) && DiffRun(e, cfg, head, w, items).errors == []
    ensures StoresTexts(cfg, head, DiffRun(e, cfg, head, w, items).w.docs)
  {
    hide DiffRun, DiffOf, AllAgree, Represents, StoresTexts;
    IncrementalAgreesIff(e, cfg0, cfg, base, head, w, items);
    RepresentsTexts(cfg, head, DiffRun(e, cfg, head, w, items).w.docs);
  }

  /** Coverage, said of the files: each wanted file has a document with its whole text. */
  lemma CoversTexts(cfg: Config, tree: Tree, docs: map<DocId, Doc>)
    ensures Covers(cfg, tree, docs) <==>
            forall path, text :: Wanted(cfg, tree, path, text) ==> HasText(docs, path, text)
  {
    hide ShouldIndex, Walked, HasText;
    forall path | Indexable(cfg, tree, path) ensures Wanted(cfg, tree, path, Content(tree, path)) {
    }
    forall path, text | Wanted(cfg, tree, path, text)
      ensures Indexable(cfg, tree, path) && Content(tree, path) == text
    {
    }
  }

  // ---- What a diff item builds ----

  /** The file an item is about can be read and is not empty. */
  predicate Readable(tree: Tree, item: DiffItem) {
    FilePath(item) in tree && tree[FilePath(item)].Some? && tree[FilePath(item)].value != ""
  }

  /** An Added item creates a document with the whole text, if its file is wanted and can be read. */
  lemma AddedBuilds(cfg: Config, tree: Tree, item: DiffItem, found: Option<DocId>)
    requires item.change.Added?
    ensures LookupPath(cfg, tree, item) == None
    ensures Decide(cfg, tree, item, found) ==
            if ShouldIndex(cfg.filter, FilePath(item)) && Readable(tree, item)
            then Some(Create(Doc(FilePath(item), tree[FilePath(item)].value, "added"))) else None
  {
    hide ShouldIndex;
  }

  /** A Modified item replaces the document found under its path, or creates one. */
  lemma ModifiedBuilds(cfg: Config, tree: Tree, item: DiffItem, found: Option<DocId>)
    requires item.change.Modified?
    ensures var taken := ShouldIndex(cfg.filter, FilePath(item)) && Readable(tree, item);
            && LookupPath(cfg, tree, item) == (if taken then Some(FilePath(item)) else None)
            && Decide(cfg, tree, item, found) ==
               if !taken then None
               else if found.Some?
               then Some(Replace(Update(found.value, Doc(FilePath(item), tree[FilePath(item)].value, "modified"))))
               else Some(Create(Doc(FilePath(item), tree[FilePath(item)].value, "added")))
  {
    hide ShouldIndex;
  }

  /** A Renamed item replaces the document found under the old path by one under the new path, or creates one;
      without an old path it does nothing. */
  lemma RenamedBuilds(cfg: Config, tree: Tree, item: DiffItem, found: Option<DocId>)
    requires item.change.Renamed?
    ensures var taken := ShouldIndex(cfg.filter, FilePath(item)) && Readable(tree, item) && item.a != "";
            && LookupPath(cfg, tree, item) == (if taken then Some(item.a) else None)
            && Decide(cfg, tree, item, found) ==
               if !taken then None
               else if found.Some?
               then Some(Replace(Update(found.value, Doc(FilePath(item), tree[FilePath(item)].value, "renamed"))))
               else Some(Create(Doc(FilePath(item), tree[FilePath(item)].value, "added")))
  {
    hide ShouldIndex;
  }

  /** A Deleted item removes the document found under its path; a change type without a branch does nothing;
      and the path of an item is the new one if there is one. */
  lemma OthersBuild(cfg: Config, tree: Tree, item: DiffItem, found: Option<DocId>)
    ensures FilePath(item) == if item.b == "" then item.a else item.b
    ensures item.change.Deleted? ==>
              var taken := ShouldIndex(cfg.filter, FilePath(item));
              && LookupPath(cfg, tree, item) == (if taken then Some(FilePath(item)) else None)
              && Decide(cfg, tree, item, found) == (if taken && found.Some? then Some(Remove(found.value)) else None)
    ensures item.change.Other? ==> LookupPath(cfg, tree, item) == None && Decide(cfg, tree, item, found) == None
  {
    hide ShouldIndex;
  }

  // ---- Order of a flush ----

  /** A flush submits creates, then updates, then deletes, each buffer whole, if it holds that many. */
  lemma FlushOrder(e: Engine, s: Progress, least: nat)
    ensures var creates := if |s.creates| >= least then [CreateBatch(s.creates)] else [];
            var updates := if |s.updates| >= least then [UpdateBatch(s.updates)] else [];
            var deletes := if |s.deletes| >= least then [DeleteBatch(s.deletes)] else [];
            Flush(e, s, least).batches == s.batches + creates + updates + deletes
  {
  }

  /** The errors it records, in that order. */
  lemma FlushErrors(e: Engine, s: Progress, least: nat)
    requires e.canDelete
    requires |s.creates| >= least && |s.updates| >= least && s.deletes != [] && |s.deletes| >= least
    requires !e.reply(s.w.calls).Ok? && !e.reply(s.w.calls + 1).Ok? && !e.reply(s.w.calls + 2).Ok?
    ensures Flush(e, s, least).errors == s.errors + [IndexFailed, UpdateFailed, DeleteFailed]
  {
    var s2 := FlushUpdates(e, FlushCreates(e, s, least), least);
    assert s2.w.calls == s.w.calls + 2;
    assert !DeleteAnswered(e, s2.w.calls);
    assert s.errors + [IndexFailed] + [UpdateFailed] + [DeleteFailed]
        == s.errors + [IndexFailed, UpdateFailed, DeleteFailed];
  }

  // ---- Extensions ----

  /** Lower case: the capital letters A to Z become small ones and nothing else changes. */
  lemma LowerMeaning(s: string)
    ensures |Lower(s)| == |s|
    ensures forall i :: 0 <= i < |s| ==>
              Lower(s)[i] == if s[i] in CAPITAL then (s[i] as int + 32) as char else s[i]
  {
    forall i | 0 <= i < |s|
      ensures Lower(s)[i] == if s[i] in CAPITAL then (s[i] as int + 32) as char else s[i]
    {
      CapitalLetters(s[i]);
    }
  }

  /** The nine extensions that are never indexed, whatever the directory, the name and the patterns. */
  lemma BinariesAreSkipped(filter: Filter, dir: string, stem: string, ext: string)
    requires Without(stem, '/') && exists k :: 0 <= k < |stem| && stem[k] != '.'
    requires Lower(ext) in {"exe", "so", "dll", "bin", "obj", "o", "a", "lib", "dylib"}
    requires Without(ext, '/') && Without(ext, '.')
    ensures !ShouldIndex(filter, dir + "/" + (stem + "." + ext))
  {
    hide Split, Hidden;
    ExtensionOf(dir, stem, ext);
    assert Lower("." + ext) == "." + Lower(ext);
    assert "." + "exe" == ".exe" && "." + "so" == ".so" && "." + "dll" == ".dll" && "." + "bin" == ".bin";
    assert "." + "obj" == ".obj" && "." + "o" == ".o" && "." + "a" == ".a" && "." + "lib" == ".lib";
    assert "." + "dylib" == ".dylib";
    assert "." + Lower(ext) in BINARY_EXTENSIONS;
  }

  /** No other extension is skipped: with no patterns, a file with another one is indexed unless it is hidden. */
  lemma OtherExtensionsAreTaken(dir: string, stem: string, ext: string)
    requires Without(stem, '/') && exists k :: 0 <= k < |stem| && stem[k] != '.'
    requires Lower(ext) !in {"exe", "so", "dll", "bin", "obj", "o", "a", "lib", "dylib"}
    requires Without(ext, '/') && Without(ext, '.')
    requires !Hidden(dir + "/" + (stem + "." + ext))
    ensures ShouldIndex(Filter(None, None), dir + "/" + (stem + "." + ext))
  {
    hide Split, Hidden;
    ExtensionOf(dir, stem, ext);
    assert Lower("." + ext)[1..] == Lower(ext);
    forall binary | binary in BINARY_EXTENSIONS ensures Lower("." + ext) != binary {
      assert ".exe"[1..] == "exe" && ".so"[1..] == "so" && ".dll"[1..] == "dll" && ".bin"[1..] == "bin";
      assert ".obj"[1..] == "obj" && ".o"[1..] == "o" && ".a"[1..] == "a" && ".lib"[1..] == "lib";
      assert ".dylib"[1..] == "dylib";
    }
  }
}
