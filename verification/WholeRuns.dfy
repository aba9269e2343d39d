/**
  Whole runs of update_index, whichever way they take: what they record and what they store, said of the
  checkout, the last indexed commit and the files.
 */
module WholeRuns {
  import opened Options
  import opened RagStore
  import opened GitFiles
  import opened GitDiff
  import opened FlushTiming
  import opened GitAgreement
  import opened GitHandler
  import opened DeleteGap
  import opened StoredTexts

  /** Every call is answered, deletions included. */
  ghost predicate Answers(e: Engine) {
    e.canDelete && forall n :: e.reply(n).Ok?
  }

  /** The run has to read every file: the commit is pinned, there is no last commit or git does not know it,
      or the last run recorded errors. */
  predicate ReadsAll(c: Checkout, lastCommit: string, hadErrors: bool) {
    c.pinned || hadErrors || lastCommit == "" || c.diff == BadName
  }

  lemma {:induction false} FullLoopErrors(e: Engine, tree: Tree, w: World, files: seq<string>)
    requires Answers(e)
    ensures FullLoop(e, tree, w, files).errors == []
  {
    if files != [] {
      FullLoopErrors(e, tree, w, files[..|files| - 1]);
    }
  }

  /** With every call answered a run records nothing, but for a failed setup, or a failed diff where it needs
      one. */
  lemma AnsweredRunErrors(e: Engine, cfg: Config, w: World, c: Checkout, lastCommit: string, hadErrors: bool)
    requires Answers(e)
    ensures UpdateRun(e, cfg, w, c, lastCommit, hadErrors).errors ==
            if !c.ok then [SetupFailed]
            else if c.diff == DiffError && !ReadsAll(c, lastCommit, hadErrors) then [DiffFailed]
            else []
  {
    hide DiffRun, FullLoop, RepositoryFiles;
    if c.diff.Diffed? {
      ErrorFreeIff(e, cfg, c.tree, w, c.diff.items);
    }
    FullLoopErrors(e, c.tree, w, RepositoryFiles(cfg, c.walk));
  }

  /** A run that fails before it reads a file leaves the index as it was, whatever the engine does. */
  lemma FailedRunStoresNothing(e: Engine, cfg: Config, w: World, c: Checkout, lastCommit: string, hadErrors: bool)
    requires !c.ok || (c.diff == DiffError && !ReadsAll(c, lastCommit, hadErrors))
    ensures var o := UpdateRun(e, cfg, w, c, lastCommit, hadErrors);
            o.w == w && o.errors != []
  {
  }

  /** A run that has to read every file, starts from an empty index and records no error stores the whole
      text of each wanted file, once, and nothing else. */
  lemma FullWayStoresTexts(e: Engine, cfg: Config, w: World, c: Checkout, lastCommit: string, hadErrors: bool)
    requires WalkOf(cfg, c.tree, c.walk) && w.docs == map[] && ReadsAll(c, lastCommit, hadErrors)
    requires UpdateRun(e, cfg, w, c, lastCommit, hadErrors).errors == []
    ensures StoresTexts(cfg, c.tree, UpdateRun(e, cfg, w, c, lastCommit, hadErrors).w.docs)
  {
    hide StoresTexts, WalkOf, FullRun, RepositoryFiles, DiffRun;
    FullRunStoresTexts(e, cfg, c.tree, w, c.walk);
  }

  /** A run that need not, starts from the exact index of the last commit under the guard and records no error
      does the same. */
  lemma DiffWayStoresTexts(e: Engine, cfg0: Config, cfg: Config, base: Tree, w: World, c: Checkout,
                           items: seq<DiffItem>, lastCommit: string)
    requires e.Valid() && w.Valid() && !ReadsAll(c, lastCommit, false) && c.diff == Diffed(items)
    requires DiffOf(base, c.tree, items) && AllAgree(cfg0, cfg, base, c.tree, items)
    requires Represents(w.docs, FullMap(cfg0, base))
    requires UpdateRun(e, cfg, w, c, lastCommit, false).errors == []
    ensures StoresTexts(cfg, c.tree, UpdateRun(e, cfg, w, c, lastCommit, false).w.docs)
  {
    hide StoresTexts, FullRun, RepositoryFiles, DiffRun, DiffOf, AllAgree, Represents;
    DiffRunStoresTexts(e, cfg0, cfg, base, c.tree, w, items);
  }

  /** A listing that is refused is recorded with the path that was asked for, before anything the round
      flushes: the old path for a renamed file, else the item's own. */
  lemma LookupErrorNamesPath(e: Engine, cfg: Config, tree: Tree, s: Progress, item: DiffItem)
    requires LookupPath(cfg, tree, item).Some? && !e.reply(s.w.calls).Ok?
    ensures s.errors + [LookupFailed(if item.change.Renamed? then item.a else FilePath(item))]
         <= Advance(e, cfg, tree, s, item).errors
  {
    hide ShouldIndex, Content, IndexDocuments, UpdateDocuments, DeleteInOrder, AllDeleted;
  }

  /** The path an item asks for has a document, and the listing is answered. */
  predicate IsFound(e: Engine, w: World, path: string) {
    e.reply(w.calls).Ok? && exists id :: id in w.docs && w.docs[id].path == path
  }

  /** The document a Modified or Renamed item builds. */
  function Built(tree: Tree, item: DiffItem, change: string): Doc
    requires Readable(tree, item)
  {
    Doc(FilePath(item), tree[FilePath(item)].value, change)
  }

  /** What an item that looks a path up decides: if the listing is refused or no document has the path, a
      deletion does nothing and another item creates its document; otherwise a document with that path is
      removed, or replaced by the item's own. */
  lemma RoundDecides(e: Engine, cfg: Config, tree: Tree, s: Progress, item: DiffItem)
    requires e.Valid() && LookupPath(cfg, tree, item).Some?
    ensures !item.change.Deleted? ==> Readable(tree, item)
    ensures var path := if item.change.Renamed? then item.a else FilePath(item);
            var ops := Advance(e, cfg, tree, s, item).ops;
            if !IsFound(e, s.w, path) then
              ops == s.ops + if item.change.Deleted? then [] else [Create(Built(tree, item, "added"))]
            else
              exists id :: id in s.w.docs && s.w.docs[id].path == path &&
                ops == s.ops + [if item.change.Deleted? then Remove(id)
                                else Replace(Update(id, Built(tree, item,
                                     if item.change.Modified? then "modified" else "renamed")))]
  {
    hide ShouldIndex, IndexDocuments, UpdateDocuments, DeleteInOrder, AllDeleted, Matching;
    var path := LookupPath(cfg, tree, item);
    var found := LookedUp(e, s.w, path);
    FlushKeepsOps(e, Push(AfterLookup(e, s, path), Decide(cfg, tree, item, found)));
    if found.Some? {
      assert found.value in s.w.docs && s.w.docs[found.value].path == path.value;
    }
  }

  lemma FlushKeepsOps(e: Engine, s: Progress)
    ensures Flush(e, s, BATCH).ops == s.ops
  {
    hide IndexDocuments, UpdateDocuments, DeleteInOrder, AllDeleted;
  }
}
