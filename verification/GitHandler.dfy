/**
  git_handler.py as the object it is: errors collect in a field, the store changes through the
  client, buffers are filled and reset in loops.  Each method is proved against the functions
  of GitDiff.
 */
module GitHandler {
  import opened Options
  import opened RagStore
  import opened GitFiles
  import opened GitDiff

  /** How computing the diff against the last indexed commit ends. */
  datatype DiffResult = Diffed(items: seq<DiffItem>) | BadName | DiffError

  /** One checkout as a run sees it: whether setup succeeded, the head commit and its tree, the
      directory walk, the diff, and whether the spec pins a commit. */
  datatype Checkout = Checkout(ok: bool, head: string, tree: Tree, walk: seq<WalkEntry>, diff: DiffResult, pinned: bool)

  /** The end of a run: the store and the recorded errors. */
  datatype Outcome = Outcome(w: World, errors: seq<IndexError>)

  function OutcomeOf(s: Progress): Outcome {
    Outcome(s.w, s.errors)
  }

  /** Which of the two ways a run takes, and where it leads. */
  function UpdateRun(e: Engine, cfg: Config, w: World, c: Checkout, lastCommit: string, hadErrors: bool): Outcome {
    if !c.ok then Outcome(w, [SetupFailed])
    else if !c.pinned && lastCommit != "" && !hadErrors && !c.diff.BadName? then
      if c.diff.Diffed? then OutcomeOf(DiffRun(e, cfg, c.tree, w, c.diff.items)) else Outcome(w, [DiffFailed])
    else OutcomeOf(FullRun(e, c.tree, w, RepositoryFiles(cfg, c.walk)))
  }

  lemma NothingToFlush(e: Engine, s: Progress)
    requires RoomForOne(s)
    ensures Flush(e, s, BATCH) == s
  {
  }

  class Handler {
    const cfg: Config
    const client: RagClient
    var errors: seq<IndexError>
    ghost var batches: seq<Batch>

    constructor (cfg: Config, client: RagClient)
      ensures this.cfg == cfg && this.client == client && errors == []
    {
      this.cfg, this.client := cfg, client;
      errors, batches := [], [];
    }

    /** _index_documents_batch */
    method IndexDocumentsBatch(docs: seq<Doc>)
      modifies this, client
      ensures client.View() == IndexDocuments(client.engine, old(client.View()), docs)
      ensures errors == Noted(old(errors), client.engine.reply(old(client.calls)).Ok?, IndexFailed)
      ensures batches == old(batches) + [CreateBatch(docs)]
    {
      var ok := client.Index(docs);
      if !ok {
        errors := errors + [IndexFailed];
      }
      batches := batches + [CreateBatch(docs)];
    }

    /** _update_documents_batch */
    method UpdateDocumentsBatch(updates: seq<Update>)
      modifies this, client
      ensures client.View() == UpdateDocuments(client.engine, old(client.View()), updates)
      ensures errors == Noted(old(errors), client.engine.reply(old(client.calls)).Ok?, UpdateFailed)
      ensures batches == old(batches) + [UpdateBatch(updates)]
    {
      var ok := client.Update(updates);
      if !ok {
        errors := errors + [UpdateFailed];
      }
      batches := batches + [UpdateBatch(updates)];
    }

    /** _delete_documents_batch: one call per id, given up at the first that fails. */
    method DeleteDocumentsBatch(ids: seq<DocId>)
      modifies this, client
      ensures client.View() == DeleteInOrder(client.engine, old(client.View()), ids)
      ensures errors == Noted(old(errors), AllDeleted(client.engine, old(client.calls), |ids|), DeleteFailed)
      ensures batches == old(batches) + [DeleteBatch(ids)]
    {
      batches := batches + [DeleteBatch(ids)];
      for k := 0 to |ids|
        invariant errors == old(errors) && batches == old(batches) + [DeleteBatch(ids)]
        invariant client.calls == old(client.calls) + k
        invariant AllDeleted(client.engine, old(client.calls), k)
        invariant DeleteInOrder(client.engine, old(client.View()), ids)
               == DeleteInOrder(client.engine, client.View(), ids[k..])
      {
        assert ids[k..][1..] == ids[k + 1..];
        var ok := client.Delete(ids[k]);
        if !ok {
          errors := errors + [DeleteFailed];
          return;
        }
      }
    }

    /** The guarded listing that three branches of the diff loop repeat. */
    method LookUp(path: string) returns (found: Option<DocId>)
      modifies this, client
      ensures client.View() == ListDocuments(old(client.View()))
      ensures errors == Noted(old(errors), client.engine.reply(old(client.calls)).Ok?, LookupFailed(path))
      ensures found == LookedUp(client.engine, old(client.View()), Some(path))
      ensures batches == old(batches)
    {
      var ok;
      ok, found := client.List(path);
      if !ok {
        errors := errors + [LookupFailed(path)];
      }
    }

    ghost function Now(ops: seq<Op>, creates: seq<Doc>, updates: seq<Update>, deletes: seq<DocId>): Progress
      reads this, client
    {
      Progress(client.View(), errors, ops, batches, creates, updates, deletes)
    }

    /** `if len(documents) >= least`: index the batch and start a new one. */
    method FlushDocuments(creates: seq<Doc>, least: nat, ghost ops: seq<Op>) returns (creates': seq<Doc>)
      modifies this, client
      ensures Now(ops, creates', [], []) == FlushCreates(client.engine, old(Now(ops, creates, [], [])), least)
    {
      creates' := creates;
      if |creates| >= least {
        IndexDocumentsBatch(creates);
        creates' := [];
      }
    }

    /** The three guarded flushes of _index_diff_files, which the source writes once inside the loop
        with ten and once after it for whatever is left. */
    method FlushBuffers(creates: seq<Doc>, updates: seq<Update>, deletes: seq<DocId>, least: nat, ghost ops: seq<Op>)
      returns (creates': seq<Doc>, updates': seq<Update>, deletes': seq<DocId>)
      modifies this, client
      ensures Now(ops, creates', updates', deletes') ==
              Flush(client.engine, old(Now(ops, creates, updates, deletes)), least)
    {
      creates', updates', deletes' := creates, updates, deletes;
      if |creates| >= least {
        IndexDocumentsBatch(creates);
        creates' := [];
      }
      if |updates| >= least {
        UpdateDocumentsBatch(updates);
        updates' := [];
      }
      if |deletes| >= least {
        DeleteDocumentsBatch(deletes);
        deletes' := [];
      }
    }

    /** The loop body of _index_all_files. */
    method IndexFile(tree: Tree, path: string, documents: seq<Doc>, ghost ops: seq<Op>)
      returns (documents': seq<Doc>, ghost ops': seq<Op>)
      requires |documents| < 10
      modifies this, client
      ensures |documents'| < 10
      ensures Now(ops', documents', [], []) == AdvanceFull(client.engine, tree, old(Now(ops, documents, [], [])), path)
    {
      documents', ops' := documents, ops;
      var content := Content(tree, path);
      if content != "" {
        var doc := Doc(path, content, "full");
        documents', ops' := documents + [doc], ops + [Create(doc)];
        documents' := FlushDocuments(documents', 10, ops');
      }
    }

    /** The loop of _index_all_files and the flush after it. */
    method IndexFiles(tree: Tree, files: seq<string>)
      requires errors == []
      modifies this, client
      ensures var s := FullRun(client.engine, tree, old(client.View()), files);
              client.View() == s.w && errors == s.errors && batches == s.batches
    {
      ghost var w0 := client.View();
      batches := [];
      var documents: seq<Doc> := [];
      ghost var ops: seq<Op> := [];
      for i := 0 to |files|
        invariant |documents| < 10
        invariant Now(ops, documents, [], []) == FullLoop(client.engine, tree, w0, files[..i])
      {
        assert files[..i + 1][..i] == files[..i];
        documents, ops := IndexFile(tree, files[i], documents, ops);
      }
      assert files[..|files|] == files;
      documents := FlushDocuments(documents, 1, ops);
    }

    /** _index_all_files */
    method IndexAllFiles(tree: Tree, walk: seq<WalkEntry>)
      requires errors == []
      modifies this, client
      ensures var s := FullRun(client.engine, tree, old(client.View()), RepositoryFiles(cfg, walk));
              client.View() == s.w && errors == s.errors && batches == s.batches
    {
      var files := GetRepositoryFiles(cfg, walk);
      IndexFiles(tree, files);
    }

    /** The loop body of _index_diff_files up to the flushes: one diff item is looked up and
        buffered.  `skip` stands for the `continue` statements, which pass over the flushes. */
    method BufferItem(tree: Tree, item: DiffItem, creates: seq<Doc>, updates: seq<Update>, deletes: seq<DocId>,
                      ghost ops: seq<Op>)
      returns (skip: bool, creates': seq<Doc>, updates': seq<Update>, deletes': seq<DocId>, ghost ops': seq<Op>)
      modifies this, client
      ensures skip ==> creates' == creates && updates' == updates && deletes' == deletes
      ensures var s, path := old(Now(ops, creates, updates, deletes)), LookupPath(cfg, tree, item);
              Now(ops', creates', updates', deletes') ==
              Push(AfterLookup(client.engine, s, path), Decide(cfg, tree, item, LookedUp(client.engine, s.w, path)))
    {
      skip, creates', updates', deletes', ops' := true, creates, updates, deletes, ops;
      var path := FilePath(item);
      if !ShouldIndex(cfg.filter, path) {
        return;
      }
      match item.change {
        case Added =>
          var content := Content(tree, path);
          if content != "" {
            var doc := Doc(path, content, "added");
            creates', ops' := creates + [doc], ops + [Create(doc)];
          }
        case Modified =>
          var content := Content(tree, path);
          if content == "" {
            return;
          }
          var found := LookUp(path);
          if found.Some? {
            var update := Update(found.value, Doc(path, content, "modified"));
            updates', ops' := updates + [update], ops + [Replace(update)];
          } else {
            var doc := Doc(path, content, "added");
            creates', ops' := creates + [doc], ops + [Create(doc)];
          }
        case Deleted =>
          var found := LookUp(path);
          if found.None? {
            return;
          }
          deletes', ops' := deletes + [found.value], ops + [Remove(found.value)];
        case Renamed =>
          var content := Content(tree, path);
          if content == "" {
            return;
          }
          if item.a != "" {
            var found := LookUp(item.a);
            if found.Some? {
              var update := Update(found.value, Doc(path, content, "renamed"));
              updates', ops' := updates + [update], ops + [Replace(update)];
            } else {
              var doc := Doc(path, content, "added");
              creates', ops' := creates + [doc], ops + [Create(doc)];
            }
          }
        case Other =>
      }
      skip := false;
    }

    /** The loop of _index_diff_files and the flushes after it. */
    method IndexItems(tree: Tree, items: seq<DiffItem>)
      requires errors == []
      modifies this, client
      ensures var s := DiffRun(client.engine, cfg, tree, old(client.View()), items);
              client.View() == s.w && errors == s.errors && batches == s.batches
    {
      ghost var w0 := client.View();
      batches := [];
      var createDocs: seq<Doc>, updateDocs: seq<Update>, deleteIds: seq<DocId> := [], [], [];
      ghost var ops: seq<Op> := [];
      for i := 0 to |items|
        invariant |createDocs| < 10 && |updateDocs| < 10 && |deleteIds| < 10
        invariant Now(ops, createDocs, updateDocs, deleteIds) == Loop(client.engine, cfg, tree, w0, items[..i])
      {
        assert items[..i + 1][..i] == items[..i];
        var skip;
        skip, createDocs, updateDocs, deleteIds, ops := BufferItem(tree, items[i], createDocs, updateDocs, deleteIds,
            ops);
        LoopBatches(client.engine, cfg, tree, w0, items[..i + 1]);
        if skip {
          NothingToFlush(client.engine, Now(ops, createDocs, updateDocs, deleteIds));
          continue;
        }
        createDocs, updateDocs, deleteIds := FlushBuffers(createDocs, updateDocs, deleteIds, 10, ops);
      }
      assert items[..|items|] == items;
      createDocs, updateDocs, deleteIds := FlushBuffers(createDocs, updateDocs, deleteIds, 1, ops);
    }

    /** _index_diff_files: when the last commit is unknown to git, all files are indexed instead. */
    method IndexDiffFiles(tree: Tree, walk: seq<WalkEntry>, diff: DiffResult)
      requires errors == []
      modifies this, client
      ensures var o := match diff
                case Diffed(items) => OutcomeOf(DiffRun(client.engine, cfg, tree, old(client.View()), items))
                case BadName => OutcomeOf(FullRun(client.engine, tree, old(client.View()), RepositoryFiles(cfg, walk)))
                case DiffError => Outcome(old(client.View()), [DiffFailed]);
              client.View() == o.w && errors == o.errors
    {
      match diff {
        case BadName => IndexAllFiles(tree, walk);
        case DiffError => errors := errors + [DiffFailed];
        case Diffed(items) => IndexItems(tree, items);
      }
    }

    /** update_index: set up the checkout, choose the way, collect the errors. */
    method UpdateIndex(c: Checkout, lastCommit: string, hadErrors: bool)
      modifies this, client
      ensures var o := UpdateRun(client.engine, cfg, old(client.View()), c, lastCommit, hadErrors);
              client.View() == o.w && errors == o.errors
    {
      errors := [];
      if !c.ok {
        errors := errors + [SetupFailed];
        return;
      }
      if c.pinned {
        IndexAllFiles(c.tree, c.walk);
      } else if lastCommit != "" && !hadErrors {
        IndexDiffFiles(c.tree, c.walk, c.diff);
      } else {
        IndexAllFiles(c.tree, c.walk);
      }
    }
  }
}
