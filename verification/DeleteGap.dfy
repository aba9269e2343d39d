/**
  Which failures a diff run records: every one.  And what follows from the delete call that the
  client object does not offer: a diff that removes an indexed file never runs without an error.
 */
module DeleteGap {
  import opened Options
  import opened RagStore
  import opened GitFiles
  import opened GitDiff
  import opened FlushTiming
  import opened Conditions
  import GitHandler
  import IndexHistory

  /** Every call from number `from` up to `to` was answered. */
  ghost predicate AllAnswered(e: Engine, from: nat, to: nat) {
    forall k :: from <= k < to ==> e.reply(k).Ok?
  }

  /** No error is recorded exactly when every call so far was answered and every delete could be sent. */
  ghost predicate ErrorsTell(e: Engine, from: nat, s: Progress) {
    && from <= s.w.calls
    && (s.errors == [] <==>
        AllAnswered(e, from, s.w.calls) && (e.canDelete || SubmittedDeletes(s.batches) == []))
  }

  lemma OneMoreAnswered(e: Engine, from: nat, to: nat)
    requires from <= to
    ensures AllAnswered(e, from, to + 1) <==> AllAnswered(e, from, to) && e.reply(to).Ok?
  {
  }

  lemma {:induction false} DeletesTell(e: Engine, w: World, ids: seq<DocId>)
    ensures w.calls <= DeleteInOrder(e, w, ids).calls
    ensures AllDeleted(e, w.calls, |ids|) <==>
            AllAnswered(e, w.calls, DeleteInOrder(e, w, ids).calls) && (e.canDelete || ids == [])
    decreases |ids|
  {
    if ids != [] {
      var w' := DeleteDocument(e, w, ids[0]);
      assert AllDeleted(e, w.calls, |ids|) ==> DeleteAnswered(e, w.calls);
      if DeleteAnswered(e, w.calls) {
        DeletesTell(e, w', ids[1..]);
        assert AllDeleted(e, w.calls, |ids|) <==> AllDeleted(e, w.calls + 1, |ids| - 1);
      }
    }
  }

  lemma CreatesErrorsTell(e: Engine, from: nat, s: Progress, least: nat)
    requires ErrorsTell(e, from, s)
    ensures ErrorsTell(e, from, FlushCreates(e, s, least))
  {
    SubmittedOneMore(s.batches, CreateBatch(s.creates));
    OneMoreAnswered(e, from, s.w.calls);
  }

  lemma UpdatesErrorsTell(e: Engine, from: nat, s: Progress, least: nat)
    requires ErrorsTell(e, from, s)
    ensures ErrorsTell(e, from, FlushUpdates(e, s, least))
  {
    SubmittedOneMore(s.batches, UpdateBatch(s.updates));
    OneMoreAnswered(e, from, s.w.calls);
  }

  lemma DeletesErrorsTell(e: Engine, from: nat, s: Progress, least: nat)
    requires ErrorsTell(e, from, s)
    ensures ErrorsTell(e, from, FlushDeletes(e, s, least))
  {
    SubmittedOneMore(s.batches, DeleteBatch(s.deletes));
    DeletesTell(e, s.w, s.deletes);
    var to := DeleteInOrder(e, s.w, s.deletes).calls;
    assert AllAnswered(e, from, to) <==> AllAnswered(e, from, s.w.calls) && AllAnswered(e, s.w.calls, to);
  }

  lemma FlushErrorsTell(e: Engine, from: nat, s: Progress, least: nat)
    requires ErrorsTell(e, from, s)
    ensures ErrorsTell(e, from, Flush(e, s, least))
  {
    CreatesErrorsTell(e, from, s, least);
    UpdatesErrorsTell(e, from, FlushCreates(e, s, least), least);
    DeletesErrorsTell(e, from, FlushUpdates(e, FlushCreates(e, s, least), least), least);
  }

  lemma LookupErrorsTell(e: Engine, from: nat, s: Progress, path: Option<string>, op: Option<Op>)
    requires ErrorsTell(e, from, s)
    ensures ErrorsTell(e, from, AfterLookup(e, s, path))
    ensures ErrorsTell(e, from, Push(AfterLookup(e, s, path), op))
  {
    OneMoreAnswered(e, from, s.w.calls);
  }

  lemma {:induction false} LoopErrorsTell(e: Engine, cfg: Config, tree: Tree, w: World, items: seq<DiffItem>)
    ensures ErrorsTell(e, w.calls, Loop(e, cfg, tree, w, items))
  {
    if items != [] {
      var init, item := items[..|items| - 1], items[|items| - 1];
      LoopErrorsTell(e, cfg, tree, w, init);
      var s, path := Loop(e, cfg, tree, w, init), LookupPath(cfg, tree, item);
      var op := Decide(cfg, tree, item, LookedUp(e, s.w, path));
      LookupErrorsTell(e, w.calls, s, path, op);
      FlushErrorsTell(e, w.calls, Push(AfterLookup(e, s, path), op), BATCH);
    }
  }

  /** No failure is silent and none is made up: a diff run records no error if and only if every call it
      made was answered and it decided on no deletion that the client cannot send. */
  lemma ErrorFreeIff(e: Engine, cfg: Config, tree: Tree, w: World, items: seq<DiffItem>)
    ensures var s := DiffRun(e, cfg, tree, w, items);
            s.errors == [] <==> AllAnswered(e, w.calls, s.w.calls) && (e.canDelete || DeletesOf(s.ops) == [])
  {
    LoopErrorsTell(e, cfg, tree, w, items);
    FlushErrorsTell(e, w.calls, Loop(e, cfg, tree, w, items), 1);
    DiffBatches(e, cfg, tree, w, items);
  }

  /** The diff removes a file that is to be indexed and has a document. */
  ghost predicate RemovesIndexed(cfg: Config, docs: map<DocId, Doc>, items: seq<DiffItem>) {
    exists k :: 0 <= k < |items| && RemovesOne(cfg, docs, items[k])
  }

  ghost predicate RemovesOne(cfg: Config, docs: map<DocId, Doc>, item: DiffItem) {
    item.change.Deleted? && ShouldIndex(cfg.filter, FilePath(item)) &&
    exists id :: id in docs && docs[id].path == FilePath(item)
  }

  lemma RemoveDecidedIff(e: Engine, cfg: Config, tree: Tree, docs: map<DocId, Doc>, item: DiffItem)
    ensures var op := OpOn(e, cfg, tree, docs, item);
            (op.Some? && op.value.Remove?) <==> RemovesOne(cfg, docs, item)
  {
  }

  lemma RemovesOneMore(cfg: Config, docs: map<DocId, Doc>, items: seq<DiffItem>)
    requires items != []
    ensures RemovesIndexed(cfg, docs, items) <==>
            RemovesIndexed(cfg, docs, items[..|items| - 1]) || RemovesOne(cfg, docs, items[|items| - 1])
  {
    hide RemovesOne;
    var n := |items| - 1;
    if RemovesIndexed(cfg, docs, items[..n]) {
      var k :| 0 <= k < n && RemovesOne(cfg, docs, items[..n][k]);
      assert RemovesOne(cfg, docs, items[k]);
    }
    if k :| 0 <= k < n && RemovesOne(cfg, docs, items[k]) {
      assert RemovesOne(cfg, docs, items[..n][k]);
    }
  }

  lemma {:induction false} PlannedDeletes(e: Engine, cfg: Config, tree: Tree, docs: map<DocId, Doc>,
                                          items: seq<DiffItem>)
    ensures DeletesOf(Plan(e, cfg, tree, docs, items)) != [] <==> RemovesIndexed(cfg, docs, items)
  {
    if items != [] {
      hide OpOn, RemovesOne, RemovesIndexed, Plan;
      var n := |items| - 1;
      PlannedDeletes(e, cfg, tree, docs, items[..n]);
      PlanOneMore(e, cfg, tree, docs, items);
      RemoveDecidedIff(e, cfg, tree, docs, items[n]);
      RemovesOneMore(cfg, docs, items);
    }
  }

  /** Without the delete method, a diff that removes an indexed file records an error, whatever the engine answers. */
  lemma DeletionIsRecorded(e: Engine, cfg: Config, tree: Tree, w: World, items: seq<DiffItem>)
    requires e.Valid() && w.Valid() && Separate(items) && !e.canDelete
    requires RemovesIndexed(cfg, w.docs, items)
    ensures DiffRun(e, cfg, tree, w, items).errors != []
  {
    var s := Loop(e, cfg, tree, w, items);
    if DiffRun(e, cfg, tree, w, items).errors == [] {
      FlushKeepsErrors(e, s, 1);
      LoopOnPlan(e, cfg, tree, w, items);
      FlushKeepsOps(e, s, 1);
      ErrorFreeIff(e, cfg, tree, w, items);
      PlannedDeletes(e, cfg, tree, w.docs, items);
    }
  }

  lemma PlanOfInit(e: Engine, cfg: Config, tree: Tree, docs: map<DocId, Doc>, items: seq<DiffItem>)
    requires items != [] && DeletesOf(Plan(e, cfg, tree, docs, items)) == []
    ensures DeletesOf(Plan(e, cfg, tree, docs, items[..|items| - 1])) == []
  {
    PlanOneMore(e, cfg, tree, docs, items);
  }

  lemma AnsweredRound(e: Engine, cfg: Config, tree: Tree, w: World, items: seq<DiffItem>)
    requires e.Valid() && w.Valid() && items != [] && Separate(items) && (forall n :: e.reply(n).Ok?)
    requires DeletesOf(Plan(e, cfg, tree, w.docs, items)) == []
    requires Loop(e, cfg, tree, w, items[..|items| - 1]).errors == []
    ensures Loop(e, cfg, tree, w, items).errors == []
  {
    var init, item := items[..|items| - 1], items[|items| - 1];
    var s := Loop(e, cfg, tree, w, init);
    SeparateInit(items);
    LoopOnPlan(e, cfg, tree, w, init);
    RoundDecides(e, cfg, tree, IndexOf(w), init, item, s);
    var s1 := AfterLookup(e, s, LookupPath(cfg, tree, item));
    PushOnPlan(e, cfg, tree, IndexOf(w), items, s1);
    FlushKeepsOps(e, Push(s1, OpOn(e, cfg, tree, w.docs, item)), BATCH);
    LoopBatches(e, cfg, tree, w, items);
    LoopErrorsTell(e, cfg, tree, w, items);
  }

  lemma {:induction false} AnsweredLoop(e: Engine, cfg: Config, tree: Tree, w: World, items: seq<DiffItem>)
    requires e.Valid() && w.Valid() && Separate(items) && (forall n :: e.reply(n).Ok?)
    requires DeletesOf(Plan(e, cfg, tree, w.docs, items)) == []
    ensures Loop(e, cfg, tree, w, items).errors == []
  {
    if items != [] {
      SeparateInit(items);
      PlanOfInit(e, cfg, tree, w.docs, items);
      AnsweredLoop(e, cfg, tree, w, items[..|items| - 1]);
      AnsweredRound(e, cfg, tree, w, items);
    }
  }

  /** When the engine answers every call, a diff run records no error if and only if the client has the
      delete method or the diff removes no indexed file. */
  lemma DeletionsFailIff(e: Engine, cfg: Config, tree: Tree, w: World, items: seq<DiffItem>)
    requires e.Valid() && w.Valid() && Separate(items) && (forall n :: e.reply(n).Ok?)
    ensures DiffRun(e, cfg, tree, w, items).errors == [] <==> e.canDelete || !RemovesIndexed(cfg, w.docs, items)
  {
    ErrorFreeIff(e, cfg, tree, w, items);
    if !e.canDelete {
      PlannedDeletes(e, cfg, tree, w.docs, items);
      if RemovesIndexed(cfg, w.docs, items) {
        DeletionIsRecorded(e, cfg, tree, w, items);
      } else {
        AnsweredLoop(e, cfg, tree, w, items);
        LoopOnPlan(e, cfg, tree, w, items);
        FlushKeepsOps(e, Loop(e, cfg, tree, w, items), 1);
      }
    }
  }

  // ---- What stays behind ----

  lemma {:induction false} UnsentDeletesDropNothing(e: Engine, w: World, ids: seq<DocId>)
    requires !e.canDelete
    ensures DeleteInOrder(e, w, ids) == w
    decreases |ids|
  {
  }

  lemma FlushDropsNothing(e: Engine, s: Progress, least: nat)
    requires !e.canDelete
    ensures s.w.docs.Keys <= Flush(e, s, least).w.docs.Keys
  {
    var s2 := FlushUpdates(e, FlushCreates(e, s, least), least);
    UnsentDeletesDropNothing(e, s2.w, s2.deletes);
  }

  lemma RoundDropsNothing(e: Engine, cfg: Config, tree: Tree, s: Progress, item: DiffItem)
    requires !e.canDelete
    ensures s.w.docs.Keys <= Advance(e, cfg, tree, s, item).w.docs.Keys
  {
    hide LookupPath, Decide, Flush;
    var path := LookupPath(cfg, tree, item);
    FlushDropsNothing(e, Push(AfterLookup(e, s, path), Decide(cfg, tree, item, LookedUp(e, s.w, path))), BATCH);
  }

  lemma {:induction false} LoopDropsNothing(e: Engine, cfg: Config, tree: Tree, w: World, items: seq<DiffItem>)
    requires !e.canDelete
    ensures w.docs.Keys <= Loop(e, cfg, tree, w, items).w.docs.Keys
  {
    if items != [] {
      hide Advance;
      var init, item := items[..|items| - 1], items[|items| - 1];
      LoopDropsNothing(e, cfg, tree, w, init);
      RoundDropsNothing(e, cfg, tree, Loop(e, cfg, tree, w, init), item);
    }
  }

  lemma {:induction false} FullLoopDropsNothing(e: Engine, tree: Tree, w: World, files: seq<string>)
    ensures w.docs.Keys <= FullLoop(e, tree, w, files).w.docs.Keys
  {
    if files != [] {
      FullLoopDropsNothing(e, tree, w, files[..|files| - 1]);
    }
  }

  /** Without the delete method no run of the job takes a document out of the index. */
  lemma RunDropsNothing(e: Engine, cfg: Config, w: World, c: GitHandler.Checkout, lastCommit: string, hadErrors: bool)
    requires !e.canDelete
    ensures w.docs.Keys <= GitHandler.UpdateRun(e, cfg, w, c, lastCommit, hadErrors).w.docs.Keys
  {
    FullLoopDropsNothing(e, c.tree, w, RepositoryFiles(cfg, c.walk));
    if c.diff.Diffed? {
      LoopDropsNothing(e, cfg, c.tree, w, c.diff.items);
      FlushDropsNothing(e, Loop(e, cfg, c.tree, w, c.diff.items), 1);
    }
  }

  /** The document stands, under an old id that no buffered update names. */
  ghost predicate Stands(s: Progress, id: DocId, doc: Doc) {
    && Get(s.w.docs, id) == Some(doc) && id < s.w.next
    && forall k :: 0 <= k < |s.updates| ==> s.updates[k].id != id
  }

  lemma {:induction false} LatestOfOthers(updates: seq<Update>, id: DocId)
    requires forall k :: 0 <= k < |updates| ==> updates[k].id != id
    ensures Latest(updates, id).None?
  {
    if updates != [] {
      LatestOfOthers(updates[..|updates| - 1], id);
    }
  }

  lemma FlushStands(e: Engine, s: Progress, least: nat, id: DocId, doc: Doc)
    requires !e.canDelete && Stands(s, id, doc)
    ensures Stands(Flush(e, s, least), id, doc)
  {
    var s1 := FlushCreates(e, s, least);
    assert Stands(s1, id, doc);
    var s2 := FlushUpdates(e, s1, least);
    LatestOfOthers(s1.updates[..Stored(e.reply(s1.w.calls), |s1.updates|)], id);
    assert Stands(s2, id, doc);
    UnsentDeletesDropNothing(e, s2.w, s2.deletes);
  }

  /** A document that is about to be replaced is one found under a path of the item. */
  lemma ReplacesOwnOnly(e: Engine, cfg: Config, tree: Tree, w: World, item: DiffItem, id: DocId)
    requires e.Valid() && id in w.docs && (item.change.Deleted? || w.docs[id].path !in Paths(item))
    ensures var op := Decide(cfg, tree, item, LookedUp(e, w, LookupPath(cfg, tree, item)));
            op.Some? && op.value.Replace? ==> op.value.update.id != id
  {
    hide ShouldIndex, Content;
  }

  lemma RoundStands(e: Engine, cfg: Config, tree: Tree, s: Progress, item: DiffItem, id: DocId, doc: Doc)
    requires e.Valid() && !e.canDelete && Stands(s, id, doc)
    requires item.change.Deleted? || doc.path !in Paths(item)
    ensures Stands(Advance(e, cfg, tree, s, item), id, doc)
  {
    ReplacesOwnOnly(e, cfg, tree, s.w, item, id);
    hide LookupPath, Decide, Flush;
    var path := LookupPath(cfg, tree, item);
    FlushStands(e, Push(AfterLookup(e, s, path), Decide(cfg, tree, item, LookedUp(e, s.w, path))), BATCH, id, doc);
  }

  /** No item but a removal is about this path. */
  ghost predicate OnlyRemoved(items: seq<DiffItem>, path: string) {
    forall k :: 0 <= k < |items| ==> items[k].change.Deleted? || path !in Paths(items[k])
  }

  lemma {:induction false} LoopStands(e: Engine, cfg: Config, tree: Tree, w: World, items: seq<DiffItem>, id: DocId)
    requires e.Valid() && !e.canDelete && w.Valid() && id in w.docs && OnlyRemoved(items, w.docs[id].path)
    ensures Stands(Loop(e, cfg, tree, w, items), id, w.docs[id])
  {
    if items != [] {
      hide Advance;
      var init := items[..|items| - 1];
      LoopStands(e, cfg, tree, w, init, id);
      RoundStands(e, cfg, tree, Loop(e, cfg, tree, w, init), items[|items| - 1], id, w.docs[id]);
    }
  }

  /** Without the delete method, a removed file's documents stand unchanged after the run, whatever fails. */
  lemma RemovedFileStands(e: Engine, cfg: Config, tree: Tree, w: World, items: seq<DiffItem>, k: nat, id: DocId)
    requires e.Valid() && !e.canDelete && w.Valid() && Separate(items)
    requires k < |items| && items[k].change.Deleted? && id in w.docs && w.docs[id].path == FilePath(items[k])
    ensures Get(DiffRun(e, cfg, tree, w, items).w.docs, id) == Some(w.docs[id])
  {
    assert OnlyRemoved(items, w.docs[id].path) by {
      forall j | 0 <= j < |items| && j != k ensures w.docs[id].path !in Paths(items[j]) {
        assert w.docs[id].path in Paths(items[k]);
      }
    }
    LoopStands(e, cfg, tree, w, items, id);
    FlushStands(e, Loop(e, cfg, tree, w, items), 1, id, w.docs[id]);
  }

  // ---- The run after it ----

  /** An incremental run of KAITORAGClient over a diff that removes an indexed file. */
  ghost predicate RemovingRun(s: IndexHistory.System, run: IndexHistory.Run) {
    && !run.e.canDelete && run.e.Valid() && s.w.Valid() && DistinctKinds(s.status.conditions)
    && run.checkout.ok && !run.checkout.pinned && run.checkout.head != ""
    && s.status.lastCommit != "" && !HadErrors(s.status.conditions)
    && run.checkout.diff.Diffed? && Separate(run.checkout.diff.items)
    && RemovesIndexed(run.cfg, s.w.docs, run.checkout.diff.items)
  }

  lemma RemovingRunRaisesFlag(s: IndexHistory.System, run: IndexHistory.Run)
    requires RemovingRun(s, run)
    ensures var s1 := IndexHistory.AfterRun(s, run);
            && HadErrors(s1.status.conditions) && DistinctKinds(s1.status.conditions)
            && s1.status.lastCommit == run.checkout.head
            && s1.w == DiffRun(run.e, run.cfg, run.checkout.tree, s.w, run.checkout.diff.items).w
  {
    DeletionIsRecorded(run.e, run.cfg, run.checkout.tree, s.w, run.checkout.diff.items);
    IndexHistory.FlagAfterRun(s.status, run.checkout, true, run.now);
  }

  /** With KAITORAGClient an incremental run over a removed indexed file raises the error flag.  The next
      unpinned run is a full one if no reconcile comes between or the last of them fails, and an
      incremental one otherwise; no document of before leaves the index either way. */
  lemma DeletionForcesFullRunIff(s: IndexHistory.System, run: IndexHistory.Run,
                                 between: seq<IndexHistory.Event>, next: IndexHistory.Run)
    requires RemovingRun(s, run) && IndexHistory.OnlyReconciles(between)
    requires next.checkout.ok && !next.checkout.pinned && next.checkout.diff.Diffed? && !next.e.canDelete
    ensures var s1 := IndexHistory.AfterRun(s, run);
            var outcome := IndexHistory.OutcomeOfRun(IndexHistory.AfterAll(s1, between), next);
            && HadErrors(s1.status.conditions)
            && outcome == (if between == [] || between[|between| - 1].ReconcileFails?
                           then GitHandler.OutcomeOf(FullRun(next.e, next.checkout.tree, s1.w,
                                                             RepositoryFiles(next.cfg, next.checkout.walk)))
                           else GitHandler.OutcomeOf(DiffRun(next.e, next.cfg, next.checkout.tree, s1.w,
                                                             next.checkout.diff.items)))
            && s.w.docs.Keys <= outcome.w.docs.Keys
  {
    var s1 := IndexHistory.AfterRun(s, run);
    RemovingRunRaisesFlag(s, run);
    IndexHistory.LastReconcileDecides(s1, between);
    hide DiffRun, FullRun, RepositoryFiles, IndexHistory.AfterAll, HadErrors;
    RunDropsNothing(run.e, run.cfg, s.w, run.checkout, s.status.lastCommit, false);
    var s2 := IndexHistory.AfterAll(s1, between);
    RunDropsNothing(next.e, next.cfg, s1.w, next.checkout, s2.status.lastCommit, HadErrors(s2.status.conditions));
  }

  /** So an ordinary reconcile in between loses the deletion: the next run at that commit has an empty diff,
      records no error and leaves the flag down, and the removed file's document stands. */
  lemma DeletionIsLost(s: IndexHistory.System, run: IndexHistory.Run, now: nat,
                       next: IndexHistory.Run, k: nat, id: DocId)
    requires RemovingRun(s, run)
    requires var items := run.checkout.diff.items;
             && k < |items| && RemovesOne(run.cfg, s.w.docs, items[k])
             && id in s.w.docs && s.w.docs[id].path == FilePath(items[k])
    requires next.checkout == run.checkout.(diff := GitHandler.Diffed([]))
    ensures var s2 := IndexHistory.After(IndexHistory.AfterRun(s, run), IndexHistory.Reconcile(now));
            var s3 := IndexHistory.AfterRun(s2, next);
            && IndexHistory.OutcomeOfRun(s2, next).errors == []
            && !HadErrors(s3.status.conditions) && s3.status.lastCommit == run.checkout.head
            && Get(s3.w.docs, id) == Some(s.w.docs[id])
  {
    RemovingRunRaisesFlag(s, run);
    hide DiffRun, RemovesIndexed;
    RemovedFileStands(run.e, run.cfg, run.checkout.tree, s.w, run.checkout.diff.items, k, id);
    IndexHistory.EmptyDiffRun(IndexHistory.AfterRun(s, run), next, now);
  }

  ghost predicate NoRemediation(events: seq<IndexHistory.Event>) {
    forall k :: 0 <= k < |events| ==> !events[k].Remediate? && (events[k].JobRun? ==> !events[k].run.e.canDelete)
  }

  /** Over every history of runs of KAITORAGClient and of reconciles, up to a remediation, the index only grows. */
  lemma {:induction false} NothingLeavesTheIndex(s: IndexHistory.System, events: seq<IndexHistory.Event>)
    requires NoRemediation(events)
    ensures s.w.docs.Keys <= IndexHistory.AfterAll(s, events).w.docs.Keys
  {
    if events != [] {
      var init, last := events[..|events| - 1], events[|events| - 1];
      NothingLeavesTheIndex(s, init);
      var s1 := IndexHistory.AfterAll(s, init);
      if last.JobRun? {
        hide GitHandler.UpdateRun, HadErrors;
        RunDropsNothing(last.run.e, last.run.cfg, s1.w, last.run.checkout, s1.status.lastCommit,
                        HadErrors(s1.status.conditions));
      }
    }
  }
}
