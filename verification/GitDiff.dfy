/**
  The two ways git_handler.py updates an index, as functions of the store's replies:
  the diff since the last indexed commit, with its three buffers flushed at ten entries,
  and the full walk.
 */
module GitDiff {
  import opened Options
  import opened RagStore
  import opened GitFiles

  /** `Other` stands for the change types that have no branch in the source (T, C, U, X, B). */
  datatype Change = Added | Modified | Deleted | Renamed | Other

  /** One entry of a commit diff; a missing path is "". */
  datatype DiffItem = DiffItem(change: Change, a: string, b: string)

  function FilePath(item: DiffItem): string {
    if item.b != "" then item.b else item.a
  }

  datatype IndexError =
    | LookupFailed(path: string)
    | IndexFailed | UpdateFailed | DeleteFailed
    | SetupFailed | DiffFailed

  /** What one diff item asks of the index. */
  datatype Op = Create(doc: Doc) | Replace(update: Update) | Remove(id: DocId)

  /** One call of one of the three batch methods. */
  datatype Batch = CreateBatch(docs: seq<Doc>) | UpdateBatch(updates: seq<Update>) | DeleteBatch(ids: seq<DocId>)

  const BATCH: nat := 10

  /** The path an item is looked up under, when it is looked up at all. */
  function LookupPath(cfg: Config, tree: Tree, item: DiffItem): Option<string> {
    var path := FilePath(item);
    if !ShouldIndex(cfg.filter, path) then None
    else match item.change
      case Modified => if Content(tree, path) == "" then None else Some(path)
      case Deleted => Some(path)
      case Renamed => if Content(tree, path) == "" || item.a == "" then None else Some(item.a)
      case _ => None
  }

  /** The operation an item leads to, given the document its lookup found. */
  function Decide(cfg: Config, tree: Tree, item: DiffItem, found: Option<DocId>): Option<Op> {
    var path := FilePath(item);
    var text := Content(tree, path);
    if !ShouldIndex(cfg.filter, path) then None
    else if item.change.Deleted? then
      if found.Some? then Some(Remove(found.value)) else None
    else if text == "" || item.change.Other? || (item.change.Renamed? && item.a == "") then None
    else if found.Some? && !item.change.Added? then
      Some(Replace(Update(found.value, Doc(path, text, if item.change.Modified? then "modified" else "renamed"))))
    else Some(Create(Doc(path, text, "added")))
  }

  /** Where a diff run stands: the store, the errors, every operation decided and every batch
      submitted so far, and the three buffers. */
  datatype Progress = Progress(w: World, errors: seq<IndexError>, ops: seq<Op>, batches: seq<Batch>,
                               creates: seq<Doc>, updates: seq<Update>, deletes: seq<DocId>)

  function Start(w: World): Progress {
    Progress(w, [], [], [], [], [], [])
  }

  function DeleteInOrder(e: Engine, w: World, ids: seq<DocId>): World
    decreases |ids|
  {
    if ids == [] then w
    else
      var w' := DeleteDocument(e, w, ids[0]);
      if DeleteAnswered(e, w.calls) then DeleteInOrder(e, w', ids[1..]) else w'
  }

  predicate AllDeleted(e: Engine, calls: nat, n: nat) {
    forall k :: calls <= k < calls + n ==> DeleteAnswered(e, k)
  }

  function Noted(errors: seq<IndexError>, ok: bool, error: IndexError): seq<IndexError> {
    if ok then errors else errors + [error]
  }

  function FlushCreates(e: Engine, s: Progress, least: nat): Progress {
    if |s.creates| < least then s
    else s.(w := IndexDocuments(e, s.w, s.creates),
            errors := Noted(s.errors, e.reply(s.w.calls).Ok?, IndexFailed),
            batches := s.batches + [CreateBatch(s.creates)],
            creates := [])
  }

  function FlushUpdates(e: Engine, s: Progress, least: nat): Progress {
    if |s.updates| < least then s
    else s.(w := UpdateDocuments(e, s.w, s.updates),
            errors := Noted(s.errors, e.reply(s.w.calls).Ok?, UpdateFailed),
            batches := s.batches + [UpdateBatch(s.updates)],
            updates := [])
  }

  function FlushDeletes(e: Engine, s: Progress, least: nat): Progress {
    if |s.deletes| < least then s
    else s.(w := DeleteInOrder(e, s.w, s.deletes),
            errors := Noted(s.errors, AllDeleted(e, s.w.calls, |s.deletes|), DeleteFailed),
            batches := s.batches + [DeleteBatch(s.deletes)],
            deletes := [])
  }

  function Flush(e: Engine, s: Progress, least: nat): Progress {
    FlushDeletes(e, FlushUpdates(e, FlushCreates(e, s, least), least), least)
  }

  /** The lookup of one item: its effect on the store and errors, and what it found. */
  function AfterLookup(e: Engine, s: Progress, path: Option<string>): Progress {
    if path.None? then s
    else s.(w := ListDocuments(s.w), errors := Noted(s.errors, e.reply(s.w.calls).Ok?, LookupFailed(path.value)))
  }

  function LookedUp(e: Engine, w: World, path: Option<string>): Option<DocId> {
    if path.None? || !e.reply(w.calls).Ok? then None else Found(e, w.docs, path.value)
  }

  function Push(s: Progress, op: Option<Op>): Progress {
    match op
    case None => s
    case Some(Create(doc)) => s.(ops := s.ops + [op.value], creates := s.creates + [doc])
    case Some(Replace(update)) => s.(ops := s.ops + [op.value], updates := s.updates + [update])
    case Some(Remove(id)) => s.(ops := s.ops + [op.value], deletes := s.deletes + [id])
  }

  function Advance(e: Engine, cfg: Config, tree: Tree, s: Progress, item: DiffItem): Progress {
    var path := LookupPath(cfg, tree, item);
    Flush(e, Push(AfterLookup(e, s, path), Decide(cfg, tree, item, LookedUp(e, s.w, path))), BATCH)
  }

  /** The state after the loop over the diff, before the remaining buffers are flushed. */
  function Loop(e: Engine, cfg: Config, tree: Tree, w: World, items: seq<DiffItem>): Progress {
    if items == [] then Start(w)
    else Advance(e, cfg, tree, Loop(e, cfg, tree, w, items[..|items| - 1]), items[|items| - 1])
  }

  /** _index_diff_files */
  function DiffRun(e: Engine, cfg: Config, tree: Tree, w: World, items: seq<DiffItem>): Progress {
    Flush(e, Loop(e, cfg, tree, w, items), 1)
  }

  /** The full index: only the create buffer is used. */
  function AdvanceFull(e: Engine, tree: Tree, s: Progress, path: string): Progress {
    var text := Content(tree, path);
    FlushCreates(e, Push(s, if text == "" then None else Some(Create(Doc(path, text, "full")))), BATCH)
  }

  function FullLoop(e: Engine, tree: Tree, w: World, files: seq<string>): Progress {
    if files == [] then Start(w)
    else AdvanceFull(e, tree, FullLoop(e, tree, w, files[..|files| - 1]), files[|files| - 1])
  }

  /** _index_all_files */
  function FullRun(e: Engine, tree: Tree, w: World, files: seq<string>): Progress {
    FlushCreates(e, FullLoop(e, tree, w, files), 1)
  }

  // ---- Batching ----

  function CreatesOf(ops: seq<Op>): seq<Doc> {
    if ops == [] then []
    else
      var last := ops[|ops| - 1];
      CreatesOf(ops[..|ops| - 1]) + (if last.Create? then [last.doc] else [])
  }

  function UpdatesOf(ops: seq<Op>): seq<Update> {
    if ops == [] then []
    else
      var last := ops[|ops| - 1];
      UpdatesOf(ops[..|ops| - 1]) + (if last.Replace? then [last.update] else [])
  }

  function DeletesOf(ops: seq<Op>): seq<DocId> {
    if ops == [] then []
    else
      var last := ops[|ops| - 1];
      DeletesOf(ops[..|ops| - 1]) + (if last.Remove? then [last.id] else [])
  }

  function SubmittedCreates(batches: seq<Batch>): seq<Doc> {
    if batches == [] then []
    else
      var last := batches[|batches| - 1];
      SubmittedCreates(batches[..|batches| - 1]) + (if last.CreateBatch? then last.docs else [])
  }

  function SubmittedUpdates(batches: seq<Batch>): seq<Update> {
    if batches == [] then []
    else
      var last := batches[|batches| - 1];
      SubmittedUpdates(batches[..|batches| - 1]) + (if last.UpdateBatch? then last.updates else [])
  }

  function SubmittedDeletes(batches: seq<Batch>): seq<DocId> {
    if batches == [] then []
    else
      var last := batches[|batches| - 1];
      SubmittedDeletes(batches[..|batches| - 1]) + (if last.DeleteBatch? then last.ids else [])
  }

  function Size(batch: Batch): nat {
    match batch
    case CreateBatch(docs) => |docs|
    case UpdateBatch(updates) => |updates|
    case DeleteBatch(ids) => |ids|
  }

  /** Everything decided is either submitted or still buffered, in order and once. */
  ghost predicate Accounted(s: Progress) {
    && CreatesOf(s.ops) == SubmittedCreates(s.batches) + s.creates
    && UpdatesOf(s.ops) == SubmittedUpdates(s.batches) + s.updates
    && DeletesOf(s.ops) == SubmittedDeletes(s.batches) + s.deletes
  }

  ghost predicate Sizes(batches: seq<Batch>, low: nat) {
    forall k :: 0 <= k < |batches| ==> low <= Size(batches[k]) <= 10
  }

  /** The invariant between two rounds of either loop. */
  ghost predicate BetweenRounds(s: Progress) {
    && Accounted(s)
    && Sizes(s.batches, BATCH)
    && RoomForOne(s)
  }

  lemma SubmittedOneMore(batches: seq<Batch>, b: Batch)
    ensures SubmittedCreates(batches + [b]) == SubmittedCreates(batches) + (if b.CreateBatch? then b.docs else [])
    ensures SubmittedUpdates(batches + [b]) == SubmittedUpdates(batches) + (if b.UpdateBatch? then b.updates else [])
    ensures SubmittedDeletes(batches + [b]) == SubmittedDeletes(batches) + (if b.DeleteBatch? then b.ids else [])
  {
    assert (batches + [b])[..|batches|] == batches;
  }

  lemma CreatesAccounted(e: Engine, s: Progress, least: nat)
    requires Accounted(s)
    ensures Accounted(FlushCreates(e, s, least))
  {
    SubmittedOneMore(s.batches, CreateBatch(s.creates));
  }

  lemma UpdatesAccounted(e: Engine, s: Progress, least: nat)
    requires Accounted(s)
    ensures Accounted(FlushUpdates(e, s, least))
  {
    SubmittedOneMore(s.batches, UpdateBatch(s.updates));
  }

  lemma DeletesAccounted(e: Engine, s: Progress, least: nat)
    requires Accounted(s)
    ensures Accounted(FlushDeletes(e, s, least))
  {
    SubmittedOneMore(s.batches, DeleteBatch(s.deletes));
  }

  lemma OfOneMore(ops: seq<Op>, op: Op)
    ensures CreatesOf(ops + [op]) == CreatesOf(ops) + (if op.Create? then [op.doc] else [])
    ensures UpdatesOf(ops + [op]) == UpdatesOf(ops) + (if op.Replace? then [op.update] else [])
    ensures DeletesOf(ops + [op]) == DeletesOf(ops) + (if op.Remove? then [op.id] else [])
  {
    assert (ops + [op])[..|ops|] == ops;
  }

  lemma PushAccounted(s: Progress, op: Option<Op>)
    requires Accounted(s)
    ensures Accounted(Push(s, op))
  {
    if op.Some? {
      OfOneMore(s.ops, op.value);
      match op.value {
        case Create(doc) =>
          assert SubmittedCreates(s.batches) + s.creates + [doc] == SubmittedCreates(s.batches) + (s.creates + [doc]);
        case Replace(update) =>
          assert SubmittedUpdates(s.batches) + s.updates + [update]
              == SubmittedUpdates(s.batches) + (s.updates + [update]);
        case Remove(id) =>
          assert SubmittedDeletes(s.batches) + s.deletes + [id] == SubmittedDeletes(s.batches) + (s.deletes + [id]);
      }
    }
  }

  lemma FlushAccounted(e: Engine, s: Progress, least: nat)
    requires Accounted(s)
    ensures Accounted(Flush(e, s, least))
  {
    var s1 := FlushCreates(e, s, least);
    var s2 := FlushUpdates(e, s1, least);
    CreatesAccounted(e, s, least);
    UpdatesAccounted(e, s1, least);
    DeletesAccounted(e, s2, least);
  }

  /** Flushing buffers of at most ten entries adds at most one batch per buffer, each of at least `least`. */
  lemma FlushSizes(e: Engine, s: Progress, least: nat)
    requires Sizes(s.batches, least) && 1 <= least <= BATCH
    requires |s.creates| <= BATCH && |s.updates| <= BATCH && |s.deletes| <= BATCH
    ensures Sizes(Flush(e, s, least).batches, least)
    ensures s.batches <= Flush(e, s, least).batches
    ensures var f := Flush(e, s, least); |f.creates| < least && |f.updates| < least && |f.deletes| < least
  {
  }

  ghost predicate RoomForOne(s: Progress) {
    |s.creates| < BATCH && |s.updates| < BATCH && |s.deletes| < BATCH
  }

  lemma PushFits(s: Progress, op: Option<Op>)
    requires RoomForOne(s)
    ensures var p := Push(s, op); |p.creates| <= BATCH && |p.updates| <= BATCH && |p.deletes| <= BATCH
    ensures Push(s, op).batches == s.batches
  {
  }

  lemma PushAndFlush(e: Engine, s: Progress, op: Option<Op>)
    requires BetweenRounds(s)
    ensures BetweenRounds(Flush(e, Push(s, op), BATCH))
  {
    PushAccounted(s, op);
    FlushAccounted(e, Push(s, op), BATCH);
    PushFits(s, op);
    FlushSizes(e, Push(s, op), BATCH);
  }

  lemma RoundBatches(e: Engine, cfg: Config, tree: Tree, s: Progress, item: DiffItem)
    requires BetweenRounds(s)
    ensures BetweenRounds(Advance(e, cfg, tree, s, item))
  {
    var path := LookupPath(cfg, tree, item);
    PushAndFlush(e, AfterLookup(e, s, path), Decide(cfg, tree, item, LookedUp(e, s.w, path)));
  }

  lemma {:induction false} LoopBatches(e: Engine, cfg: Config, tree: Tree, w: World, items: seq<DiffItem>)
    ensures BetweenRounds(Loop(e, cfg, tree, w, items))
  {
    if items != [] {
      var init := items[..|items| - 1];
      LoopBatches(e, cfg, tree, w, init);
      RoundBatches(e, cfg, tree, Loop(e, cfg, tree, w, init), items[|items| - 1]);
    }
  }

  /** Every document or id the diff loop decides on is submitted exactly once and in order, whatever
      fails; batches carry one to ten entries, and those sent inside the loop carry exactly ten. */
  lemma DiffBatches(e: Engine, cfg: Config, tree: Tree, w: World, items: seq<DiffItem>)
    ensures var s := DiffRun(e, cfg, tree, w, items);
            && SubmittedCreates(s.batches) == CreatesOf(s.ops)
            && SubmittedUpdates(s.batches) == UpdatesOf(s.ops)
            && SubmittedDeletes(s.batches) == DeletesOf(s.ops)
            && Sizes(s.batches, 1)
            && Loop(e, cfg, tree, w, items).batches <= s.batches
    ensures Sizes(Loop(e, cfg, tree, w, items).batches, 10)
  {
    LoopBatches(e, cfg, tree, w, items);
    var s := Loop(e, cfg, tree, w, items);
    FlushAccounted(e, s, 1);
    FlushSizes(e, s, 1);
  }

  lemma CreatesSizes(e: Engine, s: Progress, least: nat)
    requires Sizes(s.batches, least) && 1 <= least <= BATCH && |s.creates| <= BATCH
    ensures Sizes(FlushCreates(e, s, least).batches, least)
    ensures s.batches <= FlushCreates(e, s, least).batches
    ensures |FlushCreates(e, s, least).creates| < least
  {
  }

  lemma FullRoundBatches(e: Engine, tree: Tree, s: Progress, path: string)
    requires BetweenRounds(s)
    ensures BetweenRounds(AdvanceFull(e, tree, s, path))
  {
    var text := Content(tree, path);
    var op := if text == "" then None else Some(Create(Doc(path, text, "full")));
    PushAccounted(s, op);
    CreatesAccounted(e, Push(s, op), BATCH);
    PushFits(s, op);
    CreatesSizes(e, Push(s, op), BATCH);
  }

  lemma {:induction false} FullLoopBatches(e: Engine, tree: Tree, w: World, files: seq<string>)
    ensures BetweenRounds(FullLoop(e, tree, w, files))
  {
    if files != [] {
      var init := files[..|files| - 1];
      FullLoopBatches(e, tree, w, init);
      FullRoundBatches(e, tree, FullLoop(e, tree, w, init), files[|files| - 1]);
    }
  }

  /** The documents a full index builds: one per readable file, in walk order. */
  function FullDocs(tree: Tree, files: seq<string>): seq<Doc> {
    if files == [] then []
    else
      var path := files[|files| - 1];
      FullDocs(tree, files[..|files| - 1]) +
      (if Content(tree, path) == "" then [] else [Doc(path, Content(tree, path), "full")])
  }

  lemma {:induction false} FullOps(e: Engine, tree: Tree, w: World, files: seq<string>)
    ensures CreatesOf(FullLoop(e, tree, w, files).ops) == FullDocs(tree, files)
  {
    if files != [] {
      FullOps(e, tree, w, files[..|files| - 1]);
      var s := FullLoop(e, tree, w, files[..|files| - 1]);
      var path := files[|files| - 1];
      if Content(tree, path) != "" {
        var op := Create(Doc(path, Content(tree, path), "full"));
        assert (s.ops + [op])[..|s.ops|] == s.ops;
      }
    }
  }

  /** A full index submits exactly one document per readable file, in walk order, in batches of ten
      and one last batch of one to ten. */
  lemma FullBatches(e: Engine, tree: Tree, w: World, files: seq<string>)
    ensures var s := FullRun(e, tree, w, files);
            && SubmittedCreates(s.batches) == FullDocs(tree, files)
            && Sizes(s.batches, 1)
            && FullLoop(e, tree, w, files).batches <= s.batches
    ensures Sizes(FullLoop(e, tree, w, files).batches, 10)
  {
    FullLoopBatches(e, tree, w, files);
    FullOps(e, tree, w, files);
    hide FullLoop, FullDocs, CreatesOf, UpdatesOf, DeletesOf, IndexDocuments;
    hide SubmittedCreates, SubmittedUpdates, SubmittedDeletes;
    var s := FullLoop(e, tree, w, files);
    CreatesAccounted(e, s, 1);
    CreatesSizes(e, s, 1);
  }
}
