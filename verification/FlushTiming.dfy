/**
  When flushing happens does not matter.  A diff run without errors leaves the index that
  the two unbuffered readings of the diff leave: look everything up first and submit three
  whole lists once, or carry out each item's operation at once.
 */
module FlushTiming {
  import opened Options
  import opened RagStore
  import opened GitFiles
  import opened GitDiff

  /** An index without its call counter. */
  datatype Index = Index(docs: map<DocId, Doc>, next: DocId) {
    ghost predicate Valid() {
      forall id :: id in docs ==> id < next
    }
  }

  function IndexOf(w: World): Index {
    Index(w.docs, w.next)
  }

  /** The paths an item is about. */
  function Paths(item: DiffItem): set<string> {
    if item.change.Renamed? then {item.a, item.b} else {FilePath(item)}
  }

  ghost predicate SeparateFrom(items: seq<DiffItem>, paths: set<string>) {
    forall k :: 0 <= k < |items| ==> Paths(items[k]) !! paths
  }

  /** Each path plays its part in one item only. */
  ghost predicate Separate(items: seq<DiffItem>) {
    forall j, k :: 0 <= j < k < |items| ==> Paths(items[j]) !! Paths(items[k])
  }

  /** The operation of an item when its lookup is answered from `docs`. */
  function OpOn(e: Engine, cfg: Config, tree: Tree, docs: map<DocId, Doc>, item: DiffItem): Option<Op> {
    var path := LookupPath(cfg, tree, item);
    Decide(cfg, tree, item, if path.None? then None else Found(e, docs, path.value))
  }

  /** All lookups first: the operations of a whole diff, read off one unchanging index. */
  function Plan(e: Engine, cfg: Config, tree: Tree, docs: map<DocId, Doc>, items: seq<DiffItem>): seq<Op> {
    if items == [] then []
    else
      var before := Plan(e, cfg, tree, docs, items[..|items| - 1]);
      var op := OpOn(e, cfg, tree, docs, items[|items| - 1]);
      if op.None? then before else before + [op.value]
  }

  function Dropped(docs: map<DocId, Doc>, ids: seq<DocId>): map<DocId, Doc> {
    map id | id in docs && id !in ids :: docs[id]
  }

  /** Three whole lists submitted once each: create, then update, then delete. */
  function Submit(x: Index, creates: seq<Doc>, updates: seq<Update>, deletes: seq<DocId>): Index {
    Index(Dropped(Overwrite(x.docs + Fresh(x.next, creates), updates), deletes), x.next + |creates|)
  }

  /** One operation carried out at once. */
  function Apply(x: Index, op: Op): Index {
    match op
    case Create(doc) => Index(x.docs + Fresh(x.next, [doc]), x.next + 1)
    case Replace(update) => Index(Overwrite(x.docs, [update]), x.next)
    case Remove(id) => Index(Dropped(x.docs, [id]), x.next)
  }

  /** The index after one item is looked up and carried out. */
  function AfterItem(e: Engine, cfg: Config, tree: Tree, x: Index, item: DiffItem): Index {
    var op := OpOn(e, cfg, tree, x.docs, item);
    if op.None? then x else Apply(x, op.value)
  }

  /** No buffers at all: each item is looked up and carried out before the next one. */
  function Immediate(e: Engine, cfg: Config, tree: Tree, x: Index, items: seq<DiffItem>): Index {
    if items == [] then x
    else AfterItem(e, cfg, tree, Immediate(e, cfg, tree, x, items[..|items| - 1]), items[|items| - 1])
  }

  // ---- Submitting in pieces ----

  ghost predicate OldIds(x: Index, updates: seq<Update>) {
    forall k :: 0 <= k < |updates| ==> updates[k].id < x.next
  }

  ghost predicate OldDeletes(x: Index, deletes: seq<DocId>) {
    forall k :: 0 <= k < |deletes| ==> deletes[k] < x.next
  }

  lemma {:induction false} LatestIsOld(x: Index, updates: seq<Update>, id: DocId)
    requires OldIds(x, updates) && x.next <= id
    ensures Latest(updates, id).None?
  {
    if updates != [] {
      LatestIsOld(x, updates[..|updates| - 1], id);
    }
  }

  lemma {:induction false} LatestConcat(first: seq<Update>, second: seq<Update>, id: DocId)
    ensures Latest(first + second, id) == if Latest(second, id).Some? then Latest(second, id) else Latest(first, id)
  {
    if second == [] {
      assert first + second == first;
    } else {
      var init := second[..|second| - 1];
      LatestConcat(first, init, id);
      assert (first + second)[..|first + second| - 1] == first + init;
    }
  }

  /** What a submission leaves under one id: new documents above, survivors below. */
  lemma SubmittedEntry(x: Index, creates: seq<Doc>, updates: seq<Update>, deletes: seq<DocId>, id: DocId)
    requires x.Valid() && OldIds(x, updates) && OldDeletes(x, deletes)
    ensures Get(Submit(x, creates, updates, deletes).docs, id) ==
            if x.next <= id then
              if id < x.next + |creates| then Some(creates[id - x.next]) else None
            else if id in deletes || id !in x.docs then None
            else if Latest(updates, id).Some? then Latest(updates, id)
            else Some(x.docs[id])
  {
    if x.next <= id {
      LatestIsOld(x, updates, id);
    }
  }

  lemma GrownEntry(docs: map<DocId, Doc>, next: DocId, more: seq<Doc>, id: DocId)
    ensures Get(docs + Fresh(next, more), id) ==
            if next <= id < next + |more| then Some(more[id - next]) else Get(docs, id)
  {
  }

  lemma MoreCreates(x: Index, creates: seq<Doc>, more: seq<Doc>, updates: seq<Update>, deletes: seq<DocId>)
    requires x.Valid() && OldIds(x, updates) && OldDeletes(x, deletes)
    ensures var y := Submit(x, creates, updates, deletes);
            Index(y.docs + Fresh(y.next, more), y.next + |more|) == Submit(x, creates + more, updates, deletes)
  {
    var y := Submit(x, creates, updates, deletes);
    var z := Submit(x, creates + more, updates, deletes);
    assert y.next == x.next + |creates| && z.next == y.next + |more|;
    hide Submit, Fresh, Latest;
    var grown := y.docs + Fresh(y.next, more);
    forall id: DocId
      ensures Get(grown, id) == Get(z.docs, id)
    {
      SubmittedEntry(x, creates, updates, deletes, id);
      SubmittedEntry(x, creates + more, updates, deletes, id);
      GrownEntry(y.docs, y.next, more, id);
    }
    SameEntries<DocId, Doc>(grown, z.docs);
  }

  lemma MoreUpdates(x: Index, creates: seq<Doc>, updates: seq<Update>, more: seq<Update>, deletes: seq<DocId>)
    requires x.Valid()
    ensures var y := Submit(x, creates, updates, deletes);
            Index(Overwrite(y.docs, more), y.next) == Submit(x, creates, updates + more, deletes)
  {
    var y := Submit(x, creates, updates, deletes);
    var z := Submit(x, creates, updates + more, deletes);
    forall id
      ensures Get(Overwrite(y.docs, more), id) == Get(z.docs, id)
    {
      LatestConcat(updates, more, id);
    }
    SameEntries(Overwrite(y.docs, more), z.docs);
  }

  lemma MoreDeletes(x: Index, creates: seq<Doc>, updates: seq<Update>, deletes: seq<DocId>, more: seq<DocId>)
    requires x.Valid()
    ensures var y := Submit(x, creates, updates, deletes);
            Index(Dropped(y.docs, more), y.next) == Submit(x, creates, updates, deletes + more)
  {
    var y := Submit(x, creates, updates, deletes);
    assert Dropped(y.docs, more) == Submit(x, creates, updates, deletes + more).docs;
  }

  lemma SubmitNothing(x: Index)
    ensures Submit(x, [], [], []) == x
  {
    assert x.docs + Fresh(x.next, []) == x.docs;
    assert Overwrite(x.docs, []) == x.docs;
    assert Dropped(x.docs, []) == x.docs;
  }

  // ---- A flush that succeeds ----

  lemma {:induction false} DeletedInOrder(e: Engine, w: World, ids: seq<DocId>)
    requires AllDeleted(e, w.calls, |ids|)
    ensures IndexOf(DeleteInOrder(e, w, ids)) == Index(Dropped(w.docs, ids), w.next)
    decreases |ids|
  {
    if ids == [] {
      assert Dropped(w.docs, []) == w.docs;
    } else {
      assert DeleteAnswered(e, w.calls);
      var w' := DeleteDocument(e, w, ids[0]);
      DeletedInOrder(e, w', ids[1..]);
      assert Dropped(w'.docs, ids[1..]) == Dropped(w.docs, ids);
    }
  }

  /** The index is the submitted part of the decided operations, applied to the index before. */
  ghost predicate Reached(x: Index, s: Progress) {
    IndexOf(s.w) == Submit(x, SubmittedCreates(s.batches), SubmittedUpdates(s.batches), SubmittedDeletes(s.batches))
  }

  ghost predicate OldSubmitted(x: Index, s: Progress) {
    && OldIds(x, SubmittedUpdates(s.batches) + s.updates)
    && OldDeletes(x, SubmittedDeletes(s.batches) + s.deletes)
  }

  lemma CreatesReached(e: Engine, x: Index, s: Progress, least: nat)
    requires x.Valid() && Reached(x, s) && OldSubmitted(x, s)
    requires FlushCreates(e, s, least).errors == []
    ensures Reached(x, FlushCreates(e, s, least)) && OldSubmitted(x, FlushCreates(e, s, least))
  {
    if least <= |s.creates| {
      SubmittedOneMore(s.batches, CreateBatch(s.creates));
      var updates, deletes := SubmittedUpdates(s.batches), SubmittedDeletes(s.batches);
      assert OldIds(x, updates) by {
        forall k | 0 <= k < |updates| ensures updates[k].id < x.next { assert (updates + s.updates)[k] == updates[k]; }
      }
      assert OldDeletes(x, deletes) by {
        forall k | 0 <= k < |deletes| ensures deletes[k] < x.next { assert (deletes + s.deletes)[k] == deletes[k]; }
      }
      MoreCreates(x, SubmittedCreates(s.batches), s.creates, updates, deletes);
      assert s.creates[..|s.creates|] == s.creates;
      assert updates + [] == updates && deletes + [] == deletes;
    }
  }

  lemma UpdatesReached(e: Engine, x: Index, s: Progress, least: nat)
    requires x.Valid() && Reached(x, s) && OldSubmitted(x, s)
    requires FlushUpdates(e, s, least).errors == []
    ensures Reached(x, FlushUpdates(e, s, least)) && OldSubmitted(x, FlushUpdates(e, s, least))
  {
    if least <= |s.updates| {
      SubmittedOneMore(s.batches, UpdateBatch(s.updates));
      var creates, updates, deletes :=
        SubmittedCreates(s.batches), SubmittedUpdates(s.batches), SubmittedDeletes(s.batches);
      MoreUpdates(x, creates, updates, s.updates, deletes);
      assert s.updates[..|s.updates|] == s.updates;
      assert creates + [] == creates && deletes + [] == deletes;
      assert updates + s.updates + [] == updates + s.updates;
    }
  }

  lemma DeletesReached(e: Engine, x: Index, s: Progress, least: nat)
    requires x.Valid() && Reached(x, s) && OldSubmitted(x, s)
    requires FlushDeletes(e, s, least).errors == []
    ensures Reached(x, FlushDeletes(e, s, least)) && OldSubmitted(x, FlushDeletes(e, s, least))
  {
    if least <= |s.deletes| {
      SubmittedOneMore(s.batches, DeleteBatch(s.deletes));
      var creates, updates, deletes :=
        SubmittedCreates(s.batches), SubmittedUpdates(s.batches), SubmittedDeletes(s.batches);
      DeletedInOrder(e, s.w, s.deletes);
      MoreDeletes(x, creates, updates, deletes, s.deletes);
      assert creates + [] == creates && updates + [] == updates;
      assert deletes + s.deletes + [] == deletes + s.deletes;
    }
  }

  lemma FlushKeepsErrors(e: Engine, s: Progress, least: nat)
    requires Flush(e, s, least).errors == []
    ensures s.errors == [] && FlushCreates(e, s, least).errors == []
    ensures FlushUpdates(e, FlushCreates(e, s, least), least).errors == []
  {
  }

  lemma FlushReached(e: Engine, x: Index, s: Progress, least: nat)
    requires x.Valid() && Reached(x, s) && OldSubmitted(x, s)
    requires Flush(e, s, least).errors == []
    ensures Reached(x, Flush(e, s, least)) && OldSubmitted(x, Flush(e, s, least))
  {
    FlushKeepsErrors(e, s, least);
    CreatesReached(e, x, s, least);
    UpdatesReached(e, x, FlushCreates(e, s, least), least);
    DeletesReached(e, x, FlushUpdates(e, FlushCreates(e, s, least), least), least);
  }

  // ---- Lookups are not disturbed ----

  ghost predicate AvoidCreates(creates: seq<Doc>, q: string) {
    forall k :: 0 <= k < |creates| ==> creates[k].path != q
  }

  ghost predicate AvoidUpdates(docs: map<DocId, Doc>, updates: seq<Update>, q: string) {
    forall k :: 0 <= k < |updates| ==>
      updates[k].doc.path != q && updates[k].id in docs && docs[updates[k].id].path != q
  }

  ghost predicate AvoidDeletes(docs: map<DocId, Doc>, deletes: seq<DocId>, q: string) {
    forall k :: 0 <= k < |deletes| ==> deletes[k] in docs && docs[deletes[k]].path != q
  }

  lemma {:induction false} LatestAvoids(docs: map<DocId, Doc>, updates: seq<Update>, q: string, id: DocId)
    requires AvoidUpdates(docs, updates, q) && Latest(updates, id).Some?
    ensures Latest(updates, id).value.path != q && id in docs && docs[id].path != q
  {
    var n := |updates| - 1;
    if updates[n].id != id {
      LatestAvoids(docs, updates[..n], q, id);
    }
  }

  /** Submissions that stay away from a path leave the documents under it as they are. */
  lemma UndisturbedPath(x: Index, creates: seq<Doc>, updates: seq<Update>, deletes: seq<DocId>, q: string)
    requires x.Valid() && OldIds(x, updates) && OldDeletes(x, deletes)
    requires AvoidCreates(creates, q) && AvoidUpdates(x.docs, updates, q) && AvoidDeletes(x.docs, deletes, q)
    ensures Matching(Submit(x, creates, updates, deletes).docs, q) == Matching(x.docs, q)
  {
    var docs := Submit(x, creates, updates, deletes).docs;
    forall id: DocId
      ensures id in Matching(docs, q) <==> id in Matching(x.docs, q)
    {
      SubmittedEntry(x, creates, updates, deletes, id);
      if Latest(updates, id).Some? {
        LatestAvoids(x.docs, updates, q, id);
      }
    }
  }

  lemma LookupIsOwn(cfg: Config, tree: Tree, item: DiffItem)
    requires LookupPath(cfg, tree, item).Some?
    ensures LookupPath(cfg, tree, item).value in Paths(item)
  {
  }

  ghost predicate OpAvoids(docs: map<DocId, Doc>, op: Op, q: string) {
    match op
    case Create(doc) => doc.path != q
    case Replace(update) => update.doc.path != q && update.id in docs && docs[update.id].path != q
    case Remove(id) => id in docs && docs[id].path != q
  }

  /** An item's operation touches documents under that item's paths only. */
  lemma OpStaysHome(e: Engine, cfg: Config, tree: Tree, docs: map<DocId, Doc>, item: DiffItem, q: string)
    requires e.Valid() && q !in Paths(item) && OpOn(e, cfg, tree, docs, item).Some?
    ensures OpAvoids(docs, OpOn(e, cfg, tree, docs, item).value, q)
  {
  }

  lemma PlanOneMore(e: Engine, cfg: Config, tree: Tree, docs: map<DocId, Doc>, items: seq<DiffItem>)
    requires items != []
    ensures var before, after := Plan(e, cfg, tree, docs, items[..|items| - 1]), Plan(e, cfg, tree, docs, items);
            var op := OpOn(e, cfg, tree, docs, items[|items| - 1]);
            && CreatesOf(after) == CreatesOf(before) + (if op.Some? && op.value.Create? then [op.value.doc] else [])
            && UpdatesOf(after) == UpdatesOf(before) + (if op.Some? && op.value.Replace? then [op.value.update] else [])
            && DeletesOf(after) == DeletesOf(before) + (if op.Some? && op.value.Remove? then [op.value.id] else [])
  {
    var op := OpOn(e, cfg, tree, docs, items[|items| - 1]);
    if op.Some? {
      OfOneMore(Plan(e, cfg, tree, docs, items[..|items| - 1]), op.value);
    }
  }

  ghost predicate ListsAvoid(docs: map<DocId, Doc>, ops: seq<Op>, q: string) {
    AvoidCreates(CreatesOf(ops), q) && AvoidUpdates(docs, UpdatesOf(ops), q) && AvoidDeletes(docs, DeletesOf(ops), q)
  }

  lemma AvoidsOneMore(docs: map<DocId, Doc>, ops: seq<Op>, op: Op, q: string)
    requires ListsAvoid(docs, ops, q) && OpAvoids(docs, op, q)
    ensures ListsAvoid(docs, ops + [op], q)
  {
    OfOneMore(ops, op);
    hide CreatesOf, UpdatesOf, DeletesOf;
  }

  lemma {:induction false} PlanAvoids(e: Engine, cfg: Config, tree: Tree, docs: map<DocId, Doc>, items: seq<DiffItem>,
                                      q: string)
    requires e.Valid() && forall k :: 0 <= k < |items| ==> q !in Paths(items[k])
    ensures ListsAvoid(docs, Plan(e, cfg, tree, docs, items), q)
  {
    if items != [] {
      hide OpOn, Paths, ListsAvoid, OpAvoids;
      var n := |items| - 1;
      PlanAvoids(e, cfg, tree, docs, items[..n], q);
      var op := OpOn(e, cfg, tree, docs, items[n]);
      if op.Some? {
        OpStaysHome(e, cfg, tree, docs, items[n], q);
        AvoidsOneMore(docs, Plan(e, cfg, tree, docs, items[..n]), op.value, q);
      }
    }
  }

  ghost predicate IsOld(x: Index, op: Op) {
    match op
    case Create(_) => true
    case Replace(update) => update.id < x.next
    case Remove(id) => id < x.next
  }

  lemma OpIsOld(e: Engine, cfg: Config, tree: Tree, x: Index, item: DiffItem)
    requires e.Valid() && x.Valid() && OpOn(e, cfg, tree, x.docs, item).Some?
    ensures IsOld(x, OpOn(e, cfg, tree, x.docs, item).value)
  {
  }

  ghost predicate ListsOld(x: Index, ops: seq<Op>) {
    OldIds(x, UpdatesOf(ops)) && OldDeletes(x, DeletesOf(ops))
  }

  lemma OldOneMore(x: Index, ops: seq<Op>, op: Op)
    requires ListsOld(x, ops) && IsOld(x, op)
    ensures ListsOld(x, ops + [op])
  {
    OfOneMore(ops, op);
    hide CreatesOf, UpdatesOf, DeletesOf;
  }

  lemma {:induction false} PlanIsOld(e: Engine, cfg: Config, tree: Tree, x: Index, items: seq<DiffItem>)
    requires e.Valid() && x.Valid()
    ensures ListsOld(x, Plan(e, cfg, tree, x.docs, items))
  {
    if items != [] {
      hide OpOn, ListsOld, IsOld;
      var n := |items| - 1;
      PlanIsOld(e, cfg, tree, x, items[..n]);
      var op := OpOn(e, cfg, tree, x.docs, items[n]);
      if op.Some? {
        OpIsOld(e, cfg, tree, x, items[n]);
        OldOneMore(x, Plan(e, cfg, tree, x.docs, items[..n]), op.value);
      }
    }
  }

  /** Whatever part of the plan for earlier items has been submitted, the next lookup answers as at the start. */
  lemma LookupUndisturbed(e: Engine, cfg: Config, tree: Tree, x: Index, items: seq<DiffItem>, item: DiffItem,
                          creates: seq<Doc>, updates: seq<Update>, deletes: seq<DocId>)
    requires e.Valid() && x.Valid() && SeparateFrom(items, Paths(item))
    requires var plan := Plan(e, cfg, tree, x.docs, items);
             creates <= CreatesOf(plan) && updates <= UpdatesOf(plan) && deletes <= DeletesOf(plan)
    ensures OpOn(e, cfg, tree, Submit(x, creates, updates, deletes).docs, item) == OpOn(e, cfg, tree, x.docs, item)
  {
    var path := LookupPath(cfg, tree, item);
    if path.Some? {
      LookupIsOwn(cfg, tree, item);
      var plan := Plan(e, cfg, tree, x.docs, items);
      forall k | 0 <= k < |items| ensures path.value !in Paths(items[k]) {
        assert Paths(items[k]) !! Paths(item);
      }
      PlanAvoids(e, cfg, tree, x.docs, items, path.value);
      PlanIsOld(e, cfg, tree, x, items);
      UndisturbedPath(x, creates, updates, deletes, path.value);
    }
  }

  lemma SeparateInit(items: seq<DiffItem>)
    requires items != [] && Separate(items)
    ensures Separate(items[..|items| - 1]) && SeparateFrom(items[..|items| - 1], Paths(items[|items| - 1]))
  {
  }

  // ---- The three readings of a diff agree ----

  function SubmitAll(x: Index, ops: seq<Op>): Index {
    Submit(x, CreatesOf(ops), UpdatesOf(ops), DeletesOf(ops))
  }

  lemma ApplyAfterSubmit(x: Index, ops: seq<Op>, op: Op)
    requires x.Valid() && OldIds(x, UpdatesOf(ops)) && OldDeletes(x, DeletesOf(ops))
    ensures Apply(SubmitAll(x, ops), op) == SubmitAll(x, ops + [op])
  {
    var creates, updates, deletes := CreatesOf(ops), UpdatesOf(ops), DeletesOf(ops);
    OfOneMore(ops, op);
    assert creates + [] == creates && updates + [] == updates && deletes + [] == deletes;
    match op {
      case Create(doc) =>
        MoreCreates(x, creates, [doc], updates, deletes);
        assert SubmitAll(x, ops + [op]) == Submit(x, creates + [doc], updates, deletes);
      case Replace(update) =>
        MoreUpdates(x, creates, updates, [update], deletes);
        assert SubmitAll(x, ops + [op]) == Submit(x, creates, updates + [update], deletes);
      case Remove(id) =>
        MoreDeletes(x, creates, updates, deletes, [id]);
        assert SubmitAll(x, ops + [op]) == Submit(x, creates, updates, deletes + [id]);
    }
  }

  lemma {:induction false} ImmediateIsPlanned(e: Engine, cfg: Config, tree: Tree, x: Index, items: seq<DiffItem>)
    requires e.Valid() && x.Valid() && Separate(items)
    ensures Immediate(e, cfg, tree, x, items) == SubmitAll(x, Plan(e, cfg, tree, x.docs, items))
  {
    if items == [] {
      SubmitNothing(x);
    } else {
      var init, item := items[..|items| - 1], items[|items| - 1];
      SeparateInit(items);
      ImmediateIsPlanned(e, cfg, tree, x, init);
      PlanIsOld(e, cfg, tree, x, init);
      var plan := Plan(e, cfg, tree, x.docs, init);
      LookupUndisturbed(e, cfg, tree, x, init, item, CreatesOf(plan), UpdatesOf(plan), DeletesOf(plan));
      var op := OpOn(e, cfg, tree, x.docs, item);
      if op.Some? {
        ApplyAfterSubmit(x, plan, op.value);
      }
    }
  }

  lemma AdvanceKeepsErrors(e: Engine, cfg: Config, tree: Tree, s: Progress, item: DiffItem)
    requires Advance(e, cfg, tree, s, item).errors == []
    ensures s.errors == []
    ensures AfterLookup(e, s, LookupPath(cfg, tree, item)).errors == []
  {
    var path := LookupPath(cfg, tree, item);
    FlushKeepsErrors(e, Push(AfterLookup(e, s, path), Decide(cfg, tree, item, LookedUp(e, s.w, path))), BATCH);
  }

  ghost predicate OnPlan(e: Engine, cfg: Config, tree: Tree, x: Index, items: seq<DiffItem>, s: Progress) {
    s.ops == Plan(e, cfg, tree, x.docs, items) && Accounted(s) && Reached(x, s) && OldSubmitted(x, s)
  }

  lemma PushOnPlan(e: Engine, cfg: Config, tree: Tree, x: Index, items: seq<DiffItem>, s: Progress)
    requires e.Valid() && x.Valid() && items != []
    requires OnPlan(e, cfg, tree, x, items[..|items| - 1], s)
    ensures OnPlan(e, cfg, tree, x, items, Push(s, OpOn(e, cfg, tree, x.docs, items[|items| - 1])))
  {
    var op := OpOn(e, cfg, tree, x.docs, items[|items| - 1]);
    PushAccounted(s, op);
    PlanIsOld(e, cfg, tree, x, items);
  }

  /** A lookup without error answers as on the index before the run. */
  lemma RoundDecides(e: Engine, cfg: Config, tree: Tree, x: Index, items: seq<DiffItem>, item: DiffItem, s: Progress)
    requires e.Valid() && x.Valid() && SeparateFrom(items, Paths(item)) && OnPlan(e, cfg, tree, x, items, s)
    requires AfterLookup(e, s, LookupPath(cfg, tree, item)).errors == []
    ensures Decide(cfg, tree, item, LookedUp(e, s.w, LookupPath(cfg, tree, item))) == OpOn(e, cfg, tree, x.docs, item)
  {
    LookupUndisturbed(e, cfg, tree, x, items, item,
                      SubmittedCreates(s.batches), SubmittedUpdates(s.batches), SubmittedDeletes(s.batches));
  }

  lemma RoundOnPlan(e: Engine, cfg: Config, tree: Tree, x: Index, items: seq<DiffItem>, s: Progress)
    requires e.Valid() && x.Valid() && items != [] && Separate(items)
    requires OnPlan(e, cfg, tree, x, items[..|items| - 1], s)
    requires Advance(e, cfg, tree, s, items[|items| - 1]).errors == []
    ensures OnPlan(e, cfg, tree, x, items, Advance(e, cfg, tree, s, items[|items| - 1]))
  {
    var init, item := items[..|items| - 1], items[|items| - 1];
    SeparateInit(items);
    AdvanceKeepsErrors(e, cfg, tree, s, item);
    RoundDecides(e, cfg, tree, x, init, item, s);
    var s1 := AfterLookup(e, s, LookupPath(cfg, tree, item));
    var s2 := Push(s1, OpOn(e, cfg, tree, x.docs, item));
    PushOnPlan(e, cfg, tree, x, items, s1);
    FlushReached(e, x, s2, BATCH);
    FlushAccounted(e, s2, BATCH);
    FlushKeepsOps(e, s2, BATCH);
  }

  lemma {:induction false} LoopOnPlan(e: Engine, cfg: Config, tree: Tree, w: World, items: seq<DiffItem>)
    requires e.Valid() && w.Valid() && Separate(items)
    requires Loop(e, cfg, tree, w, items).errors == []
    ensures OnPlan(e, cfg, tree, IndexOf(w), items, Loop(e, cfg, tree, w, items))
  {
    if items == [] {
      SubmitNothing(IndexOf(w));
    } else {
      var init, item := items[..|items| - 1], items[|items| - 1];
      SeparateInit(items);
      AdvanceKeepsErrors(e, cfg, tree, Loop(e, cfg, tree, w, init), item);
      LoopOnPlan(e, cfg, tree, w, init);
      RoundOnPlan(e, cfg, tree, IndexOf(w), items, Loop(e, cfg, tree, w, init));
    }
  }

  lemma FlushKeepsOps(e: Engine, s: Progress, least: nat)
    ensures Flush(e, s, least).ops == s.ops
  {
  }

  /** Flush timing is irrelevant: a diff run that records no error leaves the index that looking
      everything up first and submitting three whole lists once leaves, and the index that carrying
      out each item at once leaves. */
  lemma FlushTimingIsIrrelevant(e: Engine, cfg: Config, tree: Tree, w: World, items: seq<DiffItem>)
    requires e.Valid() && w.Valid() && Separate(items)
    requires DiffRun(e, cfg, tree, w, items).errors == []
    ensures var after := IndexOf(DiffRun(e, cfg, tree, w, items).w);
            && after == SubmitAll(IndexOf(w), Plan(e, cfg, tree, w.docs, items))
            && after == Immediate(e, cfg, tree, IndexOf(w), items)
  {
    var s := Loop(e, cfg, tree, w, items);
    FlushKeepsErrors(e, s, 1);
    LoopOnPlan(e, cfg, tree, w, items);
    FlushReached(e, IndexOf(w), s, 1);
    DiffBatches(e, cfg, tree, w, items);
    FlushKeepsOps(e, s, 1);
    ImmediateIsPlanned(e, cfg, tree, IndexOf(w), items);
  }
}
