/**
  An incremental run with any of its calls failing, on any index: which texts arrive, which do not, and
  exactly when the run covers its commit.  Failed lookups and failed deletions do no harm; what counts
  are the documents that were submitted and not stored.
 */
module FailedRuns {
  import opened Options
  import opened RagStore
  import opened GitFiles
  import opened GitDiff
  import opened FlushTiming
  import opened GitAgreement
  import opened Coverage

  // ---- Lost documents ----

  function DocsOf(updates: seq<Update>): (docs: seq<Doc>)
    ensures |docs| == |updates| && forall k :: 0 <= k < |docs| ==> docs[k] == updates[k].doc
  {
    seq(|updates|, k requires 0 <= k < |updates| => updates[k].doc)
  }

  function LostCreates(e: Engine, s: Progress, least: nat): seq<Doc> {
    if |s.creates| < least then [] else s.creates[Stored(e.reply(s.w.calls), |s.creates|)..]
  }

  function LostUpdates(e: Engine, s: Progress, least: nat): seq<Doc> {
    if |s.updates| < least then [] else DocsOf(s.updates[Stored(e.reply(s.w.calls), |s.updates|)..])
  }

  function LostInFlush(e: Engine, s: Progress, least: nat): seq<Doc> {
    LostCreates(e, s, least) + LostUpdates(e, FlushCreates(e, s, least), least)
  }

  /** One round up to its flushes. */
  function Pushed(e: Engine, cfg: Config, tree: Tree, s: Progress, item: DiffItem): Progress {
    var path := LookupPath(cfg, tree, item);
    Push(AfterLookup(e, s, path), Decide(cfg, tree, item, LookedUp(e, s.w, path)))
  }

  function LostInLoop(e: Engine, cfg: Config, tree: Tree, w: World, items: seq<DiffItem>): seq<Doc> {
    if items == [] then []
    else
      var init := items[..|items| - 1];
      LostInLoop(e, cfg, tree, w, init) +
      LostInFlush(e, Pushed(e, cfg, tree, Loop(e, cfg, tree, w, init), items[|items| - 1]), BATCH)
  }

  /** The documents that the run submitted and that were not stored. */
  function LostInRun(e: Engine, cfg: Config, tree: Tree, w: World, items: seq<DiffItem>): seq<Doc> {
    LostInLoop(e, cfg, tree, w, items) + LostInFlush(e, Loop(e, cfg, tree, w, items), 1)
  }

  // ---- What becomes of one item's document ----

  /** Not built yet, waiting in a buffer, stored, or lost. */
  datatype Fate = Open | InCreates(j: nat) | InUpdates(j: nat) | Arrived(id: DocId) | Missed

  predicate Under(docs: map<DocId, Doc>, paths: set<string>, id: DocId) {
    id in docs && docs[id].path in paths
  }

  ghost predicate SameUnder(docs: map<DocId, Doc>, docs': map<DocId, Doc>, paths: set<string>) {
    && (forall id :: Under(docs, paths, id) <==> Under(docs', paths, id))
    && (forall id :: Under(docs, paths, id) ==> docs[id] == docs'[id])
  }

  predicate Touches(docs: map<DocId, Doc>, paths: set<string>, update: Update) {
    update.doc.path in paths || Under(docs, paths, update.id)
  }

  /** The buffers touch these paths through the one document only. */
  ghost predicate Apart(s: Progress, paths: set<string>, fate: Fate) {
    && (forall j :: 0 <= j < |s.creates| && s.creates[j].path in paths ==> fate == InCreates(j))
    && (forall j :: 0 <= j < |s.updates| && Touches(s.w.docs, paths, s.updates[j]) ==> fate == InUpdates(j))
    && (forall j :: 0 <= j < |s.updates| ==> s.updates[j].id < s.w.next)
    && (forall j :: 0 <= j < |s.deletes| ==> s.deletes[j] < s.w.next && !Under(s.w.docs, paths, s.deletes[j]))
  }

  /** Where the document is, and that the rest of what is stored under the paths is as it was. */
  ghost predicate Tracked(docs0: map<DocId, Doc>, s: Progress, paths: set<string>, doc: Doc, fate: Fate) {
    && s.w.Valid() && Apart(s, paths, fate) && doc.path in paths
    && (fate.Arrived? || SameUnder(s.w.docs, docs0, paths))
    && match fate
       case Open => true
       case Missed => true
       case InCreates(j) => j < |s.creates| && s.creates[j] == doc
       case InUpdates(j) => j < |s.updates| && s.updates[j].doc == doc && Under(s.w.docs, paths, s.updates[j].id)
       case Arrived(id) => id in s.w.docs && s.w.docs[id] == doc
  }

  /** The document is among the lost ones exactly if it is missed, and no other of these paths is. */
  ghost predicate LostIff(lost: seq<Doc>, paths: set<string>, doc: Doc, fate: Fate) {
    && (forall k :: 0 <= k < |lost| && lost[k].path in paths ==> lost[k] == doc && fate.Missed?)
    && (fate.Missed? ==> doc in lost)
  }

  lemma LostMore(lost: seq<Doc>, more: seq<Doc>, paths: set<string>, doc: Doc, fate: Fate, fate': Fate)
    requires LostIff(lost, paths, doc, fate) && (fate.Missed? ==> fate'.Missed?)
    requires forall k :: 0 <= k < |more| && more[k].path in paths ==> more[k] == doc && fate'.Missed?
    requires fate'.Missed? ==> fate.Missed? || doc in more
    ensures LostIff(lost + more, paths, doc, fate')
  {
  }

  function AfterCreates(s: Progress, fate: Fate, n: nat): Fate {
    if !fate.InCreates? then fate else if fate.j < n then Arrived(s.w.next + fate.j) else Missed
  }

  lemma CreatesLost(docs0: map<DocId, Doc>, s: Progress, paths: set<string>, doc: Doc, fate: Fate, lost: seq<Doc>,
                    n: nat)
    requires Tracked(docs0, s, paths, doc, fate) && LostIff(lost, paths, doc, fate) && n <= |s.creates|
    ensures LostIff(lost + s.creates[n..], paths, doc, AfterCreates(s, fate, n))
  {
    var more := s.creates[n..];
    forall k | 0 <= k < |more| && more[k].path in paths
      ensures more[k] == doc && AfterCreates(s, fate, n).Missed?
    {
      assert more[k] == s.creates[n + k];
      assert fate == InCreates(n + k);
    }
    if fate.InCreates? && n <= fate.j {
      assert more[fate.j - n] == doc;
    }
    hide Tracked, LostIff;
    LostMore(lost, more, paths, doc, fate, AfterCreates(s, fate, n));
  }

  lemma CreatesTracked(e: Engine, docs0: map<DocId, Doc>, s: Progress, paths: set<string>, doc: Doc, fate: Fate,
                       lost: seq<Doc>, least: nat) returns (fate': Fate)
    requires Tracked(docs0, s, paths, doc, fate) && LostIff(lost, paths, doc, fate)
    ensures Tracked(docs0, FlushCreates(e, s, least), paths, doc, fate')
    ensures LostIff(lost + LostCreates(e, s, least), paths, doc, fate')
    ensures fate' == fate || (fate.InCreates? && (fate'.Arrived? || fate'.Missed?))
    ensures least == 1 ==> !fate'.InCreates?
  {
    if least <= |s.creates| {
      hide Tracked, LostIff, Fresh;
      var n := Stored(e.reply(s.w.calls), |s.creates|);
      fate' := AfterCreates(s, fate, n);
      CreatesStored(docs0, s, paths, doc, fate, n, FlushCreates(e, s, least));
      CreatesLost(docs0, s, paths, doc, fate, lost, n);
    } else {
      fate' := fate;
      assert lost + [] == lost;
    }
  }

  /** Storing the first n creates. */
  /** The entry of an id after the first n creates are stored. */
  function EntryAfter(s: Progress, n: nat, id: DocId): Option<Doc>
    requires n <= |s.creates|
  {
    if s.w.next <= id < s.w.next + n then Some(s.creates[id - s.w.next]) else Get(s.w.docs, id)
  }

  ghost predicate GrownBy(s: Progress, n: nat, docs: map<DocId, Doc>)
    requires n <= |s.creates|
  {
    forall id: DocId :: Get(docs, id) == EntryAfter(s, n, id)
  }

  lemma CreatesStored(docs0: map<DocId, Doc>, s: Progress, paths: set<string>, doc: Doc, fate: Fate, n: nat,
                      s': Progress)
    requires Tracked(docs0, s, paths, doc, fate) && n <= |s.creates|
    requires s'.creates == [] && s'.updates == s.updates && s'.deletes == s.deletes && s'.w.next == s.w.next + n
    requires s'.w.docs == s.w.docs + Fresh(s.w.next, s.creates[..n])
    ensures Tracked(docs0, s', paths, doc, AfterCreates(s, fate, n))
  {
    hide Fresh, Apart;
    assert GrownBy(s, n, s'.w.docs) by {
      forall id: DocId ensures Get(s'.w.docs, id) == EntryAfter(s, n, id) {
        GrownEntry(s.w.docs, s.w.next, s.creates[..n], id);
      }
    }
    StoredApart(s, paths, fate, n, s');
    if fate.InCreates? && fate.j < n {
      assert Get(s'.w.docs, s.w.next + fate.j) == EntryAfter(s, n, s.w.next + fate.j);
    }
    if fate.Arrived? {
      assert fate.id < s.w.next;
      assert Get(s'.w.docs, fate.id) == EntryAfter(s, n, fate.id);
    }
    if !(fate.InCreates? && fate.j < n) && !fate.Arrived? {
      StoredSameUnder(s, paths, fate, n, s'.w.docs);
    }
  }

  lemma StoredSameUnder(s: Progress, paths: set<string>, fate: Fate, n: nat, docs: map<DocId, Doc>)
    requires Apart(s, paths, fate) && s.w.Valid() && n <= |s.creates| && GrownBy(s, n, docs)
    requires !(fate.InCreates? && fate.j < n)
    ensures SameUnder(docs, s.w.docs, paths)
  {
    forall id: DocId
      ensures Under(docs, paths, id) <==> Under(s.w.docs, paths, id)
      ensures Under(docs, paths, id) ==> docs[id] == s.w.docs[id]
    {
      assert Get(docs, id) == EntryAfter(s, n, id);
    }
  }

  /** The rest of the buffers keeps apart when the new documents come under ids of their own. */
  lemma StoredApart(s: Progress, paths: set<string>, fate: Fate, n: nat, s': Progress)
    requires Apart(s, paths, fate) && s.w.Valid() && n <= |s.creates|
    requires s'.creates == [] && s'.updates == s.updates && s'.deletes == s.deletes && s'.w.next == s.w.next + n
    requires GrownBy(s, n, s'.w.docs)
    ensures s'.w.Valid() && Apart(s', paths, AfterCreates(s, fate, n))
  {
    forall id: DocId | id < s.w.next
      ensures Under(s'.w.docs, paths, id) <==> Under(s.w.docs, paths, id)
    {
      assert Get(s'.w.docs, id) == EntryAfter(s, n, id);
    }
    forall id: DocId | id in s'.w.docs ensures id < s'.w.next {
      assert Get(s'.w.docs, id) == EntryAfter(s, n, id);
    }
  }

  lemma {:induction false} LatestNamed(updates: seq<Update>, id: DocId) returns (k: nat)
    ensures Latest(updates, id).Some? ==>
              k < |updates| && updates[k].id == id && Latest(updates, id) == Some(updates[k].doc)
    ensures Latest(updates, id).None? ==> forall j :: 0 <= j < |updates| ==> updates[j].id != id
  {
    k := 0;
    if updates != [] {
      var n := |updates| - 1;
      if updates[n].id == id {
        k := n;
      } else {
        k := LatestNamed(updates[..n], id);
      }
    }
  }

  /** What replacing by the first n updates leaves under one id. */
  lemma OverwrittenEntry(s: Progress, paths: set<string>, fate: Fate, n: nat, id: DocId)
    requires Apart(s, paths, fate) && n <= |s.updates| && id in s.w.docs
    ensures var docs := Overwrite(s.w.docs, s.updates[..n]);
            && id in docs
            && (fate.InUpdates? && fate.j < n && id == s.updates[fate.j].id && Under(s.w.docs, paths, id) ==>
                  docs[id] == s.updates[fate.j].doc)
            && (!(fate.InUpdates? && fate.j < n && id == s.updates[fate.j].id) ==>
                  && (Under(docs, paths, id) <==> Under(s.w.docs, paths, id))
                  && (Under(docs, paths, id) ==> docs[id] == s.w.docs[id]))
  {
    var k := LatestNamed(s.updates[..n], id);
    if Latest(s.updates[..n], id).Some? {
      assert s.updates[k].id == id && k < n;
      if Under(s.w.docs, paths, id) || s.updates[k].doc.path in paths {
        assert fate == InUpdates(k);
      }
    } else if fate.InUpdates? && fate.j < n {
      assert s.updates[..n][fate.j].id != id;
    }
  }

  function AfterUpdates(s: Progress, fate: Fate, n: nat): Fate
    requires fate.InUpdates? ==> fate.j < |s.updates|
  {
    if !fate.InUpdates? then fate else if fate.j < n then Arrived(s.updates[fate.j].id) else Missed
  }

  lemma UpdatesLost(docs0: map<DocId, Doc>, s: Progress, paths: set<string>, doc: Doc, fate: Fate, lost: seq<Doc>,
                    n: nat)
    requires Tracked(docs0, s, paths, doc, fate) && LostIff(lost, paths, doc, fate) && n <= |s.updates|
    ensures fate.InUpdates? ==> fate.j < |s.updates|
    ensures LostIff(lost + DocsOf(s.updates[n..]), paths, doc, AfterUpdates(s, fate, n))
  {
    var more := DocsOf(s.updates[n..]);
    forall k | 0 <= k < |more| && more[k].path in paths
      ensures more[k] == doc && AfterUpdates(s, fate, n).Missed?
    {
      assert more[k] == s.updates[n + k].doc;
      assert Touches(s.w.docs, paths, s.updates[n + k]);
      assert fate == InUpdates(n + k);
    }
    if fate.InUpdates? && n <= fate.j {
      assert more[fate.j - n] == doc;
    }
    hide Tracked, LostIff;
    LostMore(lost, more, paths, doc, fate, AfterUpdates(s, fate, n));
  }

  lemma UpdatesTracked(e: Engine, docs0: map<DocId, Doc>, s: Progress, paths: set<string>, doc: Doc, fate: Fate,
                       lost: seq<Doc>, least: nat) returns (fate': Fate)
    requires Tracked(docs0, s, paths, doc, fate) && LostIff(lost, paths, doc, fate)
    ensures Tracked(docs0, FlushUpdates(e, s, least), paths, doc, fate')
    ensures LostIff(lost + LostUpdates(e, s, least), paths, doc, fate')
    ensures fate' == fate || (fate.InUpdates? && (fate'.Arrived? || fate'.Missed?))
    ensures least == 1 ==> !fate'.InUpdates?
  {
    if least <= |s.updates| {
      hide Tracked, LostIff, Overwrite;
      var n := Stored(e.reply(s.w.calls), |s.updates|);
      UpdatesLost(docs0, s, paths, doc, fate, lost, n);
      fate' := AfterUpdates(s, fate, n);
      UpdatesStored(docs0, s, paths, doc, fate, n, FlushUpdates(e, s, least));
    } else {
      fate' := fate;
      assert lost + [] == lost;
    }
  }

  /** Storing the first n updates. */
  lemma UpdatesStored(docs0: map<DocId, Doc>, s: Progress, paths: set<string>, doc: Doc, fate: Fate, n: nat,
                      s': Progress)
    requires Tracked(docs0, s, paths, doc, fate) && n <= |s.updates|
    requires s'.creates == s.creates && s'.updates == [] && s'.deletes == s.deletes && s'.w.next == s.w.next
    requires s'.w.docs == Overwrite(s.w.docs, s.updates[..n])
    ensures fate.InUpdates? ==> fate.j < |s.updates|
    ensures Tracked(docs0, s', paths, doc, AfterUpdates(s, fate, n))
  {
    forall id | id in s.w.docs
      ensures id in s'.w.docs
      ensures !(fate.InUpdates? && fate.j < n && id == s.updates[fate.j].id) ==>
                && (Under(s'.w.docs, paths, id) <==> Under(s.w.docs, paths, id))
                && (Under(s'.w.docs, paths, id) ==> s'.w.docs[id] == s.w.docs[id])
    {
      OverwrittenEntry(s, paths, fate, n, id);
    }
    if fate.InUpdates? && fate.j < n {
      OverwrittenEntry(s, paths, fate, n, s.updates[fate.j].id);
    }
  }

  /** Deletions, wherever they stop, take away no document but those named. */
  lemma {:induction false} DeletesSpare(e: Engine, w: World, ids: seq<DocId>)
    ensures var w' := DeleteInOrder(e, w, ids);
            && w'.next == w.next
            && (forall id :: id in w'.docs ==> id in w.docs && w'.docs[id] == w.docs[id])
            && (forall id :: id in w.docs && id !in ids ==> id in w'.docs)
    decreases |ids|
  {
    if ids != [] && DeleteAnswered(e, w.calls) {
      var w1 := DeleteDocument(e, w, ids[0]);
      DeletesSpare(e, w1, ids[1..]);
      assert forall id :: id in ids[1..] ==> id in ids;
    }
  }

  lemma DeletesTracked(e: Engine, docs0: map<DocId, Doc>, s: Progress, paths: set<string>, doc: Doc, fate: Fate,
                       least: nat)
    requires Tracked(docs0, s, paths, doc, fate)
    ensures Tracked(docs0, FlushDeletes(e, s, least), paths, doc, fate)
  {
    hide DeleteInOrder;
    DeletesSpare(e, s.w, s.deletes);
    var docs := DeleteInOrder(e, s.w, s.deletes).docs;
    forall id | Under(s.w.docs, paths, id) ensures id in docs && docs[id] == s.w.docs[id] {
      assert id !in s.deletes;
    }
  }

  lemma FlushTracked(e: Engine, docs0: map<DocId, Doc>, s: Progress, paths: set<string>, doc: Doc, fate: Fate,
                     lost: seq<Doc>, least: nat) returns (fate': Fate)
    requires Tracked(docs0, s, paths, doc, fate) && LostIff(lost, paths, doc, fate)
    ensures Tracked(docs0, Flush(e, s, least), paths, doc, fate')
    ensures LostIff(lost + LostInFlush(e, s, least), paths, doc, fate')
    ensures fate.Open? <==> fate'.Open?
    ensures least == 1 ==> !fate'.InCreates? && !fate'.InUpdates?
  {
    hide Tracked, LostIff, FlushCreates, FlushUpdates, FlushDeletes, LostCreates, LostUpdates;
    var s1 := FlushCreates(e, s, least);
    var s2 := FlushUpdates(e, s1, least);
    var fate1 := CreatesTracked(e, docs0, s, paths, doc, fate, lost, least);
    var lost1 := lost + LostCreates(e, s, least);
    fate' := UpdatesTracked(e, docs0, s1, paths, doc, fate1, lost1, least);
    DeletesTracked(e, docs0, s2, paths, doc, fate', least);
    assert lost1 + LostUpdates(e, s1, least) == lost + LostInFlush(e, s, least);
  }

  // ---- Rounds ----

  /** An operation that leaves these paths alone. */
  ghost predicate Elsewhere(w: World, paths: set<string>, op: Option<Op>) {
    op.Some? ==>
      match op.value
      case Create(doc) => doc.path !in paths
      case Replace(update) => update.id < w.next && !Touches(w.docs, paths, update)
      case Remove(id) => id < w.next && !Under(w.docs, paths, id)
  }

  lemma OtherIsElsewhere(e: Engine, cfg: Config, tree: Tree, w: World, item: DiffItem, paths: set<string>)
    requires e.Valid() && w.Valid() && (Paths(item) !! paths || item.change.Other?)
    ensures Elsewhere(w, paths, Decide(cfg, tree, item, LookedUp(e, w, LookupPath(cfg, tree, item))))
  {
    hide ShouldIndex, Content;
    var path := LookupPath(cfg, tree, item);
    if path.Some? && !item.change.Other? {
      assert path.value in Paths(item) && FilePath(item) in Paths(item);
    }
  }

  lemma PushElsewhere(docs0: map<DocId, Doc>, s: Progress, paths: set<string>, doc: Doc, fate: Fate, op: Option<Op>)
    requires Tracked(docs0, s, paths, doc, fate) && Elsewhere(s.w, paths, op)
    ensures Tracked(docs0, Push(s, op), paths, doc, fate)
  {
  }

  lemma LookupTracked(e: Engine, docs0: map<DocId, Doc>, s: Progress, paths: set<string>, doc: Doc, fate: Fate,
                      path: Option<string>)
    requires Tracked(docs0, s, paths, doc, fate)
    ensures Tracked(docs0, AfterLookup(e, s, path), paths, doc, fate)
    ensures AfterLookup(e, s, path).w.docs == s.w.docs && AfterLookup(e, s, path).w.next == s.w.next
  {
  }

  lemma OtherPushed(e: Engine, cfg: Config, tree: Tree, docs0: map<DocId, Doc>, s: Progress, item: DiffItem,
                    paths: set<string>, doc: Doc, fate: Fate)
    requires e.Valid() && Tracked(docs0, s, paths, doc, fate) && (Paths(item) !! paths || item.change.Other?)
    ensures Tracked(docs0, Pushed(e, cfg, tree, s, item), paths, doc, fate)
  {
    assert s.w.Valid();
    OtherIsElsewhere(e, cfg, tree, s.w, item, paths);
    hide Tracked, Decide, LookupPath, Push;
    var path := LookupPath(cfg, tree, item);
    LookupTracked(e, docs0, s, paths, doc, fate, path);
    PushElsewhere(docs0, AfterLookup(e, s, path), paths, doc, fate, Decide(cfg, tree, item, LookedUp(e, s.w, path)));
  }

  /** The item brings the text of its file. */
  predicate Brings(cfg: Config, tree: Tree, item: DiffItem) {
    && item.change in {Added, Modified, Renamed} && (item.change.Renamed? ==> item.a != "" && item.b != "")
    && ShouldIndex(cfg.filter, FilePath(item)) && Content(tree, FilePath(item)) != ""
  }

  lemma OwnDecides(e: Engine, cfg: Config, tree: Tree, w: World, item: DiffItem)
    requires e.Valid() && w.Valid() && Brings(cfg, tree, item)
    ensures FilePath(item) in Paths(item)
    ensures var op := Decide(cfg, tree, item, LookedUp(e, w, LookupPath(cfg, tree, item)));
            && op.Some? && !op.value.Remove?
            && var doc := if op.value.Create? then op.value.doc else op.value.update.doc;
            && doc.path == FilePath(item) && doc.text == Content(tree, FilePath(item))
            && (op.value.Replace? ==> op.value.update.id < w.next && Under(w.docs, Paths(item), op.value.update.id))
  {
    hide ShouldIndex, Content;
  }

  lemma CreatePushed(docs0: map<DocId, Doc>, s: Progress, paths: set<string>, any: Doc, doc: Doc)
    requires Tracked(docs0, s, paths, any, Open) && doc.path in paths
    ensures Tracked(docs0, Push(s, Some(Create(doc))), paths, doc, InCreates(|s.creates|))
  {
  }

  lemma ReplacePushed(docs0: map<DocId, Doc>, s: Progress, paths: set<string>, any: Doc, update: Update)
    requires Tracked(docs0, s, paths, any, Open) && update.doc.path in paths
    requires update.id < s.w.next && Under(s.w.docs, paths, update.id)
    ensures Tracked(docs0, Push(s, Some(Replace(update))), paths, update.doc, InUpdates(|s.updates|))
  {
  }

  /** The item's document enters a buffer. */
  lemma OwnPushed(e: Engine, cfg: Config, tree: Tree, docs0: map<DocId, Doc>, s: Progress, item: DiffItem, any: Doc)
    returns (doc: Doc, fate: Fate)
    requires e.Valid() && Brings(cfg, tree, item) && Tracked(docs0, s, Paths(item), any, Open)
    ensures doc.path == FilePath(item) && doc.text == Content(tree, FilePath(item))
    ensures Tracked(docs0, Pushed(e, cfg, tree, s, item), Paths(item), doc, fate)
    ensures fate.InCreates? || fate.InUpdates?
  {
    assert s.w.Valid();
    hide Decide, LookupPath, Brings, Paths, Tracked, Push;
    var path := LookupPath(cfg, tree, item);
    var s1 := AfterLookup(e, s, path);
    var op := Decide(cfg, tree, item, LookedUp(e, s.w, path));
    OwnDecides(e, cfg, tree, s.w, item);
    LookupTracked(e, docs0, s, Paths(item), any, Open, path);
    if op.value.Create? {
      doc, fate := op.value.doc, InCreates(|s1.creates|);
      CreatePushed(docs0, s1, Paths(item), any, doc);
    } else {
      doc, fate := op.value.update.doc, InUpdates(|s1.updates|);
      ReplacePushed(docs0, s1, Paths(item), any, op.value.update);
    }
  }

  lemma RoundIs(e: Engine, cfg: Config, tree: Tree, s: Progress, item: DiffItem)
    ensures Advance(e, cfg, tree, s, item) == Flush(e, Pushed(e, cfg, tree, s, item), BATCH)
  {
  }

  lemma OtherRound(e: Engine, cfg: Config, tree: Tree, docs0: map<DocId, Doc>, s: Progress, item: DiffItem,
                   paths: set<string>, doc: Doc, fate: Fate, lost: seq<Doc>) returns (fate': Fate)
    requires e.Valid() && Tracked(docs0, s, paths, doc, fate) && LostIff(lost, paths, doc, fate)
    requires Paths(item) !! paths || item.change.Other?
    ensures Tracked(docs0, Advance(e, cfg, tree, s, item), paths, doc, fate')
    ensures LostIff(lost + LostInFlush(e, Pushed(e, cfg, tree, s, item), BATCH), paths, doc, fate')
    ensures fate.Open? <==> fate'.Open?
  {
    hide Tracked, LostIff, Flush, LostInFlush, Pushed, Advance;
    OtherPushed(e, cfg, tree, docs0, s, item, paths, doc, fate);
    RoundIs(e, cfg, tree, s, item);
    fate' := FlushTracked(e, docs0, Pushed(e, cfg, tree, s, item), paths, doc, fate, lost, BATCH);
  }

  lemma OwnRound(e: Engine, cfg: Config, tree: Tree, docs0: map<DocId, Doc>, s: Progress, item: DiffItem, any: Doc,
                 lost: seq<Doc>) returns (doc: Doc, fate: Fate)
    requires e.Valid() && Brings(cfg, tree, item) && Tracked(docs0, s, Paths(item), any, Open)
    requires LostIff(lost, Paths(item), any, Open)
    ensures doc.path == FilePath(item) && doc.text == Content(tree, FilePath(item))
    ensures Tracked(docs0, Advance(e, cfg, tree, s, item), Paths(item), doc, fate)
    ensures LostIff(lost + LostInFlush(e, Pushed(e, cfg, tree, s, item), BATCH), Paths(item), doc, fate)
    ensures !fate.Open?
  {
    hide Tracked, Flush, LostInFlush, Pushed, Advance, Brings;
    RoundIs(e, cfg, tree, s, item);
    doc, fate := OwnPushed(e, cfg, tree, docs0, s, item, any);
    fate := FlushTracked(e, docs0, Pushed(e, cfg, tree, s, item), Paths(item), doc, fate, lost, BATCH);
  }

  // ---- Loops ----

  /** Up to here no item is about these paths, or only such as have no branch. */
  ghost predicate Aside(items: seq<DiffItem>, n: nat, paths: set<string>) {
    forall k :: 0 <= k < n && k < |items| ==> Paths(items[k]) !! paths || items[k].change.Other?
  }

  lemma StartTracked(w: World, paths: set<string>, doc: Doc)
    requires w.Valid() && doc.path in paths
    ensures Tracked(w.docs, Start(w), paths, doc, Open) && LostIff([], paths, doc, Open)
  {
  }

  lemma {:induction false} AsideLoop(e: Engine, cfg: Config, tree: Tree, w: World, items: seq<DiffItem>, n: nat,
                                     paths: set<string>, doc: Doc)
    requires e.Valid() && w.Valid() && n <= |items| && Aside(items, n, paths) && doc.path in paths
    ensures Tracked(w.docs, Loop(e, cfg, tree, w, items[..n]), paths, doc, Open)
    ensures LostIff(LostInLoop(e, cfg, tree, w, items[..n]), paths, doc, Open)
  {
    if n == 0 {
      StartTracked(w, paths, doc);
    } else {
      hide Tracked, LostIff, Advance, Pushed, LostInFlush, Paths;
      assert items[..n][..n - 1] == items[..n - 1];
      AsideLoop(e, cfg, tree, w, items, n - 1, paths, doc);
      var s, lost := Loop(e, cfg, tree, w, items[..n - 1]), LostInLoop(e, cfg, tree, w, items[..n - 1]);
      var fate := OtherRound(e, cfg, tree, w.docs, s, items[n - 1], paths, doc, Open, lost);
      assert fate == Open;
    }
  }

  lemma {:induction false} BroughtLoop(e: Engine, cfg: Config, tree: Tree, w: World, items: seq<DiffItem>, k: nat,
                                       n: nat) returns (doc: Doc, fate: Fate)
    requires e.Valid() && w.Valid() && Separate(items) && k < n <= |items| && Brings(cfg, tree, items[k])
    ensures doc.path == FilePath(items[k]) && doc.text == Content(tree, FilePath(items[k])) && !fate.Open?
    ensures Tracked(w.docs, Loop(e, cfg, tree, w, items[..n]), Paths(items[k]), doc, fate)
    ensures LostIff(LostInLoop(e, cfg, tree, w, items[..n]), Paths(items[k]), doc, fate)
    decreases n
  {
    hide Tracked, LostIff, Advance, Pushed, LostInFlush, Paths, Brings;
    assert items[..n][..n - 1] == items[..n - 1];
    var s, lost := Loop(e, cfg, tree, w, items[..n - 1]), LostInLoop(e, cfg, tree, w, items[..n - 1]);
    if n == k + 1 {
      var any := Doc(FilePath(items[k]), "", "");
      assert FilePath(items[k]) in Paths(items[k]) by {
        BringsOwnPath(cfg, tree, items[k]);
      }
      assert Aside(items, k, Paths(items[k]));
      AsideLoop(e, cfg, tree, w, items, k, Paths(items[k]), any);
      doc, fate := OwnRound(e, cfg, tree, w.docs, s, items[k], any, lost);
    } else {
      doc, fate := BroughtLoop(e, cfg, tree, w, items, k, n - 1);
      assert Paths(items[k]) !! Paths(items[n - 1]);
      fate := OtherRound(e, cfg, tree, w.docs, s, items[n - 1], Paths(items[k]), doc, fate, lost);
    }
  }

  lemma BringsOwnPath(cfg: Config, tree: Tree, item: DiffItem)
    requires Brings(cfg, tree, item)
    ensures FilePath(item) in Paths(item)
  {
  }

  // ---- Whole runs ----

  /** The document was lost, and what is stored under its path is as it was, or it was stored. */
  lemma BroughtOrLost(e: Engine, cfg: Config, tree: Tree, w: World, items: seq<DiffItem>, k: nat) returns (doc: Doc)
    requires e.Valid() && w.Valid() && Separate(items) && k < |items| && Brings(cfg, tree, items[k])
    ensures doc.path == FilePath(items[k]) && doc.text == Content(tree, FilePath(items[k]))
    ensures var lost, docs := LostInRun(e, cfg, tree, w, items), DiffRun(e, cfg, tree, w, items).w.docs;
            && (forall j :: 0 <= j < |lost| && lost[j].path == doc.path ==> lost[j] == doc)
            && (doc in lost ==> (HasText(docs, doc.path, doc.text) <==> HasText(w.docs, doc.path, doc.text)))
            && (doc !in lost ==> HasText(docs, doc.path, doc.text))
  {
    hide Loop, LostInLoop, LostInFlush, Flush, Tracked, Brings, Paths;
    assert items[..|items|] == items;
    var fate;
    doc, fate := BroughtLoop(e, cfg, tree, w, items, k, |items|);
    var s := Loop(e, cfg, tree, w, items);
    fate := FlushTracked(e, w.docs, s, Paths(items[k]), doc, fate, LostInLoop(e, cfg, tree, w, items), 1);
    SettledText(w.docs, Flush(e, s, 1), Paths(items[k]), doc, fate);
    assert doc.path in Paths(items[k]) by {
      BringsOwnPath(cfg, tree, items[k]);
    }
  }

  lemma SettledText(docs0: map<DocId, Doc>, s: Progress, paths: set<string>, doc: Doc, fate: Fate)
    requires Tracked(docs0, s, paths, doc, fate) && (fate.Missed? || fate.Arrived? || fate.Open?)
    ensures fate.Arrived? ==> HasText(s.w.docs, doc.path, doc.text)
    ensures !fate.Arrived? ==> (HasText(s.w.docs, doc.path, doc.text) <==> HasText(docs0, doc.path, doc.text))
  {
    if !fate.Arrived? {
      if id :| id in s.w.docs && s.w.docs[id].path == doc.path && s.w.docs[id].text == doc.text {
        assert Under(s.w.docs, paths, id);
      }
      if id :| id in docs0 && docs0[id].path == doc.path && docs0[id].text == doc.text {
        assert Under(docs0, paths, id);
      }
    }
  }

  /** A path that no handled item is about keeps its texts, and none of them is lost. */
  lemma AsideStays(e: Engine, cfg: Config, tree: Tree, w: World, items: seq<DiffItem>, path: string, text: string)
    requires e.Valid() && w.Valid() && !Pending(items, 0, path)
    ensures HasText(DiffRun(e, cfg, tree, w, items).w.docs, path, text) <==> HasText(w.docs, path, text)
    ensures var lost := LostInRun(e, cfg, tree, w, items);
            forall j :: 0 <= j < |lost| ==> lost[j].path != path
  {
    hide Loop, LostInLoop, LostInFlush, Flush, Tracked;
    var doc := Doc(path, text, "");
    assert Aside(items, |items|, {path});
    assert items[..|items|] == items;
    AsideLoop(e, cfg, tree, w, items, |items|, {path}, doc);
    var s := Loop(e, cfg, tree, w, items);
    var fate := FlushTracked(e, w.docs, s, {path}, doc, Open, LostInLoop(e, cfg, tree, w, items), 1);
    SettledText(w.docs, Flush(e, s, 1), {path}, doc, fate);
  }

  /** The file that an item of a true diff brings. */
  lemma BringerOf(cfg: Config, base: Tree, head: Tree, items: seq<DiffItem>, path: string) returns (k: nat)
    requires DiffOf(base, head, items) && Indexable(cfg, head, path) && Pending(items, 0, path)
    ensures k < |items| && FilePath(items[k]) == path && Brings(cfg, head, items[k])
  {
    hide ShouldIndex, Walked;
    var j :| 0 <= j < |items| && !items[j].change.Other? && path in Paths(items[j]);
    assert ItemOf(base, head, items[j]);
    k := j;
  }

  /** No lost document is about a file of the commit whose text the index did not have. */
  ghost predicate LossesHarmless(cfg: Config, head: Tree, docs: map<DocId, Doc>, lost: seq<Doc>) {
    forall k :: 0 <= k < |lost| && Indexable(cfg, head, lost[k].path) ==> HasText(docs, lost[k].path, lost[k].text)
  }

  /** The index had the text of every file to be indexed that no item brings. */
  ghost predicate RestCovered(cfg: Config, head: Tree, docs: map<DocId, Doc>, items: seq<DiffItem>) {
    forall path :: Indexable(cfg, head, path) && !Pending(items, 0, path) ==> HasText(docs, path, Content(head, path))
  }

  /** From any index and with any calls failing: an incremental run covers its commit if and only if the index
      had the text of every file that no item brings, and of every file whose document was submitted and
      not stored. */
  lemma DiffRunCoversIff(e: Engine, cfg: Config, base: Tree, head: Tree, w: World, items: seq<DiffItem>)
    requires e.Valid() && w.Valid() && DiffOf(base, head, items)
    ensures Covers(cfg, head, DiffRun(e, cfg, head, w, items).w.docs) <==>
            && LossesHarmless(cfg, head, w.docs, LostInRun(e, cfg, head, w, items))
            && RestCovered(cfg, head, w.docs, items)
  {
    hide DiffRun, LostInRun, Indexable, Pending, DiffOf, Brings;
    assert Separate(items) by {
      DiffIsSeparate(base, head, items);
    }
    var lost, docs := LostInRun(e, cfg, head, w, items), DiffRun(e, cfg, head, w, items).w.docs;
    forall path | Indexable(cfg, head, path) && !Pending(items, 0, path)
      ensures HasText(docs, path, Content(head, path)) <==> HasText(w.docs, path, Content(head, path))
      ensures forall j :: 0 <= j < |lost| ==> lost[j].path != path
    {
      AsideStays(e, cfg, head, w, items, path, Content(head, path));
    }
    forall path | Indexable(cfg, head, path) && Pending(items, 0, path)
      ensures HasText(docs, path, Content(head, path)) <==>
              forall j :: 0 <= j < |lost| && lost[j].path == path ==> HasText(w.docs, path, lost[j].text)
    {
      var k := BringerOf(cfg, base, head, items, path);
      var doc := BroughtOrLost(e, cfg, head, w, items, k);
      if doc in lost {
        var j :| 0 <= j < |lost| && lost[j] == doc;
      } else {
        forall j | 0 <= j < |lost| ensures lost[j].path != path {
          assert lost[j] in lost;
        }
      }
    }
  }

  lemma DiffIsSeparate(base: Tree, head: Tree, items: seq<DiffItem>)
    requires DiffOf(base, head, items)
    ensures Separate(items)
  {
  }

  /** From an index that covers the old commit, and with every needed text in the diff: if and only if no lost
      document is about a file whose text the index did not have. */
  lemma FailedDiffCoversIff(e: Engine, cfg0: Config, cfg: Config, base: Tree, head: Tree, w: World,
                            items: seq<DiffItem>)
    requires e.Valid() && w.Valid() && DiffOf(base, head, items)
    requires Covers(cfg0, base, w.docs) && Harmless(cfg0, cfg, base, head, items)
    ensures Covers(cfg, head, DiffRun(e, cfg, head, w, items).w.docs) <==>
            LossesHarmless(cfg, head, w.docs, LostInRun(e, cfg, head, w, items))
  {
    hide DiffRun, LostInRun, Indexable, Pending, DiffOf;
    DiffRunCoversIff(e, cfg, base, head, w, items);
    forall path | Indexable(cfg, head, path) && !Pending(items, 0, path)
      ensures HasText(w.docs, path, Content(head, path))
    {
      assert Indexable(cfg0, base, path) && Content(base, path) == Content(head, path);
    }
  }
}
