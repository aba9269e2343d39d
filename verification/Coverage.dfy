/**
  Coverage: every indexable file of a commit has at least one document with its text.  It
  tolerates duplicates and leftovers, so it survives every run without errors, from any index.
 */
module Coverage {
  import opened Options
  import opened RagStore
  import opened GitFiles
  import opened GitDiff
  import opened FlushTiming
  import opened GitAgreement
  import opened GitHandler

  ghost predicate HasText(docs: map<DocId, Doc>, path: string, text: string) {
    exists id :: id in docs && docs[id].path == path && docs[id].text == text
  }

  /** Every indexable file of the commit has a document with its text. */
  ghost predicate Covers(cfg: Config, tree: Tree, docs: map<DocId, Doc>) {
    forall path :: Indexable(cfg, tree, path) ==> HasText(docs, path, Content(tree, path))
  }

  /** An item of a handled change type from k on still has to bring this path's text. */
  ghost predicate Pending(items: seq<DiffItem>, k: nat, path: string) {
    exists j :: k <= j < |items| && !items[j].change.Other? && path in Paths(items[j])
  }

  /** Every file to be indexed now that no item brings was indexed with the same text before: neither an edit
      of the patterns nor a change type without a branch asks for a text that the diff does not bring. */
  ghost predicate Harmless(cfg0: Config, cfg: Config, base: Tree, head: Tree, items: seq<DiffItem>) {
    forall path :: Indexable(cfg, head, path) && !Pending(items, 0, path) ==>
      Indexable(cfg0, base, path) && Content(base, path) == Content(head, path)
  }

  /** With the same patterns that is a matter of the unhandled change types only. */
  lemma HarmlessIfPatternsStay(cfg0: Config, cfg: Config, base: Tree, head: Tree, items: seq<DiffItem>)
    requires SameFilter(cfg0, cfg) && DiffOf(base, head, items)
    ensures Harmless(cfg0, cfg, base, head, items) <==>
            forall k :: 0 <= k < |items| && items[k].change.Other? && Indexable(cfg, head, FilePath(items[k])) ==>
              Content(base, FilePath(items[k])) == Content(head, FilePath(items[k]))
  {
    hide ShouldIndex, Walked;
    forall path
      ensures Indexable(cfg0, base, path) <==> Indexable(cfg, base, path)
      ensures !Mentioned(items, path) ==> Get(base, path) == Get(head, path)
    {
      SameFilterSameFiles(cfg0, cfg, base, path);
    }
    if Harmless(cfg0, cfg, base, head, items) {
      forall k | 0 <= k < |items| && items[k].change.Other? && Indexable(cfg, head, FilePath(items[k]))
        ensures Content(base, FilePath(items[k])) == Content(head, FilePath(items[k]))
      {
        OtherIsNotPending(items, k);
      }
    }
    if forall k :: 0 <= k < |items| && items[k].change.Other? && Indexable(cfg, head, FilePath(items[k])) ==>
         Content(base, FilePath(items[k])) == Content(head, FilePath(items[k])) {
      forall path | Indexable(cfg, head, path) && !Pending(items, 0, path)
        ensures Indexable(cfg0, base, path) && Content(base, path) == Content(head, path)
      {
        if Mentioned(items, path) {
          var k :| 0 <= k < |items| && path in Paths(items[k]);
          assert FilePath(items[k]) == path;
        }
      }
    }
  }

  /** Each path has its part in one item, so an unhandled item's path is brought by no other. */
  lemma OtherIsNotPending(items: seq<DiffItem>, k: nat)
    requires Separate(items) && k < |items| && items[k].change.Other?
    ensures !Pending(items, 0, FilePath(items[k]))
  {
    if j :| 0 <= j < |items| && !items[j].change.Other? && FilePath(items[k]) in Paths(items[j]) {
      assert j < k ==> Paths(items[j]) !! Paths(items[k]);
      assert k < j ==> Paths(items[k]) !! Paths(items[j]);
      assert FilePath(items[k]) in Paths(items[k]);
    }
  }

  // ---- One item ----

  /** An item leaves the documents of foreign paths in place. */
  lemma ForeignTextStays(e: Engine, cfg: Config, tree: Tree, x: Index, item: DiffItem, path: string, text: string)
    requires e.Valid() && x.Valid() && path !in Paths(item) && HasText(x.docs, path, text)
    ensures HasText(AfterItem(e, cfg, tree, x, item).docs, path, text)
  {
    var id :| id in x.docs && x.docs[id].path == path && x.docs[id].text == text;
    var op := OpOn(e, cfg, tree, x.docs, item);
    if op.Some? {
      OpStaysHome(e, cfg, tree, x.docs, item, path);
      if op.value.Replace? {
        LatestOfOne(op.value.update, id);
      }
    }
    var docs := AfterItem(e, cfg, tree, x, item).docs;
    assert id in docs && docs[id] == x.docs[id];
  }

  /** An added, modified or renamed file that is to be indexed has its text afterwards. */
  lemma OwnTextArrives(e: Engine, cfg: Config, tree: Tree, x: Index, item: DiffItem)
    requires e.Valid() && x.Valid()
    requires item.change in {Added, Modified, Renamed} && (item.change.Renamed? ==> item.a != "")
    requires ShouldIndex(cfg.filter, FilePath(item)) && Content(tree, FilePath(item)) != ""
    ensures HasText(AfterItem(e, cfg, tree, x, item).docs, FilePath(item), Content(tree, FilePath(item)))
  {
    var op := OpOn(e, cfg, tree, x.docs, item).value;
    var docs := AfterItem(e, cfg, tree, x, item).docs;
    if op.Create? {
      assert docs[x.next] == op.doc;
    } else {
      LatestOfOne(op.update, op.update.id);
      assert docs[op.update.id] == op.update.doc;
    }
  }

  // ---- A whole diff ----

  lemma CoveredFromBase(cfg0: Config, cfg: Config, base: Tree, head: Tree, docs: map<DocId, Doc>, items: seq<DiffItem>,
                        path: string)
    requires Harmless(cfg0, cfg, base, head, items) && Covers(cfg0, base, docs)
    requires Indexable(cfg, head, path) && !Pending(items, 0, path)
    ensures HasText(docs, path, Content(head, path))
  {
    hide Indexable;
  }

  /** The item that mentions an indexable path of the new commit brings its text. */
  lemma OwnItemCovers(e: Engine, cfg: Config, base: Tree, head: Tree, x: Index, item: DiffItem, path: string)
    requires e.Valid() && x.Valid() && ItemOf(base, head, item) && !item.change.Other?
    requires Indexable(cfg, head, path) && path in Paths(item)
    ensures HasText(AfterItem(e, cfg, head, x, item).docs, path, Content(head, path))
  {
    assert path == FilePath(item);
    OwnTextArrives(e, cfg, head, x, item);
  }

  lemma PendingNext(items: seq<DiffItem>, k: nat, path: string)
    requires k < |items|
    ensures Pending(items, k, path) <==>
            (!items[k].change.Other? && path in Paths(items[k])) || Pending(items, k + 1, path)
  {
  }

  /** One more item leaves only the paths of later items pending. */
  lemma ItemCovers(e: Engine, cfg: Config, base: Tree, head: Tree, x: Index, items: seq<DiffItem>, k: nat, path: string)
    requires e.Valid() && x.Valid() && k < |items| && ItemOf(base, head, items[k])
    requires Indexable(cfg, head, path) && !Pending(items, k + 1, path)
    requires !Pending(items, k, path) ==> HasText(x.docs, path, Content(head, path))
    ensures HasText(AfterItem(e, cfg, head, x, items[k]).docs, path, Content(head, path))
  {
    PendingNext(items, k, path);
    if items[k].change.Other? {
      assert AfterItem(e, cfg, head, x, items[k]) == x;
    } else if path in Paths(items[k]) {
      OwnItemCovers(e, cfg, base, head, x, items[k], path);
    } else {
      ForeignTextStays(e, cfg, head, x, items[k], path, Content(head, path));
    }
  }

  lemma {:induction false} PrefixCovers(e: Engine, cfg0: Config, cfg: Config, base: Tree, head: Tree, x: Index,
                                        items: seq<DiffItem>, k: nat, path: string)
    requires e.Valid() && x.Valid() && DiffOf(base, head, items) && Harmless(cfg0, cfg, base, head, items)
    requires Covers(cfg0, base, x.docs) && k <= |items|
    requires Indexable(cfg, head, path) && !Pending(items, k, path)
    ensures HasText(Immediate(e, cfg, head, x, items[..k]).docs, path, Content(head, path))
  {
    if k == 0 {
      CoveredFromBase(cfg0, cfg, base, head, x.docs, items, path);
    } else {
      assert items[..k][..k - 1] == items[..k - 1];
      ImmediateIsValid(e, cfg, head, x, items[..k - 1]);
      if !Pending(items, k - 1, path) {
        PrefixCovers(e, cfg0, cfg, base, head, x, items, k - 1, path);
      }
      ItemCovers(e, cfg, base, head, Immediate(e, cfg, head, x, items[..k - 1]), items, k - 1, path);
    }
  }

  /** An incremental run without errors carries coverage from the old commit, under the configuration it was
      indexed with, to the new one under the configuration of the run. */
  lemma DiffRunCovers(e: Engine, cfg0: Config, cfg: Config, base: Tree, head: Tree, w: World, items: seq<DiffItem>)
    requires e.Valid() && w.Valid() && DiffOf(base, head, items) && Harmless(cfg0, cfg, base, head, items)
    requires Covers(cfg0, base, w.docs)
    requires DiffRun(e, cfg, head, w, items).errors == []
    ensures Covers(cfg, head, DiffRun(e, cfg, head, w, items).w.docs)
  {
    hide DiffRun, Indexable, Harmless;
    FlushTimingIsIrrelevant(e, cfg, head, w, items);
    assert items[..|items|] == items;
    forall path | Indexable(cfg, head, path)
      ensures HasText(DiffRun(e, cfg, head, w, items).w.docs, path, Content(head, path))
    {
      PrefixCovers(e, cfg0, cfg, base, head, IndexOf(w), items, |items|, path);
    }
  }

  lemma RepresentedText(docs: map<DocId, Doc>, texts: map<string, string>, path: string, text: string)
    requires Represents(docs, texts)
    ensures HasText(docs, path, text) <==> Get(texts, path) == Some(text)
  {
    if path in texts {
      assert Holds(docs, path);
    }
  }

  lemma ExactCovers(cfg: Config, tree: Tree, docs: map<DocId, Doc>)
    requires Represents(docs, FullMap(cfg, tree))
    ensures Covers(cfg, tree, docs)
  {
    forall path | Indexable(cfg, tree, path) ensures HasText(docs, path, Content(tree, path)) {
      FullMapEntry(cfg, tree, path);
      RepresentedText(docs, FullMap(cfg, tree), path, Content(tree, path));
    }
  }

  /** A path that no handled item brings keeps its entry through the map updates of a diff. */
  lemma UnbroughtStays(cfg: Config, base: Tree, head: Tree, texts: map<string, string>, items: seq<DiffItem>,
                       path: string)
    requires DiffOf(base, head, items) && !Pending(items, 0, path)
    ensures Get(Effects(cfg, head, texts, items), path) == Get(texts, path)
  {
    assert forall j :: 0 <= j < |items| ==> ItemOf(base, head, items[j]);
    if Mentioned(items, path) {
      var k :| 0 <= k < |items| && path in Paths(items[k]);
      EffectsAt(cfg, head, texts, items, k, path);
    } else {
      EffectsAreLocal(cfg, head, texts, items, path);
    }
  }

  lemma CoveredUnbroughtMatch(cfg0: Config, cfg: Config, base: Tree, head: Tree, docs: map<DocId, Doc>,
                              items: seq<DiffItem>, path: string)
    requires DiffOf(base, head, items) && Indexable(cfg, head, path) && !Pending(items, 0, path)
    requires Represents(docs, Effects(cfg, head, FullMap(cfg0, base), items)) && Covers(cfg, head, docs)
    ensures Indexable(cfg0, base, path) && Content(base, path) == Content(head, path)
  {
    hide Effects, Represents, FullMap, ShouldIndex, Walked;
    var texts := FullMap(cfg0, base);
    UnbroughtStays(cfg, base, head, texts, items, path);
    RepresentedText(docs, Effects(cfg, head, texts, items), path, Content(head, path));
    FullMapEntry(cfg0, base, path);
  }

  /** From an exact index, a diff run without errors covers the new commit if and only if every file that is
      now to be indexed and that no item brings was indexed with the same text before. */
  lemma CoveredIffHarmless(e: Engine, cfg0: Config, cfg: Config, base: Tree, head: Tree, w: World, items: seq<DiffItem>)
    requires e.Valid() && w.Valid() && DiffOf(base, head, items)
    requires Represents(w.docs, FullMap(cfg0, base))
    requires DiffRun(e, cfg, head, w, items).errors == []
    ensures Covers(cfg, head, DiffRun(e, cfg, head, w, items).w.docs) <==> Harmless(cfg0, cfg, base, head, items)
  {
    hide DiffRun, Represents, FullMap, DiffOf, Indexable, Effects;
    var docs := DiffRun(e, cfg, head, w, items).w.docs;
    if Harmless(cfg0, cfg, base, head, items) {
      ExactCovers(cfg0, base, w.docs);
      DiffRunCovers(e, cfg0, cfg, base, head, w, items);
    }
    BaseKeys(cfg0, base);
    IncrementalMeaning(e, cfg, base, head, w, FullMap(cfg0, base), items);
    if Covers(cfg, head, docs) {
      forall path | Indexable(cfg, head, path) && !Pending(items, 0, path)
        ensures Indexable(cfg0, base, path) && Content(base, path) == Content(head, path)
      {
        CoveredUnbroughtMatch(cfg0, cfg, base, head, docs, items, path);
      }
    }
  }

  lemma BaseKeys(cfg: Config, tree: Tree)
    ensures FullMap(cfg, tree).Keys <= tree.Keys
  {
  }

  lemma GrownHasTexts(x: Index, built: seq<Doc>, texts: map<string, string>, path: string)
    requires Lists(built, texts) && path in texts
    ensures HasText(x.docs + Fresh(x.next, built), path, texts[path])
  {
    var docs := x.docs + Fresh(x.next, built);
    var k :| 0 <= k < |built| && built[k].path == path;
    assert Get(texts, built[k].path) == Some(built[k].text);
    assert docs[x.next + k] == built[k];
  }

  /** A full run without errors covers the commit, whatever the index held before. */
  lemma FullRunCovers(e: Engine, cfg: Config, tree: Tree, w: World, walk: seq<WalkEntry>)
    requires WalkOf(cfg, tree, walk)
    requires FullRun(e, tree, w, RepositoryFiles(cfg, walk)).errors == []
    ensures Covers(cfg, tree, FullRun(e, tree, w, RepositoryFiles(cfg, walk)).w.docs)
  {
    FullRunAdds(e, tree, w, RepositoryFiles(cfg, walk));
    FullDocsAreFullMap(cfg, tree, walk);
    var built := FullDocs(tree, RepositoryFiles(cfg, walk));
    forall path | Indexable(cfg, tree, path)
      ensures HasText(w.docs + Fresh(w.next, built), path, Content(tree, path))
    {
      FullMapEntry(cfg, tree, path);
      GrownHasTexts(IndexOf(w), built, FullMap(cfg, tree), path);
    }
  }

  // ---- Ids stay below the next fresh one, whatever fails ----

  lemma {:induction false} DeletesKeepValid(e: Engine, w: World, ids: seq<DocId>)
    requires w.Valid()
    ensures DeleteInOrder(e, w, ids).Valid()
    decreases |ids|
  {
    if ids != [] && DeleteAnswered(e, w.calls) {
      DeletesKeepValid(e, DeleteDocument(e, w, ids[0]), ids[1..]);
    }
  }

  lemma FlushKeepsValid(e: Engine, s: Progress, least: nat)
    requires s.w.Valid()
    ensures FlushCreates(e, s, least).w.Valid() && Flush(e, s, least).w.Valid()
  {
    var s1 := FlushCreates(e, s, least);
    var s2 := FlushUpdates(e, s1, least);
    assert s1.w.Valid() && s2.w.Valid();
    DeletesKeepValid(e, s2.w, s2.deletes);
  }

  lemma RoundKeepsValid(e: Engine, cfg: Config, tree: Tree, s: Progress, item: DiffItem)
    requires s.w.Valid()
    ensures Advance(e, cfg, tree, s, item).w.Valid()
  {
    var path := LookupPath(cfg, tree, item);
    var s1 := AfterLookup(e, s, path);
    assert s1.w.Valid();
    FlushKeepsValid(e, Push(s1, Decide(cfg, tree, item, LookedUp(e, s.w, path))), BATCH);
  }

  lemma {:induction false} LoopKeepsValid(e: Engine, cfg: Config, tree: Tree, w: World, items: seq<DiffItem>)
    requires w.Valid()
    ensures Loop(e, cfg, tree, w, items).w.Valid()
  {
    if items != [] {
      LoopKeepsValid(e, cfg, tree, w, items[..|items| - 1]);
      RoundKeepsValid(e, cfg, tree, Loop(e, cfg, tree, w, items[..|items| - 1]), items[|items| - 1]);
    }
  }

  lemma {:induction false} FullLoopKeepsValid(e: Engine, tree: Tree, w: World, files: seq<string>)
    requires w.Valid()
    ensures FullLoop(e, tree, w, files).w.Valid()
  {
    if files != [] {
      var init, path := files[..|files| - 1], files[|files| - 1];
      FullLoopKeepsValid(e, tree, w, init);
      var text := Content(tree, path);
      FlushKeepsValid(e, Push(FullLoop(e, tree, w, init), if text == "" then None
          else Some(Create(Doc(path, text, "full")))), BATCH);
    }
  }

  lemma RunKeepsValid(e: Engine, cfg: Config, w: World, c: Checkout, lastCommit: string, hadErrors: bool)
    requires w.Valid()
    ensures UpdateRun(e, cfg, w, c, lastCommit, hadErrors).w.Valid()
  {
    var files := RepositoryFiles(cfg, c.walk);
    FullLoopKeepsValid(e, c.tree, w, files);
    FlushKeepsValid(e, FullLoop(e, c.tree, w, files), 1);
    if c.diff.Diffed? {
      LoopKeepsValid(e, cfg, c.tree, w, c.diff.items);
      FlushKeepsValid(e, Loop(e, cfg, c.tree, w, c.diff.items), 1);
    }
  }
}
