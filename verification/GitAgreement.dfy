/**
  What an incremental run means: on an index that holds exactly one document per entry of a
  path-to-text map, it performs one map update per diff item.  From there: when incremental
  indexing agrees with full indexing, for one diff and for a chain of commits.
 */
module GitAgreement {
  import opened Options
  import opened RagStore
  import opened GitFiles
  import opened GitDiff
  import opened FlushTiming

  /** The index holds exactly one document for each entry of the map, and nothing else. */
  ghost predicate Represents(docs: map<DocId, Doc>, texts: map<string, string>) {
    && (forall id :: id in docs ==> Get(texts, docs[id].path) == Some(docs[id].text))
    && (forall i, j :: i in docs && j in docs && docs[i].path == docs[j].path ==> i == j)
    && (forall path :: path in texts ==> Holds(docs, path))
  }

  ghost predicate Holds(docs: map<DocId, Doc>, path: string) {
    exists id :: id in docs && docs[id].path == path
  }

  /** The map update an item stands for. */
  function Effect(cfg: Config, tree: Tree, texts: map<string, string>, item: DiffItem): map<string, string> {
    var path := FilePath(item);
    var text := Content(tree, path);
    if !ShouldIndex(cfg.filter, path) then texts
    else match item.change
      case Deleted => texts - {path}
      case Other => texts
      case Renamed => if text == "" || item.a == "" then texts else (texts - {item.a})[path := text]
      case _ => if text == "" then texts else texts[path := text]
  }

  function Effects(cfg: Config, tree: Tree, texts: map<string, string>, items: seq<DiffItem>): map<string, string> {
    if items == [] then texts
    else Effect(cfg, tree, Effects(cfg, tree, texts, items[..|items| - 1]), items[|items| - 1])
  }

  /** The item says truly how its paths changed between the two commits. */
  ghost predicate ItemOf(base: Tree, head: Tree, item: DiffItem) {
    match item.change
    case Added => FilePath(item) !in base && FilePath(item) in head
    case Modified => FilePath(item) in base && FilePath(item) in head
    case Deleted => FilePath(item) in base && FilePath(item) !in head
    case Renamed => item.a != "" && item.b != "" && item.a in base && item.a !in head && item.b !in base
        && item.b in head
    case Other => true
  }

  ghost predicate Mentioned(items: seq<DiffItem>, path: string) {
    exists k :: 0 <= k < |items| && path in Paths(items[k])
  }

  /** A well-formed diff: items about separate paths, each true, and every other path unchanged. */
  ghost predicate DiffOf(base: Tree, head: Tree, items: seq<DiffItem>) {
    && Separate(items)
    && (forall k :: 0 <= k < |items| ==> ItemOf(base, head, items[k]))
    && (forall path :: !Mentioned(items, path) ==> Get(base, path) == Get(head, path))
  }

  // ---- One operation on an exact index ----

  lemma FoundIffEntry(e: Engine, docs: map<DocId, Doc>, texts: map<string, string>, path: string)
    requires e.Valid() && Represents(docs, texts)
    ensures Found(e, docs, path).Some? <==> path in texts
  {
    if path in texts {
      assert Holds(docs, path);
    }
  }

  /** One document stored under an id, in place of the one that was there. */
  lemma PutOnExact(docs: map<DocId, Doc>, texts: map<string, string>, id: DocId, doc: Doc)
    requires Represents(docs, texts)
    requires (id in docs && docs[id].path == doc.path) || doc.path !in texts
    ensures Represents(docs[id := doc],
                       (if id in docs then texts - {docs[id].path} else texts)[doc.path := doc.text])
  {
    var docs' := docs[id := doc];
    var kept := if id in docs then texts - {docs[id].path} else texts;
    forall i | i in docs && i != id
      ensures docs[i].path != doc.path && docs[i].path in kept && kept[docs[i].path] == docs[i].text
    {
      assert Get(texts, docs[i].path) == Some(docs[i].text);
    }
    forall path | path in kept[doc.path := doc.text] ensures Holds(docs', path) {
      if path == doc.path {
        assert docs'[id].path == path;
      } else {
        assert Holds(docs, path);
        var i :| i in docs && docs[i].path == path;
        assert docs'[i].path == path;
      }
    }
  }

  lemma CreatePuts(x: Index, doc: Doc)
    ensures Apply(x, Create(doc)).docs == x.docs[x.next := doc]
  {
  }

  lemma CreateOnExact(x: Index, texts: map<string, string>, doc: Doc)
    requires x.Valid() && Represents(x.docs, texts) && doc.path !in texts
    ensures Represents(Apply(x, Create(doc)).docs, texts[doc.path := doc.text])
  {
    hide Represents, Apply;
    assert x.next !in x.docs;
    CreatePuts(x, doc);
    PutOnExact(x.docs, texts, x.next, doc);
  }

  lemma LatestOfOne(update: Update, id: DocId)
    ensures Latest([update], id) == if update.id == id then Some(update.doc) else None
  {
    assert [update][..0] == [];
  }

  lemma ReplacePuts(x: Index, update: Update)
    requires update.id in x.docs
    ensures Apply(x, Replace(update)).docs == x.docs[update.id := update.doc]
  {
    forall id | id in x.docs
      ensures Latest([update], id) == if update.id == id then Some(update.doc) else None
    {
      LatestOfOne(update, id);
    }
  }

  lemma ReplaceOnExact(x: Index, texts: map<string, string>, update: Update)
    requires Represents(x.docs, texts) && update.id in x.docs
    requires update.doc.path == x.docs[update.id].path || update.doc.path !in texts
    ensures Represents(Apply(x, Replace(update)).docs,
                       (texts - {x.docs[update.id].path})[update.doc.path := update.doc.text])
  {
    hide Represents, Apply;
    ReplacePuts(x, update);
    PutOnExact(x.docs, texts, update.id, update.doc);
  }

  lemma RemoveOnExact(x: Index, texts: map<string, string>, id: DocId)
    requires Represents(x.docs, texts) && id in x.docs
    ensures Represents(Apply(x, Remove(id)).docs, texts - {x.docs[id].path})
  {
    var docs := Apply(x, Remove(id)).docs;
    assert docs == x.docs - {id};
    hide Apply;
    forall k | k in docs ensures Get(texts - {x.docs[id].path}, docs[k].path) == Some(docs[k].text) {
      assert Get(texts, x.docs[k].path) == Some(x.docs[k].text);
    }
    forall path | path in texts - {x.docs[id].path} ensures Holds(docs, path) {
      assert Holds(x.docs, path);
      var k :| k in x.docs && x.docs[k].path == path;
      assert k in docs && docs[k].path == path;
    }
  }

  /** A target path that the item is to add must not be in the map yet. */
  ghost predicate NewTarget(texts: map<string, string>, item: DiffItem) {
    match item.change
    case Added => FilePath(item) !in texts
    case Renamed => item.a != "" && item.b != "" && item.b !in texts
    case _ => true
  }

  lemma AddedOnExact(e: Engine, cfg: Config, tree: Tree, x: Index, texts: map<string, string>, item: DiffItem)
    requires e.Valid() && x.Valid() && Represents(x.docs, texts) && NewTarget(texts, item) && item.change.Added?
    ensures Represents(AfterItem(e, cfg, tree, x, item).docs, Effect(cfg, tree, texts, item))
  {
    hide ShouldIndex, Content, Represents, Apply;
    var op := OpOn(e, cfg, tree, x.docs, item);
    if op.Some? {
      CreateOnExact(x, texts, op.value.doc);
    }
  }

  lemma ModifiedOnExact(e: Engine, cfg: Config, tree: Tree, x: Index, texts: map<string, string>, item: DiffItem)
    requires e.Valid() && x.Valid() && Represents(x.docs, texts) && NewTarget(texts, item) && item.change.Modified?
    ensures Represents(AfterItem(e, cfg, tree, x, item).docs, Effect(cfg, tree, texts, item))
  {
    hide ShouldIndex, Content, Represents, Apply;
    var op := OpOn(e, cfg, tree, x.docs, item);
    if op.Some? {
      var path, text := FilePath(item), Content(tree, FilePath(item));
      FoundIffEntry(e, x.docs, texts, path);
      if op.value.Create? {
        CreateOnExact(x, texts, op.value.doc);
      } else {
        ReplaceOnExact(x, texts, op.value.update);
        assert (texts - {path})[path := text] == texts[path := text];
      }
    }
  }

  lemma DeletedOnExact(e: Engine, cfg: Config, tree: Tree, x: Index, texts: map<string, string>, item: DiffItem)
    requires e.Valid() && x.Valid() && Represents(x.docs, texts) && NewTarget(texts, item) && item.change.Deleted?
    ensures Represents(AfterItem(e, cfg, tree, x, item).docs, Effect(cfg, tree, texts, item))
  {
    hide ShouldIndex, Content, Represents, Apply;
    var op := OpOn(e, cfg, tree, x.docs, item);
    FoundIffEntry(e, x.docs, texts, FilePath(item));
    if op.Some? {
      RemoveOnExact(x, texts, op.value.id);
    } else if FilePath(item) !in texts {
      assert texts - {FilePath(item)} == texts;
    }
  }

  lemma RenamedOnExact(e: Engine, cfg: Config, tree: Tree, x: Index, texts: map<string, string>, item: DiffItem)
    requires e.Valid() && x.Valid() && Represents(x.docs, texts) && NewTarget(texts, item) && item.change.Renamed?
    ensures Represents(AfterItem(e, cfg, tree, x, item).docs, Effect(cfg, tree, texts, item))
  {
    hide ShouldIndex, Content, Represents, Apply;
    var op := OpOn(e, cfg, tree, x.docs, item);
    if op.Some? {
      FoundIffEntry(e, x.docs, texts, item.a);
      if op.value.Create? {
        CreateOnExact(x, texts, op.value.doc);
        assert texts - {item.a} == texts;
      } else {
        ReplaceOnExact(x, texts, op.value.update);
      }
    }
  }

  lemma ItemOnExact(e: Engine, cfg: Config, tree: Tree, x: Index, texts: map<string, string>, item: DiffItem)
    requires e.Valid() && x.Valid() && Represents(x.docs, texts) && NewTarget(texts, item)
    ensures Represents(AfterItem(e, cfg, tree, x, item).docs, Effect(cfg, tree, texts, item))
  {
    match item.change {
      case Added => AddedOnExact(e, cfg, tree, x, texts, item);
      case Modified => ModifiedOnExact(e, cfg, tree, x, texts, item);
      case Deleted => DeletedOnExact(e, cfg, tree, x, texts, item);
      case Renamed => RenamedOnExact(e, cfg, tree, x, texts, item);
      case Other =>
    }
  }

  // ---- Map updates, path by path ----

  lemma EffectIsLocal(cfg: Config, tree: Tree, texts: map<string, string>, item: DiffItem, path: string)
    requires path !in Paths(item) && (item.change.Renamed? ==> item.b != "")
    ensures Get(Effect(cfg, tree, texts, item), path) == Get(texts, path)
  {
  }

  lemma {:induction false} EffectsAreLocal(cfg: Config, tree: Tree, texts: map<string, string>, items: seq<DiffItem>,
                                           path: string)
    requires forall k :: 0 <= k < |items| && items[k].change.Renamed? ==> items[k].b != ""
    requires !Mentioned(items, path)
    ensures Get(Effects(cfg, tree, texts, items), path) == Get(texts, path)
  {
    if items != [] {
      var n := |items| - 1;
      assert forall k :: 0 <= k < n ==> items[..n][k] == items[k];
      EffectsAreLocal(cfg, tree, texts, items[..n], path);
      EffectIsLocal(cfg, tree, Effects(cfg, tree, texts, items[..n]), items[n], path);
    }
  }

  /** The entries an item leaves on its own paths depend only on the entries found there. */
  lemma EffectReadsOwnPaths(cfg: Config, tree: Tree, texts: map<string, string>, texts': map<string, string>,
                            item: DiffItem, path: string)
    requires path in Paths(item)
    requires forall q :: q in Paths(item) ==> Get(texts, q) == Get(texts', q)
    ensures Get(Effect(cfg, tree, texts, item), path) == Get(Effect(cfg, tree, texts', item), path)
  {
    assert Get(texts, path) == Get(texts', path);
  }

  /** Only the item that mentions a path decides its entry, and from the entries it found. */
  lemma {:induction false} EffectsAt(cfg: Config, tree: Tree, texts: map<string, string>, items: seq<DiffItem>,
                                     k: nat, path: string)
    requires forall j :: 0 <= j < |items| && items[j].change.Renamed? ==> items[j].b != ""
    requires Separate(items) && k < |items| && path in Paths(items[k])
    ensures Get(Effects(cfg, tree, texts, items), path) == Get(Effect(cfg, tree, texts, items[k]), path)
  {
    hide Effect, Paths, Get;
    var n := |items| - 1;
    var init := items[..n];
    assert forall j :: 0 <= j < n ==> init[j] == items[j];
    var before := Effects(cfg, tree, texts, init);
    if k < n {
      EffectsAt(cfg, tree, texts, init, k, path);
      assert Paths(items[k]) !! Paths(items[n]);
      EffectIsLocal(cfg, tree, before, items[n], path);
    } else {
      forall q | q in Paths(items[n]) ensures Get(before, q) == Get(texts, q) {
        forall j | 0 <= j < |init| ensures q !in Paths(init[j]) {
          assert Paths(items[j]) !! Paths(items[n]);
        }
        EffectsAreLocal(cfg, tree, texts, init, q);
      }
      EffectReadsOwnPaths(cfg, tree, before, texts, items[n], path);
    }
  }

  // ---- A whole diff on an exact index ----

  lemma ItemKeepsValid(e: Engine, cfg: Config, tree: Tree, x: Index, item: DiffItem)
    requires x.Valid()
    ensures AfterItem(e, cfg, tree, x, item).Valid()
  {
  }

  lemma {:induction false} ImmediateIsValid(e: Engine, cfg: Config, tree: Tree, x: Index, items: seq<DiffItem>)
    requires x.Valid()
    ensures Immediate(e, cfg, tree, x, items).Valid()
  {
    if items != [] {
      var n := |items| - 1;
      ImmediateIsValid(e, cfg, tree, x, items[..n]);
      ItemKeepsValid(e, cfg, tree, Immediate(e, cfg, tree, x, items[..n]), items[n]);
    }
  }

  ghost predicate ItemsOf(base: Tree, head: Tree, items: seq<DiffItem>) {
    Separate(items) && forall k :: 0 <= k < |items| ==> ItemOf(base, head, items[k])
  }

  lemma ItemsInit(base: Tree, head: Tree, items: seq<DiffItem>)
    requires items != [] && ItemsOf(base, head, items)
    ensures ItemsOf(base, head, items[..|items| - 1])
    ensures SeparateFrom(items[..|items| - 1], Paths(items[|items| - 1]))
  {
    SeparateInit(items);
  }

  lemma TargetIsNew(cfg: Config, base: Tree, head: Tree, texts: map<string, string>, items: seq<DiffItem>)
    requires items != [] && ItemsOf(base, head, items) && texts.Keys <= base.Keys
    ensures NewTarget(Effects(cfg, head, texts, items[..|items| - 1]), items[|items| - 1])
  {
    var n := |items| - 1;
    var path := FilePath(items[n]);
    ItemsInit(base, head, items);
    assert ItemOf(base, head, items[n]);
    if items[n].change.Added? || items[n].change.Renamed? {
      assert path in Paths(items[n]);
      EffectsAreLocal(cfg, head, texts, items[..n], path);
      assert path !in texts;
    }
  }

  lemma {:induction false} ImmediateIsExact(e: Engine, cfg: Config, base: Tree, head: Tree, x: Index,
                                            texts: map<string, string>, items: seq<DiffItem>)
    requires e.Valid() && x.Valid() && ItemsOf(base, head, items)
    requires Represents(x.docs, texts) && texts.Keys <= base.Keys
    ensures Represents(Immediate(e, cfg, head, x, items).docs, Effects(cfg, head, texts, items))
  {
    if items != [] {
      var init := items[..|items| - 1];
      ItemsInit(base, head, items);
      ImmediateIsExact(e, cfg, base, head, x, texts, init);
      ImmediateIsValid(e, cfg, head, x, init);
      TargetIsNew(cfg, base, head, texts, items);
      ItemOnExact(e, cfg, head, Immediate(e, cfg, head, x, init), Effects(cfg, head, texts, init), items[|items| - 1]);
    }
  }

  /** An incremental run without errors, on an index that represents a map of old paths, leaves an
      index that represents that map updated once per diff item. */
  lemma IncrementalMeaning(e: Engine, cfg: Config, base: Tree, head: Tree, w: World,
                           texts: map<string, string>, items: seq<DiffItem>)
    requires e.Valid() && w.Valid() && DiffOf(base, head, items)
    requires Represents(w.docs, texts) && texts.Keys <= base.Keys
    requires DiffRun(e, cfg, head, w, items).errors == []
    ensures Represents(DiffRun(e, cfg, head, w, items).w.docs, Effects(cfg, head, texts, items))
  {
    FlushTimingIsIrrelevant(e, cfg, head, w, items);
    ImmediateIsExact(e, cfg, base, head, IndexOf(w), texts, items);
  }

  // ---- When incremental indexing agrees with full indexing ----

  /** The guard of the branches that part from a full index, read off the two commits.  The old commit was
      indexed under cfg0 and the diff is indexed under cfg; the patterns may have been edited in between. */
  predicate Agrees(cfg0: Config, cfg: Config, base: Tree, head: Tree, item: DiffItem) {
    var path := FilePath(item);
    var taken := ShouldIndex(cfg.filter, path) && Content(head, path) != "";
    match item.change
    case Added => taken ==> Walked(cfg, path)
    case Modified => if taken then Walked(cfg, path) else !Indexable(cfg0, base, path)
    case Deleted => ShouldIndex(cfg.filter, path) || !Indexable(cfg0, base, path)
    case Renamed => if taken then Walked(cfg, path) else !Indexable(cfg0, base, item.a)
    case Other =>
      && (Indexable(cfg0, base, path) <==> Indexable(cfg, head, path))
      && (Indexable(cfg, head, path) ==> Content(base, path) == Content(head, path))
  }

  /** No file outside the diff enters or leaves the index through an edit of the patterns. */
  ghost predicate AgreesElsewhere(cfg0: Config, cfg: Config, base: Tree, items: seq<DiffItem>) {
    forall path :: !Mentioned(items, path) ==> (Indexable(cfg0, base, path) <==> Indexable(cfg, base, path))
  }

  ghost predicate AllAgree(cfg0: Config, cfg: Config, base: Tree, head: Tree, items: seq<DiffItem>) {
    && AgreesElsewhere(cfg0, cfg, base, items)
    && forall k :: 0 <= k < |items| ==> Agrees(cfg0, cfg, base, head, items[k])
  }

  /** Without an edit of the patterns nothing changes outside the diff. */
  lemma SameFilterAgreesElsewhere(cfg0: Config, cfg: Config, base: Tree, items: seq<DiffItem>)
    requires SameFilter(cfg0, cfg)
    ensures AgreesElsewhere(cfg0, cfg, base, items)
  {
    hide Indexable, SameFilter;
    forall path ensures Indexable(cfg0, base, path) <==> Indexable(cfg, base, path) {
      SameFilterSameFiles(cfg0, cfg, base, path);
    }
  }

  lemma FullMapEntry(cfg: Config, tree: Tree, path: string)
    ensures Get(FullMap(cfg, tree), path) ==
            if Indexable(cfg, tree, path) then Some(Content(tree, path)) else None
  {
  }

  /** An item satisfies the guard exactly when its map update yields the full map on its own paths. */
  lemma AgreesOnOwnPaths(cfg0: Config, cfg: Config, base: Tree, head: Tree, item: DiffItem)
    requires ItemOf(base, head, item)
    ensures Agrees(cfg0, cfg, base, head, item) <==>
            forall path :: path in Paths(item) ==>
              Get(Effect(cfg, head, FullMap(cfg0, base), item), path) == Get(FullMap(cfg, head), path)
  {
    hide ShouldIndex, Walked, FullMap;
    var path := FilePath(item);
    var after := Effect(cfg, head, FullMap(cfg0, base), item);
    FullMapEntry(cfg0, base, path);
    FullMapEntry(cfg, head, path);
    if item.change.Renamed? {
      FullMapEntry(cfg0, base, item.a);
      FullMapEntry(cfg, head, item.a);
      assert path in Paths(item) && item.a in Paths(item);
    } else {
      assert path in Paths(item);
    }
  }

  /** The folded updates yield on an item's own paths what the full map has there iff the item agrees. */
  lemma OwnPathsReached(cfg0: Config, cfg: Config, base: Tree, head: Tree, items: seq<DiffItem>, k: nat)
    requires DiffOf(base, head, items) && k < |items|
    ensures var reached, after := Effects(cfg, head, FullMap(cfg0, base), items), FullMap(cfg, head);
            Agrees(cfg0, cfg, base, head, items[k]) <==>
            forall path :: path in Paths(items[k]) ==> Get(reached, path) == Get(after, path)
  {
    var before := FullMap(cfg0, base);
    assert forall j :: 0 <= j < |items| && items[j].change.Renamed? ==> items[j].b != "" by {
      assert forall j :: 0 <= j < |items| ==> ItemOf(base, head, items[j]);
    }
    assert ItemOf(base, head, items[k]);
    hide Agrees, Effect, Effects, FullMap, Get, DiffOf, ItemOf;
    AgreesOnOwnPaths(cfg0, cfg, base, head, items[k]);
    forall path | path in Paths(items[k])
      ensures Get(Effects(cfg, head, before, items), path) == Get(Effect(cfg, head, before, items[k]), path)
    {
      EffectsAt(cfg, head, before, items, k, path);
    }
  }

  /** A path that no item mentions keeps its entry, which is that of the new full map iff the path is
      indexable under both configurations or under neither. */
  lemma OtherPathsReached(cfg0: Config, cfg: Config, base: Tree, head: Tree, items: seq<DiffItem>, path: string)
    requires DiffOf(base, head, items) && !Mentioned(items, path)
    ensures Get(Effects(cfg, head, FullMap(cfg0, base), items), path) == Get(FullMap(cfg, head), path) <==>
            (Indexable(cfg0, base, path) <==> Indexable(cfg, base, path))
  {
    assert forall j :: 0 <= j < |items| ==> ItemOf(base, head, items[j]);
    assert Get(base, path) == Get(head, path);
    hide Effects, FullMap, ShouldIndex, Walked, DiffOf;
    EffectsAreLocal(cfg, head, FullMap(cfg0, base), items, path);
    FullMapEntry(cfg0, base, path);
    FullMapEntry(cfg, head, path);
  }

  /** The map updates of a diff turn the full map of the old commit into the full map of the new one
      if and only if the guard is satisfied. */
  lemma UpdatesReachFullMap(cfg0: Config, cfg: Config, base: Tree, head: Tree, items: seq<DiffItem>)
    requires DiffOf(base, head, items)
    ensures Effects(cfg, head, FullMap(cfg0, base), items) == FullMap(cfg, head) <==>
            AllAgree(cfg0, cfg, base, head, items)
  {
    hide Agrees, Effects, FullMap, DiffOf, Get, Indexable;
    var reached, after := Effects(cfg, head, FullMap(cfg0, base), items), FullMap(cfg, head);
    forall k | 0 <= k < |items|
      ensures Agrees(cfg0, cfg, base, head, items[k]) <==>
              forall path :: path in Paths(items[k]) ==> Get(reached, path) == Get(after, path)
    {
      OwnPathsReached(cfg0, cfg, base, head, items, k);
    }
    forall path | !Mentioned(items, path)
      ensures Get(reached, path) == Get(after, path) <==>
              (Indexable(cfg0, base, path) <==> Indexable(cfg, base, path))
    {
      OtherPathsReached(cfg0, cfg, base, head, items, path);
    }
    if AllAgree(cfg0, cfg, base, head, items) {
      forall path ensures Get(reached, path) == Get(after, path) {
        if Mentioned(items, path) {
          var k :| 0 <= k < |items| && path in Paths(items[k]);
          assert Agrees(cfg0, cfg, base, head, items[k]);
        }
      }
      SameEntries(reached, after);
    }
  }

  lemma RepresentedOnce(docs: map<DocId, Doc>, texts: map<string, string>, texts': map<string, string>)
    requires Represents(docs, texts) && Represents(docs, texts')
    ensures texts == texts'
  {
    forall path ensures Get(texts, path) == Get(texts', path) {
      if path in texts {
        assert Holds(docs, path);
      } else if path in texts' {
        assert Holds(docs, path);
      }
    }
    SameEntries(texts, texts');
  }

  // ---- The full index ----

  lemma {:induction false} FullDocsMembers(tree: Tree, files: seq<string>, doc: Doc)
    ensures doc in FullDocs(tree, files) <==>
            doc.path in files && Content(tree, doc.path) != "" && doc == Doc(doc.path, Content(tree, doc.path), "full")
  {
    hide Content;
    if files != [] {
      var init, last := files[..|files| - 1], files[|files| - 1];
      FullDocsMembers(tree, init, doc);
      assert doc.path in files <==> doc.path in init || doc.path == last by {
        assert files == init + [last];
      }
    }
  }

  ghost predicate PathsDiffer(docs: seq<Doc>) {
    forall i, j :: 0 <= i < j < |docs| ==> docs[i].path != docs[j].path
  }

  lemma {:induction false} FullDocsDistinct(tree: Tree, files: seq<string>)
    requires Distinct(files)
    ensures PathsDiffer(FullDocs(tree, files))
  {
    if files != [] {
      var n := |files| - 1;
      FullDocsDistinct(tree, files[..n]);
      var docs := FullDocs(tree, files[..n]);
      forall i | 0 <= i < |docs| ensures docs[i].path != files[n] {
        FullDocsMembers(tree, files[..n], docs[i]);
        assert docs[i] in docs;
      }
    }
  }

  ghost predicate FullReached(x: Index, s: Progress) {
    IndexOf(s.w) == Index(x.docs + Fresh(x.next, SubmittedCreates(s.batches)), x.next + |SubmittedCreates(s.batches)|)
  }

  lemma FreshConcat(next: DocId, docs: seq<Doc>, more: seq<Doc>)
    ensures Fresh(next, docs) + Fresh(next + |docs|, more) == Fresh(next, docs + more)
  {
  }

  lemma GrowTwice(docs: map<DocId, Doc>, next: DocId, first: seq<Doc>, second: seq<Doc>)
    ensures docs + Fresh(next, first) + Fresh(next + |first|, second) == docs + Fresh(next, first + second)
  {
    FreshConcat(next, first, second);
    assert docs + Fresh(next, first) + Fresh(next + |first|, second)
        == docs + (Fresh(next, first) + Fresh(next + |first|, second));
  }

  lemma IndexedWell(e: Engine, w: World, docs: seq<Doc>)
    requires e.reply(w.calls).Ok?
    ensures IndexOf(IndexDocuments(e, w, docs)) == Index(w.docs + Fresh(w.next, docs), w.next + |docs|)
  {
    assert docs[..|docs|] == docs;
  }

  lemma FullFlushReached(e: Engine, x: Index, s: Progress, least: nat)
    requires FullReached(x, s) && FlushCreates(e, s, least).errors == []
    ensures FullReached(x, FlushCreates(e, s, least))
  {
    hide Fresh, SubmittedCreates, SubmittedUpdates, SubmittedDeletes, IndexDocuments, Stored;
    if least <= |s.creates| {
      IndexedWell(e, s.w, s.creates);
      SubmittedOneMore(s.batches, CreateBatch(s.creates));
      GrowTwice(x.docs, x.next, SubmittedCreates(s.batches), s.creates);
    }
  }

  lemma {:induction false} FullLoopReached(e: Engine, tree: Tree, w: World, files: seq<string>)
    requires FullLoop(e, tree, w, files).errors == []
    ensures FullReached(IndexOf(w), FullLoop(e, tree, w, files))
  {
    if files == [] {
      assert w.docs + Fresh(w.next, []) == w.docs;
    } else {
      var init, path := files[..|files| - 1], files[|files| - 1];
      var s := FullLoop(e, tree, w, init);
      FullLoopReached(e, tree, w, init);
      var text := Content(tree, path);
      FullFlushReached(e, IndexOf(w), Push(s, if text == "" then None
          else Some(Create(Doc(path, text, "full")))), BATCH);
    }
  }

  /** A full index without errors adds one fresh document per readable file. */
  lemma FullRunAdds(e: Engine, tree: Tree, w: World, files: seq<string>)
    requires FullRun(e, tree, w, files).errors == []
    ensures IndexOf(FullRun(e, tree, w, files).w) ==
            Index(w.docs + Fresh(w.next, FullDocs(tree, files)), w.next + |FullDocs(tree, files)|)
  {
    FullLoopReached(e, tree, w, files);
    FullFlushReached(e, IndexOf(w), FullLoop(e, tree, w, files), 1);
    FullBatches(e, tree, w, files);
  }

  /** The documents list the entries of the map, each entry at least once. */
  ghost predicate Lists(built: seq<Doc>, texts: map<string, string>) {
    && (forall k :: 0 <= k < |built| ==> Get(texts, built[k].path) == Some(built[k].text))
    && (forall path :: path in texts ==> exists k :: 0 <= k < |built| && built[k].path == path)
  }

  lemma FreshRepresents(next: DocId, built: seq<Doc>, texts: map<string, string>)
    requires PathsDiffer(built) && Lists(built, texts)
    ensures Represents(Fresh(next, built), texts)
  {
    var docs := Fresh(next, built);
    forall i, j | i in docs && j in docs && docs[i].path == docs[j].path ensures i == j {
      assert docs[i] == built[i - next] && docs[j] == built[j - next];
    }
    forall path | path in texts ensures Holds(docs, path) {
      var k :| 0 <= k < |built| && built[k].path == path;
      assert next + k in docs && docs[next + k] == built[k];
    }
  }

  lemma FullDocsAreFullMap(cfg: Config, tree: Tree, walk: seq<WalkEntry>)
    requires WalkOf(cfg, tree, walk)
    ensures Lists(FullDocs(tree, RepositoryFiles(cfg, walk)), FullMap(cfg, tree))
  {
    var files := RepositoryFiles(cfg, walk);
    var built := FullDocs(tree, files);
    FilesOfTree(cfg, tree, walk);
    forall k | 0 <= k < |built| ensures Get(FullMap(cfg, tree), built[k].path) == Some(built[k].text) {
      FullDocsMembers(tree, files, built[k]);
      assert built[k] in built;
    }
    forall path | path in FullMap(cfg, tree)
      ensures exists k :: 0 <= k < |built| && built[k].path == path
    {
      var doc := Doc(path, Content(tree, path), "full");
      FullDocsMembers(tree, files, doc);
      assert doc in built;
    }
  }

  lemma BuiltRepresents(cfg: Config, tree: Tree, walk: seq<WalkEntry>, next: DocId)
    requires WalkOf(cfg, tree, walk)
    ensures Represents(Fresh(next, FullDocs(tree, RepositoryFiles(cfg, walk))), FullMap(cfg, tree))
  {
    hide RepositoryFiles, FullDocs, FullMap, WalkOf, Represents, Fresh, Lists, PathsDiffer;
    var built := FullDocs(tree, RepositoryFiles(cfg, walk));
    FilesOfTree(cfg, tree, walk);
    FullDocsDistinct(tree, RepositoryFiles(cfg, walk));
    FullDocsAreFullMap(cfg, tree, walk);
    FreshRepresents(next, built, FullMap(cfg, tree));
  }

  /** A full index of an empty store represents the full map of the commit. */
  lemma FullMeaning(e: Engine, cfg: Config, tree: Tree, w: World, walk: seq<WalkEntry>)
    requires WalkOf(cfg, tree, walk) && w.docs == map[]
    requires FullRun(e, tree, w, RepositoryFiles(cfg, walk)).errors == []
    ensures Represents(FullRun(e, tree, w, RepositoryFiles(cfg, walk)).w.docs, FullMap(cfg, tree))
  {
    hide FullRun, FullDocs, RepositoryFiles, FullMap, Represents, WalkOf, Fresh;
    var built := FullDocs(tree, RepositoryFiles(cfg, walk));
    FullRunAdds(e, tree, w, RepositoryFiles(cfg, walk));
    BuiltRepresents(cfg, tree, walk, w.next);
    assert w.docs + Fresh(w.next, built) == Fresh(w.next, built);
  }

  // ---- Main results ----

  /** Incremental indexing agrees with full indexing on one diff if and only if the guard is satisfied: from
      an index that represents the old commit under the configuration of its run, a run of the diff
      without errors leaves an index that represents the new commit exactly then. */
  lemma IncrementalAgreesIff(e: Engine, cfg0: Config, cfg: Config, base: Tree, head: Tree, w: World,
                             items: seq<DiffItem>)
    requires e.Valid() && w.Valid() && DiffOf(base, head, items)
    requires Represents(w.docs, FullMap(cfg0, base))
    requires DiffRun(e, cfg, head, w, items).errors == []
    ensures Represents(DiffRun(e, cfg, head, w, items).w.docs, FullMap(cfg, head)) <==>
            AllAgree(cfg0, cfg, base, head, items)
  {
    hide DiffRun, Represents, AllAgree, Effects;
    var before := FullMap(cfg0, base);
    IncrementalMeaning(e, cfg, base, head, w, before, items);
    UpdatesReachFullMap(cfg0, cfg, base, head, items);
    var docs := DiffRun(e, cfg, head, w, items).w.docs;
    if Represents(docs, FullMap(cfg, head)) {
      RepresentedOnce(docs, FullMap(cfg, head), Effects(cfg, head, before, items));
    }
  }

  /** The path-to-text pairs of an index, with multiplicity read off by id. */
  ghost predicate SameTexts(docs: map<DocId, Doc>, docs': map<DocId, Doc>) {
    exists texts :: Represents(docs, texts) && Represents(docs', texts)
  }

  /** The incremental result and the result of a full index of another run with the same patterns, on an
      empty store, hold the same path-to-text map if and only if the guard is satisfied. */
  lemma IncrementalEqualsFullIff(e: Engine, e': Engine, cfg0: Config, cfg: Config, cfg': Config, base: Tree, head: Tree,
                                 w: World, empty: World, items: seq<DiffItem>, walk: seq<WalkEntry>)
    requires e.Valid() && w.Valid() && DiffOf(base, head, items)
    requires SameFilter(cfg, cfg') && WalkOf(cfg', head, walk)
    requires Represents(w.docs, FullMap(cfg0, base)) && empty.docs == map[]
    requires DiffRun(e, cfg, head, w, items).errors == []
    requires FullRun(e', head, empty, RepositoryFiles(cfg', walk)).errors == []
    ensures SameTexts(DiffRun(e, cfg, head, w, items).w.docs,
                      FullRun(e', head, empty, RepositoryFiles(cfg', walk)).w.docs) <==>
            AllAgree(cfg0, cfg, base, head, items)
  {
    hide DiffRun, FullRun, RepositoryFiles, FullMap, Represents, AllAgree, WalkOf, DiffOf;
    IncrementalAgreesIff(e, cfg0, cfg, base, head, w, items);
    FullMeaning(e', cfg', head, empty, walk);
    SameFilterSameMap(cfg, cfg', head);
    var docs := DiffRun(e, cfg, head, w, items).w.docs;
    var docs' := FullRun(e', head, empty, RepositoryFiles(cfg', walk)).w.docs;
    if texts :| Represents(docs, texts) && Represents(docs', texts) {
      RepresentedOnce(docs', texts, FullMap(cfg, head));
    }
  }

  /** One link of a chain of incremental runs: its configuration, the commit reached, its diff from the one
      before, and the engine's replies during the run. */
  datatype Link = Link(cfg: Config, tree: Tree, items: seq<DiffItem>, e: Engine)

  function TreeBefore(first: Tree, chain: seq<Link>): Tree {
    if chain == [] then first else chain[|chain| - 1].tree
  }

  function ConfigBefore(cfg0: Config, chain: seq<Link>): Config {
    if chain == [] then cfg0 else chain[|chain| - 1].cfg
  }

  /** The store after a chain of incremental runs. */
  function RunChain(w: World, chain: seq<Link>): World {
    if chain == [] then w
    else
      var last := chain[|chain| - 1];
      DiffRun(last.e, last.cfg, last.tree, RunChain(w, chain[..|chain| - 1]), last.items).w
  }

  /** A true diff and a run of it without errors. */
  ghost predicate TrueLink(before: Tree, w: World, link: Link) {
    && link.e.Valid()
    && DiffOf(before, link.tree, link.items)
    && DiffRun(link.e, link.cfg, link.tree, w, link.items).errors == []
  }

  ghost predicate GoodChain(cfg0: Config, first: Tree, w: World, chain: seq<Link>) {
    chain != [] ==>
      var init, last := chain[..|chain| - 1], chain[|chain| - 1];
      && GoodChain(cfg0, first, w, init)
      && TrueLink(TreeBefore(first, init), RunChain(w, init), last)
      && AllAgree(ConfigBefore(cfg0, init), last.cfg, TreeBefore(first, init), last.tree, last.items)
  }

  lemma LinkKeepsValid(w: World, before: Tree, link: Link)
    requires w.Valid() && TrueLink(before, w, link)
    ensures DiffRun(link.e, link.cfg, link.tree, w, link.items).w.Valid()
  {
    hide DiffRun;
    FlushTimingIsIrrelevant(link.e, link.cfg, link.tree, w, link.items);
    ImmediateIsValid(link.e, link.cfg, link.tree, IndexOf(w), link.items);
    assert IndexOf(DiffRun(link.e, link.cfg, link.tree, w, link.items).w).Valid();
  }

  /** Over any chain of commits that satisfies the guard, each run in its own work directory and with the
      patterns of its time, incremental runs without errors keep the index equal to a full index of the
      commit reached under the patterns then in force. */
  lemma {:induction false} ChainAgrees(cfg0: Config, first: Tree, w: World, chain: seq<Link>)
    requires w.Valid() && Represents(w.docs, FullMap(cfg0, first)) && GoodChain(cfg0, first, w, chain)
    ensures RunChain(w, chain).Valid()
    ensures Represents(RunChain(w, chain).docs, FullMap(ConfigBefore(cfg0, chain), TreeBefore(first, chain)))
  {
    hide DiffRun, FullMap, Represents, AllAgree;
    if chain != [] {
      var init, last := chain[..|chain| - 1], chain[|chain| - 1];
      ChainAgrees(cfg0, first, w, init);
      var before := RunChain(w, init);
      IncrementalAgreesIff(last.e, ConfigBefore(cfg0, init), last.cfg, TreeBefore(first, init), last.tree, before,
                           last.items);
      LinkKeepsValid(before, TreeBefore(first, init), last);
    }
  }
}
