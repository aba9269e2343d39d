/**
  What a run with failed calls leaves out, and when a cleared error flag or an edit of the patterns
  hides it: the exact conditions.
 */
module LostFiles {
  import opened Options
  import opened RagStore
  import opened GitFiles
  import opened GitDiff
  import opened FlushTiming
  import opened GitAgreement
  import opened Coverage
  import opened Conditions
  import GitHandler
  import opened FailedRuns
  import opened IndexHistory

  // ---- Stored and lost documents of a full run ----

  /** How many documents of batch k were stored, when its call had number `from` + k. */
  function Kept(e: Engine, from: nat, batches: seq<Batch>, k: nat): (n: nat)
    requires k < |batches|
    ensures n <= Size(batches[k])
  {
    Stored(e.reply(from + k), Size(batches[k]))
  }

  /** Every index call stored all it was given, whether or not it was answered. */
  predicate AllStored(e: Engine, from: nat, batches: seq<Batch>) {
    forall k :: 0 <= k < |batches| ==> Kept(e, from, batches, k) == Size(batches[k])
  }

  function KeptDocs(e: Engine, from: nat, batches: seq<Batch>): seq<Doc> {
    if batches == [] then []
    else
      var n := |batches| - 1;
      KeptDocs(e, from, batches[..n]) +
      (if batches[n].CreateBatch? then batches[n].docs[..Kept(e, from, batches, n)] else [])
  }

  /** The documents that were submitted and not stored. */
  function LostDocs(e: Engine, from: nat, batches: seq<Batch>): seq<Doc> {
    if batches == [] then []
    else
      var n := |batches| - 1;
      LostDocs(e, from, batches[..n]) +
      (if batches[n].CreateBatch? then batches[n].docs[Kept(e, from, batches, n)..] else [])
  }

  ghost predicate OnlyCreates(batches: seq<Batch>) {
    forall k :: 0 <= k < |batches| ==> batches[k].CreateBatch?
  }

  lemma {:induction false} NothingLostIff(e: Engine, from: nat, batches: seq<Batch>)
    requires OnlyCreates(batches)
    ensures LostDocs(e, from, batches) == [] <==> AllStored(e, from, batches)
  {
    if batches != [] {
      var n := |batches| - 1;
      var init := batches[..n];
      NothingLostIff(e, from, init);
      assert batches[n].CreateBatch?;
      assert forall k :: 0 <= k < n ==> init[k] == batches[k] && Kept(e, from, init, k) == Kept(e, from, batches, k);
    }
  }

  /** Each submitted document is stored or lost. */
  lemma {:induction false} KeptOrLost(e: Engine, from: nat, batches: seq<Batch>)
    ensures multiset(KeptDocs(e, from, batches)) + multiset(LostDocs(e, from, batches)) ==
            multiset(SubmittedCreates(batches))
  {
    if batches != [] {
      var n := |batches| - 1;
      KeptOrLost(e, from, batches[..n]);
      if batches[n].CreateBatch? {
        var docs, k := batches[n].docs, Kept(e, from, batches, n);
        assert docs == docs[..k] + docs[k..];
      }
    }
  }

  lemma OneMoreBatch(e: Engine, from: nat, batches: seq<Batch>, docs: seq<Doc>)
    ensures var more := batches + [CreateBatch(docs)];
            var n := Stored(e.reply(from + |batches|), |docs|);
            KeptDocs(e, from, more) == KeptDocs(e, from, batches) + docs[..n]
  {
    var more := batches + [CreateBatch(docs)];
    assert more[..|batches|] == batches;
  }

  /** The store is the one before the run with the kept documents under fresh ids, one call per batch. */
  ghost predicate KeptReached(e: Engine, w: World, s: Progress) {
    && s.w.calls == w.calls + |s.batches|
    && IndexOf(s.w) == Index(w.docs + Fresh(w.next, KeptDocs(e, w.calls, s.batches)),
                             w.next + |KeptDocs(e, w.calls, s.batches)|)
    && OnlyCreates(s.batches)
  }

  lemma FlushKeptReached(e: Engine, w: World, s: Progress, least: nat)
    requires KeptReached(e, w, s)
    ensures KeptReached(e, w, FlushCreates(e, s, least))
  {
    hide Fresh, KeptDocs, Stored;
    if least <= |s.creates| {
      var n := Stored(e.reply(s.w.calls), |s.creates|);
      OneMoreBatch(e, w.calls, s.batches, s.creates);
      GrowTwice(w.docs, w.next, KeptDocs(e, w.calls, s.batches), s.creates[..n]);
    }
  }

  lemma {:induction false} LoopKeptReached(e: Engine, tree: Tree, w: World, files: seq<string>)
    ensures KeptReached(e, w, FullLoop(e, tree, w, files))
  {
    if files == [] {
      assert w.docs + Fresh(w.next, []) == w.docs;
    } else {
      hide KeptDocs, Fresh, FlushCreates;
      var init, path := files[..|files| - 1], files[|files| - 1];
      var s := FullLoop(e, tree, w, init);
      LoopKeptReached(e, tree, w, init);
      var text := Content(tree, path);
      FlushKeptReached(e, w, Push(s, if text == "" then None else Some(Create(Doc(path, text, "full")))), BATCH);
    }
  }

  /** Whatever fails, a full run adds exactly the kept documents, which with the lost ones are all it built. */
  lemma FullRunKeeps(e: Engine, tree: Tree, w: World, files: seq<string>)
    ensures var s := FullRun(e, tree, w, files);
            && KeptReached(e, w, s)
            && multiset(KeptDocs(e, w.calls, s.batches)) + multiset(LostDocs(e, w.calls, s.batches)) ==
               multiset(FullDocs(tree, files))
  {
    hide KeptDocs, LostDocs, FullDocs, FullLoop, FlushCreates, KeptReached, SubmittedCreates;
    LoopKeptReached(e, tree, w, files);
    FlushKeptReached(e, w, FullLoop(e, tree, w, files), 1);
    FullBatches(e, tree, w, files);
    KeptOrLost(e, w.calls, FullRun(e, tree, w, files).batches);
  }

  // ---- Coverage ----

  lemma PathsDifferOnce(docs: seq<Doc>, doc: Doc)
    requires PathsDiffer(docs) && doc in docs
    ensures multiset(docs)[doc] == 1
    ensures forall other :: other in docs && other.path == doc.path ==> other == doc
  {
    var k :| 0 <= k < |docs| && docs[k] == doc;
    assert docs == docs[..k] + [doc] + docs[k + 1..];
    assert doc !in docs[..k] && doc !in docs[k + 1..];
  }

  /** A lost document's path is under no stored one. */
  lemma LostPathIsNotKept(built: seq<Doc>, kept: seq<Doc>, lost: seq<Doc>, doc: Doc)
    requires PathsDiffer(built) && multiset(kept) + multiset(lost) == multiset(built) && doc in lost
    ensures doc in built && forall other :: other in kept ==> other.path != doc.path
  {
    assert doc in multiset(built) && doc in built;
    PathsDifferOnce(built, doc);
    assert multiset(lost)[doc] >= 1;
    assert multiset(kept)[doc] == 0;
    assert doc !in kept;
    forall other | other in kept ensures other.path != doc.path {
      assert other in multiset(kept);
      assert other in multiset(built) && other in built;
    }
  }

  lemma GrownText(docs: map<DocId, Doc>, next: DocId, kept: seq<Doc>, path: string, text: string)
    requires forall id :: id in docs ==> id < next
    ensures HasText(docs + Fresh(next, kept), path, text) <==>
            HasText(docs, path, text) || exists k :: 0 <= k < |kept| && kept[k].path == path && kept[k].text == text
  {
    var grown := docs + Fresh(next, kept);
    if id :| id in docs && docs[id].path == path && docs[id].text == text {
      assert id in grown && grown[id] == docs[id];
    }
    if k :| 0 <= k < |kept| && kept[k].path == path && kept[k].text == text {
      assert next + k in grown && grown[next + k] == kept[k];
    }
    if id :| id in grown && grown[id].path == path && grown[id].text == text {
      assert id < next ==> grown[id] == docs[id];
      assert id >= next ==> grown[id] == kept[id - next];
    }
  }

  /** Every lost document's text was in the index before the run. */
  ghost predicate LossesKnown(docs: map<DocId, Doc>, lost: seq<Doc>) {
    forall k :: 0 <= k < |lost| ==> HasText(docs, lost[k].path, lost[k].text)
  }

  lemma KeptTextsCovered(cfg: Config, tree: Tree, w: World, built: seq<Doc>, kept: seq<Doc>, lost: seq<Doc>,
                         path: string)
    requires w.Valid() && Lists(built, FullMap(cfg, tree)) && Indexable(cfg, tree, path)
    requires multiset(kept) + multiset(lost) == multiset(built) && LossesKnown(w.docs, lost)
    ensures HasText(w.docs + Fresh(w.next, kept), path, Content(tree, path))
  {
    hide Indexable, FullMap, Fresh;
    FullMapEntry(cfg, tree, path);
    assert path in FullMap(cfg, tree);
    var k :| 0 <= k < |built| && built[k].path == path;
    assert Get(FullMap(cfg, tree), built[k].path) == Some(built[k].text);
    assert built[k] in multiset(built);
    GrownText(w.docs, w.next, kept, path, Content(tree, path));
    if built[k] in lost {
      var j :| 0 <= j < |lost| && lost[j] == built[k];
      assert HasText(w.docs, lost[j].path, lost[j].text);
    } else {
      assert built[k] in multiset(kept) && built[k] in kept;
    }
  }

  lemma LossesWereKnown(cfg: Config, tree: Tree, w: World, built: seq<Doc>, kept: seq<Doc>, lost: seq<Doc>, j: nat)
    requires w.Valid() && Lists(built, FullMap(cfg, tree)) && PathsDiffer(built) && j < |lost|
    requires multiset(kept) + multiset(lost) == multiset(built)
    requires Covers(cfg, tree, w.docs + Fresh(w.next, kept))
    ensures HasText(w.docs, lost[j].path, lost[j].text)
  {
    hide Indexable, FullMap, Fresh;
    LostPathIsNotKept(built, kept, lost, lost[j]);
    var k :| 0 <= k < |built| && built[k] == lost[j];
    assert Get(FullMap(cfg, tree), built[k].path) == Some(built[k].text);
    FullMapEntry(cfg, tree, lost[j].path);
    assert Indexable(cfg, tree, lost[j].path) && Content(tree, lost[j].path) == lost[j].text;
    GrownText(w.docs, w.next, kept, lost[j].path, lost[j].text);
  }

  /** The documents a full run builds list the full map, each path once. */
  lemma BuiltListsMap(cfg: Config, tree: Tree, walk: seq<WalkEntry>)
    requires WalkOf(cfg, tree, walk)
    ensures var built := FullDocs(tree, RepositoryFiles(cfg, walk));
            Lists(built, FullMap(cfg, tree)) && PathsDiffer(built)
  {
    hide FullDocs, RepositoryFiles, FullMap, WalkOf, PathsDiffer, Lists;
    FilesOfTree(cfg, tree, walk);
    FullDocsDistinct(tree, RepositoryFiles(cfg, walk));
    FullDocsAreFullMap(cfg, tree, walk);
  }

  /** Whatever fails, a full run covers its commit if and only if the index had the text of every document
      that was submitted and not stored. */
  lemma FullRunCoversIff(e: Engine, cfg: Config, tree: Tree, w: World, walk: seq<WalkEntry>)
    requires WalkOf(cfg, tree, walk) && w.Valid()
    ensures var s := FullRun(e, tree, w, RepositoryFiles(cfg, walk));
            Covers(cfg, tree, s.w.docs) <==> LossesKnown(w.docs, LostDocs(e, w.calls, s.batches))
  {
    hide FullRun, FullDocs, RepositoryFiles, FullMap, WalkOf, KeptDocs, LostDocs, Lists, PathsDiffer, Indexable, Fresh;
    var s := FullRun(e, tree, w, RepositoryFiles(cfg, walk));
    var built := FullDocs(tree, RepositoryFiles(cfg, walk));
    var kept, lost := KeptDocs(e, w.calls, s.batches), LostDocs(e, w.calls, s.batches);
    FullRunKeeps(e, tree, w, RepositoryFiles(cfg, walk));
    BuiltListsMap(cfg, tree, walk);
    assert s.w.docs == w.docs + Fresh(w.next, kept);
    if LossesKnown(w.docs, lost) {
      forall path | Indexable(cfg, tree, path) ensures HasText(s.w.docs, path, Content(tree, path)) {
        KeptTextsCovered(cfg, tree, w, built, kept, lost, path);
      }
    }
    if Covers(cfg, tree, s.w.docs) {
      forall j | 0 <= j < |lost| ensures HasText(w.docs, lost[j].path, lost[j].text) {
        LossesWereKnown(cfg, tree, w, built, kept, lost, j);
      }
    }
  }

  /** On an empty index that is: if and only if every call stored all it was given. */
  lemma FirstRunCoversIff(e: Engine, cfg: Config, tree: Tree, w: World, walk: seq<WalkEntry>)
    requires WalkOf(cfg, tree, walk) && w.Valid() && w.docs == map[]
    ensures var s := FullRun(e, tree, w, RepositoryFiles(cfg, walk));
            Covers(cfg, tree, s.w.docs) <==> AllStored(e, w.calls, s.batches)
  {
    hide FullRun, RepositoryFiles, WalkOf, Covers, LostDocs;
    var s := FullRun(e, tree, w, RepositoryFiles(cfg, walk));
    FullRunCoversIff(e, cfg, tree, w, walk);
    FullRunKeeps(e, tree, w, RepositoryFiles(cfg, walk));
    NothingLostIff(e, w.calls, s.batches);
    var lost := LostDocs(e, w.calls, s.batches);
    if lost != [] {
      assert !HasText(w.docs, lost[0].path, lost[0].text);
    }
  }

  // ---- A cleared flag ----

  /** The run takes the full way. */
  ghost predicate TakesFull(s: System, run: Run) {
    var c := run.checkout;
    c.ok && (c.pinned || s.status.lastCommit == "" || HadErrors(s.status.conditions) || c.diff.BadName?)
  }

  /** A later run at the same commit with the same patterns. */
  ghost predicate SameCommit(first: Run, second: Run) {
    && second.checkout.ok && second.checkout.head == first.checkout.head && !second.checkout.pinned
    && second.checkout.diff == GitHandler.Diffed([]) && SameFilter(first.cfg, second.cfg)
  }

  lemma SameFilterSameCoverage(cfg: Config, cfg': Config, tree: Tree, docs: map<DocId, Doc>)
    requires SameFilter(cfg, cfg')
    ensures Covers(cfg, tree, docs) <==> Covers(cfg', tree, docs)
  {
    hide Indexable, SameFilter;
    forall path ensures Indexable(cfg, tree, path) <==> Indexable(cfg', tree, path) {
      SameFilterSameFiles(cfg, cfg', tree, path);
    }
  }

  /** A full run, with any of its calls failing, then an ordinary reconcile, then a run at the same commit:
      that run records no error, the flag is down and the commit recorded; and the invariant holds
      if and only if the index had the text of every document that was not stored. */
  lemma ClearedFlagSoundIff(commits: Commits, cfg0: Config, s: System, first: Run, now: nat, second: Run)
    requires s.w.Valid() && DistinctKinds(s.status.conditions) && TakesFull(s, first)
    requires TrueCheckout(commits, cfg0, s.status.lastCommit, first) && SameCommit(first, second)
    ensures var ran := FullRun(first.e, first.checkout.tree, s.w, RepositoryFiles(first.cfg, first.checkout.walk));
            var cleared := After(AfterRun(s, first), Reconcile(now));
            var last := AfterRun(cleared, second);
            && OutcomeOfRun(cleared, second).errors == []
            && !HadErrors(last.status.conditions) && last.status.lastCommit == first.checkout.head
            && last.w == ran.w
            && (Sound(commits, second.cfg, last) <==>
                LossesKnown(s.w.docs, LostDocs(first.e, s.w.calls, ran.batches)))
  {
    hide FullRun, RepositoryFiles, Covers, LostDocs, DistinctKinds, HadErrors;
    var c := first.checkout;
    var ran := FullRun(first.e, c.tree, s.w, RepositoryFiles(first.cfg, c.walk));
    assert OutcomeOfRun(s, first) == GitHandler.OutcomeOf(ran);
    FlagAfterRun(s.status, c, ran.errors != [], first.now);
    EmptyDiffRun(AfterRun(s, first), second, now);
    RunKeepsValid(first.e, first.cfg, s.w, c, s.status.lastCommit, HadErrors(s.status.conditions));
    FullRunCoversIff(first.e, first.cfg, c.tree, s.w, c.walk);
    SameFilterSameCoverage(first.cfg, second.cfg, c.tree, ran.w.docs);
  }

  /** For a first run on an empty index: if and only if every call stored all it was given. */
  lemma ClearedFirstRunSoundIff(commits: Commits, cfg0: Config, s: System, first: Run, now: nat, second: Run)
    requires s.w.docs == map[] && s.w.Valid() && s.status == Status([], "") && first.checkout.ok
    requires TrueCheckout(commits, cfg0, "", first) && SameCommit(first, second)
    ensures var ran := FullRun(first.e, first.checkout.tree, s.w, RepositoryFiles(first.cfg, first.checkout.walk));
            var last := AfterRun(After(AfterRun(s, first), Reconcile(now)), second);
            && !HadErrors(last.status.conditions) && last.status.lastCommit == first.checkout.head
            && (Sound(commits, second.cfg, last) <==> AllStored(first.e, s.w.calls, ran.batches))
  {
    hide FullRun, RepositoryFiles, Covers, LostDocs;
    var c := first.checkout;
    ClearedFlagSoundIff(commits, cfg0, s, first, now, second);
    FullRunCoversIff(first.e, first.cfg, c.tree, s.w, c.walk);
    FirstRunCoversIff(first.e, first.cfg, c.tree, s.w, c.walk);
  }

  /** The run takes the incremental way. */
  ghost predicate TakesDiff(s: System, run: Run) {
    && run.checkout.ok && !run.checkout.pinned && run.checkout.diff.Diffed?
    && s.status.lastCommit != "" && !HadErrors(s.status.conditions)
  }

  /** The same for an incremental run from a sound state, with any of its calls failing: the invariant holds in
      the end if and only if no document that was submitted and not stored is about a file of the commit
      whose text the index did not have.  Failed lookups and deletions do no harm. */
  lemma ClearedDiffSoundIff(commits: Commits, cfg0: Config, s: System, first: Run, now: nat, second: Run)
    requires Sound(commits, cfg0, s) && DistinctKinds(s.status.conditions) && TakesDiff(s, first)
    requires TrueCheckout(commits, cfg0, s.status.lastCommit, first) && SameCommit(first, second)
    ensures var items, tree := first.checkout.diff.items, first.checkout.tree;
            var ran := DiffRun(first.e, first.cfg, tree, s.w, items);
            var cleared := After(AfterRun(s, first), Reconcile(now));
            var last := AfterRun(cleared, second);
            && OutcomeOfRun(cleared, second).errors == []
            && !HadErrors(last.status.conditions) && last.status.lastCommit == first.checkout.head
            && last.w == ran.w
            && (Sound(commits, second.cfg, last) <==>
                LossesHarmless(first.cfg, tree, s.w.docs, LostInRun(first.e, first.cfg, tree, s.w, items)))
  {
    hide DiffRun, Covers, LostInRun, DistinctKinds, HadErrors, LossesHarmless, Harmless, DiffOf, WalkOf;
    var c, base := first.checkout, commits(s.status.lastCommit);
    var ran := DiffRun(first.e, first.cfg, c.tree, s.w, c.diff.items);
    assert OutcomeOfRun(s, first) == GitHandler.OutcomeOf(ran);
    FlagAfterRun(s.status, c, ran.errors != [], first.now);
    EmptyDiffRun(AfterRun(s, first), second, now);
    RunKeepsValid(first.e, first.cfg, s.w, c, s.status.lastCommit, HadErrors(s.status.conditions));
    FailedDiffCoversIff(first.e, cfg0, first.cfg, base, c.tree, s.w, c.diff.items);
    SameFilterSameCoverage(first.cfg, second.cfg, c.tree, ran.w.docs);
  }

  // ---- An edit of the patterns ----

  /** A run at the recorded commit after the patterns were edited finds an empty diff and records no error; the
      commit is covered under the new patterns if and only if they admit no file that the old ones left
      out. */
  lemma EditedPatternsSoundIff(commits: Commits, cfg0: Config, s: System, run: Run)
    requires s.w.Valid() && DistinctKinds(s.status.conditions) && !HadErrors(s.status.conditions)
    requires s.status.lastCommit != "" && Represents(s.w.docs, FullMap(cfg0, commits(s.status.lastCommit)))
    requires run.checkout.ok && run.checkout.head == s.status.lastCommit && !run.checkout.pinned
    requires run.checkout.diff == GitHandler.Diffed([])
    ensures var last := AfterRun(s, run);
            var tree := commits(s.status.lastCommit);
            && OutcomeOfRun(s, run).errors == [] && last.w == s.w
            && !HadErrors(last.status.conditions) && last.status.lastCommit == s.status.lastCommit
            && (Sound(commits, run.cfg, last) <==>
                forall path :: Indexable(run.cfg, tree, path) ==> Indexable(cfg0, tree, path))
  {
    hide Represents, FullMap, Indexable, DistinctKinds, HadErrors;
    var tree := commits(s.status.lastCommit);
    FlagAfterRun(s.status, run.checkout, false, run.now);
    assert OutcomeOfRun(s, run) == GitHandler.Outcome(s.w, []);
    forall path | Indexable(run.cfg, tree, path)
      ensures HasText(s.w.docs, path, Content(tree, path)) <==> Indexable(cfg0, tree, path)
    {
      RepresentedText(s.w.docs, FullMap(cfg0, tree), path, Content(tree, path));
      FullMapEntry(cfg0, tree, path);
    }
  }

  /** So after an error-free first run, patterns that newly admit a readable file lose it: the next run at the
      commit records no error and the flag stays down. */
  lemma EditedPatternsLoseFile(commits: Commits, cfg0: Config, s: System, first: Run, second: Run, path: string)
    requires s.w.docs == map[] && s.w.Valid() && s.status == Status([], "")
    requires TrueCheckout(commits, cfg0, "", first) && first.checkout.ok && OutcomeOfRun(s, first).errors == []
    requires second.checkout == first.checkout.(diff := GitHandler.Diffed([]), pinned := false)
    requires Indexable(second.cfg, first.checkout.tree, path) && !Indexable(first.cfg, first.checkout.tree, path)
    ensures var s1 := AfterRun(s, first);
            var last := AfterRun(s1, second);
            && Sound(commits, first.cfg, s1)
            && OutcomeOfRun(s1, second).errors == [] && !HadErrors(last.status.conditions)
            && last.status.lastCommit == first.checkout.head && !Sound(commits, second.cfg, last)
  {
    hide FullMap, Indexable, Represents, RepositoryFiles, FullRun, Covers;
    var c := first.checkout;
    var s1 := AfterRun(s, first);
    FlagAfterRun(s.status, c, false, first.now);
    RunKeepsValid(first.e, first.cfg, s.w, c, "", false);
    FullMeaning(first.e, first.cfg, c.tree, s.w, c.walk);
    ExactCovers(first.cfg, c.tree, s1.w.docs);
    EditedPatternsSoundIff(commits, first.cfg, s1, second);
  }
}
