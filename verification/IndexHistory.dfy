/**
  The index over a whole history: job runs whose calls may all fail, drift remediations, and
  the controller's ordinary reconciles.  The job is main.py's run with the status writes of
  handler.py and k8s_client.py; the error flag it leaves is what makes the next run full.
 */
module IndexHistory {
  import opened Options
  import opened RagStore
  import opened GitFiles
  import opened GitDiff
  import opened GitAgreement
  import GitHandler
  import opened Coverage
  import opened Conditions

  type Checkout = GitHandler.Checkout

  /** Commit hashes to trees; "" is no commit. */
  type Commits = string -> Tree

  datatype Status = Status(conditions: seq<Condition>, lastCommit: string)

  datatype System = System(w: World, status: Status)

  /** One run of the job: its configuration, with the patterns read from the object at its start and a work
      directory of its own, the engine's replies, the checkout, the time it runs at. */
  datatype Run = Run(cfg: Config, e: Engine, checkout: Checkout, now: nat)

  /** The four conditions of _create_base_autoindexer_status_update, in writing order. */
  function BaseConditions(failed: bool, now: nat): seq<Condition> {
    [Condition(SucceededKind, True, IndexingCompleted, now),
     if failed then Condition(ErrorKind, True, IndexingErrors, now)
     else Condition(ErrorKind, False, IndexingCompleted, now),
     Condition(FailedKind, False, IndexingCompleted, now),
     Condition(IndexingKind, False, IndexingCompleted, now)]
  }

  function Started(now: nat): Condition {
    Condition(IndexingKind, True, IndexingStarted, now)
  }

  function Ended(failed: bool, now: nat): Condition {
    if failed then Condition(ErrorKind, True, IndexingErrors, now)
    else Condition(IndexingKind, False, IndexingCompleted, now)
  }

  /** The status after a run that recorded errors or not. */
  function StatusAfter(st: Status, checkout: Checkout, failed: bool, now: nat): Status {
    var started := Write(AddStatus, st.conditions, Started(now));
    var merged := WriteEach(BaseUpdate, started, BaseConditions(failed, now));
    Status(Write(AddStatus, merged, Ended(failed, now)),
           if checkout.ok then checkout.head else st.lastCommit)
  }

  function OutcomeOfRun(s: System, run: Run): GitHandler.Outcome {
    GitHandler.UpdateRun(run.e, run.cfg, s.w, run.checkout, s.status.lastCommit, HadErrors(s.status.conditions))
  }

  function AfterRun(s: System, run: Run): System {
    var outcome := OutcomeOfRun(s, run);
    System(outcome.w, StatusAfter(s.status, run.checkout, outcome.errors != [], run.now))
  }

  /** The custom resource's status as the job writes it through AutoIndexerK8sClient. */
  class Resource {
    const conditions: ConditionList
    var lastCommit: string

    constructor (conditions: ConditionList, lastCommit: string)
      ensures this.conditions == conditions && this.lastCommit == lastCommit
    {
      this.conditions, this.lastCommit := conditions, lastCommit;
    }

    function View(): Status
      reads this, conditions
    {
      Status(conditions.items, lastCommit)
    }

    /** update_autoindexer_status of the git handler: conditions and commit in one write. */
    method UpdateAutoindexerStatus(checkout: Checkout, failed: bool, now: nat)
      modifies this, conditions
      ensures conditions.items == WriteEach(BaseUpdate, old(conditions.items), BaseConditions(failed, now))
      ensures lastCommit == if checkout.ok then checkout.head else old(lastCommit)
    {
      conditions.MergeBaseConditions(BaseConditions(failed, now));
      if checkout.ok {
        lastCommit := checkout.head;
      }
    }
  }

  /** main.py's AutoIndexerJob for a git data source. */
  class AutoIndexerJob {
    const handler: GitHandler.Handler
    const resource: Resource

    constructor (handler: GitHandler.Handler, resource: Resource)
      ensures this.handler == handler && this.resource == resource
    {
      this.handler, this.resource := handler, resource;
    }

    function View(): System
      reads this, handler, handler.client, resource, resource.conditions
    {
      System(handler.client.View(), resource.View())
    }

    /** run: the configuration is read first, then the status writes frame the indexing. */
    method Execute(checkout: Checkout, now: nat) returns (success: bool)
      modifies handler, handler.client, resource, resource.conditions
      ensures View() == AfterRun(old(View()), Run(handler.cfg, handler.client.engine, checkout, now))
      ensures var run := Run(handler.cfg, handler.client.engine, checkout, now);
              success <==> OutcomeOfRun(old(View()), run).errors == []
    {
      var hadErrors := HadErrors(resource.conditions.items);
      resource.conditions.AddStatusCondition(Started(now));
      handler.UpdateIndex(checkout, resource.lastCommit, hadErrors);
      resource.UpdateAutoindexerStatus(checkout, handler.errors != [], now);
      if handler.errors != [] {
        resource.conditions.AddStatusCondition(Ended(true, now));
        success := false;
      } else {
        resource.conditions.AddStatusCondition(Ended(false, now));
        success := true;
      }
    }
  }

  // ---- Histories ----

  /** `Remediate` deletes the index and resets the commit, both landing or, when `statusKept` is
      false, with the status write lost; it and an ordinary reconcile clear the error condition.
      A reconcile that fails raises it. */
  datatype Event =
    | JobRun(run: Run)
    | Remediate(statusKept: bool, now: nat)
    | Reconcile(now: nat)
    | ReconcileFails(now: nat)

  function Cleared(st: Status, now: nat): Status {
    st.(conditions := Write(SetCondition, st.conditions, Condition(ErrorKind, False, ReconcileSucceeded, now)))
  }

  function Raised(st: Status, now: nat): Status {
    st.(conditions := Write(SetCondition, st.conditions, Condition(ErrorKind, True, ReconcileFailed, now)))
  }

  function After(s: System, event: Event): System {
    match event
    case JobRun(run) => AfterRun(s, run)
    case Remediate(kept, now) =>
      System(s.w.(docs := map[]), if kept then Cleared(s.status, now).(lastCommit := "") else s.status)
    case Reconcile(now) => s.(status := Cleared(s.status, now))
    case ReconcileFails(now) => s.(status := Raised(s.status, now))
  }

  function AfterAll(s: System, events: seq<Event>): System {
    if events == [] then s
    else After(AfterAll(s, events[..|events| - 1]), events[|events| - 1])
  }

  /** What git and the walk guarantee about a run, given the commit indexed last and its configuration; and
      every text that the run has to add is in the diff. */
  ghost predicate TrueCheckout(commits: Commits, cfg0: Config, lastCommit: string, run: Run) {
    var c := run.checkout;
    && run.e.Valid()
    && (c.ok ==> c.head != "" && c.tree == commits(c.head) && WalkOf(run.cfg, c.tree, c.walk))
    && (c.ok && lastCommit != "" && c.diff.Diffed? ==>
          DiffOf(commits(lastCommit), c.tree, c.diff.items) &&
          Harmless(cfg0, run.cfg, commits(lastCommit), c.tree, c.diff.items))
  }

  /** A step of a proper history: true checkouts, remediations whose status write lands, and no
      reconcile while the error flag is up. */
  ghost predicate Proper(commits: Commits, cfg0: Config, s: System, event: Event) {
    match event
    case JobRun(run) => TrueCheckout(commits, cfg0, s.status.lastCommit, run)
    case Remediate(kept, _) => kept
    case Reconcile(_) => !HadErrors(s.status.conditions)
    case ReconcileFails(_) => true
  }

  /** The configuration of the last run that recorded a commit. */
  function LastConfig(cfg0: Config, events: seq<Event>): Config {
    if events == [] then cfg0
    else
      var last := events[|events| - 1];
      if last.JobRun? && last.run.checkout.ok then last.run.cfg else LastConfig(cfg0, events[..|events| - 1])
  }

  ghost predicate ProperHistory(commits: Commits, cfg0: Config, s: System, events: seq<Event>) {
    events != [] ==>
      var init := events[..|events| - 1];
      && ProperHistory(commits, cfg0, s, init)
      && Proper(commits, LastConfig(cfg0, init), AfterAll(s, init), events[|events| - 1])
  }

  /** While the error flag is down and a commit is recorded, that commit is covered. */
  ghost predicate Sound(commits: Commits, cfg: Config, s: System) {
    && s.w.Valid()
    && (!HadErrors(s.status.conditions) && s.status.lastCommit != "" ==>
          Covers(cfg, commits(s.status.lastCommit), s.w.docs))
  }

  lemma BaseRaisesFlag(cs: seq<Condition>, failed: bool, now: nat)
    ensures failed ==> HadErrors(WriteEach(BaseUpdate, cs, BaseConditions(failed, now)))
    ensures DistinctKinds(cs) ==>
              (HadErrors(WriteEach(BaseUpdate, cs, BaseConditions(failed, now))) <==> failed) &&
              DistinctKinds(WriteEach(BaseUpdate, cs, BaseConditions(failed, now)))
  {
    var news := BaseConditions(failed, now);
    var c1 := Write(BaseUpdate, cs, news[0]);
    var c2 := Write(BaseUpdate, c1, news[1]);
    var c3 := Write(BaseUpdate, c2, news[2]);
    var c4 := Write(BaseUpdate, c3, news[3]);
    assert c4 == WriteEach(BaseUpdate, cs, news) by {
      FourWrites(cs, news);
    }
    WriteKeepsOrder(BaseUpdate, cs, news[0]);
    WriteKeepsOrder(BaseUpdate, c1, news[1]);
    WriteKeepsOrder(BaseUpdate, c2, news[2]);
    WriteKeepsOrder(BaseUpdate, c3, news[3]);
    WriteMovesFlag(BaseUpdate, c1, news[1]);
    WriteMovesFlag(BaseUpdate, c2, news[2]);
    WriteMovesFlag(BaseUpdate, c3, news[3]);
  }

  lemma FourWrites(cs: seq<Condition>, news: seq<Condition>)
    requires |news| == 4
    ensures var c1 := Write(BaseUpdate, cs, news[0]);
            var c2 := Write(BaseUpdate, c1, news[1]);
            var c3 := Write(BaseUpdate, c2, news[2]);
            WriteEach(BaseUpdate, cs, news) == Write(BaseUpdate, c3, news[3])
  {
    hide Write;
    var n3, n2, n1 := news[..3], news[..2], news[..1];
    assert n3[..2] == n2 && n2[..1] == n1 && n1[..0] == [];
    assert WriteEach(BaseUpdate, cs, n1) == Write(BaseUpdate, cs, news[0]);
    assert WriteEach(BaseUpdate, cs, n2) == Write(BaseUpdate, WriteEach(BaseUpdate, cs, n1), news[1]);
    assert WriteEach(BaseUpdate, cs, n3) == Write(BaseUpdate, WriteEach(BaseUpdate, cs, n2), news[2]);
  }

  /** The error flag after a run is up when the run recorded errors; from distinct kinds, exactly then. */
  /** The list a first run leaves: the start put the indexing condition first, the end found it there. */
  lemma FirstRunList(lastCommit: string, checkout: Checkout, now: nat)
    ensures StatusAfter(Status([], lastCommit), checkout, false, now).conditions ==
            [Condition(IndexingKind, False, IndexingCompleted, now),
             Condition(SucceededKind, True, IndexingCompleted, now),
             Condition(ErrorKind, False, IndexingCompleted, now),
             Condition(FailedKind, False, IndexingCompleted, now)]
  {
    var c0 := Started(now);
    var news := BaseConditions(false, now);
    assert Write(AddStatus, [], c0) == [c0];
    FourWrites([c0], news);
    var c1 := Write(BaseUpdate, [c0], news[0]);
    assert c1 == [c0, news[0]];
    var c2 := Write(BaseUpdate, c1, news[1]);
    assert c2 == [c0, news[0], news[1]];
    var c3 := Write(BaseUpdate, c2, news[2]);
    assert c3 == [c0, news[0], news[1], news[2]];
  }

  lemma FlagAfterRun(st: Status, checkout: Checkout, failed: bool, now: nat)
    ensures failed ==> HadErrors(StatusAfter(st, checkout, failed, now).conditions)
    ensures DistinctKinds(st.conditions) ==>
              (HadErrors(StatusAfter(st, checkout, failed, now).conditions) <==> failed) &&
              DistinctKinds(StatusAfter(st, checkout, failed, now).conditions)
  {
    var started := Write(AddStatus, st.conditions, Started(now));
    var merged := WriteEach(BaseUpdate, started, BaseConditions(failed, now));
    WriteKeepsOrder(AddStatus, st.conditions, Started(now));
    BaseRaisesFlag(started, failed, now);
    WriteMovesFlag(AddStatus, merged, Ended(failed, now));
    WriteKeepsOrder(AddStatus, merged, Ended(failed, now));
  }

  lemma ReplacingLooksUp(cs: seq<Condition>, c: Condition, kind: Kind)
    ensures Lookup(Write(BaseUpdate, cs, c), kind) == if kind == c.kind then Some(c) else Lookup(cs, kind)
  {
    hide Lookup, Write;
    WriteLooksUp(BaseUpdate, cs, c, kind);
  }

  lemma BaseLookups(cs: seq<Condition>, failed: bool, now: nat, kind: Kind)
    ensures var merged := WriteEach(BaseUpdate, cs, BaseConditions(failed, now));
            Lookup(merged, kind) ==
            if kind == SucceededKind then Some(Condition(SucceededKind, True, IndexingCompleted, now))
            else if kind == ErrorKind then
              Some(if failed then Condition(ErrorKind, True, IndexingErrors, now)
                   else Condition(ErrorKind, False, IndexingCompleted, now))
            else if kind == FailedKind then Some(Condition(FailedKind, False, IndexingCompleted, now))
            else if kind == IndexingKind then Some(Condition(IndexingKind, False, IndexingCompleted, now))
            else Lookup(cs, kind)
  {
    var news := BaseConditions(failed, now);
    FourWrites(cs, news);
    hide Lookup, Write, WriteEach, Merged;
    var c1 := Write(BaseUpdate, cs, news[0]);
    var c2 := Write(BaseUpdate, c1, news[1]);
    var c3 := Write(BaseUpdate, c2, news[2]);
    ReplacingLooksUp(cs, news[0], kind);
    ReplacingLooksUp(c1, news[1], kind);
    ReplacingLooksUp(c2, news[2], kind);
    ReplacingLooksUp(c3, news[3], kind);
  }

  /** The status a run leaves, condition by condition: succeeded even with errors, the error flag by the errors, not
      failed, no longer indexing, all with the time of the run; other conditions stay.  The commit is that
      of the checkout, if there is one. */
  lemma StatusAfterRun(st: Status, checkout: Checkout, failed: bool, now: nat, kind: Kind)
    ensures var after := StatusAfter(st, checkout, failed, now);
            && after.lastCommit == (if checkout.ok then checkout.head else st.lastCommit)
            && Lookup(after.conditions, kind) ==
               if kind == SucceededKind then Some(Condition(SucceededKind, True, IndexingCompleted, now))
               else if kind == ErrorKind then
                 Some(if failed then Condition(ErrorKind, True, IndexingErrors, now)
                      else Condition(ErrorKind, False, IndexingCompleted, now))
               else if kind == FailedKind then Some(Condition(FailedKind, False, IndexingCompleted, now))
               else if kind == IndexingKind then Some(Condition(IndexingKind, False, IndexingCompleted, now))
               else Lookup(st.conditions, kind)
  {
    hide Lookup, Write, WriteEach, BaseConditions;
    var started := Write(AddStatus, st.conditions, Started(now));
    var merged := WriteEach(BaseUpdate, started, BaseConditions(failed, now));
    WriteLooksUp(AddStatus, st.conditions, Started(now), kind);
    BaseLookups(started, failed, now, kind);
    WriteLooksUp(AddStatus, merged, Ended(failed, now), kind);
  }

  /** During the run the object shows that indexing has started; a new condition goes to the end. */
  lemma StartIsShown(cs: seq<Condition>, now: nat)
    ensures var shown := Lookup(Write(AddStatus, cs, Started(now)), IndexingKind);
            shown.Some? && shown.value.status == True && shown.value.reason == IndexingStarted
    ensures Missing(cs, IndexingKind) ==>
              Write(AddStatus, cs, Started(now)) == cs + [Condition(IndexingKind, True, IndexingStarted, now)]
  {
    hide Lookup, Write;
    WriteLooksUp(AddStatus, cs, Started(now), IndexingKind);
    if Missing(cs, IndexingKind) {
      WriteAppends(AddStatus, cs, Started(now));
    }
  }

  lemma ClearingLowersOnly(st: Status, now: nat)
    requires !HadErrors(st.conditions)
    ensures !HadErrors(Cleared(st, now).conditions)
  {
    var c := Condition(ErrorKind, False, ReconcileSucceeded, now);
    var k := Position(st.conditions, ErrorKind);
    var after := Write(SetCondition, st.conditions, c);
    assert forall j :: 0 <= j < |st.conditions| && j != k ==> after[j] == st.conditions[j];
  }

  /** A run without errors covers the commit it records, under its own configuration. */
  lemma RunWithoutErrorsCovers(commits: Commits, cfg0: Config, s: System, run: Run)
    requires Sound(commits, cfg0, s) && TrueCheckout(commits, cfg0, s.status.lastCommit, run)
    requires OutcomeOfRun(s, run).errors == []
    ensures run.checkout.ok && Covers(run.cfg, commits(run.checkout.head), OutcomeOfRun(s, run).w.docs)
  {
    var c, last := run.checkout, s.status.lastCommit;
    if !c.pinned && last != "" && !HadErrors(s.status.conditions) && c.diff.Diffed? {
      DiffRunCovers(run.e, cfg0, run.cfg, commits(last), c.tree, s.w, c.diff.items);
    } else {
      FullRunCovers(run.e, run.cfg, c.tree, s.w, c.walk);
    }
  }

  lemma ProperStepIsSound(commits: Commits, cfg0: Config, s: System, event: Event)
    requires Sound(commits, cfg0, s) && Proper(commits, cfg0, s, event)
    ensures Sound(commits, LastConfig(cfg0, [event]), After(s, event))
  {
    assert [event][..0] == [];
    match event {
      case JobRun(run) =>
        var failed := OutcomeOfRun(s, run).errors != [];
        Coverage.RunKeepsValid(run.e, run.cfg, s.w, run.checkout, s.status.lastCommit, HadErrors(s.status.conditions));
        FlagAfterRun(s.status, run.checkout, failed, run.now);
        if !failed {
          RunWithoutErrorsCovers(commits, cfg0, s, run);
        }
      case Remediate(_, _) =>
      case Reconcile(now) => ClearingLowersOnly(s.status, now);
      case ReconcileFails(now) =>
        WriteMovesFlag(SetCondition, s.status.conditions, Condition(ErrorKind, True, ReconcileFailed, now));
    }
  }

  lemma LastConfigOneMore(cfg0: Config, events: seq<Event>)
    requires events != []
    ensures LastConfig(cfg0, events) == LastConfig(LastConfig(cfg0, events[..|events| - 1]), [events[|events| - 1]])
  {
    var last := [events[|events| - 1]];
    assert last[..0] == [];
    assert LastConfig(LastConfig(cfg0, events[..|events| - 1]), []) == LastConfig(cfg0, events[..|events| - 1]);
  }

  /** Over every proper history, with any calls failing and the patterns edited between runs: whenever the
      error flag is down and a commit is recorded, every file of that commit that is indexable under the
      configuration of the run that recorded it has a document with its text. */
  lemma {:induction false} HistoryIsSound(commits: Commits, cfg0: Config, s: System, events: seq<Event>)
    requires Sound(commits, cfg0, s) && ProperHistory(commits, cfg0, s, events)
    ensures Sound(commits, LastConfig(cfg0, events), AfterAll(s, events))
  {
    if events != [] {
      hide Sound, Proper, After, LastConfig;
      var init := events[..|events| - 1];
      HistoryIsSound(commits, cfg0, s, init);
      ProperStepIsSound(commits, LastConfig(cfg0, init), AfterAll(s, init), events[|events| - 1]);
      LastConfigOneMore(cfg0, events);
    } else {
      assert LastConfig(cfg0, events) == cfg0;
    }
  }

  /** After a remediation whose status write lands, the next run with a checkout indexes everything
      afresh: a full run on an empty index, which without errors represents the commit exactly. */
  lemma RemediatedRunIsFull(commits: Commits, cfg0: Config, s: System, now: nat, run: Run)
    requires run.checkout.ok && TrueCheckout(commits, cfg0, "", run)
    requires OutcomeOfRun(After(s, Remediate(true, now)), run).errors == []
    ensures Represents(OutcomeOfRun(After(s, Remediate(true, now)), run).w.docs,
                       FullMap(run.cfg, commits(run.checkout.head)))
  {
    FullMeaning(run.e, run.cfg, run.checkout.tree, s.w.(docs := map[]), run.checkout.walk);
  }

  // ---- Reconciles between two runs ----

  ghost predicate OnlyReconciles(events: seq<Event>) {
    forall k :: 0 <= k < |events| ==> events[k].Reconcile? || events[k].ReconcileFails?
  }

  /** Reconciles leave store and commit alone; the last of them alone decides the error flag. */
  lemma {:induction false} LastReconcileDecides(s: System, events: seq<Event>)
    requires DistinctKinds(s.status.conditions) && OnlyReconciles(events)
    ensures var s' := AfterAll(s, events);
            && s'.w == s.w && s'.status.lastCommit == s.status.lastCommit && DistinctKinds(s'.status.conditions)
            && (HadErrors(s'.status.conditions) <==>
                if events == [] then HadErrors(s.status.conditions) else events[|events| - 1].ReconcileFails?)
  {
    if events != [] {
      var init, last := events[..|events| - 1], events[|events| - 1];
      LastReconcileDecides(s, init);
      var cs := AfterAll(s, init).status.conditions;
      var c := if last.Reconcile? then Condition(ErrorKind, False, ReconcileSucceeded, last.now)
               else Condition(ErrorKind, True, ReconcileFailed, last.now);
      WriteMovesFlag(SetCondition, cs, c);
      WriteKeepsOrder(SetCondition, cs, c);
    }
  }

  // ---- What breaks it ----

  lemma {:induction false} FailedFullLoop(e: Engine, tree: Tree, w: World, files: seq<string>)
    requires forall n :: e.reply(n) == Fail(0)
    ensures FullLoop(e, tree, w, files).w.docs == w.docs
  {
    if files != [] {
      var init, path := files[..|files| - 1], files[|files| - 1];
      var text := Content(tree, path);
      FailedFullLoop(e, tree, w, init);
      FailedFlush(e, Push(FullLoop(e, tree, w, init),
                          if text == "" then None else Some(Create(Doc(path, text, "full")))), BATCH);
    }
  }

  lemma FailedFlush(e: Engine, s: Progress, least: nat)
    requires forall n :: e.reply(n) == Fail(0)
    ensures FlushCreates(e, s, least).w.docs == s.w.docs
  {
    assert s.w.docs + Fresh(s.w.next, s.creates[..0]) == s.w.docs;
  }

  /** When every call fails and stores nothing, a full run of a commit with an indexable file leaves the
      store as it was and records an error. */
  lemma FailedFullRun(e: Engine, cfg: Config, tree: Tree, w: World, walk: seq<WalkEntry>, path: string)
    requires forall n :: e.reply(n) == Fail(0)
    requires WalkOf(cfg, tree, walk) && Indexable(cfg, tree, path) && w.docs == map[]
    ensures var s := FullRun(e, tree, w, RepositoryFiles(cfg, walk)); s.w.docs == map[] && s.errors != []
  {
    var files := RepositoryFiles(cfg, walk);
    FailedFullLoop(e, tree, w, files);
    FailedFlush(e, FullLoop(e, tree, w, files), 1);
    assert !HasText(map[], path, Content(tree, path));
    if FullRun(e, tree, w, files).errors == [] {
      FullRunCovers(e, cfg, tree, w, walk);
    }
  }

  lemma AfterThree(s: System, a: Event, b: Event, c: Event)
    ensures var events := [a, b, c];
            && AfterAll(s, events[..1]) == After(s, a)
            && AfterAll(s, events[..2]) == After(After(s, a), b)
            && AfterAll(s, events) == After(After(After(s, a), b), c)
  {
    var events := [a, b, c];
    assert events[..1][..0] == [] && events[..2][..1] == events[..1] && events[..2] == [a, b];
    assert AfterAll(s, events[..1]) == After(s, a);
    assert AfterAll(s, events[..2]) == After(AfterAll(s, events[..1]), b);
  }

  /** A first run in which every call fails: nothing is stored, the commit is recorded, the flag is up. */
  lemma FailedFirstRun(commits: Commits, cfg0: Config, s: System, run: Run, path: string)
    requires s.w.docs == map[] && s.w.Valid() && s.status == Status([], "")
    requires TrueCheckout(commits, cfg0, "", run) && run.checkout.ok && Indexable(run.cfg, run.checkout.tree, path)
    requires forall n :: run.e.reply(n) == Fail(0)
    ensures var s' := AfterRun(s, run);
            && s'.w.docs == map[] && s'.w.Valid() && s'.status.lastCommit == run.checkout.head
            && HadErrors(s'.status.conditions) && DistinctKinds(s'.status.conditions)
  {
    FailedFullRun(run.e, run.cfg, run.checkout.tree, s.w, run.checkout.walk, path);
    FlagAfterRun(s.status, run.checkout, true, run.now);
    Coverage.RunKeepsValid(run.e, run.cfg, s.w, run.checkout, "", false);
  }

  /** Once the flag has been cleared, a run at the recorded commit does nothing and reports success. */
  lemma EmptyDiffRun(s: System, run: Run, now: nat)
    requires DistinctKinds(s.status.conditions) && s.status.lastCommit != ""
    requires run.checkout.ok && run.checkout.head == s.status.lastCommit
    requires !run.checkout.pinned && run.checkout.diff == GitHandler.Diffed([])
    ensures var s2 := s.(status := Cleared(s.status, now));
            var s3 := AfterRun(s2, run);
            && OutcomeOfRun(s2, run) == GitHandler.Outcome(s.w, [])
            && s3.w == s.w && s3.status.lastCommit == s.status.lastCommit && !HadErrors(s3.status.conditions)
  {
    var c := Condition(ErrorKind, False, ReconcileSucceeded, now);
    WriteMovesFlag(SetCondition, s.status.conditions, c);
    WriteKeepsOrder(SetCondition, s.status.conditions, c);
    FlagAfterRun(Cleared(s.status, now), run.checkout, false, run.now);
  }

  /** Why a reconcile must not clear a raised flag, at its plainest: for every commit with an indexable file, a
      first run that stores nothing, an ordinary reconcile and a later run at the same commit leave the flag
      down, the commit recorded, no error in the last run, and the file missing. */
  lemma ClearingTheFlagLosesFiles(commits: Commits, cfg0: Config, s: System, first: Run, second: Run, now: nat,
                                  path: string)
    requires s.w.docs == map[] && s.w.Valid() && s.status == Status([], "")
    requires TrueCheckout(commits, cfg0, "", first) && first.checkout.ok
    requires Indexable(first.cfg, first.checkout.tree, path)
    requires forall n :: first.e.reply(n) == Fail(0)
    requires second.checkout == first.checkout.(diff := GitHandler.Diffed([]), pinned := false)
    ensures var events := [JobRun(first), Reconcile(now), JobRun(second)];
            var last := AfterAll(s, events);
            && Sound(commits, first.cfg, AfterAll(s, events[..1]))
            && OutcomeOfRun(AfterAll(s, events[..2]), second).errors == []
            && !HadErrors(last.status.conditions) && last.status.lastCommit == first.checkout.head
            && last.w.docs == map[]
            && !Sound(commits, first.cfg, last)
  {
    AfterThree(s, JobRun(first), Reconcile(now), JobRun(second));
    FailedFirstRun(commits, cfg0, s, first, path);
    EmptyDiffRun(AfterRun(s, first), second, now);
    assert !HasText(map[], path, Content(commits(first.checkout.head), path));
  }

  /** Losing the status write of a remediation breaks the invariant exactly when the recorded commit has
      an indexable file: the index is gone, the commit still stands. */
  lemma LostRemediationBreaksIff(commits: Commits, cfg: Config, s: System, now: nat)
    requires Sound(commits, cfg, s) && !HadErrors(s.status.conditions) && s.status.lastCommit != ""
    ensures Sound(commits, cfg, After(s, Remediate(false, now))) <==>
            !exists path :: Indexable(cfg, commits(s.status.lastCommit), path)
  {
    var after := After(s, Remediate(false, now));
    var tree := commits(s.status.lastCommit);
    if path :| Indexable(cfg, tree, path) {
      assert !HasText(after.w.docs, path, Content(tree, path));
    }
  }
}
