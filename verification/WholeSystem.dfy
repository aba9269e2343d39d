/**
  Controller, detector, users and job on one state: the status that the controller patches is the one the
  job reads and writes, and the index that a remediation drops is the one the job fills.  Each reconcile
  is a step of module IndexHistory on error flag, commit and index, and the history invariant holds
  over the runs of the whole.
 */
module WholeSystem {
  import opened Options
  import opened RagStore
  import opened GitFiles
  import opened Conditions
  import opened Coverage
  import opened Controller
  import opened Protocol
  import opened DriftProtocol
  import opened ErrorFlag
  import IndexHistory
  import JobStatus

  datatype Whole = Whole(c: Cluster, w: World)

  /** A step of the controller side, or a whole run of the job with the count it reports. */
  datatype Act = Control(e: Event) | Job(run: IndexHistory.Run, numDocs: nat)

  function CommitOf(o: Obj): string {
    if o.lastCommit.Some? then o.lastCommit.value else ""
  }

  /** What module IndexHistory sees of the state. */
  function SystemOf(x: Whole): IndexHistory.System
    requires x.c.stored.Some?
  {
    IndexHistory.System(x.w, IndexHistory.Status(x.c.stored.value.conditions, CommitOf(x.c.stored.value)))
  }

  /** The events of the step system that stand for parts of a job run are left to Job. */
  predicate OfControl(e: Event) {
    !e.JobReports? && !e.IndexWritten?
  }

  function Emptied(w: World, c: Cluster, c': Cluster): World {
    if c.index && !c'.index then w.(docs := map[]) else w
  }

  function AfterAct(x: Whole, act: Act): Whole {
    match act
    case Control(e) => Whole(Protocol.After(x.c, e), Emptied(x.w, x.c, Protocol.After(x.c, e)))
    case Job(run, numDocs) =>
      if x.c.stored.None? then x
      else
        var o := x.c.stored.value;
        var s := IndexHistory.AfterRun(SystemOf(x), run);
        var o' := o.(conditions := s.status.conditions, numDocs := numDocs,
                     lastCommit := if run.checkout.ok then Some(run.checkout.head) else o.lastCommit);
        Whole(x.c.(stored := Some(o'), index := x.c.index || s.w.docs != map[]), s.w)
  }

  function RunWhole(x: Whole, acts: seq<Act>): Whole {
    if acts == [] then x
    else AfterAct(RunWhole(x, acts[..|acts| - 1]), acts[|acts| - 1])
  }

  /** Condition types are distinct, and without an index there are no documents. */
  ghost predicate Consistent(x: Whole) {
    && (x.c.stored.Some? ==> DistinctKinds(x.c.stored.value.conditions))
    && (!x.c.index ==> x.w.docs == map[])
  }

  // ---- What a reconcile does to the commit ----

  lemma DriftCommit(o: Obj, c: Cluster, calls: Calls)
    requires c.stored.Some? && o.lastCommit == c.stored.value.lastCommit
    ensures var s := HandleDriftRemediation(o, c, calls);
            s.o.lastCommit != o.lastCommit ==> s.o.lastCommit == Some("") && !s.c.index
  {
    hide JobStatus.Count, Obj.RemediatedSince, SetSuspended, StampRemediation;
    SuspendedStatus(o, c, calls, true);
    SuspendedStatus(o, c, calls, false);
    StampMovesNoIndex(ResetGit(o), DropIndex(c, calls), calls);
    StampedCommit(ResetGit(o), DropIndex(c, calls), calls);
  }

  lemma StampedCommit(o: Obj, c: Cluster, calls: Calls)
    requires c.stored.Some?
    ensures StampRemediation(o, c, calls).o.lastCommit in {o.lastCommit, c.stored.value.lastCommit}
  {
  }

  lemma HandledCommit(o: Obj, c: Cluster, calls: Calls)
    requires c.stored.Some? && o.lastCommit == c.stored.value.lastCommit
    ensures var s := HandlePhase(o, c, calls);
            s.o.lastCommit != o.lastCommit ==> s.o.lastCommit == Some("") && !s.c.index
  {
    hide HandlePending, HandleScheduled, HandleSuspended, HandleRunning, HandleDriftRemediation;
    DriftCommit(o, c, calls);
    PendingKeepsCommit(o, c, calls);
    OthersContained(o, c, calls);
  }

  /** A sync keeps the recorded commit, or resets it with the index gone; it makes no index; and without the
      status patch the status stays. */
  lemma SyncCommit(o: Obj, c: Cluster, calls: Calls)
    requires c.stored == Some(o)
    ensures var c' := Sync(o, c, calls);
            && c'.stored.Some?
            && (c'.stored.value.lastCommit != o.lastCommit ==> c'.stored.value.lastCommit == Some("") && !c'.index)
            && (c'.index ==> c.index)
            && (!Performed(calls.statusPatch) ==>
                  c'.stored.value.lastCommit == o.lastCommit && c'.stored.value.conditions == o.conditions)
  {
    hide EnsureResources, HandlePhase;
    EnsureKeepsIndex(o, c, calls);
    var s := EnsureResources(o, c, calls);
    HandledCommit(s.o, s.c, calls);
    HandledContained(s.o, s.c, calls);
    HandledMakesNoIndex(s.o, s.c, calls);
  }

  lemma HandledMakesNoIndex(o: Obj, c: Cluster, calls: Calls)
    ensures HandlePhase(o, c, calls).c.index ==> c.index
  {
    hide JobStatus.Count, JobStatus.LatestFailed, StampRemediation, Obj.RemediatedSince;
    StampMovesNoIndex(ResetGit(o), DropIndex(c, calls), calls);
  }

  // ---- A reconcile as a history ----

  /** The reconcile gets as far as patching the status, and the patch is stored. */
  predicate StatusStored(c: Cluster, calls: Calls)
    requires c.stored.Some?
  {
    calls.get && (c.stored.value.finalizer || calls.finalizerPatch.Done?) && Performed(calls.statusPatch)
  }

  /** The history a reconcile amounts to: a remediation whose commit is reset or not, if there is one, and an
      ordinary or a failing reconcile, if the status is stored. */
  function HistoryOf(c: Cluster, calls: Calls): seq<IndexHistory.Event>
    requires c.stored.Some?
  {
    var c' := Reconcile(c, calls);
    var reset := c'.stored.Some? && CommitOf(c'.stored.value) != CommitOf(c.stored.value);
    (if reset then [IndexHistory.Remediate(true, c.now)]
     else if c.index && !c'.index then [IndexHistory.Remediate(false, c.now)] else []) +
    (if !StatusStored(c, calls) then []
     else if SyncFails(Finalized(c).stored.value, Finalized(c), calls) then [IndexHistory.ReconcileFails(c.now)]
     else [IndexHistory.Reconcile(c.now)])
  }

  /** The same error flag, commit and store. */
  ghost predicate Alike(s: IndexHistory.System, s': IndexHistory.System) {
    && s.w == s'.w && s.status.lastCommit == s'.status.lastCommit
    && (HadErrors(s.status.conditions) <==> HadErrors(s'.status.conditions))
  }

  /** What a reconcile of a live object does, by the facts the history looks at. */
  lemma ReconcileFacts(c: Cluster, calls: Calls)
    requires c.stored.Some? && !c.stored.value.deleting && DistinctKinds(c.stored.value.conditions)
    ensures var c' := Reconcile(c, calls);
            var o := c.stored.value;
            && c'.stored.Some? && DistinctKinds(c'.stored.value.conditions)
            && (c'.stored.value.lastCommit != o.lastCommit ==> c'.stored.value.lastCommit == Some("") && !c'.index)
            && (c'.index ==> c.index)
            && (if StatusStored(c, calls)
                then (HadErrors(c'.stored.value.conditions) <==>
                      SyncFails(Finalized(c).stored.value, Finalized(c), calls))
                else c'.stored.value.conditions == o.conditions && c'.stored.value.lastCommit == o.lastCommit)
  {
    hide Sync, SyncFails, HadErrors, DistinctKinds;
    SyncCommit(Finalized(c).stored.value, Finalized(c), calls);
    assert c.stored.value.finalizer ==> Finalized(c) == c;
    if StatusStored(c, calls) {
      ReconcileFlagIff(c, calls);
    }
  }

  lemma TwoSteps(s: IndexHistory.System, a: IndexHistory.Event, b: IndexHistory.Event)
    ensures IndexHistory.AfterAll(s, []) == s
    ensures IndexHistory.AfterAll(s, [a]) == IndexHistory.After(s, a)
    ensures IndexHistory.AfterAll(s, [a, b]) == IndexHistory.After(IndexHistory.After(s, a), b)
  {
    assert [a][..0] == [] && [a, b][..1] == [a];
    assert IndexHistory.AfterAll(s, [a]) == IndexHistory.After(s, a);
  }

  /** The flag after one history event on distinct condition types. */
  lemma EventFlag(s: IndexHistory.System, event: IndexHistory.Event)
    requires DistinctKinds(s.status.conditions) && !event.JobRun?
    ensures var s' := IndexHistory.After(s, event);
            && DistinctKinds(s'.status.conditions)
            && s'.w == (if event.Remediate? then s.w.(docs := map[]) else s.w)
            && s'.status.lastCommit == (if event.Remediate? && event.statusKept then "" else s.status.lastCommit)
            && (HadErrors(s'.status.conditions) <==>
                if event.ReconcileFails? then true
                else if event.Reconcile? || event.statusKept then false else HadErrors(s.status.conditions))
  {
    var down := Condition(ErrorKind, False, ReconcileSucceeded, event.now);
    var up := Condition(ErrorKind, True, ReconcileFailed, event.now);
    WriteMovesFlag(SetCondition, s.status.conditions, down);
    WriteMovesFlag(SetCondition, s.status.conditions, up);
    WriteKeepsOrder(SetCondition, s.status.conditions, down);
    WriteKeepsOrder(SetCondition, s.status.conditions, up);
    hide HadErrors, DistinctKinds, Write;
  }

  /** Every reconcile of a live object, whatever fails in it, is its history on error flag, commit and index. */
  lemma ReconcileIsHistory(x: Whole, calls: Calls)
    requires x.c.stored.Some? && !x.c.stored.value.deleting && Consistent(x)
    ensures var x' := AfterAct(x, Control(Reconciled(calls)));
            && x'.c.stored.Some? && Consistent(x')
            && Alike(SystemOf(x'), IndexHistory.AfterAll(SystemOf(x), HistoryOf(x.c, calls)))
  {
    hide HadErrors, DistinctKinds, SyncFails, Reconcile, IndexHistory.After, IndexHistory.AfterAll;
    ReconcileFacts(x.c, calls);
    var s := SystemOf(x);
    var reset := CommitOf(Reconcile(x.c, calls).stored.value) != CommitOf(x.c.stored.value);
    var first := IndexHistory.Remediate(reset, x.c.now);
    var second := if SyncFails(Finalized(x.c).stored.value, Finalized(x.c), calls)
                  then IndexHistory.ReconcileFails(x.c.now) else IndexHistory.Reconcile(x.c.now);
    EventFlag(s, first);
    EventFlag(s, second);
    EventFlag(IndexHistory.After(s, first), second);
    TwoSteps(s, first, second);
    TwoSteps(s, second, second);
    var c' := Reconcile(x.c, calls);
    var gone := first.statusKept || (x.c.index && !c'.index);
    var h := HistoryOf(x.c, calls);
    if StatusStored(x.c, calls) {
      assert h == if gone then [first, second] else [second];
    } else {
      assert h == if gone then [first] else [];
    }
    assert gone ==> Emptied(x.w, x.c, c') == x.w.(docs := map[]);
  }

  // ---- The invariant over the whole ----

  ghost predicate WholeSound(commits: IndexHistory.Commits, cfg: Config, x: Whole) {
    && x.w.Valid() && Consistent(x)
    && (x.c.stored.Some? && !x.c.stored.value.deleting ==> IndexHistory.Sound(commits, cfg, SystemOf(x)))
  }

  /** A raised flag stays up, and a dropped index leaves the commit reset or the flag up. */
  ghost predicate KeepsTrack(c: Cluster, c': Cluster)
    requires c.stored.Some?
  {
    c'.stored.Some? ==>
      && (HadErrors(c.stored.value.conditions) ==> HadErrors(c'.stored.value.conditions))
      && (c.index && !c'.index ==> HadErrors(c'.stored.value.conditions) || CommitOf(c'.stored.value) == "")
  }

  /** A proper act: a true checkout; no reconcile of a live object lowers a raised flag, and none drops the
      index and leaves both the commit recorded and the flag down. */
  ghost predicate ProperAct(commits: IndexHistory.Commits, cfg0: Config, x: Whole, act: Act) {
    match act
    case Job(run, _) =>
      x.c.stored.Some? ==> IndexHistory.TrueCheckout(commits, cfg0, CommitOf(x.c.stored.value), run)
    case Control(e) =>
      && OfControl(e)
      && (e.Reconciled? && x.c.stored.Some? && !x.c.stored.value.deleting ==> KeepsTrack(x.c, Reconcile(x.c, e.calls)))
  }

  lemma ReconcileStaysSound(commits: IndexHistory.Commits, cfg: Config, x: Whole, calls: Calls)
    requires WholeSound(commits, cfg, x) && ProperAct(commits, cfg, x, Control(Reconciled(calls)))
    requires x.c.stored.Some? && !x.c.stored.value.deleting
    ensures WholeSound(commits, cfg, AfterAct(x, Control(Reconciled(calls))))
  {
    hide HadErrors, DistinctKinds, Reconcile, SyncFails, Covers;
    ReconcileFacts(x.c, calls);
  }

  /** The other steps of the controller side leave flag, commit and index of a live object alone. */
  lemma OtherFacts(c: Cluster, e: Event)
    requires OfControl(e) && !(e.Reconciled? && c.stored.Some? && !c.stored.value.deleting)
    ensures var c' := Protocol.After(c, e);
            && (c'.stored.Some? ==>
                  && c.stored.Some? && c'.stored.value.conditions == c.stored.value.conditions
                  && c'.stored.value.lastCommit == c.stored.value.lastCommit
                  && (c.stored.value.deleting ==> c'.stored.value.deleting)
                  && (c.index && !c'.index ==> c.stored.value.deleting))
            && (c'.index ==> c.index)
  {
    hide Sync;
  }

  lemma OtherStaysSound(commits: IndexHistory.Commits, cfg: Config, x: Whole, e: Event)
    requires WholeSound(commits, cfg, x) && OfControl(e)
    requires !(e.Reconciled? && x.c.stored.Some? && !x.c.stored.value.deleting)
    ensures WholeSound(commits, cfg, AfterAct(x, Control(e)))
  {
    hide HadErrors, DistinctKinds, Covers, Protocol.After;
    OtherFacts(x.c, e);
  }

  lemma JobActs(x: Whole, run: IndexHistory.Run, numDocs: nat)
    requires x.c.stored.Some?
    ensures var x' := AfterAct(x, Job(run, numDocs));
            x'.c.stored.Some? && SystemOf(x') == IndexHistory.AfterRun(SystemOf(x), run)
            && x'.c.stored.value.deleting == x.c.stored.value.deleting
            && (!x'.c.index ==> x'.w.docs == map[])
  {
    hide IndexHistory.OutcomeOfRun, HadErrors, Write, WriteEach;
  }

  lemma JobStaysSound(commits: IndexHistory.Commits, cfg0: Config, x: Whole, run: IndexHistory.Run, numDocs: nat)
    requires WholeSound(commits, cfg0, x) && x.c.stored.Some?
    requires IndexHistory.TrueCheckout(commits, cfg0, CommitOf(x.c.stored.value), run)
    ensures WholeSound(commits, ConfigAfter(cfg0, x, Job(run, numDocs)), AfterAct(x, Job(run, numDocs)))
  {
    hide HadErrors, DistinctKinds, Covers, IndexHistory.OutcomeOfRun, IndexHistory.TrueCheckout, AfterAct;
    var s := SystemOf(x);
    var failed := IndexHistory.OutcomeOfRun(s, run).errors != [];
    JobActs(x, run, numDocs);
    IndexHistory.FlagAfterRun(s.status, run.checkout, failed, run.now);
    RunStaysValid(s, run);
    if !x.c.stored.value.deleting {
      IndexHistory.ProperStepIsSound(commits, cfg0, s, IndexHistory.JobRun(run));
      OneRunConfig(cfg0, run);
    }
  }

  lemma RunStaysValid(s: IndexHistory.System, run: IndexHistory.Run)
    requires s.w.Valid()
    ensures IndexHistory.AfterRun(s, run).w.Valid()
  {
    RunKeepsValid(run.e, run.cfg, s.w, run.checkout, s.status.lastCommit, HadErrors(s.status.conditions));
  }

  lemma OneRunConfig(cfg0: Config, run: IndexHistory.Run)
    ensures IndexHistory.LastConfig(cfg0, [IndexHistory.JobRun(run)]) == if run.checkout.ok then run.cfg else cfg0
  {
    var events := [IndexHistory.JobRun(run)];
    assert events[..0] == [];
    assert IndexHistory.LastConfig(cfg0, []) == cfg0;
  }

  // ---- Whole runs ----

  /** The configuration of the run that recorded the commit. */
  function ConfigAfter(cfg0: Config, x: Whole, act: Act): Config {
    if act.Job? && x.c.stored.Some? && act.run.checkout.ok then act.run.cfg else cfg0
  }

  function ConfigOf(cfg0: Config, x: Whole, acts: seq<Act>): Config {
    if acts == [] then cfg0
    else
      var init := acts[..|acts| - 1];
      ConfigAfter(ConfigOf(cfg0, x, init), RunWhole(x, init), acts[|acts| - 1])
  }

  ghost predicate ProperRun(commits: IndexHistory.Commits, cfg0: Config, x: Whole, acts: seq<Act>) {
    acts != [] ==>
      var init := acts[..|acts| - 1];
      && ProperRun(commits, cfg0, x, init)
      && ProperAct(commits, ConfigOf(cfg0, x, init), RunWhole(x, init), acts[|acts| - 1])
  }

  lemma ActStaysSound(commits: IndexHistory.Commits, cfg0: Config, x: Whole, act: Act)
    requires WholeSound(commits, cfg0, x) && ProperAct(commits, cfg0, x, act)
    ensures WholeSound(commits, ConfigAfter(cfg0, x, act), AfterAct(x, act))
  {
    hide WholeSound, AfterAct, Reconcile, HadErrors, Consistent;
    match act {
      case Job(run, numDocs) =>
        if x.c.stored.Some? {
          JobStaysSound(commits, cfg0, x, run, numDocs);
        } else {
          GoneStays(x, act);
        }
      case Control(e) =>
        if x.c.stored.None? {
          GoneSound(commits, cfg0, x, e);
        } else if e.Reconciled? && !x.c.stored.value.deleting {
          ReconcileStaysSound(commits, cfg0, x, e.calls);
        } else {
          OtherStaysSound(commits, cfg0, x, e);
        }
    }
  }

  lemma GoneStays(x: Whole, act: Act)
    requires x.c.stored.None? && act.Job?
    ensures AfterAct(x, act) == x
  {
  }

  lemma GoneSound(commits: IndexHistory.Commits, cfg: Config, x: Whole, e: Event)
    requires WholeSound(commits, cfg, x) && x.c.stored.None? && OfControl(e)
    ensures WholeSound(commits, cfg, AfterAct(x, Control(e)))
  {
    hide Protocol.After;
    OtherFacts(x.c, e);
  }

  /** Over every run of the whole, with any calls failing on either side: as long as no reconcile lowers a raised
      error flag and none drops the index without resetting the commit or raising the flag, a live object
      whose flag is down and whose commit is recorded has every file of that commit covered. */
  lemma {:induction false} WholeStaysSound(commits: IndexHistory.Commits, cfg0: Config, x: Whole, acts: seq<Act>)
    requires WholeSound(commits, cfg0, x) && ProperRun(commits, cfg0, x, acts)
    ensures WholeSound(commits, ConfigOf(cfg0, x, acts), RunWhole(x, acts))
  {
    if acts != [] {
      hide WholeSound, AfterAct, ProperAct, ConfigAfter;
      var init := acts[..|acts| - 1];
      WholeStaysSound(commits, cfg0, x, init);
      ActStaysSound(commits, ConfigOf(cfg0, x, init), RunWhole(x, init), acts[|acts| - 1]);
    }
  }

  /** A new object starts sound. */
  lemma NewObjectIsSound(commits: IndexHistory.Commits, cfg0: Config, x: Whole)
    requires Initial(x.c) && x.c.stored.value.conditions == [] && CommitOf(x.c.stored.value) == ""
    requires x.w.Valid() && (!x.c.index ==> x.w.docs == map[])
    ensures WholeSound(commits, cfg0, x)
  {
  }
}
