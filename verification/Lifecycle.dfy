/**
  The life of an object from creation to its disappearance: one-time indexers start one Job and
  only move forward, and nothing that ever started work disappears before its index is deleted.
 */
module Lifecycle {
  import opened Options
  import opened Controller
  import opened Protocol
  import JobStatus

  // ---- One-time indexers ----

  /** Without a schedule there is no CronJob, and the jobs are the Jobs ever created: at most one. */
  ghost predicate OneTime(c: Cluster) {
    && (c.stored.Some? ==> !c.stored.value.scheduled && PhaseFits(c.stored.value))
    && c.cron.None?
    && |c.jobs| == c.created && c.created <= 1
    && (forall k :: 0 <= k < |c.jobs| ==> c.jobs[k].name == ONE_TIME)
  }

  lemma EnsuredStaysOneTime(o: Obj, c: Cluster, calls: Calls)
    requires !o.scheduled
    ensures var s := EnsureResources(o, c, calls);
            s.c == c && !s.o.scheduled && s.o.phase == o.phase && (PhaseFits(o) ==> PhaseFits(s.o))
  {
  }

  /** The only way a one-time indexer moves: forward, and to Failed only when its Job cannot be ensured. */
  ghost predicate MovesForward(o: Obj, c: Cluster, calls: Calls, phase: Phase) {
    phase == o.phase ||
    match o.phase
    case Unset => phase.Pending?
    case Pending => phase == if EnsureJob(o, c, calls).err then Failed else Running
    case Running => phase.Completed?
    case _ => false
  }

  lemma HandledStaysOneTime(o: Obj, c: Cluster, calls: Calls)
    requires !o.scheduled && PhaseFits(o) && InStep(o, c) && OneTime(c)
    ensures var s := HandlePhase(o, c, calls);
            && OneTime(s.c) && MovesForward(o, c, calls, s.o.phase)
  {
    HandledContained(o, c, calls);
    HandledFits(o, c, calls);
    JobStatus.SingleJobNeverLatest(c.jobs);
    if o.phase.Pending? {
      EnsuredJobOnce(o, c, calls);
    } else {
      hide JobStatus.Count, JobStatus.LatestFailed;
    }
  }

  lemma EnsuredJobOnce(o: Obj, c: Cluster, calls: Calls)
    requires OneTime(c)
    ensures OneTime(EnsureJob(o, c, calls).c)
  {
    if c.created == 1 {
      assert c.jobs[0].name == ONE_TIME;
    }
  }

  lemma PatchStaysOneTime(o: Obj, c: Cluster, calls: Calls)
    requires OneTime(c) && c.stored.Some? && !o.scheduled && PhaseFits(o)
    ensures var c' := PatchStatus(o, c, calls);
            && OneTime(c') && c'.stored.Some? && c'.stored.value.phase in {c.stored.value.phase, o.phase}
  {
  }

  lemma SameJob(o: Obj, o': Obj, c: Cluster, calls: Calls)
    ensures EnsureJob(o', c, calls).err == EnsureJob(o, c, calls).err
  {
  }

  lemma ConcludedKeeps(o: Obj, err: bool, now: nat)
    ensures var o' := Concluded(o, err, now); o'.phase == o.phase && o'.scheduled == o.scheduled
  {
  }

  lemma SyncStaysOneTime(o: Obj, c: Cluster, calls: Calls)
    requires c.stored == Some(o) && OneTime(c)
    ensures var c' := Sync(o, c, calls);
            && OneTime(c') && c'.stored.Some? && MovesForward(o, c, calls, c'.stored.value.phase)
  {
    assert !o.scheduled && PhaseFits(o);
    hide EnsureResources, HandlePhase, EnsureJob, PatchStatus, OneTime, Concluded;
    SameJob(o, EnsureResources(o, c, calls).o, c, calls);
    EnsuredStaysOneTime(o, c, calls);
    var s := EnsureResources(o, c, calls);
    HandledContained(s.o, c, calls);
    HandledFits(s.o, c, calls);
    HandledStaysOneTime(s.o, c, calls);
    var h := HandlePhase(s.o, c, calls);
    assert PhaseFits(Concluded(h.o, h.err, c.now)) && Concluded(h.o, h.err, c.now).phase == h.o.phase
        && !Concluded(h.o, h.err, c.now).scheduled by {
      ConcludedKeeps(h.o, h.err, c.now);
    }
    if s.err {
      PatchStaysOneTime(s.o, c, calls);
    } else {
      PatchStaysOneTime(Concluded(h.o, h.err, c.now), h.c, calls);
    }
  }

  /** No user gives the indexer a schedule. */
  ghost predicate NotScheduled(e: Event) {
    e.UserEdits? ==> !e.scheduled
  }

  ghost predicate NeverScheduled(events: seq<Event>) {
    forall k :: 0 <= k < |events| ==> NotScheduled(events[k])
  }

  lemma StepStaysOneTime(c: Cluster, e: Event)
    requires OneTime(c) && NotScheduled(e)
    ensures OneTime(After(c, e))
    ensures c.stored.Some? && After(c, e).stored.Some? ==>
              After(c, e).stored.value.phase == c.stored.value.phase ||
              (e.Reconciled? && MovesForward(c.stored.value, c, e.calls, After(c, e).stored.value.phase))
  {
    hide Sync, EnsureJob;
    if e.Reconciled? && c.stored.Some? && !c.stored.value.deleting {
      var o := c.stored.value;
      if o.finalizer {
        SyncStaysOneTime(o, c, e.calls);
      } else {
        var c1 := c.(stored := Some(WithFinalizer(o)));
        SyncStaysOneTime(WithFinalizer(o), c1, e.calls);
        SameEnsure(o, c, e.calls);
      }
    }
  }

  lemma SameEnsure(o: Obj, c: Cluster, calls: Calls)
    ensures EnsureJob(WithFinalizer(o), c.(stored := Some(WithFinalizer(o))), calls).err == EnsureJob(o, c, calls).err
  {
  }

  /** An indexer that never has a schedule keeps what a one-time indexer has, in every run. */
  lemma {:induction false} StaysOneTime(c: Cluster, events: seq<Event>)
    requires Initial(c) && !c.stored.value.scheduled && NeverScheduled(events)
    ensures OneTime(Run(c, events))
  {
    if events != [] {
      StaysOneTime(c, events[..|events| - 1]);
      StepStaysOneTime(Run(c, events[..|events| - 1]), events[|events| - 1]);
    }
  }

  // ---- One Job, whatever the schedule ----

  /** The Job that was created is still there, and there has been at most one. */
  ghost predicate JobOnce(c: Cluster) {
    c.created <= 1 && (HasOneTimeJob(c.jobs) <==> c.created == 1)
  }

  lemma EnsuredOnce(o: Obj, c: Cluster, calls: Calls)
    requires JobOnce(c)
    ensures JobOnce(EnsureJob(o, c, calls).c)
  {
    var jobs := EnsureJob(o, c, calls).c.jobs;
    if |jobs| == |c.jobs| + 1 {
      assert jobs[|c.jobs|].name == ONE_TIME;
    }
  }

  lemma HandledOnce(o: Obj, c: Cluster, calls: Calls)
    requires InStep(o, c) && JobOnce(c)
    ensures JobOnce(HandlePhase(o, c, calls).c)
  {
    EnsuredOnce(o, c, calls);
    DriftContained(o, c, calls);
    OthersContained(o, c, calls);
    hide HandleScheduled, HandleSuspended, HandleRunning, HandleDriftRemediation, EnsureJob;
  }

  lemma SyncOnce(o: Obj, c: Cluster, calls: Calls)
    requires c.stored == Some(o) && JobOnce(c)
    ensures JobOnce(Sync(o, c, calls))
  {
    hide EnsureResources, HandlePhase;
    EnsuredShape(o, c, calls);
    var s := EnsureResources(o, c, calls);
    HandledOnce(s.o, s.c, calls);
  }

  lemma SameNamesOnce(jobs: seq<JobStatus.Job>, k: nat, job: JobStatus.Job)
    requires k < |jobs| && job.name == jobs[k].name
    ensures HasOneTimeJob(jobs[k := job]) <==> HasOneTimeJob(jobs)
  {
    var after := jobs[k := job];
    assert forall j :: 0 <= j < |jobs| ==> after[j].name == jobs[j].name;
  }

  lemma PrunedOnce(jobs: seq<JobStatus.Job>, k: nat)
    requires k < |jobs| && jobs[k].name != ONE_TIME
    ensures HasOneTimeJob(jobs[..k] + jobs[k + 1..]) <==> HasOneTimeJob(jobs)
  {
    var after := jobs[..k] + jobs[k + 1..];
    assert forall j :: 0 <= j < |after| ==> after[j] == if j < k then jobs[j] else jobs[j + 1];
    if j :| 0 <= j < |jobs| && jobs[j].name == ONE_TIME {
      assert after[if j < k then j else j - 1] == jobs[j];
    }
  }

  lemma AppearedOnce(jobs: seq<JobStatus.Job>, job: JobStatus.Job)
    requires job.name != ONE_TIME
    ensures HasOneTimeJob(jobs + [job]) <==> HasOneTimeJob(jobs)
  {
    assert forall j :: 0 <= j < |jobs| ==> (jobs + [job])[j] == jobs[j];
  }

  lemma StepOnce(c: Cluster, e: Event)
    requires JobOnce(c)
    ensures JobOnce(After(c, e))
  {
    hide Sync, HasOneTimeJob;
    match e {
      case Reconciled(calls) =>
        if c.stored.Some? && !c.stored.value.deleting {
          var o := if c.stored.value.finalizer then c.stored.value else WithFinalizer(c.stored.value);
          SyncOnce(o, c.(stored := Some(o)), calls);
        }
      case JobAppears(name) =>
        if name != ONE_TIME {
          AppearedOnce(c.jobs, JobStatus.Job(name, 0, 0, 0, 0));
        }
      case JobChanges(k, active, failed, succeeded, start) =>
        if k < |c.jobs| {
          SameNamesOnce(c.jobs, k, JobStatus.Job(c.jobs[k].name, active, failed, succeeded, start));
        }
      case JobPruned(k) =>
        if k < |c.jobs| && c.jobs[k].name != ONE_TIME {
          PrunedOnce(c.jobs, k);
        }
      case _ =>
    }
  }

  /** In every run, whatever calls fail, whatever status writes are lost and whatever users edit, the schedule
      included, at most one one-time Job is ever created for an object. */
  lemma {:induction false} OneTimeStartsOnce(c: Cluster, events: seq<Event>)
    requires Initial(c)
    ensures JobOnce(Run(c, events)) && Run(c, events).created <= 1
  {
    if events != [] {
      OneTimeStartsOnce(c, events[..|events| - 1]);
      StepOnce(Run(c, events[..|events| - 1]), events[|events| - 1]);
    }
  }

  // ---- Progress ----

  function Progress(phase: Phase): nat {
    match phase
    case Unset => 3
    case Pending => 2
    case Running => 1
    case _ => 0
  }

  /** Every step of a one-time indexer keeps the phase or, in a reconcile, moves it strictly forward; it
      reaches Failed only from Pending and only because its Job could not be ensured. */
  lemma OneTimeMovesForward(c: Cluster, events: seq<Event>, e: Event)
    requires Initial(c) && !c.stored.value.scheduled && NeverScheduled(events) && NotScheduled(e)
    requires Run(c, events).stored.Some? && After(Run(c, events), e).stored.Some?
    ensures var before, after := Run(c, events).stored.value, After(Run(c, events), e).stored.value;
            && (after.phase == before.phase || (e.Reconciled? && Progress(after.phase) < Progress(before.phase)))
            && (after.phase.Failed? && !before.phase.Failed? ==>
                  before.phase.Pending? && e.Reconciled? && EnsureJob(before, Run(c, events), e.calls).err)
  {
    StaysOneTime(c, events);
    StepStaysOneTime(Run(c, events), e);
    hide Reconcile, EnsureJob, Run;
  }

  /** So the Job's own failure is never reported: an indexer whose one Job has failed stays Running. */
  lemma FailedJobStaysRunning(c: Cluster, events: seq<Event>, calls: Calls)
    requires Initial(c) && !c.stored.value.scheduled && NeverScheduled(events)
    requires var before := Run(c, events);
             && before.stored.Some? && before.stored.value.phase.Running? && !before.stored.value.deleting
             && |before.jobs| == 1 && JobStatus.ClassOf(before.jobs[0]).Failed?
    ensures var after := Reconcile(Run(c, events), calls);
            after.stored.Some? && after.stored.value.phase.Running?
  {
    var before := Run(c, events);
    StaysOneTime(c, events);
    StepStaysOneTime(before, Reconciled(calls));
    var o := if before.stored.value.finalizer then before.stored.value else WithFinalizer(before.stored.value);
    SyncKeepsRunning(o, before.(stored := Some(o)), calls);
  }

  lemma HandlerKeepsRunning(o: Obj, c: Cluster, calls: Calls)
    requires !o.scheduled && o.phase.Running?
    requires |c.jobs| == 1 && JobStatus.ClassOf(c.jobs[0]).Failed?
    ensures var s := HandlePhase(o, c, calls); s.c == c && s.o == o
  {
    JobStatus.SingleJobNeverLatest(c.jobs);
    JobStatus.CountZero(c.jobs, JobStatus.Completed);
    hide JobStatus.Count, JobStatus.LatestFailed;
  }

  lemma SyncKeepsRunning(o: Obj, c: Cluster, calls: Calls)
    requires c.stored == Some(o) && OneTime(c) && o.phase.Running?
    requires |c.jobs| == 1 && JobStatus.ClassOf(c.jobs[0]).Failed?
    ensures var c' := Sync(o, c, calls); c'.stored.Some? && c'.stored.value.phase.Running?
  {
    hide EnsureResources, HandlePhase, JobStatus.ClassOf;
    EnsuredStaysOneTime(o, c, calls);
    var s := EnsureResources(o, c, calls);
    HandlerKeepsRunning(s.o, s.c, calls);
  }

  /** And when the status patch after creating the Job was lost and the cache does not show the Job yet,
      the next reconcile reports Failed while the Job goes on. */
  lemma StaleCacheReportsFailed(c: Cluster, calls: Calls)
    requires OneTime(c) && |c.jobs| == 1
    requires c.stored.Some? && c.stored.value.phase.Pending? && c.stored.value.finalizer && !c.stored.value.deleting
    requires calls.get && calls.ragEngine && calls.rbac && calls.jobGet && calls.jobCacheStale
        && calls.statusPatch.Done?
    ensures var after := Reconcile(c, calls);
            && after.stored.Some? && after.stored.value.phase.Failed?
            && after.jobs == c.jobs && after.created == 1
  {
    assert c.jobs[0].name == ONE_TIME;
  }

  /** Every call of a reconcile is answered, and reads are fresh. */
  predicate Answering(calls: Calls) {
    && calls.get && calls.finalizerPatch.Done? && calls.ragEngine && calls.rbac && calls.jobGet && !calls.jobCacheStale
    && calls.jobCreate.Done? && calls.statusPatch.Done?
  }

  /** Such a run from the beginning: pick up, create the Job and lose the status patch, read a stale cache. */
  lemma StaleCacheRun(c: Cluster, calls: Calls)
    requires Initial(c) && !c.stored.value.scheduled && c.stored.value.phase.Unset? && Answering(calls)
    ensures var events := [Reconciled(calls), Reconciled(calls.(statusPatch := Refused)),
                           Reconciled(calls.(jobCacheStale := true))];
            var last := Run(c, events);
            && last.created == 1 && |last.jobs| == 1
            && last.stored.Some? && last.stored.value.phase.Failed?
  {
    var refused, stale := calls.(statusPatch := Refused), calls.(jobCacheStale := true);
    var c1 := Reconcile(c, calls);
    PicksUp(c, calls);
    var c2 := Reconcile(c1, refused);
    LosesPatch(c1, refused);
    StaleCacheReportsFailed(c2, stale);
    hide Reconcile;
    RunThree(c, Reconciled(calls), Reconciled(refused), Reconciled(stale));
  }

  lemma PicksUp(c: Cluster, calls: Calls)
    requires Initial(c) && !c.stored.value.scheduled && c.stored.value.phase.Unset? && Answering(calls)
    ensures var c1 := Reconcile(c, calls);
            && OneTime(c1) && c1.jobs == []
            && c1.stored.Some? && c1.stored.value.phase.Pending? && c1.stored.value.finalizer
                && !c1.stored.value.deleting
  {
  }

  lemma LosesPatch(c: Cluster, calls: Calls)
    requires OneTime(c) && c.jobs == []
    requires c.stored.Some? && c.stored.value.phase.Pending? && c.stored.value.finalizer && !c.stored.value.deleting
    requires Answering(calls.(statusPatch := Done)) && calls.statusPatch.Refused?
    ensures var c1 := Reconcile(c, calls);
            && OneTime(c1) && |c1.jobs| == 1
            && c1.stored.Some? && c1.stored.value.phase.Pending? && c1.stored.value.finalizer
                && !c1.stored.value.deleting
  {
    hide EnsureResources;
    var o := c.stored.value;
    EnsuredStaysOneTime(o, c, calls);
    AnsweredEnsure(o, c, calls);
    var s := EnsureResources(o, c, calls);
    assert Sync(o, c, calls) == HandlePending(s.o, c, calls).c;
    HandledStaysOneTime(s.o, c, calls);
  }

  lemma AnsweredEnsure(o: Obj, c: Cluster, calls: Calls)
    requires !o.scheduled && calls.ragEngine && calls.rbac
    ensures !EnsureResources(o, c, calls).err
  {
  }

  lemma RunThree(c: Cluster, e1: Event, e2: Event, e3: Event)
    ensures Run(c, [e1, e2, e3]) == After(After(After(c, e1), e2), e3)
  {
    hide After;
    assert [e1, e2, e3][..2] == [e1, e2] && [e1, e2][..1] == [e1] && [e1][..0] == [];
    assert Run(c, [e1]) == After(Run(c, []), e1);
    assert Run(c, [e1, e2]) == After(Run(c, [e1]), e2);
  }

  // ---- Disappearance ----

  ghost predicate EverStarted(c: Cluster) {
    c.created > 0 || c.cronsCreated > 0
  }

  /** An object that ever started a Job or CronJob carries the finalizer. */
  ghost predicate Guarded(c: Cluster) {
    c.stored.Some? && EverStarted(c) ==> c.stored.value.finalizer
  }

  /** The deletion step proper: no labelled job active, the index deleted, the finalizer taken off. */
  ghost predicate Collects(c: Cluster, e: Event) {
    && e.Reconciled? && c.stored.Some? && c.stored.value.deleting && c.stored.value.finalizer
    && !AnyActive(c.jobs) && e.calls.deleteIndex.Done?
    && After(c, e).stored.None? && !After(c, e).index
  }

  lemma SyncKeepsFinalizer(o: Obj, c: Cluster, calls: Calls)
    requires c.stored == Some(o) && o.finalizer
    ensures Sync(o, c, calls).stored.Some? && Sync(o, c, calls).stored.value.finalizer
  {
    EnsuredShape(o, c, calls);
    var s := EnsureResources(o, c, calls);
    hide EnsureResources, HandlePhase;
    HandledContained(s.o, s.c, calls);
  }

  lemma StepStaysGuarded(c: Cluster, e: Event)
    requires Guarded(c)
    ensures Guarded(After(c, e))
    ensures c.stored.Some? && After(c, e).stored.None? && EverStarted(c) ==> Collects(c, e)
    ensures c.stored.None? ==> After(c, e).stored.None? && (EverStarted(After(c, e)) ==> EverStarted(c))
    ensures c.stored.Some? && After(c, e).stored.None? ==> (EverStarted(After(c, e)) ==> EverStarted(c))
  {
    hide Sync;
    if e.Reconciled? && c.stored.Some? && !c.stored.value.deleting {
      var o := if c.stored.value.finalizer then c.stored.value else WithFinalizer(c.stored.value);
      SyncKeepsFinalizer(o, c.(stored := Some(o)), e.calls);
    }
  }

  /** No object that ever started work disappears except in a step where no labelled job is active and
      its index has been deleted. */
  lemma {:induction false} NothingDisappearsIndexed(c: Cluster, events: seq<Event>)
    requires Initial(c)
    ensures Guarded(Run(c, events))
    ensures Run(c, events).stored.None? && EverStarted(Run(c, events)) ==>
              exists k :: 0 <= k < |events| && Collects(Run(c, events[..k]), events[k])
  {
    if events != [] {
      var n := |events| - 1;
      var init := events[..n];
      NothingDisappearsIndexed(c, init);
      StepStaysGuarded(Run(c, init), events[n]);
      if Run(c, events).stored.None? && EverStarted(Run(c, events)) {
        if Run(c, init).stored.Some? {
          assert Collects(Run(c, events[..n]), events[n]);
        } else {
          var k :| 0 <= k < |init| && Collects(Run(c, init[..k]), init[k]);
          assert init[..k] == events[..k];
        }
      }
    }
  }
}
