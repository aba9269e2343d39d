/**
  What the controller does to the two facts the job relies on: the error flag and the last commit.
  Module WholeSystem shows that these steps are the events of module IndexHistory.
 */
module ErrorFlag {
  import opened Options
  import opened Conditions
  import opened Controller
  import opened Protocol
  import opened DriftProtocol
  import JobStatus

  lemma SetCondFlag(o: Obj, kind: Kind, status: Truth, reason: Reason, now: nat)
    requires DistinctKinds(o.conditions)
    ensures var o' := SetCond(o, kind, status, reason, now);
            && DistinctKinds(o'.conditions)
            && (kind == ErrorKind ==> (HadErrors(o'.conditions) <==> status == True))
            && (kind != ErrorKind ==> (HadErrors(o'.conditions) <==> HadErrors(o.conditions)))
  {
    WriteMovesFlag(SetCondition, o.conditions, Cond(kind, status, reason, now));
    WriteKeepsOrder(SetCondition, o.conditions, Cond(kind, status, reason, now));
  }

  lemma ReadyFlag(o: Obj, reason: Reason, now: nat)
    requires DistinctKinds(o.conditions)
    ensures DistinctKinds(Ready(o, reason, now).conditions) && !HadErrors(Ready(o, reason, now).conditions)
  {
    SetCondFlag(o, ErrorKind, False, reason, now);
    SetCondFlag(SetCond(o, ErrorKind, False, reason, now), ReadyKind, True, reason, now);
  }

  lemma NotReadyFlag(o: Obj, reason: Reason, now: nat)
    requires DistinctKinds(o.conditions)
    ensures DistinctKinds(NotReady(o, reason, now).conditions) && HadErrors(NotReady(o, reason, now).conditions)
  {
    SetCondFlag(o, ErrorKind, True, reason, now);
    SetCondFlag(SetCond(o, ErrorKind, True, reason, now), ReadyKind, False, reason, now);
  }

  lemma EnsuredFlag(o: Obj, c: Cluster, calls: Calls)
    requires DistinctKinds(o.conditions)
    ensures var s := EnsureResources(o, c, calls);
            DistinctKinds(s.o.conditions) && (HadErrors(s.o.conditions) <==> s.err)
  {
    ReadyFlag(o, ResourcesEnsured, c.now);
    NotReadyFlag(o, RAGEngineNotFound, c.now);
    NotReadyFlag(o, RBACFailed, c.now);
    NotReadyFlag(o, CronJobFailed, c.now);
    hide Ready, NotReady, HadErrors, DistinctKinds;
  }

  lemma TwoUpdatesKinds(cs: seq<Condition>, first: Condition, second: Condition)
    requires DistinctKinds(cs)
    ensures DistinctKinds(WriteEach(UpdateStatus, cs, [first, second]))
  {
    hide DistinctKinds, Write;
    assert [first, second][..1] == [first] && [first][..0] == [];
    var once := Write(UpdateStatus, cs, first);
    assert WriteEach(UpdateStatus, cs, [first]) == once;
    assert WriteEach(UpdateStatus, cs, [first, second]) == Write(UpdateStatus, once, second);
    WriteKeepsOrder(UpdateStatus, cs, first);
    WriteKeepsOrder(UpdateStatus, once, second);
  }

  lemma PendingKinds(o: Obj, c: Cluster, calls: Calls)
    requires DistinctKinds(o.conditions)
    ensures DistinctKinds(HandlePending(o, c, calls).o.conditions)
  {
    hide DistinctKinds, WriteEach, EnsureJob, Cond;
    TwoUpdatesKinds(o.conditions, Cond(ErrorKind, True, JobCreationFailed, c.now),
                    Cond(ReadyKind, False, JobCreationFailed, c.now));
  }

  /** A patch of the main resource leaves each status field in memory or brings back the stored one. */
  lemma SuspendedStatus(o: Obj, c: Cluster, calls: Calls, suspend: bool)
    requires c.stored.Some?
    ensures var o' := SetSuspended(o, c, calls, suspend).o;
            && o'.conditions in {o.conditions, c.stored.value.conditions}
            && o'.lastCommit in {o.lastCommit, c.stored.value.lastCommit}
  {
  }

  lemma StampedConditions(o: Obj, c: Cluster, calls: Calls)
    requires c.stored.Some?
    ensures StampRemediation(o, c, calls).o.conditions in {o.conditions, c.stored.value.conditions}
  {
  }

  lemma RemediatedConditions(o: Obj, c: Cluster, calls: Calls)
    requires c.stored.Some?
    ensures RemediateNow(o, c, calls).o.conditions in {o.conditions, c.stored.value.conditions}
  {
    StampedConditions(ResetGit(o), DropIndex(c, calls), calls);
    hide StampRemediation;
  }

  lemma DriftKinds(o: Obj, c: Cluster, calls: Calls)
    requires c.stored.Some? && DistinctKinds(o.conditions) && DistinctKinds(c.stored.value.conditions)
    ensures DistinctKinds(HandleDriftRemediation(o, c, calls).o.conditions)
  {
    hide DistinctKinds, MayRemediate, Obj.RemediatedSince, SetSuspended, RemediateNow, Obj.DriftNoted, Obj.IsSuspended;
    SuspendedStatus(o, c, calls, true);
    SuspendedStatus(o, c, calls, false);
    RemediatedConditions(o, c, calls);
  }

  lemma HandledKinds(o: Obj, c: Cluster, calls: Calls)
    requires c.stored.Some? && DistinctKinds(o.conditions) && DistinctKinds(c.stored.value.conditions)
    ensures DistinctKinds(HandlePhase(o, c, calls).o.conditions)
  {
    PendingKinds(o, c, calls);
    DriftKinds(o, c, calls);
    OthersContained(o, c, calls);
    hide DistinctKinds, HandlePending, HandleScheduled, HandleSuspended, HandleRunning, HandleDriftRemediation;
  }

  /** Ensuring the resources fails, or the handler of the phase does. */
  predicate SyncFails(o: Obj, c: Cluster, calls: Calls) {
    var s := EnsureResources(o, c, calls);
    s.err || HandlePhase(s.o, s.c, calls).err
  }

  lemma ConcludedFlag(o: Obj, err: bool, now: nat)
    requires DistinctKinds(o.conditions)
    ensures DistinctKinds(Concluded(o, err, now).conditions)
    ensures HadErrors(Concluded(o, err, now).conditions) <==> err
  {
    SetCondFlag(o, ErrorKind, True, ReconcileFailed, now);
    ReadyFlag(o, ReconcileSucceeded, now);
    hide Ready, SetCond, HadErrors, DistinctKinds;
  }

  lemma SyncFlagIff(o: Obj, c: Cluster, calls: Calls)
    requires c.stored == Some(o) && DistinctKinds(o.conditions) && Performed(calls.statusPatch)
    ensures var c' := Sync(o, c, calls);
            && c'.stored.Some? && DistinctKinds(c'.stored.value.conditions)
            && (HadErrors(c'.stored.value.conditions) <==> SyncFails(o, c, calls))
  {
    hide EnsureResources, HandlePhase, Concluded, HadErrors, DistinctKinds;
    EnsureKeepsIndex(o, c, calls);
    EnsuredFlag(o, c, calls);
    var s := EnsureResources(o, c, calls);
    HandledContained(s.o, s.c, calls);
    HandledKinds(s.o, s.c, calls);
    var h := HandlePhase(s.o, s.c, calls);
    ConcludedFlag(h.o, h.err, c.now);
  }

  /** The object a reconcile syncs and the cluster it syncs in: the finalizer is there by then. */
  function Finalized(c: Cluster): Cluster
    requires c.stored.Some?
  {
    c.(stored := Some(WithFinalizer(c.stored.value)))
  }

  /** In every phase: after a reconcile that reaches the sync and whose status patch is stored, the error flag
      is up if and only if ensuring the resources or the phase handler failed, whoever had raised it before. */
  lemma ReconcileFlagIff(c: Cluster, calls: Calls)
    requires c.stored.Some? && !c.stored.value.deleting && DistinctKinds(c.stored.value.conditions)
    requires calls.get && (c.stored.value.finalizer || calls.finalizerPatch.Done?) && Performed(calls.statusPatch)
    ensures var after := Reconcile(c, calls).stored;
            && after.Some? && DistinctKinds(after.value.conditions)
            && (HadErrors(after.value.conditions) <==> SyncFails(Finalized(c).stored.value, Finalized(c), calls))
  {
    hide Sync, SyncFails, HadErrors, DistinctKinds;
    SyncFlagIff(Finalized(c).stored.value, Finalized(c), calls);
    assert c.stored.value.finalizer ==> Finalized(c) == c;
  }

  lemma WellHandled(o: Obj, c: Cluster, calls: Calls)
    requires InStep(o, c) && AllWell(calls) && calls.jobGet && !calls.jobCacheStale
    ensures !HandlePhase(o, c, calls).err
    ensures !o.phase.DriftRemediation? ==> HandlePhase(o, c, calls).o.lastCommit == o.lastCommit
  {
    hide JobStatus.Count, JobStatus.LatestFailed, Obj.RemediatedSince;
  }

  lemma WellSynced(o: Obj, c: Cluster, calls: Calls)
    requires c.stored == Some(o) && AllWell(calls) && calls.jobGet && !calls.jobCacheStale
    ensures !SyncFails(o, c, calls)
    ensures var c' := Sync(o, c, calls);
            c'.stored.Some? && (!o.phase.DriftRemediation? ==> c'.stored.value.lastCommit == o.lastCommit)
  {
    hide EnsureResources, HandlePhase;
    EnsureKeepsIndex(o, c, calls);
    WellEnsured(o, c, calls);
    var s := EnsureResources(o, c, calls);
    WellHandled(s.o, s.c, calls);
    HandledContained(s.o, s.c, calls);
  }

  /** An ordinary reconcile, in whatever phase, takes the error flag down; outside remediation it keeps the
      recorded commit. */
  lemma ReconcileClearsTheFlag(c: Cluster, calls: Calls)
    requires c.stored.Some? && !c.stored.value.deleting && DistinctKinds(c.stored.value.conditions)
    requires AllWell(calls) && calls.jobGet && !calls.jobCacheStale
    ensures var after := Reconcile(c, calls).stored;
            && after.Some? && !HadErrors(after.value.conditions) && DistinctKinds(after.value.conditions)
            && (!c.stored.value.phase.DriftRemediation? ==> after.value.lastCommit == c.stored.value.lastCommit)
  {
    hide Sync, SyncFails, HadErrors, DistinctKinds;
    ReconcileFlagIff(c, calls);
    WellSynced(Finalized(c).stored.value, Finalized(c), calls);
    assert c.stored.value.finalizer ==> Finalized(c) == c;
  }

  // ---- A remediation that does not reset the commit ----

  lemma HandledKeepsCommit(o: Obj, c: Cluster, calls: Calls)
    requires c.stored.Some? && o.RemediatedSince() && o.lastCommit == c.stored.value.lastCommit
    ensures HandlePhase(o, c, calls).o.lastCommit == o.lastCommit
  {
    DriftKeepsCommit(o, c, calls);
    PendingKeepsCommit(o, c, calls);
    OthersContained(o, c, calls);
    hide HandlePending, HandleScheduled, HandleSuspended, HandleRunning, HandleDriftRemediation, Obj.RemediatedSince;
  }

  lemma PendingKeepsCommit(o: Obj, c: Cluster, calls: Calls)
    ensures HandlePending(o, c, calls).o.lastCommit == o.lastCommit
  {
  }

  lemma DriftKeepsCommit(o: Obj, c: Cluster, calls: Calls)
    requires c.stored.Some? && o.RemediatedSince() && o.lastCommit == c.stored.value.lastCommit
    ensures HandleDriftRemediation(o, c, calls).o.lastCommit == o.lastCommit
  {
    SuspendedStatus(o, c, calls, true);
    SuspendedStatus(o, c, calls, false);
    hide JobStatus.Count, SetSuspended, RemediateNow, Obj.RemediatedSince, Obj.DriftNoted, Obj.IsSuspended;
  }

  lemma SyncKeepsCommit(o: Obj, c: Cluster, calls: Calls)
    requires c.stored == Some(o) && o.RemediatedSince()
    ensures Sync(o, c, calls).stored.Some? && Sync(o, c, calls).stored.value.lastCommit == o.lastCommit
  {
    hide EnsureResources, HandlePhase;
    EnsureKeepsIndex(o, c, calls);
    var s := EnsureResources(o, c, calls);
    assert s.o.RemediatedSince();
    hide Obj.RemediatedSince;
    HandledKeepsCommit(s.o, s.c, calls);
    HandledContained(s.o, s.c, calls);
  }

  lemma StepKeepsCommit(c: Cluster, e: Event)
    requires c.stored.Some? && c.stored.value.RemediatedSince() && !e.JobReports?
    ensures After(c, e).stored.Some? ==> After(c, e).stored.value.lastCommit == c.stored.value.lastCommit
  {
    hide Sync, Visit;
    match e {
      case Reconciled(calls) =>
        if !c.stored.value.deleting {
          SyncKeepsCommit(Finalized(c).stored.value, Finalized(c), calls);
          assert c.stored.value.finalizer ==> Finalized(c) == c;
        }
      case Visited(count, _) => VisitKeepsCommit(c.stored.value, count, c.now);
      case _ =>
    }
  }

  lemma VisitKeepsCommit(o: Obj, count: Option<nat>, now: nat)
    ensures Visit(o, count, now).lastCommit == o.lastCommit
  {
  }

  ghost predicate NoReport(events: seq<Event>) {
    forall k :: 0 <= k < |events| ==> !events[k].JobReports?
  }

  lemma NoDetectionInit(c: Cluster, events: seq<Event>)
    requires events != [] && NoDetection(c, events, 0)
    ensures NoDetection(c, events[..|events| - 1], 0)
    ensures !Detects(Run(c, events[..|events| - 1]), events[|events| - 1])
  {
    hide Detects, Run;
    var n := |events| - 1;
    forall k | 0 <= k < n ensures !Detects(Run(c, events[..n][..k]), events[..n][k]) {
      assert events[..n][..k] == events[..k];
    }
  }

  /** Once a drift counts as remediated the recorded commit stays, through any run without a new detection and
      without a job's report, whatever fails and whatever users edit. */
  lemma {:induction false} CommitStays(c: Cluster, events: seq<Event>)
    requires c.stored.Some? && c.stored.value.RemediatedSince()
    requires NoDetection(c, events, 0) && NoReport(events)
    ensures var last := Run(c, events).stored;
            last.Some? ==> last.value.RemediatedSince() && last.value.lastCommit == c.stored.value.lastCommit
  {
    if events != [] {
      var init, e := events[..|events| - 1], events[|events| - 1];
      NoDetectionInit(c, events);
      CommitStays(c, init);
      hide NoDetection, Detects, After, Obj.RemediatedSince;
      if Run(c, init).stored.Some? {
        StaysRemediated(Run(c, init), e);
        StepKeepsCommit(Run(c, init), e);
      } else {
        GoneStepStaysGone(Run(c, init), e);
      }
    }
  }

  /** When the status patch of a remediation is refused, the index is gone and the drift counts as remediated,
      but the recorded commit stays, through any run up to the next detection or job report. */
  lemma RefusedStatusPatchKeepsCommit(c: Cluster, calls: Calls, later: seq<Event>)
    requires Remediating(c) && Rank(c.stored.value) == 4 && JobStatus.Count(c.jobs, JobStatus.Running) == 0
    requires AllWell(calls.(statusPatch := Done)) && calls.statusPatch.Refused?
    requires NoDetection(Reconcile(c, calls), later, 0) && NoReport(later)
    ensures var c1 := Reconcile(c, calls);
            && !c1.index && c1.stored.Some? && c1.stored.value.RemediatedSince()
            && c1.stored.value.lastCommit == c.stored.value.lastCommit
            && (Run(c1, later).stored.Some? ==> Run(c1, later).stored.value.lastCommit == c.stored.value.lastCommit)
  {
    RefusedStep(c, calls);
    hide Reconcile, NoDetection, Run;
    CommitStays(Reconcile(c, calls), later);
  }

  /** With every call answered, a remediation of a git source leaves the commit reset, through any such run, if
      and only if the patch of its stamp keeps the status in memory; otherwise the old commit stays recorded
      over a deleted index. */
  lemma RemediationResetsCommitIff(c: Cluster, calls: Calls, later: seq<Event>)
    requires Remediating(c) && Rank(c.stored.value) == 4 && JobStatus.Count(c.jobs, JobStatus.Running) == 0
    requires AllWell(calls) && c.stored.value.git && c.stored.value.lastCommit != Some("")
    requires NoDetection(Reconcile(c, calls), later, 0) && NoReport(later)
    requires Run(Reconcile(c, calls), later).stored.Some?
    ensures !Reconcile(c, calls).index
    ensures Run(Reconcile(c, calls), later).stored.value.lastCommit == Some("") <==> calls.patchKeepsStatus
    ensures !calls.patchKeepsStatus ==>
              Run(Reconcile(c, calls), later).stored.value.lastCommit == c.stored.value.lastCommit
  {
    SecondDrops(c, calls);
    hide Reconcile, NoDetection, Run;
    CommitStays(Reconcile(c, calls), later);
  }

  lemma RefusedStep(c: Cluster, calls: Calls)
    requires Remediating(c) && Rank(c.stored.value) == 4 && JobStatus.Count(c.jobs, JobStatus.Running) == 0
    requires AllWell(calls.(statusPatch := Done)) && calls.statusPatch.Refused?
    ensures var c1 := Reconcile(c, calls);
            && Remediating(c1) && Rank(c1.stored.value) == 3 && !c1.index
            && c1.stored.value.lastCommit == c.stored.value.lastCommit && c1.jobs == c.jobs
  {
    hide Reconcile, EnsureResources, HandleDriftRemediation, JobStatus.Count;
    var o := c.stored.value;
    EnsureKeepsIndex(o, c, calls);
    var s := EnsureResources(o, c, calls);
    UnpatchedReconcile(c, calls);
    assert !s.o.RemediatedSince();
    HandlerDropsKept(s.o, s.c, calls);
    DriftContained(s.o, s.c, calls);
  }

  /** With the status patch refused a reconcile leaves what its handler left. */
  lemma UnpatchedReconcile(c: Cluster, calls: Calls)
    requires Remediating(c) && AllWell(calls.(statusPatch := Done)) && calls.statusPatch.Refused?
    ensures var s := EnsureResources(c.stored.value, c, calls);
            !s.err && Reconcile(c, calls) == HandleDriftRemediation(s.o, s.c, calls).c
  {
    EnsureKeepsIndex(c.stored.value, c, calls);
    hide HandleDriftRemediation;
  }

  lemma HandlerDropsKept(o: Obj, c: Cluster, calls: Calls)
    requires c.stored.Some? && CoreOf(c.stored.value, o) && AllWell(calls.(statusPatch := Done))
    requires o.policy == Some(Auto) && o.DriftNoted() && o.IsSuspended() && !o.RemediatedSince()
    requires JobStatus.Count(c.jobs, JobStatus.Running) == 0
    ensures var s := HandleDriftRemediation(o, c, calls);
            && !s.c.index && s.c.stored.Some? && s.c.stored.value.suspend == o.suspend
            && s.c.stored.value.annotations == o.annotations[LastDriftRemediated := Stamp(c.now)]
  {
    StampLands(ResetGit(o), DropIndex(c, calls), calls);
    StampMovesNoIndex(ResetGit(o), DropIndex(c, calls), calls);
    hide StampRemediation, JobStatus.Count, Obj.RemediatedSince;
    assert HandleDriftRemediation(o, c, calls) == StampRemediation(ResetGit(o), DropIndex(c, calls), calls);
    SuspendStays(ResetGit(o), DropIndex(c, calls), calls);
  }

  lemma SuspendStays(o: Obj, c: Cluster, calls: Calls)
    requires c.stored.Some?
    ensures var s := StampRemediation(o, c, calls);
            s.c.stored.Some? && s.c.stored.value.suspend == c.stored.value.suspend
  {
  }
}
