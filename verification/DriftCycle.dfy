/**
  A whole drift cycle from the creation of an object: scheduled, indexed, drifted, remediated.
  It shows that the states the safety results speak of are reached, and what the cycle is for.
 */
module DriftCycle {
  import opened Options
  import opened Conditions
  import opened Controller
  import opened Protocol
  import opened DriftProtocol
  import JobStatus

  /** Where a reconcile takes a scheduled object before any remediation, when every call succeeds. */
  function NextPhase(o: Obj, jobs: seq<JobStatus.Job>): Phase {
    match o.phase
    case Unset => Pending
    case Pending => if o.IsSuspended() then Suspended else Scheduled
    case Scheduled =>
      if o.IsSuspended() then Suspended
      else if JobStatus.Count(jobs, JobStatus.Running) > 0 then Running
      else if o.DriftNoted() && o.policy in {Some(Auto), Some(Manual)} then DriftRemediation
      else Scheduled
    case Suspended => if o.IsSuspended() then Suspended else Scheduled
    case Running =>
      if JobStatus.Count(jobs, JobStatus.Running) == 0 && JobStatus.Count(jobs, JobStatus.Completed) > 0
      then Scheduled else Running
    case other => other
  }

  /** The same object in its next phase; only conditions and the finalizer differ otherwise. */
  ghost predicate StepsTo(c: Cluster, c': Cluster, phase: Phase) {
    && c.stored.Some? && c'.stored.Some?
    && c'.stored.value == c.stored.value.(phase := phase, finalizer := true, conditions := c'.stored.value.conditions)
    && c'.jobs == c.jobs && c'.index == c.index && c'.now == c.now
  }

  lemma HandledNext(o: Obj, c: Cluster, calls: Calls)
    requires o.scheduled && o.phase in {Unset, Pending, Scheduled, Suspended, Running} && AllWell(calls)
    ensures HandlePhase(o, c, calls) == Step(o.(phase := NextPhase(o, c.jobs)), c, false)
  {
    hide JobStatus.Count;
  }

  lemma SyncNext(o: Obj, c: Cluster, calls: Calls)
    requires c.stored == Some(o) && o.scheduled && o.finalizer && AllWell(calls)
    requires o.phase in {Unset, Pending, Scheduled, Suspended, Running}
    ensures StepsTo(c, Sync(o, c, calls), NextPhase(o, c.jobs))
  {
    hide EnsureResources, HandlePhase, JobStatus.Count;
    EnsureKeepsIndex(o, c, calls);
    WellEnsured(o, c, calls);
    var s := EnsureResources(o, c, calls);
    HandledNext(s.o, s.c, calls);
  }

  /** A reconcile in which every call succeeds moves a scheduled object along exactly this arrow. */
  lemma WellReconcile(c: Cluster, calls: Calls)
    requires c.stored.Some? && c.stored.value.scheduled && !c.stored.value.deleting && AllWell(calls)
    requires c.stored.value.phase in {Unset, Pending, Scheduled, Suspended, Running}
    ensures StepsTo(c, Reconcile(c, calls), NextPhase(c.stored.value, c.jobs))
  {
    hide Sync, JobStatus.Count;
    var o := c.stored.value;
    if o.finalizer {
      SyncNext(o, c, calls);
    } else {
      SyncNext(WithFinalizer(o), Patched(c, Some(WithFinalizer(o)), Done), calls);
      assert NextPhase(WithFinalizer(o), c.jobs) == NextPhase(o, c.jobs);
    }
  }

  /** The object as the user created it, up to what the system has written. */
  ghost predicate Idle(c: Cluster, phase: Phase) {
    && c.stored.Some? && c.stored.value.scheduled && c.stored.value.policy == Some(Auto)
    && !c.stored.value.deleting && !c.stored.value.IsSuspended() && c.stored.value.git
    && c.stored.value.phase == phase && c.jobs == []
    && Get(c.stored.value.annotations, LastDriftRemediated).None?
  }

  /** Two reconciles bring a new object to Scheduled. */
  lemma BecomesScheduled(c: Cluster, calls: Calls)
    requires Idle(c, Unset) && Get(c.stored.value.annotations, DriftDetected).None? && AllWell(calls)
    ensures var c2 := Reconcile(Reconcile(c, calls), calls);
            && Idle(c2, Scheduled) && c2.stored.value.finalizer
            && c2.stored.value.annotations == c.stored.value.annotations && c2.now == c.now
  {
    WellReconcile(c, calls);
    WellReconcile(Reconcile(c, calls), calls);
    hide Reconcile;
  }

  lemma StaysIdle(c: Cluster, commit: string, numDocs: nat, conditions: seq<Condition>)
    requires Idle(c, Scheduled)
    ensures var c' := After(After(c, IndexWritten), JobReports(Some(commit), numDocs, conditions));
            Idle(c', Scheduled) && c'.index && c'.stored.value.numDocs == numDocs
            && c'.stored.value.lastCommit == Some(commit)
            && c'.stored.value.finalizer == c.stored.value.finalizer
  {
    hide Reconcile;
  }

  lemma BecomesIndexed(c: Cluster, calls: Calls, commit: string, numDocs: nat, conditions: seq<Condition>)
    requires Idle(c, Unset) && Get(c.stored.value.annotations, DriftDetected).None? && AllWell(calls)
    ensures var r := Reconciled(calls);
            var c' := After(After(After(After(c, r), r), IndexWritten), JobReports(Some(commit), numDocs, conditions));
            && Idle(c', Scheduled) && c'.stored.value.finalizer && c'.stored.value.numDocs == numDocs && c'.index
            && c'.stored.value.lastCommit == Some(commit)
  {
    hide Reconcile, Idle;
    var r := Reconciled(calls);
    BecomesScheduled(c, calls);
    StaysIdle(After(After(c, r), r), commit, numDocs, conditions);
  }

  /** A detection and a tick later the next reconcile starts the remediation. */
  lemma EntersRemediation(c: Cluster, calls: Calls, count: nat)
    requires Idle(c, Scheduled) && c.stored.value.finalizer && AllWell(calls)
    requires c.stored.value.numDocs != 0 && c.stored.value.numDocs != count
    ensures var c1 := After(After(c, Visited(Some(count), Done)), Tick);
            var c2 := Reconcile(c1, calls);
            && Remediating(c2) && Rank(c2.stored.value) == 5 && !c2.stored.value.RemediatedSince()
            && c2.jobs == [] && c2.index == c.index && c2.stored.value.git
            && c2.stored.value.lastCommit == c.stored.value.lastCommit
  {
    hide Reconcile;
    var c1 := After(After(c, Visited(Some(count), Done)), Tick);
    assert c1.stored.value.DriftNoted() && PastDetection(c1) && CleanFlag(c1.stored.value);
    WellReconcile(c1, calls);
  }

  lemma RemediatesIdle(c: Cluster, calls: Calls, count: Option<nat>)
    requires Remediating(c) && AllWell(calls) && c.jobs == [] && c.stored.value.git
    requires Rank(c.stored.value) == 5 && !c.stored.value.RemediatedSince()
    ensures var r := Reconciled(calls);
            var last := After(After(After(After(After(c, r), r), Visited(count, Done)), r), r);
            && c.stored.Some? && c.stored.value.phase.DriftRemediation?
            && last.stored.Some? && last.stored.value.phase.Pending? && !last.stored.value.IsSuspended()
            && !last.index
            && last.stored.value.lastCommit == (if calls.patchKeepsStatus then Some("") else c.stored.value.lastCommit)
  {
    hide Reconcile, Detect;
    assert JobStatus.Count(c.jobs, JobStatus.Running) == 0;
    RemediationCompletes(c, calls, count);
  }

  /** From creation to remediation: an object with a schedule and policy Auto is scheduled, indexed, found
      to have drifted, and, all calls succeeding, ends in Pending, unsuspended, with the index gone.
      The commit is reset if the patch of the stamp keeps the status in memory. */
  lemma DriftIsRemediated(c: Cluster, calls: Calls, commit: string, numDocs: nat, conditions: seq<Condition>,
                          count: nat, later: Option<nat>)
    requires Initial(c) && Idle(c, Unset) && AllWell(calls)
    requires numDocs != 0 && count != numDocs
    ensures var r := Reconciled(calls);
            var indexed := After(After(After(After(c, r), r), IndexWritten), JobReports(Some(commit), numDocs,
                conditions));
            var found := After(After(After(indexed, Visited(Some(count), Done)), Tick), r);
            var last := After(After(After(After(After(found, r), r), Visited(later, Done)), r), r);
            && indexed.index && indexed.stored.Some? && indexed.stored.value.phase.Scheduled?
            && found.index && found.stored.Some? && found.stored.value.phase.DriftRemediation?
            && !last.index && last.stored.Some? && last.stored.value.phase.Pending?
            && !last.stored.value.IsSuspended()
            && last.stored.value.lastCommit == Some(if calls.patchKeepsStatus then "" else commit)
  {
    var r := Reconciled(calls);
    hide Reconcile, Detect, Remediating, Rank, Obj.RemediatedSince;
    BecomesIndexed(c, calls, commit, numDocs, conditions);
    var indexed := After(After(After(After(c, r), r), IndexWritten), JobReports(Some(commit), numDocs, conditions));
    EntersRemediation(indexed, calls, count);
    var found := After(After(After(indexed, Visited(Some(count), Done)), Tick), r);
    RemediatesIdle(found, calls, later);
  }

  // ---- Twice in one second ----

  /** In remediation, suspended, nothing running, the index there, and the detection in this very second. */
  ghost predicate DropsNow(c: Cluster) {
    && InRemediation(c) && c.stored.value.DriftNoted() && c.stored.value.IsSuspended()
    && !c.stored.value.RemediatedSince() && Get(c.stored.value.annotations, LastDriftDetected) == Some(Stamp(c.now))
    && c.index && JobStatus.Count(c.jobs, JobStatus.Running) == 0
  }

  lemma DropNowStep(c: Cluster, calls: Calls)
    requires DropsNow(c) && AllWell(calls)
    ensures var c' := Reconcile(c, calls);
            && InRemediation(c') && !c'.index && c'.now == c.now && c'.jobs == c.jobs
            && c'.stored.value.suspend == c.stored.value.suspend
            && c'.stored.value.annotations == Stamped(c.stored.value, c.now).annotations
  {
    WellSync(c, calls);
    var s := EnsureResources(c.stored.value, c, calls);
    EnsureKeepsIndex(c.stored.value, c, calls);
    hide Reconcile, EnsureResources, HandleDriftRemediation, JobStatus.Count, CommitAfter;
    assert !s.o.RemediatedSince();
    hide Obj.RemediatedSince;
    HandlerDrops(s.o, s.c, calls);
  }

  /** The drop leaves everything as it was but the index, the stamp and the status: an index written again
      in the same second is dropped again. */
  lemma DropsAgain(c: Cluster, calls: Calls)
    requires DropsNow(c) && AllWell(calls)
    ensures Drops(c, Reconciled(calls))
    ensures var c' := After(After(c, Reconciled(calls)), IndexWritten);
            DropsNow(c') && c'.now == c.now && c'.jobs == c.jobs
  {
    hide Reconcile, JobStatus.Count, AllWell;
    DropNowStep(c, calls);
  }

  lemma DetectedNow(c: Cluster, calls: Calls, count: nat)
    requires Idle(c, Scheduled) && c.stored.value.finalizer && AllWell(calls)
    requires c.stored.value.numDocs != 0 && c.stored.value.numDocs != count
    ensures var c2 := Reconcile(After(c, Visited(Some(count), Done)), calls);
            && InRemediation(c2) && c2.stored.value.DriftNoted() && !c2.stored.value.IsSuspended()
            && !c2.stored.value.RemediatedSince() && c2.jobs == [] && c2.index == c.index
            && Get(c2.stored.value.annotations, LastDriftDetected) == Some(Stamp(c2.now)) && c2.now == c.now
  {
    hide Reconcile;
    var c1 := After(c, Visited(Some(count), Done));
    assert c1.stored.value.DriftNoted();
    WellReconcile(c1, calls);
  }

  lemma SuspendsNow(c: Cluster, calls: Calls)
    requires InRemediation(c) && c.stored.value.DriftNoted() && !c.stored.value.IsSuspended() && AllWell(calls)
    requires !c.stored.value.RemediatedSince() && c.jobs == [] && c.index
    requires Get(c.stored.value.annotations, LastDriftDetected) == Some(Stamp(c.now))
    ensures var c' := Reconcile(c, calls);
            DropsNow(c') && c'.now == c.now && c'.jobs == c.jobs
  {
    hide Reconcile;
    WellSync(c, calls);
  }

  /** A run with two drops of an index for one detection, all in one second: the second of the detection. */
  lemma TwoDropsInOneSecond(c: Cluster, calls: Calls, count: nat)
    requires Idle(c, Scheduled) && c.stored.value.finalizer && c.index && AllWell(calls)
    requires c.stored.value.numDocs != 0 && c.stored.value.numDocs != count
    ensures var r := Reconciled(calls);
            var first := After(After(After(c, Visited(Some(count), Done)), r), r);
            var second := After(After(first, r), IndexWritten);
            && Drops(first, r) && Drops(second, r)
            && second.now == c.now && second.jobs == []
  {
    hide Reconcile, Detect, DropsNow, Drops, InRemediation, Idle, AllWell, Obj.RemediatedSince, Obj.DriftNoted,
        Obj.IsSuspended;
    var r := Reconciled(calls);
    var found := After(After(c, Visited(Some(count), Done)), r);
    DetectedNow(c, calls, count);
    IdleHasNoJobs(c);
    SuspendsNow(found, calls);
    var first := After(found, r);
    DropsAgain(first, calls);
    DropsAgain(After(After(first, r), IndexWritten), calls);
  }

  lemma IdleHasNoJobs(c: Cluster)
    requires Idle(c, Scheduled)
    ensures c.jobs == [] && c.stored.Some?
  {
  }

  // ---- A schedule removed too late ----

  /** A user who removes the schedule between the suspension and the drop: the drop goes on, and the CronJob,
      which only the next reconcile would have suspended, is left running. */
  lemma LateEditSparesCronJob(c: Cluster, calls: Calls)
    requires Remediating(c) && c.stored.value.scheduled && c.index && AllWell(calls)
    requires Rank(c.stored.value) == 5 && !c.stored.value.RemediatedSince()
    requires JobStatus.Count(c.jobs, JobStatus.Running) == 0
    ensures var r := Reconciled(calls);
            var edited := After(After(c, r), UserEdits(false, Some(true), Some(Auto)));
            && Drops(edited, r) && !EditFits(After(c, r), UserEdits(false, Some(true), Some(Auto)))
            && After(edited, r).cron == Some(c.stored.value.suspend) && !c.stored.value.IsSuspended()
  {
    var edit := UserEdits(false, Some(true), Some(Auto));
    FirstSuspends(c, calls);
    WellSync(c, calls);
    hide Reconcile, HandleDriftRemediation, EnsureResources, AllWell, JobStatus.Count;
    EditedDrops(After(c, Reconciled(calls)), calls);
  }

  lemma EditedDrops(c: Cluster, calls: Calls)
    requires Remediating(c) && c.stored.value.scheduled && c.index && AllWell(calls)
    requires Rank(c.stored.value) == 4 && JobStatus.Count(c.jobs, JobStatus.Running) == 0
    ensures var edit := UserEdits(false, Some(true), Some(Auto));
            && Drops(After(c, edit), Reconciled(calls)) && !EditFits(c, edit)
            && After(After(c, edit), Reconciled(calls)).cron == c.cron
  {
    hide Reconcile, HandleDriftRemediation, EnsureResources, AllWell, JobStatus.Count;
    var edited := After(c, UserEdits(false, Some(true), Some(Auto)));
    assert Remediating(edited) && Rank(edited.stored.value) == 4;
    SecondDrops(edited, calls);
    WellSync(edited, calls);
  }
}
