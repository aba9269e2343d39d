/**
  Runs that follow from the outcomes of single reconciles: waiting for the user, a detector without a count
  to compare, and a one-time indexer from creation to its end.
 */
module OutcomeRuns {
  import opened Options
  import opened Controller
  import opened Protocol
  import opened DriftProtocol
  import opened Outcomes
  import opened Lifecycle
  import JobStatus

  // ---- Leaving the remediation ----

  /** For a live object in remediation: whatever fails, it leaves if and only if it is handled and its status is
      stored, and the policy is Ignore or the flag is down and it is not suspended; it leaves for Pending. */
  lemma RemediationLeftIff(c: Cluster, calls: Calls)
    requires c.stored.Some? && !c.stored.value.deleting && c.stored.value.phase.DriftRemediation?
    ensures var o := c.stored.value;
            var leaves := Acts(c, calls) && (o.policy == Some(Ignore) || (!Flagged(o) && o.suspend != Some(true)));
            PhaseAfter(c, calls) == Some(if leaves then Pending else DriftRemediation)
  {
    hide PhaseAfter, Handles;
    if Acts(c, calls) {
      LeavesRemediation(c, calls);
    } else {
      IdlePhase(c, calls);
    }
  }

  /** In remediation with the flag up and the policy Manual or none: the user's turn. */
  ghost predicate Waiting(o: Obj) {
    o.phase.DriftRemediation? && Flagged(o) && o.policy in {Some(Manual), None}
  }

  /** Then a reconcile, whatever fails in it, leaves phase, suspension, annotations, commit, count and index. */
  lemma WaitingReconcile(c: Cluster, calls: Calls)
    requires c.stored.Some? && !c.stored.value.deleting && Waiting(c.stored.value)
    ensures var o, c' := c.stored.value, Reconcile(c, calls);
            && c'.stored.Some? && Waiting(c'.stored.value)
            && c'.stored.value.suspend == o.suspend && c'.stored.value.annotations == o.annotations
            && c'.stored.value.lastCommit == o.lastCommit && c'.stored.value.numDocs == o.numDocs
            && c'.stored.value.policy == o.policy && c'.index == c.index
  {
    RemediationLeftIff(c, calls);
    hide Reconcile, Handles, JobStatus.AnyIs;
    UserFieldsStay(c, calls);
    SuspendOutcome(c, calls);
    AnnotationsOutcome(c, calls);
    CommitOutcome(c, calls);
    IndexOutcome(c, calls);
  }

  /** The object waits with this suspension and these annotations. */
  ghost predicate StillWaiting(o: Obj, c: Cluster) {
    c.stored.Some? ==>
      Waiting(c.stored.value) && c.stored.value.suspend == o.suspend && c.stored.value.annotations == o.annotations
  }

  lemma CollectedKeeps(c: Cluster, calls: Calls)
    requires c.stored.Some? && c.stored.value.deleting
    ensures Reconcile(c, calls).stored in {c.stored, None}
  {
    hide Sync, AnyActive;
  }

  lemma StepWaits(o: Obj, c: Cluster, e: Event)
    requires StillWaiting(o, c) && !e.UserEdits? && !e.Visited?
    ensures StillWaiting(o, After(c, e))
  {
    hide Reconcile;
    if e.Reconciled? && c.stored.Some? {
      if c.stored.value.deleting {
        CollectedKeeps(c, e.calls);
      } else {
        WaitingReconcile(c, e.calls);
      }
    } else if e.Reconciled? {
      GoneStepStaysGone(c, e);
    }
  }

  /** And it waits through every run without a user's edit or a visit of the detector, whatever else happens. */
  lemma {:induction false} WaitsForTheUser(c: Cluster, events: seq<Event>)
    requires c.stored.Some? && Waiting(c.stored.value)
    requires forall k :: 0 <= k < |events| ==> !events[k].UserEdits? && !events[k].Visited?
    ensures StillWaiting(c.stored.value, Run(c, events))
  {
    if events != [] {
      hide After, StillWaiting;
      WaitsForTheUser(c, events[..|events| - 1]);
      StepWaits(c.stored.value, Run(c, events[..|events| - 1]), events[|events| - 1]);
    } else {
      hide Waiting;
    }
  }

  // ---- A count of zero ----

  ghost predicate NoCount(c: Cluster) {
    c.stored.Some? ==> c.stored.value.numDocs == 0
  }

  lemma StepKeepsNoCount(c: Cluster, e: Event)
    requires NoCount(c) && !e.JobReports?
    ensures NoCount(After(c, e)) && !Detects(c, e)
  {
    hide Reconcile;
    if e.Reconciled? && c.stored.Some? {
      if c.stored.value.deleting {
        CollectedKeeps(c, e.calls);
      } else {
        CommitOutcome(c, e.calls);
      }
    } else if e.Reconciled? {
      GoneStepStaysGone(c, e);
    }
  }

  /** With a count of zero the detector finds nothing, in every run up to the next report of the job. */
  lemma {:induction false} NoCountNoDetection(c: Cluster, events: seq<Event>)
    requires NoCount(c) && forall k :: 0 <= k < |events| ==> !events[k].JobReports?
    ensures NoCount(Run(c, events)) && NoDetection(c, events, 0)
  {
    if events != [] {
      hide After, NoCount, Detects;
      var init := events[..|events| - 1];
      NoCountNoDetection(c, init);
      StepKeepsNoCount(Run(c, init), events[|events| - 1]);
      forall k | 0 <= k < |events| ensures !Detects(Run(c, events[..k]), events[k]) {
        if k < |init| {
          assert init[..k] == events[..k] && init[k] == events[k];
        }
      }
    }
  }

  /** So a remediation that resets a git source is not followed by a detection before the job reports. */
  lemma ResetSilencesDetector(c: Cluster, calls: Calls, events: seq<Event>)
    requires c.stored.Some? && !c.stored.value.deleting && c.stored.value.git
    requires Deletes(c, calls) && StatusSurvives(c, calls) && Performed(calls.statusPatch)
    requires forall k :: 0 <= k < |events| ==> !events[k].JobReports?
    ensures Reconcile(c, calls).stored.Some? && Reconcile(c, calls).stored.value.numDocs == 0
    ensures NoDetection(Reconcile(c, calls), events, 0)
  {
    hide Reconcile, Deletes, NoDetection;
    CommitOutcome(c, calls);
    NoCountNoDetection(Reconcile(c, calls), events);
  }

  // ---- A one-time indexer to its end ----

  /** The calls a one-time indexer needs, all answered. */
  predicate AnsweringAll(calls: Calls) {
    Answering(calls) && calls.listJobs
  }

  lemma StartsJob(c: Cluster, calls: Calls)
    requires OneTime(c) && c.jobs == [] && AnsweringAll(calls)
    requires c.stored.Some? && c.stored.value.phase.Pending? && c.stored.value.finalizer && !c.stored.value.deleting
    ensures var c' := Reconcile(c, calls);
            && c'.stored.Some? && c'.stored.value.phase.Running? && !c'.stored.value.scheduled
            && c'.stored.value.finalizer && !c'.stored.value.deleting
            && c'.jobs == [JobStatus.Job(ONE_TIME, 0, 0, 0, 0)]
  {
    LeavesPending(c, calls);
    hide Reconcile;
    UserFieldsStay(c, calls);
    JobsOutcome(c, calls);
  }

  /** A single job that has completed ends a Running one-time indexer. */
  lemma EndsCompleted(c: Cluster, calls: Calls)
    requires c.stored.Some? && c.stored.value.phase.Running? && !c.stored.value.scheduled && AnsweringAll(calls)
    requires c.stored.value.finalizer && !c.stored.value.deleting
    requires |c.jobs| == 1 && JobStatus.HasCompleted(c.jobs[0])
    ensures PhaseAfter(c, calls) == Some(Completed)
  {
    assert Acts(c, calls);
    hide PhaseAfter, Acts, JobStatus.LatestJobFailed, JobStatus.FirstStarted, JobStatus.StartedLast;
    LeavesRunning(c, calls);
    OnlyJobCompleted(c.jobs);
  }

  lemma OnlyJobCompleted(jobs: seq<JobStatus.Job>)
    requires |jobs| == 1 && JobStatus.HasCompleted(jobs[0])
    ensures !JobStatus.AnyIs(jobs, JobStatus.IsActive) && JobStatus.AnyIs(jobs, JobStatus.HasCompleted)
    ensures !JobStatus.LatestJobFailed(jobs)
  {
    hide JobStatus.FirstStarted, JobStatus.StartedLast;
    if JobStatus.LatestJobFailed(jobs) {
      JobStatus.LatestJobHasFailed(jobs);
    }
    if p: JobStatus.Job -> bool :| p in [JobStatus.IsActive, JobStatus.HasFailed] && JobStatus.AnyIs(jobs, p) {
      assert p(jobs[0]);
    }
  }

  /** The run from creation to Completed: pick up, start the Job, the Job runs and succeeds, and the next
      reconcile sees it. */
  lemma OneTimeCompletes(c: Cluster, calls: Calls, start: nat)
    requires Initial(c) && !c.stored.value.scheduled && c.stored.value.phase.Unset? && AnsweringAll(calls)
    ensures var r := Reconciled(calls);
            var started := After(After(c, r), r);
            var ended := After(After(started, JobChanges(0, 1, 0, 0, start)), JobChanges(0, 0, 0, 1, start));
            var last := After(ended, r);
            && started.stored.Some? && started.stored.value.phase.Running? && |started.jobs| == 1
            && last.stored.Some? && last.stored.value.phase.Completed?
  {
    PicksUp(c, calls);
    var c1 := Reconcile(c, calls);
    StartsJob(c1, calls);
    var c2 := Reconcile(c1, calls);
    var ended := After(After(c2, JobChanges(0, 1, 0, 0, start)), JobChanges(0, 0, 0, 1, start));
    assert ended == c2.(jobs := [JobStatus.Job(ONE_TIME, 0, 0, 1, start)]);
    EndsCompleted(ended, calls);
    hide OneTime, Answering;
  }
}
