/**
  autoindexer_controller.go, autoindexer_status.go and autoindexer_gc_finalizer.go as the imperative
  code they are: handlers assign fields of an in-memory object, calls change the cluster, errors are
  returned.  Every method is proved against its function in module Controller.
 */
module Reconciler {
  import opened Options
  import opened Conditions
  import opened Controller
  import opened Protocol
  import opened DriftProtocol
  import JobStatus

  /** The in-memory AutoIndexer of one reconcile. */
  class AutoIndexer {
    const scheduled: bool
    const policy: Option<Strategy>
    const git: bool
    const deleting: bool
    var suspend: Option<bool>
    var annotations: map<Key, Value>
    var finalizer: bool
    var phase: Phase
    var lastCommit: Option<string>
    var numDocs: nat
    const conditions: ConditionList

    constructor (o: Obj)
      ensures View() == o && fresh(conditions)
    {
      scheduled, policy, git, deleting := o.scheduled, o.policy, o.git, o.deleting;
      suspend, annotations, finalizer := o.suspend, o.annotations, o.finalizer;
      phase, lastCommit, numDocs := o.phase, o.lastCommit, o.numDocs;
      conditions := new ConditionList(o.conditions);
    }

    function View(): Obj
      reads this, conditions
    {
      Obj(scheduled, policy, git, suspend, annotations, finalizer, deleting, phase, lastCommit, numDocs,
          conditions.items)
    }

    function IsSuspended(): bool
      reads this
    {
      suspend.Some? && suspend.value
    }
  }

  class AutoIndexerReconciler {
    /** What the API server and the RAG engine hold. */
    var cluster: Cluster
    const calls: Calls

    constructor (cluster: Cluster, calls: Calls)
      ensures this.cluster == cluster && this.calls == calls
    {
      this.cluster, this.calls := cluster, calls;
    }

    /** updateStatus */
    method UpdateStatus(o: AutoIndexer, newPhase: Phase, newConditions: seq<Condition>)
      modifies o, o.conditions
      ensures o.View() == old(o.View()).(phase := newPhase,
                                         conditions := WriteEach(Conditions.UpdateStatus, old(o.conditions.items),
                                             newConditions))
    {
      o.phase := newPhase;
      o.conditions.UpdateStatusConditions(newConditions);
    }

    /** setAutoIndexerCondition */
    method SetAutoIndexerCondition(o: AutoIndexer, kind: Kind, status: Truth, reason: Reason)
      modifies o.conditions
      ensures o.View() == SetCond(old(o.View()), kind, status, reason, cluster.now)
    {
      o.conditions.SetAutoIndexerCondition(Condition(kind, status, reason, cluster.now));
    }

    /** The two conditions that ensureRequiredResources sets before it returns an error. */
    method ReportNotReady(o: AutoIndexer, reason: Reason)
      modifies o.conditions
      ensures o.View() == NotReady(old(o.View()), reason, cluster.now)
    {
      SetAutoIndexerCondition(o, ErrorKind, True, reason);
      SetAutoIndexerCondition(o, ReadyKind, False, reason);
    }

    /** ensureCronJob */
    method EnsureCronJob(o: AutoIndexer) returns (err: bool)
      modifies this
      ensures EnsureCron(o.View(), old(cluster), calls) == Step(o.View(), cluster, err)
    {
      if !calls.cronGet {
        return true;
      }
      if cluster.cron.None? {
        if Performed(calls.cronWrite) {
          cluster := cluster.(cron := Some(o.suspend), cronsCreated := cluster.cronsCreated + 1);
        }
        return !calls.cronWrite.Done?;
      }
      if cluster.cron.value != o.suspend || calls.cronDiffers {
        if Performed(calls.cronWrite) {
          cluster := cluster.(cron := Some(o.suspend));
        }
        return !calls.cronWrite.Done?;
      }
      return false;
    }

    /** ensureJob */
    method EnsureOneTimeJob(o: AutoIndexer) returns (err: bool)
      modifies this
      ensures EnsureJob(o.View(), old(cluster), calls) == Step(o.View(), cluster, err)
    {
      if !calls.jobGet {
        return true;
      }
      if HasOneTimeJob(cluster.jobs) && !calls.jobCacheStale {
        return false;
      }
      if HasOneTimeJob(cluster.jobs) {
        return true;
      }
      if Performed(calls.jobCreate) {
        cluster := cluster.(jobs := cluster.jobs + [JobStatus.Job(ONE_TIME, 0, 0, 0, 0)],
            created := cluster.created + 1);
      }
      return !calls.jobCreate.Done?;
    }

    /** ensureRequiredResources */
    method EnsureRequiredResources(o: AutoIndexer) returns (err: bool)
      modifies this, o.conditions
      ensures EnsureResources(old(o.View()), old(cluster), calls) == Step(o.View(), cluster, err)
    {
      if !calls.ragEngine {
        ReportNotReady(o, RAGEngineNotFound);
        return true;
      }
      if !calls.rbac {
        ReportNotReady(o, RBACFailed);
        return true;
      }
      if o.scheduled {
        err := EnsureCronJob(o);
        if err {
          ReportNotReady(o, CronJobFailed);
          return;
        }
      }
      SetAutoIndexerCondition(o, ErrorKind, False, ResourcesEnsured);
      SetAutoIndexerCondition(o, ReadyKind, True, ResourcesEnsured);
      return false;
    }

    /** handlePendingPhase */
    method HandlePendingPhase(o: AutoIndexer) returns (err: bool)
      modifies this, o, o.conditions
      ensures HandlePending(old(o.View()), old(cluster), calls) == Step(o.View(), cluster, err)
    {
      if o.scheduled {
        UpdateStatus(o, if o.IsSuspended() then Suspended else Scheduled, []);
      } else {
        err := EnsureOneTimeJob(o);
        if err {
          UpdateStatus(o, Failed, [Condition(ErrorKind, True, JobCreationFailed, cluster.now),
                                   Condition(ReadyKind, False, JobCreationFailed, cluster.now)]);
          return;
        }
        UpdateStatus(o, Running, []);
      }
      return false;
    }

    /** handleScheduledPhase */
    method HandleScheduledPhase(o: AutoIndexer) returns (err: bool)
      modifies o, o.conditions
      ensures HandleScheduled(old(o.View()), cluster, calls) == Step(o.View(), cluster, err)
    {
      if o.IsSuspended() {
        UpdateStatus(o, Suspended, []);
        return false;
      }
      if !calls.listJobs {
        return true;
      }
      var running, _, _, _ := JobStatus.GetJobStatus(cluster.jobs);
      if running > 0 {
        UpdateStatus(o, Running, []);
        return false;
      }
      if Get(o.annotations, DriftDetected) == Some(Yes) {
        if o.policy.None? || o.policy.value.Ignore? {
          return false;
        }
        UpdateStatus(o, DriftRemediation, []);
      }
      return false;
    }

    /** handleSuspendedPhase */
    method HandleSuspendedPhase(o: AutoIndexer) returns (err: bool)
      modifies o, o.conditions
      ensures HandleSuspended(old(o.View()), cluster) == Step(o.View(), cluster, err)
    {
      if !o.IsSuspended() {
        UpdateStatus(o, Scheduled, []);
      }
      return false;
    }

    /** handleRunningPhase */
    method HandleRunningPhase(o: AutoIndexer) returns (err: bool)
      modifies o, o.conditions
      ensures HandleRunning(old(o.View()), cluster, calls) == Step(o.View(), cluster, err)
    {
      if !calls.listJobs {
        return true;
      }
      var running, failed, completed, latestJobFailed := JobStatus.GetJobStatus(cluster.jobs);
      if running == 0 {
        if failed > 0 && latestJobFailed && !o.scheduled {
          UpdateStatus(o, Failed, []);
        } else if completed > 0 {
          if o.scheduled {
            UpdateStatus(o, Scheduled, []);
          } else {
            UpdateStatus(o, Completed, []);
          }
        }
      }
      return false;
    }

    /** What an answered patch of the main resource does to the in-memory object. */
    method TakeAnswer(o: AutoIndexer)
      modifies o, o.conditions
      ensures o.View() == Answered(old(o.View()), cluster.stored, calls)
    {
      if cluster.stored.Some? && calls.mainPatch.Done? && !calls.patchKeepsStatus {
        var stored := cluster.stored.value;
        o.phase, o.lastCommit, o.numDocs := stored.phase, stored.lastCommit, stored.numDocs;
        o.conditions.items := stored.conditions;
      }
    }

    /** setSuspendedState: the field is assigned in memory whether or not the patch goes through. */
    method SetSuspendedState(o: AutoIndexer, suspend: bool) returns (err: bool)
      modifies this, o, o.conditions
      ensures SetSuspended(old(o.View()), old(cluster), calls, suspend) == Step(o.View(), cluster, err)
    {
      var existing := o.suspend;
      o.suspend := Some(suspend);
      if existing != o.suspend {
        if Performed(calls.mainPatch) && cluster.stored.Some? {
          cluster := cluster.(stored := Some(cluster.stored.value.(suspend := Some(suspend))));
        }
        TakeAnswer(o);
        return !calls.mainPatch.Done?;
      }
      return false;
    }

    /** updateAnnotations after the remediation stamp has been assigned. */
    method StampRemediated(o: AutoIndexer) returns (err: bool)
      modifies this, o, o.conditions
      ensures StampRemediation(old(o.View()), old(cluster), calls) == Step(o.View(), cluster, err)
    {
      var existing := Get(o.annotations, LastDriftRemediated);
      ghost var before := o.annotations;
      o.annotations := o.annotations[LastDriftRemediated := Stamp(cluster.now)];
      if existing != Some(Stamp(cluster.now)) {
        if Performed(calls.mainPatch) && cluster.stored.Some? {
          cluster := cluster.(stored := Some(Stamped(cluster.stored.value, cluster.now)));
        }
        TakeAnswer(o);
        return !calls.mainPatch.Done?;
      }
      assert o.annotations == before;
      return false;
    }

    /** The part of handleDriftRemediationPhase after all its guards. */
    method DropDriftedIndex(o: AutoIndexer) returns (err: bool)
      modifies this, o, o.conditions
      ensures RemediateNow(old(o.View()), old(cluster), calls) == Step(o.View(), cluster, err)
    {
      if !calls.listIndexes {
        return true;
      }
      var indexFound := cluster.index;
      if indexFound {
        if Performed(calls.deleteIndex) {
          cluster := cluster.(index := false);
        }
        if !calls.deleteIndex.Done? {
          return true;
        }
      }
      if o.git {
        o.lastCommit := Some("");
        o.numDocs := 0;
      }
      err := StampRemediated(o);
    }

    /** handleDriftRemediationPhase */
    method HandleDriftRemediationPhase(o: AutoIndexer) returns (err: bool)
      modifies this, o, o.conditions
      ensures HandleDriftRemediation(old(o.View()), old(cluster), calls) == Step(o.View(), cluster, err)
    {
      if o.policy.Some? && o.policy.value.Ignore? {
        UpdateStatus(o, Pending, []);
        return false;
      }
      if Get(o.annotations, DriftDetected) != Some(Yes) {
        if o.IsSuspended() {
          err := SetSuspendedState(o, false);
          return;
        }
        UpdateStatus(o, Pending, []);
        return false;
      }
      if o.policy.None? || o.policy.value.Manual? {
        return false;
      }
      if !o.IsSuspended() {
        err := SetSuspendedState(o, true);
        return;
      }
      var detected, remediated := Get(o.annotations, LastDriftDetected), Get(o.annotations, LastDriftRemediated);
      if detected.Some? && detected.value.Stamp? && remediated.Some? && remediated.value.Stamp? {
        if remediated.value.t > detected.value.t {
          return false;
        }
      }
      if !calls.listJobs {
        return true;
      }
      var running, _, _, _ := JobStatus.GetJobStatus(cluster.jobs);
      if running > 0 {
        return false;
      }
      err := DropDriftedIndex(o);
    }

    /** The switch of syncAutoIndexer. */
    method HandleByPhase(o: AutoIndexer) returns (err: bool)
      modifies this, o, o.conditions
      ensures HandlePhase(old(o.View()), old(cluster), calls) == Step(o.View(), cluster, err)
    {
      match o.phase {
        case Pending => err := HandlePendingPhase(o);
        case Scheduled => err := HandleScheduledPhase(o);
        case Suspended => err := HandleSuspendedPhase(o);
        case Running => err := HandleRunningPhase(o);
        case Completed => err := false;
        case Failed => err := false;
        case DriftRemediation => err := HandleDriftRemediationPhase(o);
        case Unset =>
          UpdateStatus(o, Pending, []);
          err := false;
      }
    }

    /** patchAndReturn: the status subresource of the stored object takes the in-memory status. */
    method PatchAndReturn(o: AutoIndexer)
      modifies this
      ensures cluster == PatchStatus(o.View(), old(cluster), calls)
    {
      if cluster.stored.Some? && Performed(calls.statusPatch) {
        cluster := cluster.(stored := Some(WithStatus(cluster.stored.value, o.View())));
      }
    }

    /** syncAutoIndexer */
    method SyncAutoIndexer(o: AutoIndexer)
      modifies this, o, o.conditions
      ensures cluster == Sync(old(o.View()), old(cluster), calls)
    {
      hide EnsureResources, HandlePhase, WriteEach;
      var err := EnsureRequiredResources(o);
      if err {
        PatchAndReturn(o);
        return;
      }
      EnsureKeepsClock(old(o.View()), old(cluster));
      KeepsClock(o.View(), cluster);
      err := HandleByPhase(o);
      if err {
        SetAutoIndexerCondition(o, ErrorKind, True, ReconcileFailed);
      } else {
        SetAutoIndexerCondition(o, ErrorKind, False, ReconcileSucceeded);
        SetAutoIndexerCondition(o, ReadyKind, True, ReconcileSucceeded);
      }
      PatchAndReturn(o);
    }

    lemma DropsOnlyDrift(c: Cluster)
      requires c.stored.Some? && !c.stored.value.deleting && c.index && !Reconcile(c, calls).index
      ensures c.stored.value.DriftNoted() && c.stored.value.policy == Some(Auto) && c.stored.value.IsSuspended()
      ensures forall k :: 0 <= k < |c.jobs| ==> c.jobs[k].active == 0
    {
      StepDrops(c, Reconciled(calls));
      JobStatus.CountZero(c.jobs, JobStatus.Running);
      hide Reconcile;
    }

    lemma EnsureKeepsClock(o: Obj, c: Cluster)
      ensures EnsureResources(o, c, calls).c.now == c.now
    {
    }

    lemma KeepsClock(o: Obj, c: Cluster)
      ensures HandlePhase(o, c, calls).c.now == c.now
    {
    }

    /** garbageCollectAutoIndexer */
    method GarbageCollectAutoIndexer(o: AutoIndexer)
      modifies this, o
      ensures cluster == Collect(old(o.View()), old(cluster), calls)
      ensures old(cluster).stored.Some? && cluster.stored.None? ==>
                !cluster.index && forall k :: 0 <= k < |cluster.jobs| ==> cluster.jobs[k].active == 0
    {
      if !calls.listJobs {
        return;
      }
      for k := 0 to |cluster.jobs|
        invariant cluster == old(cluster) && o.View() == old(o.View())
        invariant forall j :: 0 <= j < k ==> cluster.jobs[j].active == 0
      {
        if cluster.jobs[k].active != 0 {
          return;
        }
      }
      if Performed(calls.deleteIndex) {
        cluster := cluster.(index := false);
      }
      if !calls.deleteIndex.Done? {
        return;
      }
      if o.finalizer {
        o.finalizer := false;
        if Performed(calls.finalizerUpdate) {
          cluster := cluster.(stored := None);
        }
      }
    }

    /** Reconcile, with ensureFinalizer and deleteAutoIndexer.  A live object's index goes only for an annotated
        drift under policy Auto, with the object suspended and no labelled job active. */
    method ReconcileOnce()
      modifies this
      ensures cluster == Reconcile(old(cluster), calls)
      ensures var stored := old(cluster).stored;
              stored.Some? && !stored.value.deleting && old(cluster).index && !cluster.index ==>
                && stored.value.DriftNoted() && stored.value.policy == Some(Auto) && stored.value.IsSuspended()
                && forall k :: 0 <= k < |old(cluster).jobs| ==> old(cluster).jobs[k].active == 0
    {
      ghost var dropping := cluster.index && !Reconcile(cluster, calls).index;
      if cluster.stored.Some? && !cluster.stored.value.deleting && dropping {
        DropsOnlyDrift(cluster);
      }
      if cluster.stored.None? || !calls.get {
        return;
      }
      var o := new AutoIndexer(cluster.stored.value);
      if o.deleting {
        GarbageCollectAutoIndexer(o);
        return;
      }
      if !o.finalizer {
        o.finalizer := true;
        if Performed(calls.finalizerPatch) {
          cluster := cluster.(stored := Some(WithFinalizer(cluster.stored.value)));
        }
        if !calls.finalizerPatch.Done? {
          return;
        }
      }
      SyncAutoIndexer(o);
    }
  }
}
