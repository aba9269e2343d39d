/**
  What one reconcile leaves, field by field and exactly, said of the stored object, the jobs' own
  counters and the calls, without the functions of module Controller.
 */
module Outcomes {
  import opened Options
  import opened Conditions
  import opened Controller
  import opened Protocol
  import opened DriftProtocol
  import opened ErrorFlag
  import JobStatus

  // ---- How far a reconcile gets ----

  /** It reads a live object and the finalizer is on. */
  predicate Reads(c: Cluster, calls: Calls) {
    && c.stored.Some? && !c.stored.value.deleting && calls.get
    && (c.stored.value.finalizer || calls.finalizerPatch.Done?)
  }

  /** The CronJob is as wanted already. */
  predicate CronFits(c: Cluster, calls: Calls)
    requires c.stored.Some?
  {
    c.cron.Some? && c.cron.value == c.stored.value.suspend && !calls.cronDiffers
  }

  /** RAG engine, service account and, with a schedule, the CronJob are ensured. */
  predicate Ensures(c: Cluster, calls: Calls)
    requires c.stored.Some?
  {
    && calls.ragEngine && calls.rbac
    && (c.stored.value.scheduled ==> calls.cronGet && (CronFits(c, calls) || calls.cronWrite.Done?))
  }

  /** The handler of the phase is called. */
  predicate Handles(c: Cluster, calls: Calls) {
    Reads(c, calls) && Ensures(c, calls)
  }

  lemma EnsuresIff(c: Cluster, calls: Calls)
    requires c.stored.Some?
    ensures EnsureResources(Finalized(c).stored.value, Finalized(c), calls).err <==> !Ensures(c, calls)
  {
    hide NotReady, Ready;
  }

  /** The object as the handler of its phase gets it, and the cluster around it. */
  function Given(c: Cluster, calls: Calls): Step
    requires c.stored.Some?
  {
    EnsureResources(Finalized(c).stored.value, Finalized(c), calls)
  }

  function HandledStep(c: Cluster, calls: Calls): Step
    requires c.stored.Some?
  {
    HandlePhase(Given(c, calls).o, Given(c, calls).c, calls)
  }

  lemma GivenIs(c: Cluster, calls: Calls)
    requires c.stored.Some?
    ensures var g := Given(c, calls);
            && g.o == c.stored.value.(finalizer := true, conditions := g.o.conditions)
            && g.c == c.(stored := Finalized(c).stored, cron := g.c.cron, cronsCreated := g.c.cronsCreated)
            && InStep(g.o, g.c)
  {
    hide EnsureResources;
    EnsuredShape(Finalized(c).stored.value, Finalized(c), calls);
  }

  lemma ReadsSyncs(c: Cluster, calls: Calls)
    requires Reads(c, calls)
    ensures Reconcile(c, calls) == Sync(Finalized(c).stored.value, Finalized(c), calls)
  {
    hide Sync;
    assert c.stored.value.finalizer ==> Finalized(c) == c;
  }

  /** A reconcile that does not get to the sync stores at most the finalizer. */
  lemma Unread(c: Cluster, calls: Calls)
    requires c.stored.Some? && !c.stored.value.deleting && !Reads(c, calls)
    ensures var c' := Reconcile(c, calls);
            && c' == c.(stored := c'.stored)
            && c'.stored == Some(if calls.get && calls.finalizerPatch.Lost? then WithFinalizer(c.stored.value)
                                 else c.stored.value)
  {
    hide Sync;
    assert c.(stored := c.stored) == c;
  }

  /** Without the handler a sync touches conditions and the CronJob only. */
  lemma Unhandled(c: Cluster, calls: Calls)
    requires Reads(c, calls) && !Ensures(c, calls)
    ensures var c' := Reconcile(c, calls);
            var o := c.stored.value;
            && c'.stored == Some(o.(finalizer := true, conditions := if Performed(calls.statusPatch)
                                                                     then Given(c, calls).o.conditions
                                                                     else o.conditions))
            && c' == c.(stored := c'.stored, cron := Given(c, calls).c.cron,
                        cronsCreated := Given(c, calls).c.cronsCreated)
  {
    hide EnsureResources;
    ReadsSyncs(c, calls);
    EnsuresIff(c, calls);
    GivenIs(c, calls);
  }

  /** With it, the status is the handler's if the patch is stored; the rest is what the handler left. */
  lemma Handled(c: Cluster, calls: Calls)
    requires Handles(c, calls)
    ensures var c' := Reconcile(c, calls);
            var h := HandledStep(c, calls);
            && c'.stored.Some? && h.c.stored.Some?
            && c'.stored.value.suspend == h.c.stored.value.suspend
            && c'.stored.value.annotations == h.c.stored.value.annotations
            && (if Performed(calls.statusPatch)
                then c'.stored.value.phase == h.o.phase && c'.stored.value.lastCommit == h.o.lastCommit
                     && c'.stored.value.numDocs == h.o.numDocs
                     && c'.stored.value.conditions == Concluded(h.o, h.err, c.now).conditions
                else c'.stored.value.phase == c.stored.value.phase
                     && c'.stored.value.lastCommit == c.stored.value.lastCommit
                     && c'.stored.value.numDocs == c.stored.value.numDocs
                     && c'.stored.value.conditions == c.stored.value.conditions)
            && c'.index == h.c.index && c'.jobs == h.c.jobs && c'.created == h.c.created
            && c'.cron == Given(c, calls).c.cron && c'.cronsCreated == Given(c, calls).c.cronsCreated
            && c'.now == c.now
  {
    hide EnsureResources, HandlePhase;
    ReadsSyncs(c, calls);
    EnsuresIff(c, calls);
    GivenIs(c, calls);
    HandledContained(Given(c, calls).o, Given(c, calls).c, calls);
    assert HandledStep(c, calls).c.now == c.now;
  }

  /** Nothing a reconcile of a live object does changes the user's fields; the finalizer stays on. */
  lemma UserFieldsStay(c: Cluster, calls: Calls)
    requires c.stored.Some? && !c.stored.value.deleting
    ensures var o := c.stored.value;
            var c' := Reconcile(c, calls);
            && c'.stored.Some? && c'.now == c.now
            && c'.stored.value.scheduled == o.scheduled && c'.stored.value.policy == o.policy
            && c'.stored.value.git == o.git && !c'.stored.value.deleting
            && (c'.stored.value.finalizer <==> o.finalizer || (calls.get && Performed(calls.finalizerPatch)))
  {
    hide EnsureResources, HandlePhase, Sync;
    if Reads(c, calls) {
      ReadsSyncs(c, calls);
      SyncKeepsSpec(Finalized(c).stored.value, Finalized(c), calls);
    } else {
      Unread(c, calls);
    }
  }

  lemma PatchKeepsSpec(o: Obj, c: Cluster, calls: Calls)
    requires c.stored.Some?
    ensures var c' := PatchStatus(o, c, calls);
            c'.stored.Some? && SameSpec(c.stored.value, c'.stored.value) && c'.now == c.now
  {
  }

  lemma SyncKeepsSpec(o: Obj, c: Cluster, calls: Calls)
    requires c.stored == Some(o)
    ensures var c' := Sync(o, c, calls);
            c'.stored.Some? && SameSpec(o, c'.stored.value) && c'.now == c.now
  {
    hide EnsureResources, HandlePhase, PatchStatus, Concluded;
    EnsuredShape(o, c, calls);
    var s := EnsureResources(o, c, calls);
    HandledContained(s.o, s.c, calls);
    var h := HandlePhase(s.o, s.c, calls);
    PatchKeepsSpec(s.o, s.c, calls);
    PatchKeepsSpec(Concluded(h.o, h.err, c.now), h.c, calls);
  }

  // ---- The phase ----

  /** The stored phase after a reconcile. */
  function PhaseAfter(c: Cluster, calls: Calls): Option<Phase> {
    var stored := Reconcile(c, calls).stored;
    if stored.Some? then Some(stored.value.phase) else None
  }

  /** The stored phase after a reconcile is the handler's, or the old one. */
  lemma PhaseIs(c: Cluster, calls: Calls)
    requires c.stored.Some? && !c.stored.value.deleting
    ensures PhaseAfter(c, calls) ==
            Some(if Handles(c, calls) && Performed(calls.statusPatch) then HandledStep(c, calls).o.phase
                 else c.stored.value.phase)
  {
    hide Reconcile, HandledStep, Given;
    if !Reads(c, calls) {
      Unread(c, calls);
    } else if !Ensures(c, calls) {
      Unhandled(c, calls);
    } else {
      Handled(c, calls);
    }
  }

  /** The reconcile handles the object and its status is stored. */
  predicate Acts(c: Cluster, calls: Calls) {
    Handles(c, calls) && Performed(calls.statusPatch)
  }

  /** Otherwise the phase stays, whatever it is. */
  lemma IdlePhase(c: Cluster, calls: Calls)
    requires c.stored.Some? && !c.stored.value.deleting && !Acts(c, calls)
    ensures PhaseAfter(c, calls) == Some(c.stored.value.phase)
  {
    hide PhaseAfter;
    PhaseIs(c, calls);
  }

  /** An object of no known phase becomes Pending; finished ones stay. */
  lemma OtherPhases(c: Cluster, calls: Calls)
    requires Acts(c, calls)
    ensures var phase := PhaseAfter(c, calls);
            && (c.stored.value.phase.Unset? ==> phase == Some(Pending))
            && (c.stored.value.phase.Completed? ==> phase == Some(Completed))
            && (c.stored.value.phase.Failed? ==> phase == Some(Failed))
  {
    hide PhaseAfter, EnsureResources;
    PhaseIs(c, calls);
    GivenIs(c, calls);
  }

  /** The one-time Job is there afterwards, and known to be. */
  predicate JobEnsured(c: Cluster, calls: Calls) {
    calls.jobGet &&
    if exists k :: 0 <= k < |c.jobs| && c.jobs[k].name == ONE_TIME then !calls.jobCacheStale else calls.jobCreate.Done?
  }

  /** Pending: with a schedule Suspended or Scheduled by spec.suspend, without one Running or Failed by whether
      the Job is ensured. */
  lemma LeavesPending(c: Cluster, calls: Calls)
    requires Acts(c, calls) && c.stored.value.phase.Pending?
    ensures var o := c.stored.value;
            var phase := PhaseAfter(c, calls);
            && (phase == Some(Suspended) <==> o.scheduled && o.suspend == Some(true))
            && (phase == Some(Scheduled) <==> o.scheduled && o.suspend != Some(true))
            && (phase == Some(Running) <==> !o.scheduled && JobEnsured(c, calls))
            && (phase == Some(Failed) <==> !o.scheduled && !JobEnsured(c, calls))
  {
    hide PhaseAfter, EnsureResources, WriteEach;
    PhaseIs(c, calls);
    GivenIs(c, calls);
    JobEnsuredIff(c, calls);
  }

  lemma JobEnsuredIff(c: Cluster, calls: Calls)
    requires c.stored.Some?
    ensures EnsureJob(Given(c, calls).o, Given(c, calls).c, calls).err <==> !JobEnsured(c, calls)
  {
    hide EnsureResources;
    GivenIs(c, calls);
  }

  /** The stored drift flag is up. */
  predicate Flagged(o: Obj) {
    Get(o.annotations, DriftDetected) == Some(Yes)
  }

  /** Scheduled: Suspended when suspended, Running with an active job, DriftRemediation with the flag up under Auto
      or Manual; otherwise it stays. */
  lemma LeavesScheduled(c: Cluster, calls: Calls)
    requires Acts(c, calls) && c.stored.value.phase.Scheduled?
    ensures var o := c.stored.value;
            var phase := PhaseAfter(c, calls);
            var free := o.suspend != Some(true) && calls.listJobs;
            var active := JobStatus.AnyIs(c.jobs, JobStatus.IsActive);
            var drifted := Flagged(o) && o.policy in {Some(Auto), Some(Manual)};
            && (phase == Some(Suspended) <==> o.suspend == Some(true))
            && (phase == Some(Running) <==> free && active)
            && (phase == Some(DriftRemediation) <==> free && !active && drifted)
            && (phase == Some(Scheduled) <==> o.suspend != Some(true) && !(free && (active || drifted)))
  {
    hide PhaseAfter, EnsureResources, JobStatus.Count, JobStatus.AnyIs;
    PhaseIs(c, calls);
    GivenIs(c, calls);
    JobStatus.CountsSome(c.jobs);
  }

  /** Suspended: back to Scheduled as soon as spec.suspend is no longer true. */
  lemma LeavesSuspended(c: Cluster, calls: Calls)
    requires Acts(c, calls) && c.stored.value.phase.Suspended?
    ensures PhaseAfter(c, calls) == Some(if c.stored.value.suspend == Some(true) then Suspended else Scheduled)
  {
    hide PhaseAfter, EnsureResources;
    PhaseIs(c, calls);
    GivenIs(c, calls);
  }

  /** Running: left once the jobs are listed and none is active, for Failed without a schedule if the latest job
      failed, and otherwise for Scheduled or Completed if one has completed. */
  lemma LeavesRunning(c: Cluster, calls: Calls)
    requires Acts(c, calls) && c.stored.value.phase.Running?
    ensures var scheduled := c.stored.value.scheduled;
            var phase := PhaseAfter(c, calls);
            var idle := calls.listJobs && !JobStatus.AnyIs(c.jobs, JobStatus.IsActive);
            var failed := !scheduled && JobStatus.LatestJobFailed(c.jobs);
            var completed := JobStatus.AnyIs(c.jobs, JobStatus.HasCompleted);
            && (phase == Some(Failed) <==> idle && failed)
            && (phase == Some(Scheduled) <==> idle && completed && scheduled)
            && (phase == Some(Completed) <==> idle && completed && !scheduled && !failed)
            && (phase == Some(Running) <==> !idle || (!failed && !completed))
  {
    hide PhaseAfter, EnsureResources;
    hide JobStatus.Count, JobStatus.AnyIs, JobStatus.LatestFailed, JobStatus.LatestJobFailed;
    PhaseIs(c, calls);
    GivenIs(c, calls);
    JobStatus.CountsSome(c.jobs);
    JobStatus.LatestFailedIff(c.jobs);
    if JobStatus.LatestJobFailed(c.jobs) {
      JobStatus.LatestJobHasFailed(c.jobs);
    }
  }

  /** DriftRemediation: left for Pending if and only if the policy is Ignore, or the flag is down and the object is
      not suspended. */
  lemma LeavesRemediation(c: Cluster, calls: Calls)
    requires Acts(c, calls) && c.stored.value.phase.DriftRemediation?
    ensures var o := c.stored.value;
            var leaves := o.policy == Some(Ignore) || (!Flagged(o) && o.suspend != Some(true));
            PhaseAfter(c, calls) == Some(if leaves then Pending else DriftRemediation)
  {
    hide PhaseAfter, EnsureResources, JobStatus.Count, RemediateNow, SetSuspended, MayRemediate;
    PhaseIs(c, calls);
    GivenIs(c, calls);
    var g := Given(c, calls);
    SuspendContained(g.o, g.c, calls, true);
    SuspendContained(g.o, g.c, calls, false);
    RemediateContained(g.o, g.c, calls);
  }

  // ---- Index, status fields and annotations ----

  /** The remediation handler gets past all its guards, and the indexes are listed. */
  predicate Remediates(c: Cluster, calls: Calls) {
    && Handles(c, calls)
    && var o := c.stored.value;
    && o.phase.DriftRemediation? && o.policy == Some(Auto) && Flagged(o) && o.suspend == Some(true)
    && !o.RemediatedSince()
    && calls.listJobs && !JobStatus.AnyIs(c.jobs, JobStatus.IsActive) && calls.listIndexes
  }

  /** And past the deletion. */
  predicate Deletes(c: Cluster, calls: Calls) {
    Remediates(c, calls) && (c.index ==> calls.deleteIndex.Done?)
  }

  /** The in-memory status survives the patch of the stamp: it is kept, the patch is not answered, or none is made. */
  predicate StatusSurvives(c: Cluster, calls: Calls)
    requires c.stored.Some?
  {
    || calls.patchKeepsStatus || !calls.mainPatch.Done?
    || Get(c.stored.value.annotations, LastDriftRemediated) == Some(Stamp(c.now))
  }

  lemma GuardIff(c: Cluster, calls: Calls)
    requires Handles(c, calls) && c.stored.value.phase.DriftRemediation?
    ensures Remediates(c, calls) <==>
            calls.listJobs && calls.listIndexes && MayRemediate(Given(c, calls).o, Given(c, calls).c)
  {
    hide EnsureResources, JobStatus.Count, JobStatus.AnyIs;
    GivenIs(c, calls);
    JobStatus.CountsSome(c.jobs);
    assert Given(c, calls).o.RemediatedSince() <==> c.stored.value.RemediatedSince();
  }

  /** The remediation handler by its two ways: the deletion and what follows it, or none of it. */
  lemma DriftStep(c: Cluster, calls: Calls)
    requires Handles(c, calls) && c.stored.value.phase.DriftRemediation?
    ensures var g := Given(c, calls);
            Remediates(c, calls) ==> HandledStep(c, calls) == RemediateNow(g.o, g.c, calls)
    ensures var g, h := Given(c, calls), HandledStep(c, calls);
            !Remediates(c, calls) ==>
              && h.c.index == c.index && h.c.stored.Some? && h.c.stored.value.annotations == c.stored.value.annotations
              && h.o.lastCommit == c.stored.value.lastCommit && h.o.numDocs == c.stored.value.numDocs
  {
    hide EnsureResources, JobStatus.Count, SetSuspended, StampRemediation, Remediates, Obj.RemediatedSince;
    GivenIs(c, calls);
    GuardIff(c, calls);
    var g := Given(c, calls);
    SuspendKeepsRest(g.o, g.c, calls, true);
    SuspendKeepsRest(g.o, g.c, calls, false);
  }

  lemma SuspendKeepsRest(o: Obj, c: Cluster, calls: Calls, suspend: bool)
    requires c.stored.Some? && o.lastCommit == c.stored.value.lastCommit && o.numDocs == c.stored.value.numDocs
    ensures var s := SetSuspended(o, c, calls, suspend);
            && s.c.index == c.index && s.c.stored.Some? && s.c.stored.value.annotations == c.stored.value.annotations
            && s.o.lastCommit == o.lastCommit && s.o.numDocs == o.numDocs
  {
  }

  lemma StampStep(o: Obj, c: Cluster, calls: Calls)
    requires c.stored.Some? && c.stored.value.annotations == o.annotations
    ensures var s := StampRemediation(o, c, calls);
            && s.c.index == c.index && s.c.stored.Some?
            && s.c.stored.value.annotations ==
               (if Performed(calls.mainPatch) then o.annotations[LastDriftRemediated := Stamp(c.now)]
                else o.annotations)
            && (if calls.patchKeepsStatus || !calls.mainPatch.Done? ||
                   Get(o.annotations, LastDriftRemediated) == Some(Stamp(c.now))
                then s.o.lastCommit == o.lastCommit && s.o.numDocs == o.numDocs
                else s.o.lastCommit == c.stored.value.lastCommit && s.o.numDocs == c.stored.value.numDocs)
  {
    if Get(o.annotations, LastDriftRemediated) == Some(Stamp(c.now)) {
      assert o.annotations[LastDriftRemediated := Stamp(c.now)] == o.annotations;
    }
  }

  lemma RemediateStep(o: Obj, c: Cluster, calls: Calls)
    requires c.stored.Some? && c.stored.value.annotations == o.annotations && calls.listIndexes
    requires o.lastCommit == c.stored.value.lastCommit && o.numDocs == c.stored.value.numDocs
    ensures var s := RemediateNow(o, c, calls);
            var through := c.index ==> calls.deleteIndex.Done?;
            && s.c.stored.Some?
            && (s.c.index <==> c.index && !Performed(calls.deleteIndex))
            && s.c.stored.value.annotations ==
               (if through && Performed(calls.mainPatch) then o.annotations[LastDriftRemediated := Stamp(c.now)]
                else o.annotations)
            && var reset := through && o.git && (calls.patchKeepsStatus || !calls.mainPatch.Done? ||
                                                Get(o.annotations, LastDriftRemediated) == Some(Stamp(c.now)));
            && s.o.lastCommit == (if reset then Some("") else o.lastCommit)
            && s.o.numDocs == (if reset then 0 else o.numDocs)
  {
    hide StampRemediation;
    StampStep(ResetGit(o), DropIndex(c, calls), calls);
  }

  lemma OtherHandlersKeep(c: Cluster, calls: Calls)
    requires Handles(c, calls) && !c.stored.value.phase.DriftRemediation?
    ensures var h := HandledStep(c, calls);
            && h.c.index == c.index && h.c.stored == Finalized(c).stored
            && h.o.lastCommit == c.stored.value.lastCommit && h.o.numDocs == c.stored.value.numDocs
  {
    hide EnsureResources, HandleScheduled, HandleSuspended, HandleRunning, WriteEach;
    GivenIs(c, calls);
    OthersContained(Given(c, calls).o, Given(c, calls).c, calls);
  }

  lemma HandledRest(c: Cluster, calls: Calls)
    requires Handles(c, calls)
    ensures var h := HandledStep(c, calls);
            var o := c.stored.value;
            && h.c.stored.Some?
            && (h.c.index <==> c.index && !(Remediates(c, calls) && Performed(calls.deleteIndex)))
            && h.c.stored.value.annotations ==
               (if Deletes(c, calls) && Performed(calls.mainPatch)
                then o.annotations[LastDriftRemediated := Stamp(c.now)] else o.annotations)
            && var reset := Deletes(c, calls) && o.git && StatusSurvives(c, calls);
            && h.o.lastCommit == (if reset then Some("") else o.lastCommit)
            && h.o.numDocs == (if reset then 0 else o.numDocs)
  {
    hide HandlePhase, EnsureResources, RemediateNow;
    GivenIs(c, calls);
    if c.stored.value.phase.DriftRemediation? {
      DriftStep(c, calls);
      if Remediates(c, calls) {
        RemediateStep(Given(c, calls).o, Given(c, calls).c, calls);
      }
    } else {
      OtherHandlersKeep(c, calls);
    }
  }

  /** The index of a live object goes if and only if a remediation gets to its deletion and that is performed. */
  lemma IndexOutcome(c: Cluster, calls: Calls)
    requires c.stored.Some? && !c.stored.value.deleting
    ensures Reconcile(c, calls).index <==> c.index && !(Remediates(c, calls) && Performed(calls.deleteIndex))
  {
    hide Reconcile, HandledStep, Given, Obj.RemediatedSince, JobStatus.AnyIs;
    if !Reads(c, calls) {
      Unread(c, calls);
    } else if !Ensures(c, calls) {
      Unhandled(c, calls);
    } else {
      Handled(c, calls);
      HandledRest(c, calls);
    }
  }

  /** The annotations change by the remediation stamp alone, if and only if a remediation gets past its deletion and
      the patch is stored. */
  lemma AnnotationsOutcome(c: Cluster, calls: Calls)
    requires c.stored.Some? && !c.stored.value.deleting
    ensures Reconcile(c, calls).stored.Some?
    ensures Reconcile(c, calls).stored.value.annotations ==
            if Deletes(c, calls) && Performed(calls.mainPatch)
            then c.stored.value.annotations[LastDriftRemediated := Stamp(c.now)] else c.stored.value.annotations
  {
    hide Reconcile, HandledStep, Given, Obj.RemediatedSince, JobStatus.AnyIs;
    if !Reads(c, calls) {
      Unread(c, calls);
    } else if !Ensures(c, calls) {
      Unhandled(c, calls);
    } else {
      Handled(c, calls);
      HandledRest(c, calls);
    }
  }

  /** Commit and document count are reset together, if and only if a remediation of a git source gets past its
      deletion, the status survives the patch of the stamp and is stored. */
  lemma CommitOutcome(c: Cluster, calls: Calls)
    requires c.stored.Some? && !c.stored.value.deleting
    ensures var o, c' := c.stored.value, Reconcile(c, calls);
            var reset := Deletes(c, calls) && o.git && StatusSurvives(c, calls) && Performed(calls.statusPatch);
            && c'.stored.Some?
            && c'.stored.value.lastCommit == (if reset then Some("") else o.lastCommit)
            && c'.stored.value.numDocs == (if reset then 0 else o.numDocs)
  {
    hide Reconcile, HandledStep, Given, Obj.RemediatedSince, JobStatus.AnyIs;
    if !Reads(c, calls) {
      Unread(c, calls);
    } else if !Ensures(c, calls) {
      Unhandled(c, calls);
    } else {
      Handled(c, calls);
      HandledRest(c, calls);
    }
  }

  /** The controller suspends the object at the start of a remediation and takes that back at its end, and touches
      spec.suspend nowhere else. */
  lemma SuspendOutcome(c: Cluster, calls: Calls)
    requires c.stored.Some? && !c.stored.value.deleting
    ensures var o, c' := c.stored.value, Reconcile(c, calls);
            var writes := Handles(c, calls) && o.phase.DriftRemediation? && Performed(calls.mainPatch);
            && c'.stored.Some?
            && c'.stored.value.suspend ==
               if writes && o.policy == Some(Auto) && Flagged(o) && o.suspend != Some(true) then Some(true)
               else if writes && o.policy != Some(Ignore) && !Flagged(o) && o.suspend == Some(true) then Some(false)
               else o.suspend
  {
    hide Reconcile, HandledStep, Given;
    if !Reads(c, calls) {
      Unread(c, calls);
    } else if !Ensures(c, calls) {
      Unhandled(c, calls);
    } else {
      Handled(c, calls);
      HandledSuspend(c, calls);
    }
  }

  lemma HandledSuspend(c: Cluster, calls: Calls)
    requires Handles(c, calls)
    ensures var o, h := c.stored.value, HandledStep(c, calls);
            var writes := o.phase.DriftRemediation? && Performed(calls.mainPatch);
            && h.c.stored.Some?
            && h.c.stored.value.suspend ==
               if writes && o.policy == Some(Auto) && Flagged(o) && o.suspend != Some(true) then Some(true)
               else if writes && o.policy != Some(Ignore) && !Flagged(o) && o.suspend == Some(true) then Some(false)
               else o.suspend
  {
    hide EnsureResources, JobStatus.Count, SetSuspended, StampRemediation, MayRemediate, Obj.RemediatedSince;
    hide HandlePending, HandleScheduled, HandleSuspended, HandleRunning;
    GivenIs(c, calls);
    var g := Given(c, calls);
    if c.stored.value.phase.DriftRemediation? {
      SuspendStored(g.o, g.c, calls, true);
      SuspendStored(g.o, g.c, calls, false);
      SuspendStays(ResetGit(g.o), DropIndex(g.c, calls), calls);
    } else {
      OtherHandlersKeep(c, calls);
    }
  }

  lemma SuspendStored(o: Obj, c: Cluster, calls: Calls, suspend: bool)
    requires c.stored.Some? && c.stored.value.suspend == o.suspend
    ensures var s := SetSuspended(o, c, calls, suspend);
            && s.c.stored.Some?
            && s.c.stored.value.suspend == (if Performed(calls.mainPatch) then Some(suspend) else o.suspend)
  {
  }

  // ---- Jobs and CronJob ----

  /** The one-time Job is created if and only if a Pending object without a schedule is handled, the read answers
      that there is none, and the creation is performed; no other reconcile touches the jobs. */
  lemma JobsOutcome(c: Cluster, calls: Calls)
    requires c.stored.Some? && !c.stored.value.deleting
    ensures var o, c' := c.stored.value, Reconcile(c, calls);
            var creates := Handles(c, calls) && o.phase.Pending? && !o.scheduled && calls.jobGet &&
                           Performed(calls.jobCreate) && forall k :: 0 <= k < |c.jobs| ==> c.jobs[k].name != ONE_TIME;
            && c'.jobs == (if creates then c.jobs + [JobStatus.Job(ONE_TIME, 0, 0, 0, 0)] else c.jobs)
            && c'.created == (if creates then c.created + 1 else c.created)
  {
    hide Reconcile, HandledStep, Given;
    if !Reads(c, calls) {
      Unread(c, calls);
    } else if !Ensures(c, calls) {
      Unhandled(c, calls);
    } else {
      Handled(c, calls);
      HandledJobs(c, calls);
    }
  }

  lemma HandledJobs(c: Cluster, calls: Calls)
    requires Handles(c, calls)
    ensures var o, h := c.stored.value, HandledStep(c, calls);
            var creates := o.phase.Pending? && !o.scheduled && calls.jobGet &&
                           Performed(calls.jobCreate) && forall k :: 0 <= k < |c.jobs| ==> c.jobs[k].name != ONE_TIME;
            && h.c.jobs == (if creates then c.jobs + [JobStatus.Job(ONE_TIME, 0, 0, 0, 0)] else c.jobs)
            && h.c.created == (if creates then c.created + 1 else c.created)
  {
    hide EnsureResources, HandleScheduled, HandleSuspended, HandleRunning, HandleDriftRemediation, WriteEach;
    GivenIs(c, calls);
    var g := Given(c, calls);
    OthersContained(g.o, g.c, calls);
    DriftContained(g.o, g.c, calls);
  }

  /** The CronJob is written if and only if the object has a schedule, its resources before it are ensured, the read
      is answered and it differs; then it carries the object's suspend field. */
  lemma CronOutcome(c: Cluster, calls: Calls)
    requires c.stored.Some? && !c.stored.value.deleting
    ensures var o, c' := c.stored.value, Reconcile(c, calls);
            var writes := Reads(c, calls) && o.scheduled && calls.ragEngine && calls.rbac && calls.cronGet &&
                          !CronFits(c, calls) && Performed(calls.cronWrite);
            && c'.cron == (if writes then Some(o.suspend) else c.cron)
            && c'.cronsCreated == c.cronsCreated + (if writes && c.cron.None? then 1 else 0)
  {
    hide Reconcile, HandledStep, Ready, NotReady;
    if !Reads(c, calls) {
      Unread(c, calls);
    } else if !Ensures(c, calls) {
      Unhandled(c, calls);
    } else {
      Handled(c, calls);
    }
  }

  // ---- Errors and conditions ----

  /** The handler of the phase returns an error. */
  predicate HandlerFails(c: Cluster, calls: Calls)
    requires c.stored.Some?
  {
    var o := c.stored.value;
    match o.phase
    case Pending => !o.scheduled && !JobEnsured(c, calls)
    case Scheduled => o.suspend != Some(true) && !calls.listJobs
    case Running => !calls.listJobs
    case DriftRemediation =>
      if o.policy == Some(Ignore) then false
      else if !Flagged(o) then o.suspend == Some(true) && !calls.mainPatch.Done?
      else if o.policy != Some(Auto) then false
      else if o.suspend != Some(true) then !calls.mainPatch.Done?
      else !o.RemediatedSince() && RemediationFails(c, calls)
    case _ => false
  }

  /** Listing the jobs fails, or with no job active one of the later calls does. */
  predicate RemediationFails(c: Cluster, calls: Calls)
    requires c.stored.Some?
  {
    || !calls.listJobs
    || (!JobStatus.AnyIs(c.jobs, JobStatus.IsActive) &&
        (!calls.listIndexes || (c.index && !calls.deleteIndex.Done?) || (StampsAnew(c) && !calls.mainPatch.Done?)))
  }

  predicate StampsAnew(c: Cluster)
    requires c.stored.Some?
  {
    Get(c.stored.value.annotations, LastDriftRemediated) != Some(Stamp(c.now))
  }

  lemma DriftFailsIff(c: Cluster, calls: Calls)
    requires Handles(c, calls) && c.stored.value.phase.DriftRemediation?
    ensures HandledStep(c, calls).err <==> HandlerFails(c, calls)
  {
    hide EnsureResources, JobStatus.Count, JobStatus.AnyIs, SetSuspended, RemediateNow, Obj.RemediatedSince;
    GivenIs(c, calls);
    var g := Given(c, calls);
    JobStatus.CountsSome(c.jobs);
    SameRemediatedSince(c, calls);
    SuspendErr(g.o, g.c, calls, true);
    SuspendErr(g.o, g.c, calls, false);
    RemediateErr(g.o, g.c, calls);
  }

  lemma SameRemediatedSince(c: Cluster, calls: Calls)
    requires c.stored.Some?
    ensures Given(c, calls).o.RemediatedSince() <==> c.stored.value.RemediatedSince()
  {
    hide EnsureResources;
    GivenIs(c, calls);
  }

  lemma SuspendErr(o: Obj, c: Cluster, calls: Calls, suspend: bool)
    ensures SetSuspended(o, c, calls, suspend).err <==> o.suspend != Some(suspend) && !calls.mainPatch.Done?
  {
  }

  lemma RemediateErr(o: Obj, c: Cluster, calls: Calls)
    ensures RemediateNow(o, c, calls).err <==>
            || !calls.listIndexes || (c.index && !calls.deleteIndex.Done?)
            || (Get(o.annotations, LastDriftRemediated) != Some(Stamp(c.now)) && !calls.mainPatch.Done?)
  {
  }

  /** The handler returns an error in exactly these cases. */
  lemma HandlerFailsIff(c: Cluster, calls: Calls)
    requires Handles(c, calls)
    ensures HandledStep(c, calls).err <==> HandlerFails(c, calls)
  {
    if c.stored.value.phase.DriftRemediation? {
      DriftFailsIff(c, calls);
    } else {
      hide EnsureResources, JobStatus.Count, JobStatus.LatestFailed, WriteEach, HandleDriftRemediation;
      GivenIs(c, calls);
      JobEnsuredIff(c, calls);
    }
  }

  /** The answer to a patch of the main resource has brought the stored status back. */
  predicate StatusReturned(c: Cluster, calls: Calls)
    requires c.stored.Some?
  {
    var o := c.stored.value;
    && o.phase.DriftRemediation? && calls.mainPatch.Done? && !calls.patchKeepsStatus && o.policy != Some(Ignore)
    && (if !Flagged(o) then o.suspend == Some(true)
        else o.policy == Some(Auto) && (o.suspend != Some(true) || (Deletes(c, calls) && StampsAnew(c))))
  }

  function Set(cs: seq<Condition>, kind: Kind, status: Truth, reason: Reason, now: nat): seq<Condition> {
    Conditions.Write(SetCondition, cs, Condition(kind, status, reason, now))
  }

  function EnsuredConditions(c: Cluster): seq<Condition>
    requires c.stored.Some?
  {
    Set(Set(c.stored.value.conditions, ErrorKind, False, ResourcesEnsured, c.now),
        ReadyKind, True, ResourcesEnsured, c.now)
  }

  lemma EnsuredConditionsAre(c: Cluster, calls: Calls)
    requires Handles(c, calls)
    ensures Given(c, calls).o.conditions == EnsuredConditions(c)
  {
    EnsuresIff(c, calls);
    hide Conditions.Write;
  }

  lemma DriftConditions(c: Cluster, calls: Calls)
    requires Handles(c, calls) && c.stored.value.phase.DriftRemediation?
    ensures HandledStep(c, calls).o.conditions ==
            if StatusReturned(c, calls) then c.stored.value.conditions else Given(c, calls).o.conditions
  {
    hide EnsureResources, JobStatus.Count, JobStatus.AnyIs, SetSuspended, RemediateNow, Obj.RemediatedSince, Remediates;
    GivenIs(c, calls);
    var g := Given(c, calls);
    GuardIff(c, calls);
    SameRemediatedSince(c, calls);
    SuspendConditions(g.o, g.c, calls, true);
    SuspendConditions(g.o, g.c, calls, false);
    RemediateConditions(g.o, g.c, calls);
  }

  lemma SuspendConditions(o: Obj, c: Cluster, calls: Calls, suspend: bool)
    requires c.stored.Some?
    ensures SetSuspended(o, c, calls, suspend).o.conditions ==
            if o.suspend != Some(suspend) && calls.mainPatch.Done? && !calls.patchKeepsStatus
            then c.stored.value.conditions else o.conditions
  {
  }

  lemma RemediateConditions(o: Obj, c: Cluster, calls: Calls)
    requires c.stored.Some?
    ensures RemediateNow(o, c, calls).o.conditions ==
            if && calls.listIndexes && (c.index ==> calls.deleteIndex.Done?)
               && Get(o.annotations, LastDriftRemediated) != Some(Stamp(c.now))
               && calls.mainPatch.Done? && !calls.patchKeepsStatus
            then c.stored.value.conditions else o.conditions
  {
  }

  /** The conditions the handler leaves: those of the ensured resources, the two of a Job that could not be
      ensured over them, or the stored ones. */
  function HandledConditions(c: Cluster, calls: Calls): seq<Condition>
    requires c.stored.Some?
  {
    var o := c.stored.value;
    if o.phase.Pending? && !o.scheduled && !JobEnsured(c, calls) then
      var failed := Conditions.Write(UpdateStatus, EnsuredConditions(c),
                                     Condition(ErrorKind, True, JobCreationFailed, c.now));
      Conditions.Write(UpdateStatus, failed, Condition(ReadyKind, False, JobCreationFailed, c.now))
    else if StatusReturned(c, calls) then o.conditions
    else EnsuredConditions(c)
  }

  lemma TwoUpdates(cs: seq<Condition>, first: Condition, second: Condition)
    ensures WriteEach(UpdateStatus, cs, [first, second]) ==
            Conditions.Write(UpdateStatus, Conditions.Write(UpdateStatus, cs, first), second)
  {
    hide Conditions.Write;
    assert [first, second][..1] == [first] && [first][..0] == [];
    assert WriteEach(UpdateStatus, cs, [first]) ==
           Conditions.Write(UpdateStatus, WriteEach(UpdateStatus, cs, []), first);
  }

  lemma HandledConditionsAre(c: Cluster, calls: Calls)
    requires Handles(c, calls)
    ensures HandledStep(c, calls).o.conditions == HandledConditions(c, calls)
  {
    hide EnsureResources, EnsuredConditions, JobStatus.Count, JobStatus.LatestFailed, WriteEach, Conditions.Write;
    hide HandleDriftRemediation, HandleScheduled, HandleSuspended, HandleRunning, Deletes;
    GivenIs(c, calls);
    EnsuredConditionsAre(c, calls);
    if c.stored.value.phase.DriftRemediation? {
      DriftConditions(c, calls);
    } else {
      JobEnsuredIff(c, calls);
      OthersContained(Given(c, calls).o, Given(c, calls).c, calls);
      TwoUpdates(EnsuredConditions(c), Condition(ErrorKind, True, JobCreationFailed, c.now),
                 Condition(ReadyKind, False, JobCreationFailed, c.now));
    }
  }

  /** Why the resources are not ensured: the first that fails. */
  function Failure(calls: Calls): Reason {
    if !calls.ragEngine then RAGEngineNotFound else if !calls.rbac then RBACFailed else CronJobFailed
  }

  /** The conditions after a reconcile of a live object: unchanged if the status is not stored; error and not ready
      with the first resource that fails; and otherwise what the handler leaves with the error of the
      reconcile, or without error and ready. */
  lemma ConditionsOutcome(c: Cluster, calls: Calls)
    requires c.stored.Some? && !c.stored.value.deleting
    ensures var o := c.stored.value;
            var handled := HandledConditions(c, calls);
            Reconcile(c, calls).stored.Some? &&
            Reconcile(c, calls).stored.value.conditions ==
            if !Reads(c, calls) || !Performed(calls.statusPatch) then o.conditions
            else if !Ensures(c, calls) then
              Set(Set(o.conditions, ErrorKind, True, Failure(calls), c.now), ReadyKind, False, Failure(calls), c.now)
            else if HandlerFails(c, calls) then Set(handled, ErrorKind, True, ReconcileFailed, c.now)
            else Set(Set(handled, ErrorKind, False, ReconcileSucceeded, c.now),
                     ReadyKind, True, ReconcileSucceeded, c.now)
  {
    hide Reconcile, HandledStep, HandledConditions, HandlerFails, Conditions.Write;
    if !Reads(c, calls) {
      Unread(c, calls);
    } else if !Ensures(c, calls) {
      Unhandled(c, calls);
      FailedConditions(c, calls);
    } else {
      Handled(c, calls);
      HandledConditionsAre(c, calls);
      HandlerFailsIff(c, calls);
    }
  }

  lemma FailedConditions(c: Cluster, calls: Calls)
    requires c.stored.Some? && !Ensures(c, calls)
    ensures Given(c, calls).o.conditions ==
            Set(Set(c.stored.value.conditions, ErrorKind, True, Failure(calls), c.now),
                ReadyKind, False, Failure(calls), c.now)
  {
    hide Conditions.Write;
  }

  // ---- Deletion ----

  /** A deleted object is gone after a reconcile if and only if it was read, the jobs were listed and none is active,
      the deletion of the index was answered and the update without the finalizer performed; otherwise it is
      stored unchanged.  Its index goes with the deletion, and nothing else changes. */
  lemma CollectedIff(c: Cluster, calls: Calls)
    requires c.stored.Some? && c.stored.value.deleting && c.stored.value.finalizer
    ensures var c' := Reconcile(c, calls);
            var clear := calls.get && calls.listJobs && forall k :: 0 <= k < |c.jobs| ==> c.jobs[k].active == 0;
            && c'.stored ==
               (if clear && calls.deleteIndex.Done? && Performed(calls.finalizerUpdate) then None else c.stored)
            && (c'.index <==> c.index && !(clear && Performed(calls.deleteIndex)))
            && c' == c.(stored := c'.stored, index := c'.index)
  {
    hide Sync;
    assert AnyActive(c.jobs) <==> !forall k :: 0 <= k < |c.jobs| ==> c.jobs[k].active == 0;
  }
}
