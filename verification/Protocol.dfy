/**
  The controller, the drift detector, the job and the users as one step system, and what holds
  over every run of it.
 */
module Protocol {
  import opened Options
  import opened Conditions
  import opened Controller
  import JobStatus

  /** One step of the system.  `JobAppears` needs a CronJob that is not suspended; jobs then change
      their counters freely; `JobReports` is the job's write to the status. */
  datatype Event =
    | Reconciled(calls: Calls)
    | Visited(count: Option<nat>, write: WriteResult)
    | JobAppears(name: string)
    | JobChanges(k: nat, active: nat, failed: nat, succeeded: nat, start: nat)
    | JobPruned(k: nat)
    | JobReports(lastCommit: Option<string>, numDocs: nat, conditions: seq<Condition>)
    | IndexWritten
    | Tick
    | UserEdits(scheduled: bool, suspend: Option<bool>, policy: Option<Strategy>)
    | UserDeletes

  function After(c: Cluster, e: Event): Cluster {
    match e
    case Reconciled(calls) => Reconcile(c, calls)
    case Visited(count, w) => Detect(c, count, w)
    case JobAppears(name) =>
      if c.cron.Some? && c.cron.value != Some(true) && name != ONE_TIME
      then c.(jobs := c.jobs + [JobStatus.Job(name, 0, 0, 0, 0)]) else c
    case JobChanges(k, active, failed, succeeded, start) =>
      if k < |c.jobs|
      then c.(jobs := c.jobs[k := JobStatus.Job(c.jobs[k].name, active, failed, succeeded, start)])
      else c
    case JobPruned(k) =>
      if k < |c.jobs| && c.jobs[k].name != ONE_TIME then c.(jobs := c.jobs[..k] + c.jobs[k + 1..]) else c
    case JobReports(lastCommit, numDocs, conditions) =>
      if c.stored.None? then c
      else
        var o := c.stored.value;
        c.(stored := Some(o.(lastCommit := lastCommit, numDocs := numDocs, conditions := conditions)))
    case IndexWritten => c.(index := true)
    case Tick => c.(now := c.now + 1)
    case UserEdits(scheduled, suspend, policy) =>
      if c.stored.Some?
      then c.(stored := Some(c.stored.value.(scheduled := scheduled, suspend := suspend, policy := policy))) else c
    case UserDeletes =>
      if c.stored.None? then c
      else c.(stored := if c.stored.value.finalizer then Some(c.stored.value.(deleting := true)) else None)
  }

  function Run(c: Cluster, events: seq<Event>): Cluster {
    if events == [] then c
    else After(Run(c, events[..|events| - 1]), events[|events| - 1])
  }

  /** The cluster right after a user has created the object. */
  ghost predicate Initial(c: Cluster) {
    && c.stored.Some?
    && c.stored.value.phase in {Unset, Pending}
    && !c.stored.value.finalizer && !c.stored.value.deleting
    && Get(c.stored.value.annotations, DriftDetected).None?
    && c.cron.None? && c.jobs == [] && c.created == 0 && c.cronsCreated == 0
  }

  // ---- Phases and the schedule ----

  ghost predicate PhaseFits(o: Obj) {
    && (o.phase in {Scheduled, Suspended, DriftRemediation} ==> o.scheduled)
    && (o.phase in {Completed, Failed} ==> !o.scheduled)
  }

  ghost predicate PhasesFit(c: Cluster) {
    c.stored.Some? ==> PhaseFits(c.stored.value)
  }

  /** What no step of the sync touches in memory or in the store. */
  ghost predicate SameSpec(o: Obj, o': Obj) {
    o'.scheduled == o.scheduled && o'.policy == o.policy && o'.git == o.git && o'.deleting == o.deleting
        && o'.finalizer == o.finalizer
  }

  lemma EnsuredShape(o: Obj, c: Cluster, calls: Calls)
    ensures var s := EnsureResources(o, c, calls);
            && s.o == o.(conditions := s.o.conditions)
            && s.c == c.(cron := s.c.cron, cronsCreated := s.c.cronsCreated)
  {
  }

  /** A part of the sync leaves the spec, the finalizer and the cluster's bookkeeping alone; of the
      stored object it changes at most the suspend field and the annotations. */
  ghost predicate Contained(o: Obj, c: Cluster, s: Step) {
    && SameSpec(o, s.o)
    && s.c.stored.Some? && c.stored.Some?
    && StoredAlong(c.stored.value, s.c.stored.value)
    && s.c.cron == c.cron && s.c.now == c.now && s.c.cronsCreated == c.cronsCreated
  }

  lemma PendingContained(o: Obj, c: Cluster, calls: Calls)
    requires c.stored.Some?
    ensures Contained(o, c, HandlePending(o, c, calls))
  {
    var made := EnsureJob(o, c, calls);
    assert Contained(o, c, made);
  }

  /** The phase in memory is the stored one, as it is when a handler starts. */
  ghost predicate InStep(o: Obj, c: Cluster) {
    c.stored.Some? && c.stored.value.phase == o.phase
  }

  /** What an answered patch brings back into memory is status only, and of that not the phase. */
  lemma AnsweredSpec(o: Obj, stored: Option<Obj>, calls: Calls)
    requires stored.Some? ==> stored.value.phase == o.phase
    ensures var o' := Answered(o, stored, calls);
            SameSpec(o, o') && o'.phase == o.phase && o'.suspend == o.suspend && o'.annotations == o.annotations
  {
  }

  /** The stored object may differ in the suspend field and the annotations. */
  ghost predicate StoredAlong(stored: Obj, stored': Obj) {
    stored' == stored.(suspend := stored'.suspend, annotations := stored'.annotations)
  }

  /** A step that patches the main resource. */
  lemma PatchContained(o: Obj, o': Obj, c: Cluster, stored': Obj, calls: Calls, err: bool)
    requires InStep(o, c) && SameSpec(o, o') && o'.phase == o.phase
    requires StoredAlong(c.stored.value, stored') && stored'.phase == o.phase
    ensures var s := Step(Answered(o', Some(stored'), calls), Patched(c, Some(stored'), calls.mainPatch), err);
            Contained(o, c, s) && s.o.phase == o.phase && s.c.jobs == c.jobs && s.c.created == c.created
  {
    AnsweredSpec(o', Some(stored'), calls);
    hide Answered;
    StoredUnchanged(c.stored.value);
  }

  lemma StoredUnchanged(stored: Obj)
    ensures StoredAlong(stored, stored)
  {
  }

  lemma UnpatchedContained(o: Obj, o': Obj, c: Cluster, err: bool)
    requires InStep(o, c) && SameSpec(o, o')
    ensures Contained(o, c, Step(o', c, err))
  {
    StoredUnchanged(c.stored.value);
  }

  lemma SuspendContained(o: Obj, c: Cluster, calls: Calls, suspend: bool)
    requires InStep(o, c)
    ensures var s := SetSuspended(o, c, calls, suspend);
            Contained(o, c, s) && s.o.phase == o.phase && s.c.jobs == c.jobs && s.c.created == c.created
  {
    var o', stored' := o.(suspend := Some(suspend)), c.stored.value.(suspend := Some(suspend));
    PatchContained(o, o', c, stored', calls, !calls.mainPatch.Done?);
    UnpatchedContained(o, o', c, false);
    hide Contained, Answered;
  }

  lemma StampContained(o: Obj, c: Cluster, calls: Calls)
    requires InStep(o, c)
    ensures var s := StampRemediation(o, c, calls);
            Contained(o, c, s) && s.o.phase == o.phase && s.c.jobs == c.jobs && s.c.created == c.created
  {
    PatchContained(o, Stamped(o, c.now), c, Stamped(c.stored.value, c.now), calls, !calls.mainPatch.Done?);
    UnpatchedContained(o, o, c, false);
    hide Contained, Answered;
  }

  lemma RemediateContained(o: Obj, c: Cluster, calls: Calls)
    requires InStep(o, c)
    ensures var s := RemediateNow(o, c, calls);
            Contained(o, c, s) && s.o.phase == o.phase && s.c.jobs == c.jobs && s.c.created == c.created
  {
    hide StampRemediation;
    StampContained(ResetGit(o), DropIndex(c, calls), calls);
  }

  lemma DriftContained(o: Obj, c: Cluster, calls: Calls)
    requires InStep(o, c)
    ensures var s := HandleDriftRemediation(o, c, calls);
            Contained(o, c, s) && s.o.phase in {o.phase, Pending} && s.c.jobs == c.jobs && s.c.created == c.created
  {
    hide SetSuspended, RemediateNow;
    SuspendContained(o, c, calls, true);
    SuspendContained(o, c, calls, false);
    RemediateContained(o, c, calls);
  }

  /** The other handlers change the phase only. */
  lemma OthersContained(o: Obj, c: Cluster, calls: Calls)
    ensures PhaseOnly(o, c, HandleScheduled(o, c, calls))
    ensures PhaseOnly(o, c, HandleSuspended(o, c))
    ensures PhaseOnly(o, c, HandleRunning(o, c, calls))
  {
    hide JobStatus.Count, JobStatus.LatestFailed, Obj.DriftNoted, Obj.IsSuspended, PhaseOnly;
    SetsPhaseOnly(o, c);
  }

  lemma SetsPhaseOnly(o: Obj, c: Cluster)
    ensures forall err :: PhaseOnly(o, c, Step(o, c, err))
    ensures forall phase, err :: PhaseOnly(o, c, Step(o.(phase := phase), c, err))
  {
  }

  ghost predicate PhaseOnly(o: Obj, c: Cluster, s: Step) {
    s.o == o.(phase := s.o.phase) && s.c == c
  }

  lemma PhaseOnlyContained(o: Obj, c: Cluster, s: Step)
    requires c.stored.Some? && PhaseOnly(o, c, s)
    ensures Contained(o, c, s)
  {
  }

  lemma HandledContained(o: Obj, c: Cluster, calls: Calls)
    requires InStep(o, c)
    ensures Contained(o, c, HandlePhase(o, c, calls))
  {
    hide HandlePending, HandleDriftRemediation, HandleScheduled, HandleSuspended, HandleRunning;
    match o.phase {
      case Pending => PendingContained(o, c, calls);
      case DriftRemediation => DriftContained(o, c, calls);
      case _ =>
        OthersContained(o, c, calls);
        PhaseOnlyContained(o, c, HandlePhase(o, c, calls));
    }
  }

  lemma HandledFits(o: Obj, c: Cluster, calls: Calls)
    requires PhaseFits(o) && InStep(o, c)
    ensures PhaseFits(HandlePhase(o, c, calls).o)
    ensures o.phase in {Completed, Failed} ==> HandlePhase(o, c, calls).o.phase == o.phase
  {
    hide HandlePending, HandleScheduled, HandleSuspended, HandleRunning, HandleDriftRemediation;
    HandledContained(o, c, calls);
    PendingPhase(o, c, calls);
    OthersPhase(o, c, calls);
    DriftContained(o, c, calls);
    hide Contained;
    match o.phase {
      case Pending =>
      case DriftRemediation =>
      case _ =>
    }
  }

  lemma PendingPhase(o: Obj, c: Cluster, calls: Calls)
    ensures HandlePending(o, c, calls).o.scheduled == o.scheduled
    ensures HandlePending(o, c, calls).o.phase in (if o.scheduled then {Suspended, Scheduled} else {Failed, Running})
  {
    hide EnsureJob, WriteEach;
  }

  /** Where the other handlers go from the phases they are called in. */
  lemma OthersPhase(o: Obj, c: Cluster, calls: Calls)
    ensures HandleScheduled(o, c, calls).o.phase in {o.phase, Suspended, Running, DriftRemediation}
    ensures HandleSuspended(o, c).o.phase in {o.phase, Scheduled}
    ensures HandleRunning(o, c, calls).o.phase in
            {o.phase} + (if o.scheduled then {Scheduled} else {Completed, Failed})
  {
    hide JobStatus.Count, JobStatus.LatestFailed, Obj.DriftNoted, Obj.IsSuspended;
  }

  lemma SyncFits(o: Obj, c: Cluster, calls: Calls)
    requires c.stored == Some(o) && PhaseFits(o)
    ensures var c' := Sync(o, c, calls);
            && c'.stored.Some? && PhaseFits(c'.stored.value) && c'.stored.value.scheduled == o.scheduled
            && (o.phase in {Completed, Failed} ==> c'.stored.value.phase == o.phase)
  {
    hide EnsureResources, HandlePhase;
    EnsuredShape(o, c, calls);
    var s := EnsureResources(o, c, calls);
    if !s.err {
      HandledContained(s.o, s.c, calls);
      HandledFits(s.o, s.c, calls);
    }
  }

  lemma ReconcileFits(c: Cluster, calls: Calls)
    requires PhasesFit(c)
    ensures PhasesFit(Reconcile(c, calls))
  {
    hide Sync;
    if c.stored.Some? && !c.stored.value.deleting {
      var o := c.stored.value;
      if o.finalizer {
        SyncFits(o, c, calls);
      } else {
        SyncFits(WithFinalizer(o), Patched(c, Some(WithFinalizer(o)), Done), calls);
      }
    }
  }

  /** A user who adds or removes the schedule does so before the phase has come to depend on it. */
  ghost predicate EditFits(c: Cluster, e: Event) {
    e.UserEdits? && c.stored.Some? && e.scheduled != c.stored.value.scheduled ==>
      c.stored.value.phase in {Unset, Pending, Running}
  }

  lemma StepFitsIff(c: Cluster, e: Event)
    requires PhasesFit(c)
    ensures PhasesFit(After(c, e)) <==> EditFits(c, e)
  {
    hide Reconcile;
    if e.UserEdits? && c.stored.Some? {
      assert After(c, e).stored.value.scheduled == e.scheduled;
      match c.stored.value.phase {
        case Completed =>
        case Failed =>
        case _ =>
      }
    }
    if e.Reconciled? {
      ReconcileFits(c, e.calls);
    }
  }

  ghost predicate EditsFit(c: Cluster, events: seq<Event>) {
    forall k :: 0 <= k < |events| ==> EditFits(Run(c, events[..k]), events[k])
  }

  lemma EditsFitInit(c: Cluster, events: seq<Event>)
    requires events != []
    ensures EditsFit(c, events) <==>
            EditsFit(c, events[..|events| - 1]) && EditFits(Run(c, events[..|events| - 1]), events[|events| - 1])
  {
    hide EditFits, Run;
    var n := |events| - 1;
    forall k | 0 <= k < n ensures events[..n][..k] == events[..k] {}
  }

  /** While schedules are edited in the phases Unset, Pending and Running only, Scheduled, Suspended and
      DriftRemediation imply a schedule, Completed and Failed imply none. */
  lemma {:induction false} PhasesAlwaysFit(c: Cluster, events: seq<Event>)
    requires PhasesFit(c) && EditsFit(c, events)
    ensures PhasesFit(Run(c, events))
  {
    if events != [] {
      EditsFitInit(c, events);
      PhasesAlwaysFit(c, events[..|events| - 1]);
      StepFitsIff(Run(c, events[..|events| - 1]), events[|events| - 1]);
    }
  }

  ghost predicate AlwaysFits(c: Cluster, events: seq<Event>) {
    forall k :: 0 <= k <= |events| ==> PhasesFit(Run(c, events[..k]))
  }

  lemma AlwaysFitsInit(c: Cluster, events: seq<Event>)
    requires events != []
    ensures AlwaysFits(c, events) <==> AlwaysFits(c, events[..|events| - 1]) && PhasesFit(Run(c, events))
  {
    hide PhasesFit, Run;
    var n := |events| - 1;
    assert events[..n + 1] == events;
    forall k | 0 <= k <= n ensures events[..n][..k] == events[..k] {}
  }

  /** Phases fit the schedule in every state of a run if and only if no edit comes too late. */
  lemma {:induction false} PhasesFitIff(c: Cluster, events: seq<Event>)
    requires PhasesFit(c)
    ensures AlwaysFits(c, events) <==> EditsFit(c, events)
  {
    hide PhasesFit, EditFits, AlwaysFits, EditsFit, After;
    if events == [] {
      assert AlwaysFits(c, events) && EditsFit(c, events) by {
        NoEvents(c);
      }
    } else {
      var init, last := events[..|events| - 1], events[|events| - 1];
      PhasesFitIff(c, init);
      AlwaysFitsInit(c, events);
      EditsFitInit(c, events);
      if EditsFit(c, init) {
        PhasesAlwaysFit(c, init);
        StepFitsIff(Run(c, init), last);
      }
    }
  }

  lemma NoEvents(c: Cluster)
    requires PhasesFit(c)
    ensures AlwaysFits(c, []) && EditsFit(c, [])
  {
  }

  lemma SyncKeepsFinished(o: Obj, c: Cluster, calls: Calls)
    requires c.stored == Some(o) && o.phase in {Completed, Failed}
    ensures var c' := Sync(o, c, calls); c'.stored.Some? && c'.stored.value.phase == o.phase
  {
    hide EnsureResources;
    EnsuredShape(o, c, calls);
  }

  lemma StepKeepsFinished(c: Cluster, e: Event)
    requires c.stored.Some? && c.stored.value.phase in {Completed, Failed}
    ensures After(c, e).stored.Some? ==> After(c, e).stored.value.phase == c.stored.value.phase
  {
    hide Sync;
    if e.Reconciled? && !c.stored.value.deleting {
      var o := c.stored.value;
      if o.finalizer {
        SyncKeepsFinished(o, c, e.calls);
      } else {
        SyncKeepsFinished(WithFinalizer(o), Patched(c, Some(WithFinalizer(o)), Done), e.calls);
      }
    }
  }

  /** Completed and Failed are never left, whatever the users edit. */
  lemma {:induction false} FinishedForGood(c: Cluster, events: seq<Event>)
    requires c.stored.Some? && c.stored.value.phase in {Completed, Failed}
    ensures Run(c, events).stored.Some? ==> Run(c, events).stored.value.phase == c.stored.value.phase
  {
    if events != [] {
      var before := Run(c, events[..|events| - 1]);
      FinishedForGood(c, events[..|events| - 1]);
      if before.stored.Some? {
        StepKeepsFinished(before, events[|events| - 1]);
      } else {
        GoneStepStaysGone(before, events[|events| - 1]);
      }
    }
  }

  lemma GoneStepStaysGone(c: Cluster, e: Event)
    requires c.stored.None?
    ensures After(c, e).stored.None?
  {
  }
}
