/**
  The controller as steps over one AutoIndexer object and the cluster around it.  These functions
  say what each phase handler, the sync around it, the deletion path and one visit of the drift
  detector do to the stored object; module Reconciler proves the imperative code against them.
 */
module Controller {
  import opened Options
  import opened Conditions
  import JobStatus

  datatype Phase =
    | Unset | Pending | Scheduled | Suspended | Running | Completed | Failed | DriftRemediation

  datatype Strategy = Auto | Manual | Ignore

  /** An annotation value: the two flag texts, an RFC 3339 stamp of a whole second, or other text. */
  datatype Value = Yes | No | Stamp(t: nat) | Text(s: string)

  /** The three annotation keys the sources use; every other key is carried along. */
  datatype Key = DriftDetected | LastDriftDetected | LastDriftRemediated | OtherKey(name: string)

  /** The name every one-time Job of the object gets; CronJob-made jobs have other names. */
  const ONE_TIME := "job"

  datatype Obj = Obj(scheduled: bool, policy: Option<Strategy>, git: bool,
                     suspend: Option<bool>, annotations: map<Key, Value>, finalizer: bool, deleting: bool,
                     phase: Phase, lastCommit: Option<string>, numDocs: nat, conditions: seq<Condition>) {
    predicate IsSuspended() {
      suspend == Some(true)
    }

    predicate DriftNoted() {
      Get(annotations, DriftDetected) == Some(Yes)
    }

    /** The remediation stamp parses, the detection stamp parses, and the first is later. */
    predicate RemediatedSince() {
      var detected, remediated := Get(annotations, LastDriftDetected), Get(annotations, LastDriftRemediated);
      detected.Some? && detected.value.Stamp? && remediated.Some? && remediated.value.Stamp? &&
      remediated.value.t > detected.value.t
    }
  }

  /** The API server and the RAG engine: the stored object, the suspend field of the CronJob, the
      labelled jobs, whether the index exists, the clock, and how many Jobs and CronJobs were ever created. */
  datatype Cluster = Cluster(stored: Option<Obj>, cron: Option<Option<bool>>, jobs: seq<JobStatus.Job>,
                             index: bool, now: nat, created: nat, cronsCreated: nat)

  /** A write is done, refused, or done with its answer lost. */
  datatype WriteResult = Done | Refused | Lost

  predicate Performed(w: WriteResult) {
    !w.Refused?
  }

  /** How the calls of one reconcile end; every call is made at most once.  `cronDiffers` says that the
      stored CronJob differs from the wanted one in more than suspend, `patchKeepsStatus` that a patch of
      the main resource leaves the in-memory status as assigned, where otherwise its answer brings back
      the stored one. */
  datatype Calls = Calls(get: bool, finalizerPatch: WriteResult, ragEngine: bool, rbac: bool,
                         cronGet: bool, cronDiffers: bool, cronWrite: WriteResult,
                         jobGet: bool, jobCacheStale: bool, jobCreate: WriteResult,
                         listJobs: bool, listIndexes: bool, deleteIndex: WriteResult,
                         mainPatch: WriteResult, patchKeepsStatus: bool,
                         statusPatch: WriteResult, finalizerUpdate: WriteResult)

  /** The in-memory object and the cluster after a part of a reconcile, and whether it returned an error. */
  datatype Step = Step(o: Obj, c: Cluster, err: bool)

  function Cond(kind: Kind, status: Truth, reason: Reason, now: nat): Condition {
    Condition(kind, status, reason, now)
  }

  function SetCond(o: Obj, kind: Kind, status: Truth, reason: Reason, now: nat): Obj {
    o.(conditions := Conditions.Write(SetCondition, o.conditions, Cond(kind, status, reason, now)))
  }

  function NotReady(o: Obj, reason: Reason, now: nat): Obj {
    SetCond(SetCond(o, ErrorKind, True, reason, now), ReadyKind, False, reason, now)
  }

  function Ready(o: Obj, reason: Reason, now: nat): Obj {
    SetCond(SetCond(o, ErrorKind, False, reason, now), ReadyKind, True, reason, now)
  }

  // ---- Required resources ----

  predicate CronUpToDate(o: Obj, c: Cluster, calls: Calls) {
    c.cron == Some(o.suspend) && !calls.cronDiffers
  }

  /** ensureCronJob: afterwards the CronJob's suspend field is the object's, unless a call failed. */
  function EnsureCron(o: Obj, c: Cluster, calls: Calls): Step {
    if !calls.cronGet then Step(o, c, true)
    else if CronUpToDate(o, c, calls) then Step(o, c, false)
    else
      var created := if c.cron.None? then c.cronsCreated + 1 else c.cronsCreated;
      Step(o, if Performed(calls.cronWrite) then c.(cron := Some(o.suspend), cronsCreated := created) else c,
           !calls.cronWrite.Done?)
  }

  function EnsureResources(o: Obj, c: Cluster, calls: Calls): Step {
    if !calls.ragEngine then Step(NotReady(o, RAGEngineNotFound, c.now), c, true)
    else if !calls.rbac then Step(NotReady(o, RBACFailed, c.now), c, true)
    else
      var cron := if o.scheduled then EnsureCron(o, c, calls) else Step(o, c, false);
      if cron.err then Step(NotReady(o, CronJobFailed, c.now), cron.c, true)
      else Step(Ready(o, ResourcesEnsured, c.now), cron.c, false)
  }

  predicate HasOneTimeJob(jobs: seq<JobStatus.Job>) {
    exists k :: 0 <= k < |jobs| && jobs[k].name == ONE_TIME
  }

  /** ensureJob: the cache may not show the Job yet, but the API server never stores two of one name. */
  function EnsureJob(o: Obj, c: Cluster, calls: Calls): Step {
    if !calls.jobGet then Step(o, c, true)
    else if HasOneTimeJob(c.jobs) then Step(o, c, calls.jobCacheStale)
    else
      Step(o, if Performed(calls.jobCreate)
              then c.(jobs := c.jobs + [JobStatus.Job(ONE_TIME, 0, 0, 0, 0)], created := c.created + 1)
              else c,
           !calls.jobCreate.Done?)
  }

  // ---- Phase handlers ----

  function HandlePending(o: Obj, c: Cluster, calls: Calls): Step {
    if o.scheduled then Step(o.(phase := if o.IsSuspended() then Suspended else Scheduled), c, false)
    else
      var made := EnsureJob(o, c, calls);
      if made.err then
        Step(o.(phase := Failed,
                conditions := WriteEach(UpdateStatus, o.conditions,
                                        [Cond(ErrorKind, True, JobCreationFailed, c.now),
                                         Cond(ReadyKind, False, JobCreationFailed, c.now)])), made.c, true)
      else Step(o.(phase := Running), made.c, false)
  }

  function HandleScheduled(o: Obj, c: Cluster, calls: Calls): Step {
    if o.IsSuspended() then Step(o.(phase := Suspended), c, false)
    else if !calls.listJobs then Step(o, c, true)
    else if JobStatus.Count(c.jobs, JobStatus.Running) > 0 then Step(o.(phase := Running), c, false)
    else if o.DriftNoted() && o.policy.Some? && !o.policy.value.Ignore? then
      Step(o.(phase := DriftRemediation), c, false)
    else Step(o, c, false)
  }

  function HandleSuspended(o: Obj, c: Cluster): Step {
    Step(if o.IsSuspended() then o else o.(phase := Scheduled), c, false)
  }

  function HandleRunning(o: Obj, c: Cluster, calls: Calls): Step {
    if !calls.listJobs then Step(o, c, true)
    else if JobStatus.Count(c.jobs, JobStatus.Running) > 0 then Step(o, c, false)
    else if JobStatus.Count(c.jobs, JobStatus.Failed) > 0 && JobStatus.LatestFailed(c.jobs) && !o.scheduled then
      Step(o.(phase := Failed), c, false)
    else if JobStatus.Count(c.jobs, JobStatus.Completed) > 0 then
      Step(o.(phase := if o.scheduled then Scheduled else Completed), c, false)
    else Step(o, c, false)
  }

  /** The status part of an object, as the status subresource stores it. */
  function WithStatus(stored: Obj, o: Obj): Obj {
    stored.(phase := o.phase, lastCommit := o.lastCommit, numDocs := o.numDocs, conditions := o.conditions)
  }

  /** A patch of the main resource stores its field at once. */
  function Patched(c: Cluster, stored: Option<Obj>, w: WriteResult): Cluster {
    if Performed(w) then c.(stored := stored) else c
  }

  /** The in-memory object after such a patch: a good answer may overwrite its status with the stored one. */
  function Answered(o: Obj, stored: Option<Obj>, calls: Calls): Obj {
    if stored.Some? && calls.mainPatch.Done? && !calls.patchKeepsStatus then WithStatus(o, stored.value) else o
  }

  function SetSuspended(o: Obj, c: Cluster, calls: Calls, suspend: bool): Step {
    var o' := o.(suspend := Some(suspend));
    if o.suspend == Some(suspend) then Step(o', c, false)
    else
      var stored := if c.stored.Some? then Some(c.stored.value.(suspend := Some(suspend))) else None;
      Step(Answered(o', stored, calls), Patched(c, stored, calls.mainPatch), !calls.mainPatch.Done?)
  }

  /** The drift is annotated, the policy is Auto, the schedule is suspended, the drift has not been
      remediated since it was detected, and no labelled job is active. */
  predicate MayRemediate(o: Obj, c: Cluster) {
    && o.DriftNoted() && o.policy == Some(Auto) && o.IsSuspended() && !o.RemediatedSince()
    && JobStatus.Count(c.jobs, JobStatus.Running) == 0
  }

  /** Dropping the index if the engine lists it. */
  function DropIndex(c: Cluster, calls: Calls): Cluster {
    if c.index && Performed(calls.deleteIndex) then c.(index := false) else c
  }

  function ResetGit(o: Obj): Obj {
    if o.git then o.(lastCommit := Some(""), numDocs := 0) else o
  }

  function Stamped(o: Obj, now: nat): Obj {
    o.(annotations := o.annotations[LastDriftRemediated := Stamp(now)])
  }

  /** Stamping the remediation; an equal stamp needs no patch. */
  function StampRemediation(o: Obj, c: Cluster, calls: Calls): Step {
    if Get(o.annotations, LastDriftRemediated) == Some(Stamp(c.now)) then Step(o, c, false)
    else
      var stored := if c.stored.Some? then Some(Stamped(c.stored.value, c.now)) else None;
      Step(Answered(Stamped(o, c.now), stored, calls), Patched(c, stored, calls.mainPatch), !calls.mainPatch.Done?)
  }

  /** Deleting the drifted index, resetting the git commit, stamping the remediation. */
  function RemediateNow(o: Obj, c: Cluster, calls: Calls): Step {
    if !calls.listIndexes then Step(o, c, true)
    else if c.index && !calls.deleteIndex.Done? then Step(o, DropIndex(c, calls), true)
    else StampRemediation(ResetGit(o), DropIndex(c, calls), calls)
  }

  function HandleDriftRemediation(o: Obj, c: Cluster, calls: Calls): Step {
    if o.policy == Some(Ignore) then Step(o.(phase := Pending), c, false)
    else if !o.DriftNoted() then
      if o.IsSuspended() then SetSuspended(o, c, calls, false) else Step(o.(phase := Pending), c, false)
    else if o.policy != Some(Auto) then Step(o, c, false)
    else if !o.IsSuspended() then SetSuspended(o, c, calls, true)
    else if o.RemediatedSince() then Step(o, c, false)
    else if !calls.listJobs then Step(o, c, true)
    else if !MayRemediate(o, c) then Step(o, c, false)
    else RemediateNow(o, c, calls)
  }

  function HandlePhase(o: Obj, c: Cluster, calls: Calls): Step {
    match o.phase
    case Pending => HandlePending(o, c, calls)
    case Scheduled => HandleScheduled(o, c, calls)
    case Suspended => HandleSuspended(o, c)
    case Running => HandleRunning(o, c, calls)
    case Completed => Step(o, c, false)
    case Failed => Step(o, c, false)
    case DriftRemediation => HandleDriftRemediation(o, c, calls)
    case Unset => Step(o.(phase := Pending), c, false)
  }

  // ---- The reconcile around the handlers ----

  function PatchStatus(o: Obj, c: Cluster, calls: Calls): Cluster {
    if c.stored.Some? && Performed(calls.statusPatch) then c.(stored := Some(WithStatus(c.stored.value, o))) else c
  }

  /** The conditions set after the handler, by whether it returned an error. */
  function Concluded(o: Obj, err: bool, now: nat): Obj {
    if err then SetCond(o, ErrorKind, True, ReconcileFailed, now) else Ready(o, ReconcileSucceeded, now)
  }

  function Sync(o: Obj, c: Cluster, calls: Calls): Cluster {
    var ensured := EnsureResources(o, c, calls);
    if ensured.err then PatchStatus(ensured.o, ensured.c, calls)
    else
      var handled := HandlePhase(ensured.o, ensured.c, calls);
      PatchStatus(Concluded(handled.o, handled.err, c.now), handled.c, calls)
  }

  predicate AnyActive(jobs: seq<JobStatus.Job>) {
    exists k :: 0 <= k < |jobs| && jobs[k].active > 0
  }

  /** garbageCollectAutoIndexer: with its last finalizer gone a deleted object disappears. */
  function Collect(o: Obj, c: Cluster, calls: Calls): Cluster {
    if !calls.listJobs || AnyActive(c.jobs) then c
    else
      var c1 := if Performed(calls.deleteIndex) then c.(index := false) else c;
      if calls.deleteIndex.Done? && o.finalizer && Performed(calls.finalizerUpdate) then c1.(stored := None) else c1
  }

  function WithFinalizer(o: Obj): Obj {
    o.(finalizer := true)
  }

  function Reconcile(c: Cluster, calls: Calls): Cluster {
    if c.stored.None? || !calls.get then c
    else
      var o := c.stored.value;
      if o.deleting then Collect(o, c, calls)
      else if o.finalizer then Sync(o, c, calls)
      else
        var c1 := Patched(c, Some(WithFinalizer(o)), calls.finalizerPatch);
        if calls.finalizerPatch.Done? then Sync(WithFinalizer(o), c1, calls) else c1
  }

  // ---- The drift detector's visit to one object ----

  /** checkAutoIndexerDrift: skipped and failed checks report no drift. */
  predicate DriftFound(o: Obj, count: Option<nat>) {
    && o.policy != Some(Ignore)
    && o.phase.Scheduled?
    && o.numDocs != 0
    && !o.IsSuspended()
    && count.Some? && count.value != o.numDocs
  }

  /** setDriftDetected and setDriftRemediated. */
  function Marked(o: Obj, drift: bool, now: nat): Obj {
    if drift then o.(annotations := o.annotations[DriftDetected := Yes][LastDriftDetected := Stamp(now)])
    else if Get(o.annotations, DriftDetected) in {None, Some(Text("")), Some(No)} then o
    else o.(annotations := o.annotations[DriftDetected := No])
  }

  function Visit(o: Obj, count: Option<nat>, now: nat): Obj {
    Marked(o, DriftFound(o, count), now)
  }

  function Detect(c: Cluster, count: Option<nat>, w: WriteResult): Cluster {
    if c.stored.Some? && Performed(w) then c.(stored := Some(Visit(c.stored.value, count, c.now))) else c
  }
}
