/**
  Drift remediation as a protocol between the controller and the detector: when the index is
  dropped, why it is not dropped twice for one detection, and why the phase is left.
 */
module DriftProtocol {
  import opened Options
  import opened Controller
  import opened Protocol

  // ---- When the index is dropped ----

  /** A reconcile of a live object takes the index away. */
  ghost predicate Drops(c: Cluster, e: Event) {
    e.Reconciled? && c.stored.Some? && !c.stored.value.deleting && c.index && !After(c, e).index
  }

  lemma EnsureKeepsIndex(o: Obj, c: Cluster, calls: Calls)
    ensures var s := EnsureResources(o, c, calls);
            && s.c.index == c.index && s.c.jobs == c.jobs && s.c.now == c.now && s.c.stored == c.stored
            && s.o == o.(conditions := s.o.conditions)
            && (!s.err ==> s.c.cron == if o.scheduled then Some(o.suspend) else c.cron)
  {
  }

  lemma OnlyRemediationDrops(o: Obj, c: Cluster, calls: Calls)
    requires c.index && !HandlePhase(o, c, calls).c.index
    ensures o.phase.DriftRemediation? && MayRemediate(o, c)
  {
    hide JobStatus.Count, JobStatus.LatestFailed;
  }

  lemma SyncDrops(o: Obj, c: Cluster, calls: Calls)
    requires c.stored == Some(o) && c.index && !Sync(o, c, calls).index
    ensures o.phase.DriftRemediation? && MayRemediate(o, c)
    ensures Sync(o, c, calls).cron == if o.scheduled then Some(o.suspend) else c.cron
  {
    hide EnsureResources, HandlePhase;
    EnsureKeepsIndex(o, c, calls);
    var s := EnsureResources(o, c, calls);
    assert !s.err;
    OnlyRemediationDrops(s.o, s.c, calls);
    HandledContained(s.o, s.c, calls);
  }

  lemma StepDrops(c: Cluster, e: Event)
    requires Drops(c, e)
    ensures c.stored.value.phase.DriftRemediation? && MayRemediate(c.stored.value, c)
    ensures After(c, e).cron == if c.stored.value.scheduled then Some(c.stored.value.suspend) else c.cron
  {
    hide Sync;
    var o := c.stored.value;
    if o.finalizer {
      SyncDrops(o, c, e.calls);
    } else {
      SyncDrops(WithFinalizer(o), Patched(c, Some(WithFinalizer(o)), Done), e.calls);
    }
  }

  /** In every run, whatever fails and whatever users edit: when a reconcile drops the index, the policy is
      Auto, the drift is annotated and not remediated since, no labelled job is active and the object is
      suspended.  If it has a schedule, the same reconcile has just suspended the CronJob; if not, the
      CronJob is left as it was.  Without late edits of the schedule it has one. */
  lemma IndexDropIsGuarded(c: Cluster, events: seq<Event>, e: Event)
    requires Initial(c) && Drops(Run(c, events), e)
    ensures var before := Run(c, events);
            var o := before.stored.value;
            && o.policy == Some(Auto) && o.DriftNoted() && !o.RemediatedSince() && o.IsSuspended()
            && (forall k :: 0 <= k < |before.jobs| ==> before.jobs[k].active == 0)
            && After(before, e).cron == (if o.scheduled then Some(Some(true)) else before.cron)
            && (EditsFit(c, events) ==> o.scheduled)
  {
    if EditsFit(c, events) {
      PhasesAlwaysFit(c, events);
    }
    var before := Run(c, events);
    StepDrops(before, e);
    JobStatus.CountZero(before.jobs, JobStatus.Running);
    hide After, Run, EditsFit, Obj.RemediatedSince, JobStatus.Count;
  }

  // ---- Once per detection ----

  /** The detector stores a detection. */
  ghost predicate Detects(c: Cluster, e: Event) {
    e.Visited? && Performed(e.write) && c.stored.Some? && DriftFound(c.stored.value, e.count)
  }

  lemma EnsureJobKeepsStored(o: Obj, c: Cluster, calls: Calls)
    ensures EnsureJob(o, c, calls).c.stored == c.stored
  {
  }

  lemma SuspendKeepsAnnotations(o: Obj, c: Cluster, calls: Calls, suspend: bool)
    requires c.stored.Some?
    ensures var s := SetSuspended(o, c, calls, suspend);
            s.c.stored.Some? && s.c.stored.value.annotations == c.stored.value.annotations
  {
  }

  /** No handler touches the stored annotations once the drift is remediated. */
  lemma HandledKeepsAnnotations(o: Obj, c: Cluster, calls: Calls)
    requires c.stored.Some? && o.RemediatedSince()
    ensures var s := HandlePhase(o, c, calls);
            s.c.stored.Some? && s.c.stored.value.annotations == c.stored.value.annotations
  {
    hide JobStatus.Count, JobStatus.LatestFailed, EnsureJob, SetSuspended, RemediateNow, Obj.RemediatedSince;
    EnsureJobKeepsStored(o, c, calls);
    SuspendKeepsAnnotations(o, c, calls, true);
    SuspendKeepsAnnotations(o, c, calls, false);
  }

  lemma SyncKeepsAnnotations(o: Obj, c: Cluster, calls: Calls)
    requires c.stored == Some(o) && o.RemediatedSince()
    ensures Sync(o, c, calls).stored.Some? && Sync(o, c, calls).stored.value.annotations == o.annotations
  {
    EnsureKeepsIndex(o, c, calls);
    var s := EnsureResources(o, c, calls);
    hide EnsureResources, HandlePhase;
    if !s.err {
      HandledKeepsAnnotations(s.o, s.c, calls);
    }
  }

  ghost predicate RemediatedIn(c: Cluster) {
    c.stored.Some? ==> c.stored.value.RemediatedSince()
  }

  /** A remediated drift stays remediated through every step but a detection, whatever fails. */
  lemma StaysRemediated(c: Cluster, e: Event)
    requires RemediatedIn(c) && !Detects(c, e)
    ensures RemediatedIn(After(c, e))
  {
    hide Sync;
    if e.Reconciled? && c.stored.Some? && !c.stored.value.deleting {
      var o := c.stored.value;
      if o.finalizer {
        SyncKeepsAnnotations(o, c, e.calls);
      } else {
        SyncKeepsAnnotations(WithFinalizer(o), Patched(c, Some(WithFinalizer(o)), Done), e.calls);
      }
    }
  }

  ghost predicate NoDetection(c: Cluster, events: seq<Event>, from: nat) {
    forall k :: from <= k < |events| ==> !Detects(Run(c, events[..k]), events[k])
  }

  lemma {:induction false} RunStaysRemediated(c: Cluster, events: seq<Event>, from: nat)
    requires from <= |events| && RemediatedIn(Run(c, events[..from])) && NoDetection(c, events, from)
    ensures RemediatedIn(Run(c, events))
  {
    hide After, Detects, RemediatedIn;
    var n := |events| - 1;
    if from == |events| {
      assert events[..from] == events;
    } else {
      var init := events[..n];
      forall k | from <= k < n ensures !Detects(Run(c, init[..k]), init[k]) {
        assert init[..k] == events[..k];
      }
      assert init[..from] == events[..from];
      RunStaysRemediated(c, init, from);
      StaysRemediated(Run(c, init), events[n]);
    }
  }

  lemma StampLands(o: Obj, c: Cluster, calls: Calls)
    requires c.stored.Some? && c.stored.value.annotations == o.annotations && Performed(calls.mainPatch)
    ensures var s := StampRemediation(o, c, calls);
            && s.c.stored.Some?
            && s.c.stored.value.annotations == o.annotations[LastDriftRemediated := Stamp(c.now)]
  {
    if Get(o.annotations, LastDriftRemediated) == Some(Stamp(c.now)) {
      assert o.annotations[LastDriftRemediated := Stamp(c.now)] == o.annotations;
    }
  }

  /** The deletion is answered and the patch that carries the stamp is stored. */
  predicate StampStored(calls: Calls) {
    calls.deleteIndex.Done? && Performed(calls.mainPatch)
  }

  /** The stored annotations after a drop. */
  function AfterDrop(annotations: map<Key, Value>, now: nat, calls: Calls): map<Key, Value> {
    if StampStored(calls) then annotations[LastDriftRemediated := Stamp(now)] else annotations
  }

  lemma StampRefused(o: Obj, c: Cluster, calls: Calls)
    requires c.stored.Some? && !Performed(calls.mainPatch)
    ensures StampRemediation(o, c, calls).c.stored == c.stored
  {
  }

  lemma DropStamps(o: Obj, c: Cluster, calls: Calls)
    requires c.stored.Some? && c.stored.value.annotations == o.annotations
    requires c.index && !HandlePhase(o, c, calls).c.index
    ensures var s := HandlePhase(o, c, calls);
            && s.c.stored.Some?
            && s.c.stored.value.annotations == AfterDrop(o.annotations, c.now, calls)
  {
    hide JobStatus.Count, JobStatus.LatestFailed, StampRemediation;
    OnlyRemediationDrops(o, c, calls);
    StampMovesNoIndex(ResetGit(o), DropIndex(c, calls), calls);
    assert HandlePhase(o, c, calls) == RemediateNow(o, c, calls) by {
      hide RemediateNow;
    }
    if Performed(calls.mainPatch) {
      StampLands(ResetGit(o), DropIndex(c, calls), calls);
    } else {
      StampRefused(ResetGit(o), DropIndex(c, calls), calls);
    }
  }

  lemma StampMovesNoIndex(o: Obj, c: Cluster, calls: Calls)
    ensures StampRemediation(o, c, calls).c.index == c.index
  {
  }

  lemma SyncDropStamps(o: Obj, c: Cluster, calls: Calls)
    requires c.stored == Some(o) && c.index && !Sync(o, c, calls).index
    ensures var c' := Sync(o, c, calls);
            && c'.stored.Some?
            && c'.stored.value.annotations == AfterDrop(o.annotations, c.now, calls)
  {
    hide EnsureResources, HandlePhase, AfterDrop;
    EnsureKeepsIndex(o, c, calls);
    var s := EnsureResources(o, c, calls);
    assert !s.err;
    DropStamps(s.o, s.c, calls);
  }

  lemma StepDropStamps(c: Cluster, e: Event)
    requires Drops(c, e)
    ensures var c' := After(c, e);
            && c'.stored.Some?
            && c'.stored.value.annotations == AfterDrop(c.stored.value.annotations, c.now, e.calls)
  {
    hide Sync, AfterDrop;
    var o := c.stored.value;
    if o.finalizer {
      SyncDropStamps(o, c, e.calls);
    } else {
      SyncDropStamps(WithFinalizer(o), Patched(c, Some(WithFinalizer(o)), Done), e.calls);
    }
  }

  /** Every write of this reconcile is done. */
  predicate WritesDone(calls: Calls) {
    && calls.finalizerPatch.Done? && calls.cronWrite.Done? && calls.jobCreate.Done? && calls.deleteIndex.Done?
    && calls.mainPatch.Done? && calls.statusPatch.Done? && calls.finalizerUpdate.Done?
  }

  /** The clock is past the second of the last detection. */
  ghost predicate PastDetection(c: Cluster) {
    c.stored.Some? &&
    var detected := Get(c.stored.value.annotations, LastDriftDetected);
    detected.Some? && detected.value.Stamp? && detected.value.t < c.now
  }

  /** For every drop, whatever else fails: it marks the drift as remediated if and only if the deletion is
      answered, the patch of the stamp is stored and the clock is past the second of the detection. */
  lemma DropRemediatesIff(c: Cluster, e: Event)
    requires Drops(c, e)
    ensures After(c, e).stored.Some?
    ensures After(c, e).stored.value.RemediatedSince() <==> StampStored(e.calls) && PastDetection(c)
  {
    hide After, Reconcile;
    StepDropStamps(c, e);
    StepDrops(c, e);
  }

  /** Between two drops of the index the detector has stored a detection, if the first drop's deletion was
      answered and its stamp stored after the second of its own detection.  All else may fail. */
  lemma DropsNeedDetections(c: Cluster, events: seq<Event>, i: nat, j: nat)
    requires i < j < |events|
    requires Drops(Run(c, events[..i]), events[i]) && Drops(Run(c, events[..j]), events[j])
    requires StampStored(events[i].calls) && PastDetection(Run(c, events[..i]))
    ensures exists k :: i < k < j && Detects(Run(c, events[..k]), events[k])
  {
    hide After, Detects, PastDetection, StampStored, Obj.RemediatedSince;
    DropRemediatesIff(Run(c, events[..i]), events[i]);
    assert events[..i + 1][..i] == events[..i];
    assert RemediatedIn(Run(c, events[..i + 1]));
    if forall k :: i < k < j ==> !Detects(Run(c, events[..k]), events[k]) {
      var prefix := events[..j];
      forall k | i + 1 <= k < |prefix| ensures !Detects(Run(c, prefix[..k]), prefix[k]) {
        assert prefix[..k] == events[..k];
      }
      assert prefix[..i + 1] == events[..i + 1];
      RunStaysRemediated(c, prefix, i + 1);
      StepDrops(Run(c, prefix), events[j]);
    }
  }

  // ---- The phase is left ----

  /** Distance to the end of the remediation, by what the next steps look at. */
  function Rank(o: Obj): nat {
    if !o.phase.DriftRemediation? then 0
    else if o.DriftNoted() then (if !o.IsSuspended() then 5 else if !o.RemediatedSince() then 4 else 3)
    else if o.IsSuspended() then 2
    else 1
  }

  /** The fields the two parties look at and move. */
  ghost predicate SameCore(o: Obj, o': Obj) {
    o'.phase == o.phase && o'.suspend == o.suspend && o'.annotations == o.annotations
  }

  /** The flag annotation holds what the detector writes; the users leave it alone. */
  ghost predicate CleanFlag(o: Obj) {
    Get(o.annotations, DriftDetected) in {None, Some(Yes), Some(No)}
  }

  /** A live object under Auto policy in remediation. */
  ghost predicate InRemediation(c: Cluster) {
    && c.stored.Some? && c.stored.value.phase.DriftRemediation? && c.stored.value.policy == Some(Auto)
    && c.stored.value.finalizer && !c.stored.value.deleting
  }

  /** Its detection was in a second that has passed. */
  ghost predicate Remediating(c: Cluster) {
    InRemediation(c) && CleanFlag(c.stored.value) && PastDetection(c)
  }

  /** No user steps in, and writes are done; reads may fail. */
  ghost predicate Quiet(e: Event) {
    match e
    case Reconciled(calls) => WritesDone(calls)
    case Visited(_, write) => write.Done?
    case UserEdits(_, _, _) => false
    case UserDeletes => false
    case _ => true
  }

  /** One move of the remediation handler on the stored object. */
  ghost predicate Moves(o: Obj, o': Obj) {
    && (SameCore(o, o') || Rank(o') < Rank(o))
    && (o'.phase.DriftRemediation? || (o'.phase.Pending? && !o'.IsSuspended()))
    && Get(o'.annotations, LastDriftDetected) == Get(o.annotations, LastDriftDetected)
    && (CleanFlag(o) ==> CleanFlag(o'))
    && o'.policy == o.policy && o'.finalizer == o.finalizer && o'.deleting == o.deleting
  }

  ghost predicate CoreOf(stored: Obj, o: Obj) {
    stored.suspend == o.suspend && stored.annotations == o.annotations
  }

  /** The object in memory after a patch: as before but for the suspend field, the annotations and the
      status fields that the answer may bring back. */
  ghost predicate PatchedTo(o: Obj, o': Obj, suspend: Option<bool>, annotations: map<Key, Value>) {
    SameSpec(o, o') && o'.phase == o.phase && o'.suspend == suspend && o'.annotations == annotations
  }

  lemma SuspendMoves(o: Obj, c: Cluster, calls: Calls)
    requires InStep(o, c) && CoreOf(c.stored.value, o) && WritesDone(calls)
    requires o.phase.DriftRemediation?
    requires o.IsSuspended() <==> !o.DriftNoted()
    ensures var s := SetSuspended(o, c, calls, !o.IsSuspended());
            && s.c.stored.Some? && CoreOf(s.c.stored.value, s.o)
            && PatchedTo(o, s.o, Some(!o.IsSuspended()), o.annotations) && Rank(s.o) < Rank(o)
  {
  }

  lemma StampMoves(o: Obj, c: Cluster, calls: Calls)
    requires InStep(o, c) && CoreOf(c.stored.value, o) && WritesDone(calls)
    requires o.phase.DriftRemediation? && o.DriftNoted() && o.IsSuspended() && !o.RemediatedSince()
    requires var detected := Get(o.annotations, LastDriftDetected);
             detected.Some? && detected.value.Stamp? && detected.value.t < c.now
    ensures var s := StampRemediation(o, c, calls);
            && s.c.stored.Some? && CoreOf(s.c.stored.value, s.o)
            && PatchedTo(o, s.o, o.suspend, Stamped(o, c.now).annotations) && Rank(s.o) < Rank(o)
  {
  }

  lemma StaysPut(o: Obj)
    requires o.phase.DriftRemediation?
    ensures Moves(o, o)
  {
  }

  lemma Leaves(o: Obj)
    requires o.phase.DriftRemediation? && !o.DriftNoted() && !o.IsSuspended()
    ensures Moves(o, o.(phase := Pending))
  {
  }

  lemma MovesPatched(o: Obj, o': Obj, suspend: Option<bool>, annotations: map<Key, Value>)
    requires o.phase.DriftRemediation? && PatchedTo(o, o', suspend, annotations) && Rank(o') < Rank(o)
    requires annotations == o.annotations || exists now: nat :: annotations == Stamped(o, now).annotations
    ensures Moves(o, o')
  {
    hide Rank;
  }

  /** The remediation handler, all writes done: it stands still or comes closer to the end, and when it
      ends the phase it does so unsuspended. */
  lemma HandlerMoves(o: Obj, c: Cluster, calls: Calls)
    requires InStep(o, c) && CoreOf(c.stored.value, o) && WritesDone(calls)
    requires o.phase.DriftRemediation? && o.policy == Some(Auto)
    requires var detected := Get(o.annotations, LastDriftDetected);
             detected.Some? && detected.value.Stamp? && detected.value.t < c.now
    ensures var s := HandleDriftRemediation(o, c, calls);
            && s.c.stored.Some? && CoreOf(s.c.stored.value, s.o) && Moves(o, s.o)
  {
    hide SetSuspended, StampRemediation, JobStatus.Count, JobStatus.LatestFailed, Moves, Rank, PatchedTo;
    StaysPut(o);
    if o.DriftNoted() != o.IsSuspended() {
      SuspendMoves(o, c, calls);
      MovesPatched(o, SetSuspended(o, c, calls, !o.IsSuspended()).o, Some(!o.IsSuspended()), o.annotations);
    } else if !o.DriftNoted() {
      Leaves(o);
    } else if MayRemediate(o, c) {
      StampMoves(ResetGit(o), DropIndex(c, calls), calls);
      var o' := StampRemediation(ResetGit(o), DropIndex(c, calls), calls).o;
      ResetGitMoves(o, o', c.now);
      assert Moves(o, o');
    }
  }

  lemma ResetGitMoves(o: Obj, o': Obj, now: nat)
    requires o.phase.DriftRemediation?
    requires PatchedTo(ResetGit(o), o', o.suspend, Stamped(ResetGit(o), now).annotations)
        && Rank(o') < Rank(ResetGit(o))
    ensures Moves(o, o')
  {
    assert PatchedTo(o, o', o.suspend, Stamped(o, now).annotations);
    assert Rank(ResetGit(o)) == Rank(o);
    MovesPatched(o, o', o.suspend, Stamped(o, now).annotations);
  }

  /** A move is about the core and the spec only; what else differs does not matter. */
  lemma MovesAlong(o: Obj, p: Obj, p': Obj, o': Obj)
    requires Moves(p, p')
    requires SameCore(o, p) && SameSpec(o, p) && SameCore(p', o') && SameSpec(o, o')
    ensures Moves(o, o')
  {
  }

  /** What a sync with its status patch done stores, by what its handler left. */
  lemma SyncedCore(o: Obj, c: Cluster, calls: Calls)
    requires c.stored == Some(o) && calls.statusPatch.Done?
    ensures var s := EnsureResources(o, c, calls);
            var h := HandlePhase(s.o, s.c, calls);
            && Sync(o, c, calls).stored.Some? && (!s.err ==> h.c.stored.Some?)
            && var stored := Sync(o, c, calls).stored.value;
            && SameSpec(o, stored)
            && (s.err ==> SameCore(o, stored))
            && (!s.err ==> stored.phase == h.o.phase && CoreOf(stored, h.c.stored.value))
  {
    hide EnsureResources, HandlePhase;
    EnsureKeepsIndex(o, c, calls);
    var s := EnsureResources(o, c, calls);
    HandledContained(s.o, s.c, calls);
  }

  /** The rest of the cluster after a sync is as its handler left it. */
  lemma SyncedRest(o: Obj, c: Cluster, calls: Calls)
    requires c.stored == Some(o)
    ensures var s := EnsureResources(o, c, calls);
            var h := HandlePhase(s.o, s.c, calls);
            !s.err ==> Sync(o, c, calls).index == h.c.index && Sync(o, c, calls).jobs == h.c.jobs
  {
    hide EnsureResources, HandlePhase;
  }

  lemma SyncMoves(o: Obj, c: Cluster, calls: Calls)
    requires c.stored == Some(o) && Remediating(c) && WritesDone(calls)
    ensures Sync(o, c, calls).stored.Some? && Moves(o, Sync(o, c, calls).stored.value)
  {
    hide Sync, EnsureResources, HandleDriftRemediation, Moves, Rank, CleanFlag;
    SyncedCore(o, c, calls);
    EnsureKeepsIndex(o, c, calls);
    var s := EnsureResources(o, c, calls);
    var stored := Sync(o, c, calls).stored.value;
    if s.err {
      StaysPut(o);
      MovesAlong(o, o, o, stored);
    } else {
      HandlerMoves(s.o, s.c, calls);
      assert SameCore(o, s.o) && SameSpec(o, s.o);
      var h := HandlePhase(s.o, s.c, calls);
      assert SameCore(h.o, stored);
      MovesAlong(o, s.o, h.o, stored);
    }
  }

  lemma VisitMoves(o: Obj, count: Option<nat>, now: nat)
    requires o.phase.DriftRemediation? && CleanFlag(o)
    ensures Moves(o, Visit(o, count, now))
  {
  }

  /** One quiet step of an object in remediation. */
  lemma StepMoves(c: Cluster, e: Event)
    requires Remediating(c) && Quiet(e)
    ensures After(c, e).stored.Some? && Moves(c.stored.value, After(c, e).stored.value)
    ensures After(c, e).stored.value.phase.DriftRemediation? ==> Remediating(After(c, e))
  {
    hide Sync, Visit, Rank, Obj.IsSuspended, Obj.DriftNoted, Obj.RemediatedSince;
    var o := c.stored.value;
    match e {
      case Reconciled(calls) => SyncMoves(o, c, calls); SyncKeepsClock(o, c, calls);
      case Visited(count, _) => VisitMoves(o, count, c.now);
      case _ =>
    }
  }

  lemma SyncKeepsClock(o: Obj, c: Cluster, calls: Calls)
    requires InStep(o, c)
    ensures Sync(o, c, calls).now == c.now
  {
    hide EnsureResources, HandlePhase;
    EnsureKeepsIndex(o, c, calls);
    var s := EnsureResources(o, c, calls);
    HandledContained(s.o, s.c, calls);
  }

  ghost predicate Changes(c: Cluster, e: Event) {
    c.stored.Some? && After(c, e).stored.Some? && !SameCore(c.stored.value, After(c, e).stored.value)
  }

  ghost function CountChanges(c: Cluster, events: seq<Event>): nat {
    if events == [] then 0
    else
      var init := events[..|events| - 1];
      CountChanges(c, init) + (if Changes(Run(c, init), events[|events| - 1]) then 1 else 0)
  }

  ghost predicate InPhase(c: Cluster) {
    c.stored.Some? && c.stored.value.phase.DriftRemediation?
  }

  /** All events are quiet and the phase is not left before the last of them. */
  ghost predicate QuietUntilLeft(c: Cluster, events: seq<Event>) {
    && (forall k :: 0 <= k < |events| ==> Quiet(events[k]))
    && (forall k :: 0 <= k < |events| ==> InPhase(Run(c, events[..k])))
  }

  lemma QuietInit(c: Cluster, events: seq<Event>)
    requires events != [] && QuietUntilLeft(c, events)
    ensures QuietUntilLeft(c, events[..|events| - 1]) && InPhase(Run(c, events[..|events| - 1]))
  {
    var init := events[..|events| - 1];
    forall k | 0 <= k < |init| ensures InPhase(Run(c, init[..k])) {
      assert init[..k] == events[..k];
    }
  }

  /** Remediation under Auto policy, without users and with writes done, takes at most five steps that
      change the object, interleaved with any others; when the phase is left, it is left for Pending and
      the object is not suspended. */
  lemma {:induction false} RemediationIsBounded(c: Cluster, events: seq<Event>)
    requires Remediating(c) && QuietUntilLeft(c, events)
    ensures Run(c, events).stored.Some?
    ensures var last := Run(c, events);
            && CountChanges(c, events) + Rank(last.stored.value) <= Rank(c.stored.value) <= 5
            && (Remediating(last) || (last.stored.value.phase.Pending? && !last.stored.value.IsSuspended()))
  {
    if events != [] {
      var init := events[..|events| - 1];
      QuietInit(c, events);
      RemediationIsBounded(c, init);
      hide Rank, Obj.IsSuspended;
      StepMoves(Run(c, init), events[|events| - 1]);
    }
  }

  // ---- A remediation from start to end, and one that is skipped ----

  /** Every call of a reconcile succeeds. */
  predicate AllWell(calls: Calls) {
    WritesDone(calls) && calls.get && calls.ragEngine && calls.rbac && calls.cronGet && calls.listJobs
        && calls.listIndexes
  }

  lemma WellEnsured(o: Obj, c: Cluster, calls: Calls)
    requires AllWell(calls)
    ensures !EnsureResources(o, c, calls).err
  {
  }

  /** The in-memory object the handler sees when every call succeeds, and what the sync then stores. */
  lemma WellSync(c: Cluster, calls: Calls)
    requires InRemediation(c) && AllWell(calls)
    ensures var o := EnsureResources(c.stored.value, c, calls).o;
            var c1 := EnsureResources(c.stored.value, c, calls).c;
            var s := HandleDriftRemediation(o, c1, calls);
            var c' := Reconcile(c, calls);
            && SameCore(c.stored.value, o) && o.git == c.stored.value.git && o.policy == Some(Auto)
            && c1.jobs == c.jobs && c1.stored == c.stored && c1.now == c.now && c1.index == c.index
            && s.c.stored.Some? && c'.stored.Some?
            && c'.stored.value.phase == s.o.phase && c'.stored.value.lastCommit == s.o.lastCommit
            && CoreOf(c'.stored.value, s.c.stored.value)
            && c'.jobs == c.jobs && c'.now == c.now && c'.index == s.c.index
            && c'.cron == (if c.stored.value.scheduled then Some(c.stored.value.suspend) else c.cron)
            && SameSpec(c.stored.value, c'.stored.value)
  {
    hide EnsureResources, HandleDriftRemediation;
    var o := c.stored.value;
    WellEnsured(o, c, calls);
    EnsureKeepsIndex(o, c, calls);
    var s := EnsureResources(o, c, calls);
    DriftContained(s.o, s.c, calls);
  }

  /** Suspend, drop and stamp, let the detector clear the annotation, unsuspend, leave: the five steps, in
      order, end in Pending with the index gone; for git the commit is reset if the stamp's patch keeps the
      status in memory, and is the old one otherwise. */
  lemma RemediationCompletes(c: Cluster, calls: Calls, count: Option<nat>)
    requires Remediating(c) && AllWell(calls) && JobStatus.Count(c.jobs, JobStatus.Running) == 0
    requires Rank(c.stored.value) == 5 && !c.stored.value.RemediatedSince()
    ensures var r := Reconciled(calls);
            var last := After(After(After(After(After(c, r), r), Visited(count, Done)), r), r);
            && last.stored.Some? && last.stored.value.phase.Pending? && !last.stored.value.IsSuspended()
            && !last.index && last.stored.value.RemediatedSince()
            && last.stored.value.lastCommit ==
               (if c.stored.value.git && calls.patchKeepsStatus then Some("") else c.stored.value.lastCommit)
  {
    var c1 := Reconcile(c, calls);
    FirstSuspends(c, calls);
    var c2 := Reconcile(c1, calls);
    SecondDrops(c1, calls);
    var c3 := Detect(c2, count, Done);
    ThirdClears(c2, count);
    var c4 := Reconcile(c3, calls);
    FourthUnsuspends(c3, calls);
    FifthLeaves(c4, calls);
    hide Reconcile, Detect, Remediating, Rank, AllWell, JobStatus.Count, Obj.RemediatedSince, Obj.IsSuspended;
  }

  /** A step of the completing run keeps what the next one needs. */
  ghost predicate Onward(c: Cluster, c': Cluster, rank: nat) {
    && c.stored.Some? && Remediating(c') && Rank(c'.stored.value) == rank && c'.jobs == c.jobs
    && c'.stored.value.git == c.stored.value.git
  }

  lemma SyncKeepsGit(c: Cluster, calls: Calls)
    requires InRemediation(c) && AllWell(calls)
    ensures Reconcile(c, calls).stored.Some? && Reconcile(c, calls).stored.value.git == c.stored.value.git
  {
    hide EnsureResources, HandlePhase;
    var o := c.stored.value;
    EnsureKeepsIndex(o, c, calls);
    var s := EnsureResources(o, c, calls);
    HandledContained(s.o, s.c, calls);
  }

  lemma FirstSuspends(c: Cluster, calls: Calls)
    requires Remediating(c) && AllWell(calls) && Rank(c.stored.value) == 5 && !c.stored.value.RemediatedSince()
    ensures Onward(c, Reconcile(c, calls), 4)
    ensures Reconcile(c, calls).stored.value.lastCommit == c.stored.value.lastCommit
    ensures Reconcile(c, calls).index == c.index
    ensures Reconcile(c, calls).stored.value.annotations == c.stored.value.annotations
  {
    hide Reconcile;
    WellSync(c, calls);
    SyncKeepsGit(c, calls);
    StepMoves(c, Reconciled(calls));
  }

  /** The commit after a remediation: reset if the patch keeps the status in memory, and the stored one
      again if its answer brings that back; no patch is made for an equal stamp. */
  function CommitAfter(o: Obj, stored: Obj, now: nat, calls: Calls): Option<string> {
    if calls.patchKeepsStatus || Get(o.annotations, LastDriftRemediated) == Some(Stamp(now)) then o.lastCommit
    else stored.lastCommit
  }

  /** What the handler does when it may remediate and every call succeeds. */
  lemma HandlerDrops(o: Obj, c: Cluster, calls: Calls)
    requires InStep(o, c) && CoreOf(c.stored.value, o) && AllWell(calls)
    requires o.phase.DriftRemediation?
    requires o.policy == Some(Auto) && o.DriftNoted() && o.IsSuspended() && !o.RemediatedSince()
    requires JobStatus.Count(c.jobs, JobStatus.Running) == 0
    ensures var s := HandleDriftRemediation(o, c, calls);
            && PatchedTo(o, s.o, o.suspend, Stamped(o, c.now).annotations) && !s.c.index
            && s.c.stored.Some? && CoreOf(s.c.stored.value, s.o)
            && s.o.lastCommit == CommitAfter(ResetGit(o), c.stored.value, c.now, calls)
  {
    hide JobStatus.Count, StampRemediation, Obj.RemediatedSince, CommitAfter;
    assert HandleDriftRemediation(o, c, calls) == StampRemediation(ResetGit(o), DropIndex(c, calls), calls);
    StampMovesNoIndex(ResetGit(o), DropIndex(c, calls), calls);
    StampsBoth(ResetGit(o), DropIndex(c, calls), calls);
  }

  lemma StampsBoth(o: Obj, c: Cluster, calls: Calls)
    requires InStep(o, c) && CoreOf(c.stored.value, o) && WritesDone(calls)
    ensures var s := StampRemediation(o, c, calls);
            && PatchedTo(o, s.o, o.suspend, Stamped(o, c.now).annotations)
            && s.c.stored.Some? && CoreOf(s.c.stored.value, s.o)
            && s.o.lastCommit == CommitAfter(o, c.stored.value, c.now, calls)
  {
    if Get(o.annotations, LastDriftRemediated) == Some(Stamp(c.now)) {
      assert o.annotations[LastDriftRemediated := Stamp(c.now)] == o.annotations;
    }
  }

  /** A remediation with all calls answered drops the index; of a git source it resets the commit if and only
      if the patch of the stamp keeps the status in memory, or the commit was reset before. */
  lemma SecondDrops(c: Cluster, calls: Calls)
    requires Remediating(c) && AllWell(calls) && Rank(c.stored.value) == 4
    requires JobStatus.Count(c.jobs, JobStatus.Running) == 0
    ensures Onward(c, Reconcile(c, calls), 3) && !Reconcile(c, calls).index
    ensures Reconcile(c, calls).stored.value.lastCommit ==
            if c.stored.value.git && calls.patchKeepsStatus then Some("") else c.stored.value.lastCommit
  {
    hide Reconcile, EnsureResources, HandleDriftRemediation, JobStatus.Count;
    WellSync(c, calls);
    SyncKeepsGit(c, calls);
    StepMoves(c, Reconciled(calls));
    var s := EnsureResources(c.stored.value, c, calls);
    EnsureKeepsIndex(c.stored.value, c, calls);
    HandlerDrops(s.o, s.c, calls);
  }

  lemma ThirdClears(c: Cluster, count: Option<nat>)
    requires Remediating(c) && Rank(c.stored.value) == 3
    ensures var c' := Detect(c, count, Done);
            && Onward(c, c', 2) && c'.index == c.index && c'.stored.value.lastCommit == c.stored.value.lastCommit
            && c'.stored.value.RemediatedSince()
  {
  }

  lemma FourthUnsuspends(c: Cluster, calls: Calls)
    requires Remediating(c) && AllWell(calls) && Rank(c.stored.value) == 2 && c.stored.value.RemediatedSince()
    ensures var c' := Reconcile(c, calls);
            && Onward(c, c', 1) && c'.index == c.index && c'.stored.value.lastCommit == c.stored.value.lastCommit
            && c'.stored.value.RemediatedSince()
  {
    hide Reconcile;
    WellSync(c, calls);
    SyncKeepsGit(c, calls);
    StepMoves(c, Reconciled(calls));
  }

  lemma FifthLeaves(c: Cluster, calls: Calls)
    requires Remediating(c) && AllWell(calls) && Rank(c.stored.value) == 1 && c.stored.value.RemediatedSince()
    ensures var c' := Reconcile(c, calls);
            && c'.stored.Some? && c'.stored.value.phase.Pending? && !c'.stored.value.IsSuspended()
            && c'.index == c.index && c'.stored.value.lastCommit == c.stored.value.lastCommit
            && c'.stored.value.RemediatedSince()
  {
    hide Reconcile;
    WellSync(c, calls);
  }

  /** The detector clears the flag of an object in remediation whatever it counts, so a visit between the
      detection's reconcile and the drop ends the remediation without one: the phase goes back to Pending,
      the index stays, and nothing is marked as remediated. */
  lemma VisitSkipsRemediation(c: Cluster, calls: Calls, count: Option<nat>)
    requires Remediating(c) && AllWell(calls)
    requires c.stored.value.DriftNoted() && !c.stored.value.IsSuspended() && !c.stored.value.RemediatedSince()
    ensures var last := After(After(c, Visited(count, Done)), Reconciled(calls));
            && last.stored.Some? && last.stored.value.phase.Pending?
            && last.index == c.index && !last.stored.value.RemediatedSince()
  {
    hide Reconcile;
    var c1 := After(c, Visited(count, Done));
    assert Remediating(c1) && !c1.stored.value.DriftNoted();
    WellSync(c1, calls);
  }

  // ---- Every annotated drift carries its stamp ----

  ghost predicate Stamps(c: Cluster) {
    c.stored.Some? ==>
      CleanFlag(c.stored.value) &&
      (c.stored.value.DriftNoted() ==>
         var detected := Get(c.stored.value.annotations, LastDriftDetected);
         detected.Some? && detected.value.Stamp? && detected.value.t <= c.now)
  }

  /** A reconcile moves no annotation but the remediation stamp. */
  ghost predicate OnlyRemediationStamp(annotations: map<Key, Value>, c: Cluster) {
    c.stored.Some? &&
    forall key :: key != LastDriftRemediated ==> Get(c.stored.value.annotations, key) == Get(annotations, key)
  }

  lemma StampsOnly(o: Obj, c: Cluster, calls: Calls)
    requires c.stored.Some?
    ensures OnlyRemediationStamp(c.stored.value.annotations, StampRemediation(o, c, calls).c)
  {
  }

  lemma DriftStampsOnly(o: Obj, c: Cluster, calls: Calls)
    requires c.stored.Some?
    ensures OnlyRemediationStamp(c.stored.value.annotations, HandleDriftRemediation(o, c, calls).c)
  {
    hide JobStatus.Count, SetSuspended, StampRemediation, Obj.RemediatedSince, Obj.DriftNoted, Obj.IsSuspended;
    SuspendKeepsAnnotations(o, c, calls, true);
    SuspendKeepsAnnotations(o, c, calls, false);
    StampsOnly(ResetGit(o), DropIndex(c, calls), calls);
  }

  lemma HandledStampsOnly(o: Obj, c: Cluster, calls: Calls)
    requires c.stored.Some?
    ensures OnlyRemediationStamp(c.stored.value.annotations, HandlePhase(o, c, calls).c)
  {
    hide EnsureJob, HandleScheduled, HandleSuspended, HandleRunning, HandleDriftRemediation;
    EnsureJobKeepsStored(o, c, calls);
    OthersContained(o, c, calls);
    DriftStampsOnly(o, c, calls);
  }

  lemma SyncStampsOnly(o: Obj, c: Cluster, calls: Calls)
    requires c.stored == Some(o)
    ensures OnlyRemediationStamp(o.annotations, Sync(o, c, calls))
  {
    hide EnsureResources, HandlePhase;
    EnsureKeepsIndex(o, c, calls);
    var s := EnsureResources(o, c, calls);
    if !s.err {
      HandledStampsOnly(s.o, s.c, calls);
    }
  }

  lemma StepKeepsStamps(c: Cluster, e: Event)
    requires Stamps(c)
    ensures Stamps(After(c, e))
  {
    hide Sync;
    if e.Reconciled? && c.stored.Some? && !c.stored.value.deleting {
      var o := if c.stored.value.finalizer then c.stored.value else WithFinalizer(c.stored.value);
      SyncStampsOnly(o, c.(stored := Some(o)), e.calls);
      SyncKeepsClock(o, c.(stored := Some(o)), e.calls);
    }
  }

  /** In every run an annotated drift carries the stamp of a detection that is not in the future. */
  lemma {:induction false} AnnotatedDriftIsStamped(c: Cluster, events: seq<Event>)
    requires Initial(c)
    ensures Stamps(Run(c, events))
  {
    if events != [] {
      AnnotatedDriftIsStamped(c, events[..|events| - 1]);
      StepKeepsStamps(Run(c, events[..|events| - 1]), events[|events| - 1]);
    }
  }
}
