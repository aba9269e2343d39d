/**
  Runs through a remediation, with visits of the detector, refused stamps and edits of the policy in
  between: when the index is dropped, when it is dropped twice, and when a suspension is undone.
 */
module RemediationRuns {
  import opened Options
  import opened Controller
  import opened Protocol
  import opened DriftProtocol
  import JobStatus

  // ---- When the drop happens ----

  /** A reconcile in which every call succeeds, a visit whose update is done, or a tick. */
  ghost predicate Plain(e: Event) {
    match e
    case Reconciled(calls) => AllWell(calls)
    case Visited(_, write) => write.Done?
    case Tick => true
    case _ => false
  }

  predicate Seen(events: seq<Event>) {
    exists k :: 0 <= k < |events| && events[k].Visited?
  }

  /** The number of reconciles before the detector's first visit. */
  function Lead(events: seq<Event>): nat {
    if events == [] then 0
    else
      var init := events[..|events| - 1];
      Lead(init) + (if events[|events| - 1].Reconciled? && !Seen(init) then 1 else 0)
  }

  /** How many the drop takes: one to suspend the object if it is not, and one to drop. */
  function Needed(o: Obj): nat {
    if o.IsSuspended() then 1 else 2
  }

  /** In remediation, the drift annotated and not remediated yet, the index there, no job running. */
  ghost predicate Drifted(c: Cluster) {
    && Remediating(c) && c.stored.value.DriftNoted() && !c.stored.value.RemediatedSince()
    && c.index && JobStatus.Count(c.jobs, JobStatus.Running) == 0
  }

  /** How far a run has come. */
  ghost predicate Stage(c: Cluster, m: Cluster, lead: nat, seen: bool)
    requires c.stored.Some?
  {
    var needed := Needed(c.stored.value);
    && m.stored.Some? && m.jobs == c.jobs
    && (m.index <==> lead < needed)
    && (InPhase(m) ==> Remediating(m))
    && (seen && InPhase(m) ==> Rank(m.stored.value) <= 2)
    && (!seen ==>
          && InPhase(m)
          && Rank(m.stored.value) == (if lead < needed then 3 + needed - lead else 3)
          && (lead < needed ==> !m.stored.value.RemediatedSince()))
  }

  lemma StartStage(c: Cluster)
    requires Drifted(c)
    ensures Stage(c, c, 0, false)
  {
  }

  lemma VisitStage(c: Cluster, m: Cluster, lead: nat, seen: bool, count: Option<nat>)
    requires c.stored.Some? && Stage(c, m, lead, seen) && InPhase(m)
    ensures Stage(c, Detect(m, count, Done), lead, true)
  {
  }

  lemma TickStage(c: Cluster, m: Cluster, lead: nat, seen: bool)
    requires c.stored.Some? && Stage(c, m, lead, seen) && InPhase(m)
    ensures Stage(c, m.(now := m.now + 1), lead, seen)
  {
    hide Rank, CleanFlag, Obj.RemediatedSince;
  }

  /** With the flag down, or the drift remediated, the handler leaves index and jobs alone. */
  lemma HandlerSpares(o: Obj, c: Cluster, calls: Calls)
    requires !o.DriftNoted() || o.RemediatedSince()
    ensures HandleDriftRemediation(o, c, calls).c.index == c.index
  {
    hide JobStatus.Count, Obj.RemediatedSince;
  }

  lemma ReconcileSpares(m: Cluster, calls: Calls)
    requires InRemediation(m) && AllWell(calls) && (!m.stored.value.DriftNoted() || m.stored.value.RemediatedSince())
    ensures Reconcile(m, calls).index == m.index && Reconcile(m, calls).jobs == m.jobs
  {
    hide Reconcile, EnsureResources, HandleDriftRemediation;
    WellSync(m, calls);
    var s := EnsureResources(m.stored.value, m, calls);
    HandlerSpares(s.o, s.c, calls);
  }

  /** A remediated drift with the flag still up: the reconcile waits. */
  lemma ReconcileWaits(m: Cluster, calls: Calls)
    requires Remediating(m) && AllWell(calls) && Rank(m.stored.value) == 3
    ensures var m' := Reconcile(m, calls);
            m'.stored.Some? && SameCore(m.stored.value, m'.stored.value)
  {
    hide Reconcile;
    WellSync(m, calls);
  }

  lemma LeadStage(c: Cluster, m: Cluster, lead: nat, calls: Calls)
    requires Drifted(c) && Stage(c, m, lead, false) && AllWell(calls)
    ensures Stage(c, Reconcile(m, calls), lead + 1, false)
  {
    hide Reconcile, CleanFlag, JobStatus.Count;
    var rank := Rank(m.stored.value);
    if rank == 5 {
      FirstSuspends(m, calls);
    } else if rank == 4 {
      SecondDrops(m, calls);
    } else {
      ReconcileWaits(m, calls);
      ReconcileSpares(m, calls);
      StepMoves(m, Reconciled(calls));
    }
  }

  lemma LateStage(c: Cluster, m: Cluster, lead: nat, calls: Calls)
    requires c.stored.Some? && Stage(c, m, lead, true) && InPhase(m) && AllWell(calls)
    ensures Stage(c, Reconcile(m, calls), lead, true)
  {
    hide Reconcile, CleanFlag, JobStatus.Count;
    assert !m.stored.value.DriftNoted();
    ReconcileSpares(m, calls);
    StepMoves(m, Reconciled(calls));
  }

  lemma SeenOneMore(events: seq<Event>)
    requires events != []
    ensures Seen(events) <==> Seen(events[..|events| - 1]) || events[|events| - 1].Visited?
  {
    var n := |events| - 1;
    assert forall k :: 0 <= k < n ==> events[..n][k] == events[k];
  }

  /** The events are plain and the phase is not left before the last of them. */
  ghost predicate PlainUntilLeft(c: Cluster, events: seq<Event>) {
    && (forall k :: 0 <= k < |events| ==> Plain(events[k]))
    && (forall k :: 0 <= k < |events| ==> InPhase(Run(c, events[..k])))
  }

  lemma PlainInit(c: Cluster, events: seq<Event>)
    requires events != [] && PlainUntilLeft(c, events)
    ensures PlainUntilLeft(c, events[..|events| - 1]) && InPhase(Run(c, events[..|events| - 1]))
  {
    hide Plain, InPhase, Run;
    var init := events[..|events| - 1];
    forall k | 0 <= k < |init| ensures InPhase(Run(c, init[..k])) {
      assert init[..k] == events[..k];
    }
  }

  lemma {:induction false} RunStage(c: Cluster, events: seq<Event>)
    requires Drifted(c) && PlainUntilLeft(c, events)
    ensures Stage(c, Run(c, events), Lead(events), Seen(events))
  {
    if events == [] {
      StartStage(c);
    } else {
      hide Stage, Reconcile, Detect, Drifted, InPhase, Seen;
      var init, last := events[..|events| - 1], events[|events| - 1];
      PlainInit(c, events);
      SeenOneMore(events);
      RunStage(c, init);
      assert c.stored.Some? by {
        DriftedIsStored(c);
      }
      var m := Run(c, init);
      match last {
        case Tick => TickStage(c, m, Lead(init), Seen(init));
        case Visited(count, _) => VisitStage(c, m, Lead(init), Seen(init), count);
        case Reconciled(calls) =>
          if Seen(init) {
            LateStage(c, m, Lead(init), calls);
          } else {
            LeadStage(c, m, Lead(init), calls);
          }
      }
    }
  }

  lemma DriftedIsStored(c: Cluster)
    requires Drifted(c)
    ensures c.stored.Some?
  {
  }

  /** When an annotated drift leads to a drop: through any plain events up to the end of the phase, the index
      is dropped if and only if the detector's first visit comes after enough reconciles, two, or one for an
      object that is suspended already.  An earlier visit takes the flag down and ends the remediation
      without a drop. */
  lemma DropIffEnoughReconciles(c: Cluster, events: seq<Event>)
    requires Drifted(c) && PlainUntilLeft(c, events)
    ensures !Run(c, events).index <==> Lead(events) >= Needed(c.stored.value)
  {
    hide Drifted, Run, PlainUntilLeft;
    DriftedIsStored(c);
    RunStage(c, events);
  }

  // ---- A refused stamp ----

  lemma RefusedStampStep(c: Cluster, calls: Calls)
    requires Drifted(c) && c.stored.value.IsSuspended()
    requires AllWell(calls.(mainPatch := Done)) && calls.mainPatch.Refused?
    ensures Drops(c, Reconciled(calls)) && Drifted(After(After(c, Reconciled(calls)), IndexWritten))
    ensures After(After(c, Reconciled(calls)), IndexWritten).stored.value.IsSuspended()
  {
    hide EnsureResources, HandleDriftRemediation, JobStatus.Count, Sync;
    var o := c.stored.value;
    EnsureKeepsIndex(o, c, calls);
    WellEnsured(o, c, calls.(mainPatch := Done));
    SameEnsured(o, c, calls);
    var s := EnsureResources(o, c, calls);
    SyncedCore(o, c, calls);
    SyncedRest(o, c, calls);
    SyncKeepsClock(o, c, calls);
    assert !s.o.RemediatedSince();
    HandlerLosesStamp(s.o, s.c, calls);
    assert Reconcile(c, calls) == Sync(o, c, calls);
    hide Reconcile;
  }

  lemma SameEnsured(o: Obj, c: Cluster, calls: Calls)
    ensures EnsureResources(o, c, calls) == EnsureResources(o, c, calls.(mainPatch := Done))
  {
  }

  lemma HandlerLosesStamp(o: Obj, c: Cluster, calls: Calls)
    requires c.stored.Some? && AllWell(calls.(mainPatch := Done)) && calls.mainPatch.Refused?
    requires o.phase.DriftRemediation? && o.policy == Some(Auto)
    requires o.DriftNoted() && o.IsSuspended() && !o.RemediatedSince()
    requires JobStatus.Count(c.jobs, JobStatus.Running) == 0
    ensures var s := HandleDriftRemediation(o, c, calls);
            !s.c.index && s.c.stored == c.stored && s.c.jobs == c.jobs && s.o.phase == o.phase
  {
    hide JobStatus.Count, Obj.RemediatedSince;
  }

  /** A drop whose stamp is refused does not count: an index written again is dropped again by the next reconcile,
      without a new detection and long after the second of the old one. */
  lemma RefusedStampDropsTwice(c: Cluster, calls: Calls, later: Calls)
    requires Drifted(c) && c.stored.value.IsSuspended()
    requires AllWell(calls.(mainPatch := Done)) && calls.mainPatch.Refused? && AllWell(later)
    ensures var second := After(After(c, Reconciled(calls)), IndexWritten);
            PastDetection(c) && Drops(c, Reconciled(calls)) && Drops(second, Reconciled(later))
  {
    hide Reconcile, AllWell, JobStatus.Count;
    RefusedStampStep(c, calls);
    SecondDrops(After(After(c, Reconciled(calls)), IndexWritten), later);
  }

  // ---- When a suspension is undone ----

  /** The handler takes this suspension back. */
  predicate Unsuspends(o: Obj) {
    o.phase.DriftRemediation? && !o.DriftNoted() && o.policy != Some(Ignore)
  }

  lemma SetSuspendedStores(o: Obj, c: Cluster, calls: Calls, suspend: bool)
    requires c.stored.Some?
    ensures var s := SetSuspended(o, c, calls, suspend);
            && s.c.stored.Some?
            && s.c.stored.value.suspend ==
               (if o.suspend != Some(suspend) && Performed(calls.mainPatch) then Some(suspend)
                else c.stored.value.suspend)
  {
  }

  lemma DriftUnsuspendsIff(o: Obj, c: Cluster, calls: Calls)
    requires c.stored.Some? && o.IsSuspended() && c.stored.value.suspend == o.suspend && o.phase.DriftRemediation?
    ensures var s := HandleDriftRemediation(o, c, calls);
            && s.c.stored.Some?
            && (!s.c.stored.value.IsSuspended() <==> Unsuspends(o) && Performed(calls.mainPatch))
  {
    hide JobStatus.Count, MayRemediate, SetSuspended, StampRemediation, Obj.RemediatedSince, Obj.DriftNoted;
    SetSuspendedStores(o, c, calls, false);
    StampKeepsSuspend(ResetGit(o), DropIndex(c, calls), calls);
  }

  lemma HandlerUnsuspendsIff(o: Obj, c: Cluster, calls: Calls)
    requires c.stored.Some? && o.IsSuspended() && c.stored.value.suspend == o.suspend
    ensures var s := HandlePhase(o, c, calls);
            && s.c.stored.Some?
            && (!s.c.stored.value.IsSuspended() <==> Unsuspends(o) && Performed(calls.mainPatch))
  {
    hide EnsureJob, HandleScheduled, HandleSuspended, HandleRunning, HandleDriftRemediation;
    EnsureJobKeepsStored(o, c, calls);
    OthersContained(o, c, calls);
    if o.phase.DriftRemediation? {
      DriftUnsuspendsIff(o, c, calls);
    }
  }

  lemma StampKeepsSuspend(o: Obj, c: Cluster, calls: Calls)
    requires c.stored.Some?
    ensures var s := StampRemediation(o, c, calls);
            s.c.stored.Some? && s.c.stored.value.suspend == c.stored.value.suspend
  {
  }

  lemma SyncUnsuspendsIff(o: Obj, c: Cluster, calls: Calls)
    requires c.stored == Some(o) && o.IsSuspended()
    ensures var c' := Sync(o, c, calls);
            && c'.stored.Some?
            && (!c'.stored.value.IsSuspended() <==>
                Unsuspends(o) && Performed(calls.mainPatch) && !EnsureResources(o, c, calls).err)
  {
    hide EnsureResources, HandlePhase;
    EnsureKeepsIndex(o, c, calls);
    var s := EnsureResources(o, c, calls);
    HandlerUnsuspendsIff(s.o, s.c, calls);
    HandledContained(s.o, s.c, calls);
  }

  /** A reconcile takes a suspension back if and only if the object is in remediation with the flag down and
      its policy is not Ignore, its resources are ensured and the patch is stored. */
  lemma SuspensionUndoneIff(c: Cluster, calls: Calls)
    requires c.stored.Some? && c.stored.value.IsSuspended() && !c.stored.value.deleting && c.stored.value.finalizer
    ensures var c' := Reconcile(c, calls);
            && c'.stored.Some?
            && (!c'.stored.value.IsSuspended() <==>
                && calls.get && Unsuspends(c.stored.value) && Performed(calls.mainPatch)
                && !EnsureResources(c.stored.value, c, calls).err)
  {
    hide Sync, EnsureResources, Unsuspends;
    SyncUnsuspendsIff(c.stored.value, c, calls);
  }

  /** Suspended, and past the phase in which the controller would take that back. */
  ghost predicate Stuck(c: Cluster) {
    c.stored.Some? ==>
      var o := c.stored.value;
      o.scheduled && o.IsSuspended() && o.finalizer && o.phase in {Pending, Suspended}
  }

  lemma SyncStaysStuck(o: Obj, c: Cluster, calls: Calls)
    requires c.stored == Some(o) && Stuck(c)
    ensures Stuck(Sync(o, c, calls))
  {
    hide EnsureResources;
    EnsureKeepsIndex(o, c, calls);
    var s := EnsureResources(o, c, calls);
    hide EnsureCron, EnsureJob;
  }

  lemma StepStaysStuck(c: Cluster, e: Event)
    requires Stuck(c) && !e.UserEdits?
    ensures Stuck(After(c, e))
  {
    hide Sync, Visit;
    match e {
      case Reconciled(calls) =>
        if c.stored.Some? && !c.stored.value.deleting {
          SyncStaysStuck(c.stored.value, c, calls);
        }
      case Visited(count, _) =>
        if c.stored.Some? {
          VisitMarksOnly(c.stored.value, count, c.now);
        }
      case _ =>
    }
  }

  lemma VisitMarksOnly(o: Obj, count: Option<nat>, now: nat)
    ensures Visit(o, count, now) == o.(annotations := Visit(o, count, now).annotations)
  {
  }

  /** Then only a user takes it back: whatever else happens and whatever fails, it stays. */
  lemma {:induction false} StaysStuck(c: Cluster, events: seq<Event>)
    requires Stuck(c) && forall k :: 0 <= k < |events| ==> !events[k].UserEdits?
    ensures Stuck(Run(c, events))
  {
    if events != [] {
      hide After, Stuck;
      StaysStuck(c, events[..|events| - 1]);
      StepStaysStuck(Run(c, events[..|events| - 1]), events[|events| - 1]);
    }
  }

  lemma IgnoreLeaves(c: Cluster, calls: Calls)
    requires c.stored.Some? && c.stored.value.phase.DriftRemediation? && c.stored.value.policy == Some(Ignore)
    requires c.stored.value.finalizer && !c.stored.value.deleting && c.stored.value.scheduled
    requires c.stored.value.IsSuspended() && AllWell(calls)
    ensures var c' := Reconcile(c, calls); Stuck(c') && c'.stored.Some? && c'.stored.value.phase.Pending?
  {
    hide EnsureResources, Sync;
    var o := c.stored.value;
    WellEnsured(o, c, calls);
    EnsureKeepsIndex(o, c, calls);
    SyncedCore(o, c, calls);
    var s := EnsureResources(o, c, calls);
    assert HandlePhase(s.o, s.c, calls) == Step(s.o.(phase := Pending), s.c, false);
  }

  /** A user who sets the policy to Ignore while the controller's own suspension is on: the remediation is left,
      and the suspension stays through every run in which no user takes it back. */
  lemma IgnoredSuspensionStays(c: Cluster, calls: Calls, later: seq<Event>)
    requires InRemediation(c) && c.stored.value.scheduled && c.stored.value.IsSuspended() && AllWell(calls)
    requires forall k :: 0 <= k < |later| ==> !later[k].UserEdits?
    ensures var o := c.stored.value;
            var left := After(After(c, UserEdits(o.scheduled, o.suspend, Some(Ignore))), Reconciled(calls));
            && left.stored.Some? && left.stored.value.phase.Pending? && left.stored.value.IsSuspended()
            && (Run(left, later).stored.Some? ==> Run(left, later).stored.value.IsSuspended())
  {
    hide Reconcile, AllWell, Run, Stuck, CleanFlag;
    var o := c.stored.value;
    var edited := After(c, UserEdits(o.scheduled, o.suspend, Some(Ignore)));
    IgnoreLeaves(edited, calls);
    StuckMeans(Reconcile(edited, calls));
    StaysStuck(Reconcile(edited, calls), later);
    StuckMeans(Run(Reconcile(edited, calls), later));
  }

  lemma StuckMeans(c: Cluster)
    requires Stuck(c)
    ensures c.stored.Some? ==> c.stored.value.IsSuspended()
  {
  }
}
