/**
  detector.go: one pass over all AutoIndexer objects, checking each and marking it.
 */
module Detector {
  import opened Options
  import opened Controller

  datatype CheckResult = CheckResult(expected: nat, actual: nat, drift: bool, failed: bool)

  /** isAutoIndexerInStableState */
  predicate Stable(phase: Phase) {
    match phase
    case Scheduled => true
    case Pending => false
    case Running => false
    case Suspended => false
    case DriftRemediation => false
    case Failed => false
    case Completed => false
    case Unset => false
  }

  /** What a whole pass stores: each object is visited once, and keeps what it was when its update fails. */
  function Pass(stored: seq<Obj>, counts: seq<Option<nat>>, writes: seq<WriteResult>, now: nat): seq<Obj>
    requires |counts| == |stored| && |writes| == |stored|
  {
    seq(|stored|, k requires 0 <= k < |stored| =>
      if Performed(writes[k]) then Visit(stored[k], counts[k], now) else stored[k])
  }

  /** The drift flag is up exactly if the object is Scheduled, not suspended, not under policy Ignore, and its
      nonzero expected count differs from a count that was fetched; the detection stamp moves exactly then;
      without drift an absent or empty flag stays as it is and any other is taken down; every other annotation
      and field stays. */
  ghost predicate MarkedExactly(before: Obj, after: Obj, count: Option<nat>, now: nat) {
    var drift := before.phase.Scheduled? && before.suspend != Some(true) && before.policy != Some(Ignore) &&
                 before.numDocs != 0 && exists n :: count == Some(n) && n != before.numDocs;
    && (Get(after.annotations, DriftDetected) == Some(Yes) <==> drift)
    && (!drift ==>
          var flag := Get(before.annotations, DriftDetected);
          Get(after.annotations, DriftDetected) ==
          if flag == None || flag == Some(Text("")) then flag else Some(No))
    && Get(after.annotations, LastDriftDetected) ==
       (if drift then Some(Stamp(now)) else Get(before.annotations, LastDriftDetected))
    && (forall key :: key !in {DriftDetected, LastDriftDetected} ==>
          Get(after.annotations, key) == Get(before.annotations, key))
    && after == before.(annotations := after.annotations)
  }

  lemma VisitMarksExactly(o: Obj, count: Option<nat>, now: nat)
    ensures MarkedExactly(o, Visit(o, count, now), count, now)
  {
    if DriftFound(o, count) {
      assert count == Some(count.value);
    }
  }

  class DriftDetector {
    /** The objects as the API server stores them. */
    var stored: seq<Obj>
    const now: nat

    constructor (stored: seq<Obj>, now: nat)
      ensures this.stored == stored && this.now == now
    {
      this.stored, this.now := stored, now;
    }

    /** checkAutoIndexerDrift; `count` is the RAG engine's answer, None when the request fails. */
    method CheckAutoIndexerDrift(o: Obj, count: Option<nat>) returns (r: CheckResult)
      ensures r.drift <==> DriftFound(o, count)
      ensures var checked :=
                o.policy != Some(Ignore) && o.phase.Scheduled? && o.numDocs != 0 && o.suspend != Some(true);
              r == if !checked then CheckResult(o.numDocs, 0, false, false)
                   else if count.None? then CheckResult(o.numDocs, 0, false, true)
                   else CheckResult(o.numDocs, count.value, count.value != o.numDocs, false)
    {
      r := CheckResult(o.numDocs, 0, false, false);
      if o.policy.Some? && o.policy.value.Ignore? {
        return;
      }
      if !Stable(o.phase) {
        return;
      }
      if o.numDocs == 0 {
        return;
      }
      if o.suspend.Some? && o.suspend.value {
        return;
      }
      if count.None? {
        r := r.(failed := true);
        return;
      }
      r := r.(actual := count.value);
      if r.expected != count.value {
        r := r.(drift := true);
      }
    }

    /** setDriftDetected */
    method SetDriftDetected(k: nat, o: Obj, write: WriteResult)
      requires k < |stored|
      modifies this
      ensures stored == if Performed(write) then old(stored)[k := Marked(o, true, now)] else old(stored)
    {
      var annotations := o.annotations[DriftDetected := Yes];
      annotations := annotations[LastDriftDetected := Stamp(now)];
      if Performed(write) {
        stored := stored[k := o.(annotations := annotations)];
      }
    }

    /** setDriftRemediated: nothing to write when the flag is absent, empty or already false. */
    method SetDriftRemediated(k: nat, o: Obj, write: WriteResult)
      requires k < |stored| && stored[k] == o
      modifies this
      ensures stored == if Performed(write) then old(stored)[k := Marked(o, false, now)] else old(stored)
    {
      var flag := Get(o.annotations, DriftDetected);
      if flag.None? || flag.value == Text("") || flag.value.No? {
        return;
      }
      if Performed(write) {
        stored := stored[k := o.(annotations := o.annotations[DriftDetected := No])];
      }
    }

    /** performDriftCheck: `listed` is false when listing the objects fails. */
    method PerformDriftCheck(listed: bool, counts: seq<Option<nat>>, writes: seq<WriteResult>)
      requires |counts| == |stored| && |writes| == |stored|
      modifies this
      ensures stored == if listed then Pass(old(stored), counts, writes, now) else old(stored)
      ensures listed ==> forall k :: 0 <= k < |stored| && Performed(writes[k]) ==>
                MarkedExactly(old(stored)[k], stored[k], counts[k], now)
    {
      hide MarkedExactly, DriftFound, Marked;
      if !listed {
        return;
      }
      var items := stored;
      for k := 0 to |items|
        invariant |stored| == |items|
        invariant forall j :: 0 <= j < k ==> stored[j] == Pass(items, counts, writes, now)[j]
        invariant forall j :: k <= j < |items| ==> stored[j] == items[j]
      {
        var result := CheckAutoIndexerDrift(items[k], counts[k]);
        if result.drift {
          SetDriftDetected(k, items[k], writes[k]);
        } else {
          SetDriftRemediated(k, items[k], writes[k]);
        }
      }
      forall k | 0 <= k < |stored| && Performed(writes[k])
        ensures MarkedExactly(old(stored)[k], stored[k], counts[k], now)
      {
        VisitMarksExactly(items[k], counts[k], now);
      }
    }
  }

  /** A pass leaves no object out: each whose update is stored is marked as its check says, and each whose
      update fails is as it was. */
  lemma PassMarksExactly(stored: seq<Obj>, counts: seq<Option<nat>>, writes: seq<WriteResult>, now: nat, k: nat)
    requires |counts| == |stored| && |writes| == |stored| && k < |stored|
    ensures |Pass(stored, counts, writes, now)| == |stored|
    ensures var after := Pass(stored, counts, writes, now)[k];
            if writes[k] == Refused then after == stored[k] else MarkedExactly(stored[k], after, counts[k], now)
  {
    VisitMarksExactly(stored[k], counts[k], now);
  }

  /** A second pass with the same answers changes only stamps: flags are stable. */
  lemma PassIsStable(stored: seq<Obj>, counts: seq<Option<nat>>, writes: seq<WriteResult>, now: nat, later: nat, k: nat)
    requires |counts| == |stored| && |writes| == |stored| && k < |stored|
    requires forall j :: 0 <= j < |writes| ==> Performed(writes[j])
    ensures var once := Pass(stored, counts, writes, now);
            var twice := Pass(once, counts, writes, later);
            && Get(twice[k].annotations, DriftDetected) == Get(once[k].annotations, DriftDetected)
            && (!DriftFound(stored[k], counts[k]) ==> twice[k] == once[k])
  {
    assert Performed(writes[k]);
  }

  /** The visit in the step system is one round of the pass. */
  lemma PassIsDetect(c: Cluster, count: Option<nat>, w: WriteResult)
    requires c.stored.Some?
    ensures Detect(c, count, w) == c.(stored := Some(Pass([c.stored.value], [count], [w], c.now)[0]))
  {
  }
}
