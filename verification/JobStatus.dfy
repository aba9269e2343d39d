/**
  getJobStatus: what the controller reads off its job list.  The flag it returns about the latest
  job depends on the order of the list, because the first started job only seeds the clock.
 */
module JobStatus {

  /** A Job's counters and start time; start is 0 when there is none. */
  datatype Job = Job(name: string, active: nat, failed: nat, succeeded: nat, start: nat)

  datatype Class = Running | Failed | Completed | Unclassified

  function ClassOf(job: Job): Class {
    if job.active > 0 then Running
    else if job.failed > 0 then Failed
    else if job.succeeded > 0 then Completed
    else Unclassified
  }

  function Count(jobs: seq<Job>, class_: Class): nat {
    if jobs == [] then 0
    else Count(jobs[..|jobs| - 1], class_) + (if ClassOf(jobs[|jobs| - 1]) == class_ then 1 else 0)
  }

  /** The start of the first started job, 0 when none has started. */
  function Seed(jobs: seq<Job>): nat {
    if jobs == [] then 0
    else if jobs[0].start > 0 then jobs[0].start
    else Seed(jobs[1..])
  }

  predicate Counts(job: Job) {
    !ClassOf(job).Unclassified?
  }

  /** Job k is the first classified job attaining the greatest start among those after the seed. */
  predicate Latest(jobs: seq<Job>, k: int) {
    && 0 <= k < |jobs| && Counts(jobs[k]) && jobs[k].start > Seed(jobs)
    && (forall j :: 0 <= j < |jobs| && Counts(jobs[j]) ==> jobs[j].start <= jobs[k].start)
    && (forall j :: 0 <= j < k && Counts(jobs[j]) ==> jobs[j].start < jobs[k].start)
  }

  /** latestJobFailed */
  predicate LatestFailed(jobs: seq<Job>) {
    exists k :: 0 <= k < |jobs| && Latest(jobs, k) && ClassOf(jobs[k]).Failed?
  }

  lemma {:induction false} SeedAppend(jobs: seq<Job>, job: Job)
    ensures Seed(jobs + [job]) == if Seed(jobs) > 0 then Seed(jobs) else job.start
  {
    if jobs == [] {
      assert [job][1..] == [];
    } else {
      assert (jobs + [job])[1..] == jobs[1..] + [job];
      SeedAppend(jobs[1..], job);
    }
  }

  lemma {:induction false} NotStarted(jobs: seq<Job>)
    ensures Seed(jobs) == 0 <==> forall j :: 0 <= j < |jobs| ==> jobs[j].start == 0
  {
    if jobs != [] {
      NotStarted(jobs[1..]);
      assert forall j :: 1 <= j < |jobs| ==> jobs[j] == jobs[1..][j - 1];
    }
  }

  lemma LatestIsUnique(jobs: seq<Job>, k: int, m: int)
    requires Latest(jobs, k) && Latest(jobs, m)
    ensures k == m
  {
  }

  /** The clock of the scan: the seed, or the greatest start of a classified job beyond it. */
  ghost predicate Clock(jobs: seq<Job>, clock: nat) {
    && clock >= Seed(jobs)
    && (forall j :: 0 <= j < |jobs| && Counts(jobs[j]) ==> jobs[j].start <= clock)
    && (clock > Seed(jobs) ==> exists k :: Latest(jobs, k) && jobs[k].start == clock)
  }

  /** Before any job has started, one more job at most sets the seed. */
  lemma SeedingJob(jobs: seq<Job>, job: Job)
    requires Clock(jobs, 0)
    ensures Clock(jobs + [job], job.start)
    ensures !LatestFailed(jobs) && !LatestFailed(jobs + [job])
  {
    var more := jobs + [job];
    SeedAppend(jobs, job);
    NotStarted(jobs);
    assert forall j :: 0 <= j < |jobs| ==> more[j] == jobs[j];
    assert forall k :: 0 <= k < |more| ==> !Latest(more, k);
  }

  lemma LatestAttainsClock(jobs: seq<Job>, clock: nat, k: int)
    requires Clock(jobs, clock) && Latest(jobs, k)
    ensures jobs[k].start == clock
  {
    if m: int :| Latest(jobs, m) && jobs[m].start == clock {
      LatestIsUnique(jobs, k, m);
    }
  }

  lemma OlderJobKeepsLatest(jobs: seq<Job>, job: Job, clock: nat, k: int)
    requires Clock(jobs, clock) && clock > 0
    requires !Counts(job) || job.start <= clock
    ensures Latest(jobs + [job], k) <==> Latest(jobs, k)
  {
    var more := jobs + [job];
    SeedAppend(jobs, job);
    NotStarted(jobs);
    assert forall j :: 0 <= j < |jobs| ==> more[j] == jobs[j];
    if Latest(jobs, k) {
      LatestAttainsClock(jobs, clock, k);
    }
    if clock > Seed(jobs) {
      var m: int :| Latest(jobs, m) && jobs[m].start == clock;
    }
  }

  /** A job that does not beat the clock leaves the latest job as it was. */
  lemma OlderJob(jobs: seq<Job>, job: Job, clock: nat)
    requires Clock(jobs, clock) && clock > 0
    requires !Counts(job) || job.start <= clock
    ensures Clock(jobs + [job], clock)
    ensures LatestFailed(jobs + [job]) == LatestFailed(jobs)
  {
    var more := jobs + [job];
    SeedAppend(jobs, job);
    NotStarted(jobs);
    assert forall j :: 0 <= j < |jobs| ==> more[j] == jobs[j];
    forall k: int ensures Latest(more, k) <==> Latest(jobs, k) {
      OlderJobKeepsLatest(jobs, job, clock, k);
    }
    if clock > Seed(jobs) {
      var m: int :| Latest(jobs, m) && jobs[m].start == clock;
      assert Latest(more, m) && more[m].start == clock;
    }
  }

  /** A classified job that beats the clock is the latest from then on. */
  lemma NewerJob(jobs: seq<Job>, job: Job, clock: nat)
    requires Clock(jobs, clock) && clock > 0 && Counts(job) && job.start > clock
    ensures Clock(jobs + [job], job.start)
    ensures LatestFailed(jobs + [job]) == ClassOf(job).Failed?
  {
    var more := jobs + [job];
    SeedAppend(jobs, job);
    NotStarted(jobs);
    assert forall j :: 0 <= j < |jobs| ==> more[j] == jobs[j];
    assert Latest(more, |jobs|);
    forall k | 0 <= k < |more| && Latest(more, k) ensures k == |jobs| {
      LatestIsUnique(more, k, |jobs|);
    }
  }

  /** getJobStatus: the three counts, and whether the latest job failed. */
  method GetJobStatus(jobs: seq<Job>) returns (running: nat, failed: nat, completed: nat, latestJobFailed: bool)
    ensures running == Count(jobs, Running) && failed == Count(jobs, Failed) && completed == Count(jobs, Completed)
    ensures latestJobFailed <==> LatestFailed(jobs)
  {
    running, failed, completed := 0, 0, 0;
    latestJobFailed := false;
    var lastJobTimestamp := 0;
    for i := 0 to |jobs|
      invariant running == Count(jobs[..i], Running)
      invariant failed == Count(jobs[..i], Failed)
      invariant completed == Count(jobs[..i], Completed)
      invariant Clock(jobs[..i], lastJobTimestamp)
      invariant latestJobFailed <==> LatestFailed(jobs[..i])
    {
      var job := jobs[i];
      assert jobs[..i + 1] == jobs[..i] + [job] && jobs[..i + 1][..i] == jobs[..i];
      ghost var clock := lastJobTimestamp;
      if lastJobTimestamp == 0 && job.start != 0 {
        lastJobTimestamp := job.start;
      }
      if clock == 0 {
        SeedingJob(jobs[..i], job);
      } else if Counts(job) && job.start > clock {
        NewerJob(jobs[..i], job, clock);
      } else {
        OlderJob(jobs[..i], job, clock);
      }
      if job.active > 0 {
        running := running + 1;
        if job.start > lastJobTimestamp {
          latestJobFailed := false;
          lastJobTimestamp := job.start;
        }
      } else if job.failed > 0 {
        failed := failed + 1;
        if job.start > lastJobTimestamp {
          latestJobFailed := true;
          lastJobTimestamp := job.start;
        }
      } else if job.succeeded > 0 {
        completed := completed + 1;
        if job.start > lastJobTimestamp {
          latestJobFailed := false;
          lastJobTimestamp := job.start;
        }
      }
    }
    assert jobs[..|jobs|] == jobs;
  }

  /** The three counts add up to the classified jobs. */
  lemma {:induction false} CountsAddUp(jobs: seq<Job>)
    ensures Count(jobs, Running) + Count(jobs, Failed) + Count(jobs, Completed) + Count(jobs, Unclassified) == |jobs|
  {
    if jobs != [] {
      CountsAddUp(jobs[..|jobs| - 1]);
    }
  }

  lemma {:induction false} CountZero(jobs: seq<Job>, class_: Class)
    ensures Count(jobs, class_) == 0 <==> forall j :: 0 <= j < |jobs| ==> ClassOf(jobs[j]) != class_
  {
    if jobs != [] {
      var n := |jobs| - 1;
      CountZero(jobs[..n], class_);
      assert forall j :: 0 <= j < n ==> jobs[..n][j] == jobs[j];
    }
  }

  /** With at most one job in the list no failure is ever reported: that job only seeds the clock. */
  lemma SingleJobNeverLatest(jobs: seq<Job>)
    requires |jobs| <= 1
    ensures !LatestFailed(jobs)
  {
    if |jobs| == 1 {
      assert Seed(jobs) == jobs[0].start by {
        assert jobs[1..] == [];
      }
    }
  }

  /** If some classified job starts after the seed, the flag is about the latest of them; otherwise it is down. */
  lemma LatestFailedMeaning(jobs: seq<Job>)
    ensures (exists j :: 0 <= j < |jobs| && Counts(jobs[j]) && jobs[j].start > Seed(jobs)) ==>
              exists k :: 0 <= k < |jobs| && Latest(jobs, k) && (LatestFailed(jobs) <==> ClassOf(jobs[k]).Failed?)
    ensures (forall j :: 0 <= j < |jobs| && Counts(jobs[j]) ==> jobs[j].start <= Seed(jobs)) ==> !LatestFailed(jobs)
  {
    var clock := ScanClock(jobs);
    if clock > Seed(jobs) {
      var k: int :| Latest(jobs, k) && jobs[k].start == clock;
      forall m | 0 <= m < |jobs| && Latest(jobs, m) ensures m == k {
        LatestIsUnique(jobs, m, k);
      }
    }
  }

  lemma {:induction false} ScanClock(jobs: seq<Job>) returns (clock: nat)
    ensures Clock(jobs, clock)
  {
    clock := 0;
    if jobs != [] {
      var init, job := jobs[..|jobs| - 1], jobs[|jobs| - 1];
      assert jobs == init + [job];
      clock := ScanClock(init);
      if clock == 0 {
        SeedingJob(init, job);
        clock := job.start;
      } else if Counts(job) && job.start > clock {
        NewerJob(init, job, clock);
        clock := job.start;
      } else {
        OlderJob(init, job, clock);
      }
    }
  }

  // ---- In the jobs' own counters ----

  predicate IsActive(job: Job) {
    job.active > 0
  }

  predicate HasFailed(job: Job) {
    job.active == 0 && job.failed > 0
  }

  predicate HasCompleted(job: Job) {
    job.active == 0 && job.failed == 0 && job.succeeded > 0
  }

  predicate AnyIs(jobs: seq<Job>, p: Job -> bool) {
    exists k :: 0 <= k < |jobs| && p(jobs[k])
  }

  /** How many jobs have a property, as a set of indices. */
  function Those(jobs: seq<Job>, p: Job -> bool): set<nat> {
    set k: nat | k < |jobs| && p(jobs[k])
  }

  lemma ThoseOneMore(jobs: seq<Job>, p: Job -> bool)
    requires jobs != []
    ensures var n := |jobs| - 1;
            |Those(jobs, p)| == |Those(jobs[..n], p)| + (if p(jobs[n]) then 1 else 0)
  {
    var n := |jobs| - 1;
    assert Those(jobs, p) == Those(jobs[..n], p) + (if p(jobs[n]) then {n} else {});
  }

  /** The three counts are the numbers of jobs that are active, that have failed and are not active, and that
      have succeeded and neither failed nor are active. */
  lemma {:induction false} CountMeaning(jobs: seq<Job>)
    ensures Count(jobs, Running) == |Those(jobs, IsActive)|
    ensures Count(jobs, Failed) == |Those(jobs, HasFailed)|
    ensures Count(jobs, Completed) == |Those(jobs, HasCompleted)|
  {
    if jobs != [] {
      hide Those;
      CountMeaning(jobs[..|jobs| - 1]);
      ThoseOneMore(jobs, IsActive);
      ThoseOneMore(jobs, HasFailed);
      ThoseOneMore(jobs, HasCompleted);
    } else {
      assert Those(jobs, IsActive) == {} && Those(jobs, HasFailed) == {} && Those(jobs, HasCompleted) == {};
    }
  }

  lemma CountsSome(jobs: seq<Job>)
    ensures Count(jobs, Running) > 0 <==> AnyIs(jobs, IsActive)
    ensures Count(jobs, Failed) > 0 <==> AnyIs(jobs, HasFailed)
    ensures Count(jobs, Completed) > 0 <==> AnyIs(jobs, HasCompleted)
  {
    hide Count;
    CountZero(jobs, Running);
    CountZero(jobs, Failed);
    CountZero(jobs, Completed);
    assert forall job :: ClassOf(job) == Running <==> IsActive(job);
    assert forall job :: ClassOf(job) == Failed <==> HasFailed(job);
    assert forall job :: ClassOf(job) == Completed <==> HasCompleted(job);
  }

  /** Job f is the first with a start time. */
  predicate FirstStarted(jobs: seq<Job>, f: int) {
    0 <= f < |jobs| && jobs[f].start > 0 && forall j :: 0 <= j < f ==> jobs[j].start == 0
  }

  /** Job k started last of those that count, and first among equals. */
  predicate StartedLast(jobs: seq<Job>, k: int) {
    && 0 <= k < |jobs|
    && (forall j :: 0 <= j < |jobs| && HasState(jobs[j]) ==> jobs[j].start <= jobs[k].start)
    && (forall j :: 0 <= j < k && HasState(jobs[j]) ==> jobs[j].start < jobs[k].start)
  }

  predicate HasState(job: Job) {
    job.active > 0 || job.failed > 0 || job.succeeded > 0
  }

  /** A failed job started later than the first started one and last of all that count. */
  ghost predicate LatestJobFailed(jobs: seq<Job>) {
    exists k, f :: FirstStarted(jobs, f) && StartedLast(jobs, k) && HasFailed(jobs[k]) && jobs[k].start > jobs[f].start
  }

  lemma {:induction false} SeedIs(jobs: seq<Job>, f: int)
    requires FirstStarted(jobs, f)
    ensures Seed(jobs) == jobs[f].start
  {
    if jobs[0].start == 0 {
      assert forall j :: 0 <= j < f - 1 ==> jobs[1..][j] == jobs[j + 1];
      SeedIs(jobs[1..], f - 1);
    }
  }

  lemma {:induction false} SeedOf(jobs: seq<Job>) returns (f: int)
    ensures FirstStarted(jobs, f) || (forall j :: 0 <= j < |jobs| ==> jobs[j].start == 0)
  {
    f := 0;
    if jobs != [] && jobs[0].start == 0 {
      f := SeedOf(jobs[1..]);
      assert forall j :: 1 <= j < |jobs| ==> jobs[j] == jobs[1..][j - 1];
      f := f + 1;
    }
  }

  /** The flag, in the jobs' own counters and start times. */
  lemma LatestFailedIff(jobs: seq<Job>)
    ensures LatestFailed(jobs) <==> LatestJobFailed(jobs)
  {
    hide Seed;
    assert forall job :: Counts(job) <==> HasState(job);
    assert forall job :: ClassOf(job) == Failed <==> HasFailed(job);
    var f := SeedOf(jobs);
    if FirstStarted(jobs, f) {
      SeedIs(jobs, f);
    }
    if LatestFailed(jobs) {
      var k :| 0 <= k < |jobs| && Latest(jobs, k) && ClassOf(jobs[k]).Failed?;
      assert StartedLast(jobs, k) && FirstStarted(jobs, f);
    }
    if LatestJobFailed(jobs) {
      var k, g :| FirstStarted(jobs, g) && StartedLast(jobs, k) && HasFailed(jobs[k]) && jobs[k].start > jobs[g].start;
      SeedIs(jobs, g);
      assert Latest(jobs, k);
    }
  }

  lemma LatestJobHasFailed(jobs: seq<Job>)
    requires LatestJobFailed(jobs)
    ensures AnyIs(jobs, HasFailed)
  {
  }
}
