/** The job scheduler: what each operation does to the job list (cron/service.go, cron/types.go). */
module Cron {
  import opened Wrappers

  datatype Schedule = At(atMs: int) | Every(everyMs: int) | CronExpr(expr: string, tz: string) | UnknownKind

  datatype Job = Job(id: string, payload: string, enabled: bool, schedule: Schedule, deleteAfterRun: bool,
                     next: int, lastRun: int, updated: int, failed: bool)

  /** Parsing an expression and asking for the first activation after a time; None when it does not parse. */
  type CronTable = (string, string, int) -> Option<int>

  /** The library answers with a later time, or with the zero time, which is before the epoch. */
  ghost predicate IsSound(cron: CronTable) {
    forall e, tz, now :: cron(e, tz, now).Some? ==> cron(e, tz, now).value <= 0 || cron(e, tz, now).value > now
  }

  function ComputeNextRun(cron: CronTable, s: Schedule, now: int): (next: int)
    ensures IsSound(cron) && next > 0 ==> next > now
    ensures s.At? ==> next == (if s.atMs > now then s.atMs else 0)
    ensures s.Every? && s.everyMs > 0 ==> next - now == s.everyMs
    ensures s.CronExpr? && s.expr != "" && cron(s.expr, s.tz, now).Some? ==> cron(s.expr, s.tz, now) == Some(next)
  {
    match s
    case At(atMs) => if atMs > now then atMs else 0
    case Every(everyMs) => if everyMs <= 0 then 0 else now + everyMs
    case CronExpr(expr, tz) =>
      if expr == "" then 0 else (match cron(expr, tz, now) case None => 0 case Some(t) => t)
    case UnknownKind => 0
  }

  predicate IsDue(j: Job, now: int) {
    j.enabled && j.next > 0 && now >= j.next
  }

  /** `out` are the entries of `jobs` at the places `at`, in their order, and these are the enabled jobs whose time
      has come. */
  predicate SelectsDue(jobs: seq<Job>, now: int, out: seq<Job>, at: seq<nat>) {
    && |out| == |at|
    && (forall k :: 0 <= k < |at| ==> at[k] < |jobs| && out[k] == jobs[at[k]])
    && (forall k, l :: 0 <= k < l < |at| ==> at[k] < at[l])
    && (forall i :: 0 <= i < |jobs| ==> (i in at <==> jobs[i].enabled && 0 < jobs[i].next <= now))
  }

  function DuePlaces(jobs: seq<Job>, now: int): (at: seq<nat>)
    ensures forall i :: i in at ==> i < |jobs|
  {
    if jobs == [] then []
    else
      var n := |jobs| - 1;
      DuePlaces(jobs[..n], now) + if IsDue(jobs[n], now) then [n] else []
  }

  /** Collected are exactly the enabled jobs whose time has come, each once, in list order. */
  lemma {:induction false} DueSelected(jobs: seq<Job>, now: int)
    ensures SelectsDue(jobs, now, DueJobs(jobs, now), DuePlaces(jobs, now))
  {
    hide SelectsDue;
    if jobs == [] {
      NothingDue(now);
    } else {
      var n := |jobs| - 1;
      DueSelected(jobs[..n], now);
      OneMoreSelected(jobs[..n], now, DueJobs(jobs[..n], now), DuePlaces(jobs[..n], now), jobs[n]);
      assert jobs == jobs[..n] + [jobs[n]];
      assert DueJobs(jobs[..n], now) + [] == DueJobs(jobs[..n], now);
      assert DuePlaces(jobs[..n], now) + [] == DuePlaces(jobs[..n], now);
    }
  }

  lemma NothingDue(now: int)
    ensures SelectsDue([], now, [], [])
  {
  }

  lemma OneMoreSelected(jobs: seq<Job>, now: int, out: seq<Job>, at: seq<nat>, j: Job)
    requires SelectsDue(jobs, now, out, at)
    ensures if j.enabled && 0 < j.next <= now then SelectsDue(jobs + [j], now, out + [j], at + [|jobs|])
            else SelectsDue(jobs + [j], now, out, at)
  {
    assert forall i :: 0 <= i < |jobs| ==> (jobs + [j])[i] == jobs[i];
    assert forall i :: i in at ==> i < |jobs|;
  }

  function DueJobs(jobs: seq<Job>, now: int): seq<Job> {
    if jobs == [] then []
    else DueJobs(jobs[..|jobs| - 1], now) + (if IsDue(jobs[|jobs| - 1], now) then [jobs[|jobs| - 1]] else [])
  }

  /** Whatever the schedule, a job is collected exactly when it is enabled and its time has come. */
  lemma DueMembers(jobs: seq<Job>, now: int)
    ensures exists at :: SelectsDue(jobs, now, DueJobs(jobs, now), at)
    ensures forall j :: j in DueJobs(jobs, now) <==> j in jobs && j.enabled && 0 < j.next <= now
  {
    hide DueJobs, DuePlaces;
    var out, at := DueJobs(jobs, now), DuePlaces(jobs, now);
    DueSelected(jobs, now);
    forall j | j in jobs && j.enabled && 0 < j.next <= now
      ensures j in out
    {
      var i :| 0 <= i < |jobs| && jobs[i] == j;
      var k :| 0 <= k < |at| && at[k] == i;
      assert out[k] == j;
    }
    forall j | j in out
      ensures j in jobs && j.enabled && 0 < j.next <= now
    {
      var k :| 0 <= k < |out| && out[k] == j;
      assert at[k] in at;
    }
  }

  function Rearmed(cron: CronTable, j: Job, now: int): Job {
    if j.enabled then j.(next := ComputeNextRun(cron, j.schedule, now)) else j
  }

  function Recompute(cron: CronTable, jobs: seq<Job>, now: int): (r: seq<Job>)
    ensures |r| == |jobs| && forall i :: 0 <= i < |r| ==> r[i] == Rearmed(cron, jobs[i], now)
  {
    seq(|jobs|, i requires 0 <= i < |jobs| => Rearmed(cron, jobs[i], now))
  }

  /** The first index with the id, |jobs| if there is none. */
  function IndexOf(jobs: seq<Job>, id: string): (i: nat)
    ensures i <= |jobs| && (i < |jobs| ==> jobs[i].id == id)
    ensures forall k :: 0 <= k < i ==> jobs[k].id != id
  {
    if jobs == [] then 0 else if jobs[0].id == id then 0 else 1 + IndexOf(jobs[1..], id)
  }

  predicate IsFirst(jobs: seq<Job>, i: int, id: string) {
    0 <= i < |jobs| && jobs[i].id == id && forall k :: 0 <= k < i ==> jobs[k].id != id
  }

  lemma FirstIndex(jobs: seq<Job>, id: string)
    ensures IndexOf(jobs, id) < |jobs| <==> exists j :: j in jobs && j.id == id
    ensures forall i :: IsFirst(jobs, i, id) <==> i == IndexOf(jobs, id) < |jobs|
  {
    var i := IndexOf(jobs, id);
    if i < |jobs| {
      assert jobs[i] in jobs;
    }
  }

  /** Only switch, next run and time of change may differ. */
  predicate SameOtherwise(j: Job, k: Job) {
    && k.id == j.id && k.payload == j.payload && k.schedule == j.schedule && k.deleteAfterRun == j.deleteAfterRun
    && k.lastRun == j.lastRun && k.failed == j.failed
  }

  function Removed(jobs: seq<Job>, id: string): seq<Job> {
    var i := IndexOf(jobs, id);
    if i < |jobs| then jobs[..i] + jobs[i + 1..] else jobs
  }

  function Replaced(jobs: seq<Job>, j: Job): seq<Job> {
    var i := IndexOf(jobs, j.id);
    if i < |jobs| then jobs[i := j] else jobs
  }

  function SetEnabled(cron: CronTable, j: Job, enabled: bool, now: int): Job {
    j.(enabled := enabled, updated := now, next := if enabled then ComputeNextRun(cron, j.schedule, now) else 0)
  }

  function Enabled(cron: CronTable, jobs: seq<Job>, id: string, enabled: bool, now: int): seq<Job> {
    var i := IndexOf(jobs, id);
    if i < |jobs| then jobs[i := SetEnabled(cron, jobs[i], enabled, now)] else jobs
  }

  /** `k` is `j` after a run that ended at `now`: a one-shot job is off, a recurring one armed again. */
  predicate RanOnce(cron: CronTable, j: Job, k: Job, failed: bool, now: int) {
    && k.id == j.id && k.payload == j.payload && k.schedule == j.schedule && k.deleteAfterRun == j.deleteAfterRun
    && k.lastRun == now && k.updated == now && k.failed == failed
    && (j.schedule.At? ==> !k.enabled && k.next == 0)
    && (!j.schedule.At? ==> k.enabled == j.enabled)
    && (j.schedule.Every? ==> k.next - now == j.schedule.everyMs)
    && (j.schedule.CronExpr? ==> k.next == ComputeNextRun(cron, j.schedule, now))
  }

  /** The copy of a job after its run, as it is written back. */
  function AfterRun(cron: CronTable, j: Job, failed: bool, now: int): Job {
    var ran := j.(failed := failed, lastRun := now, updated := now);
    match j.schedule
    case At(_) => ran.(enabled := false, next := 0)
    case Every(everyMs) => ran.(next := now + everyMs)
    case CronExpr(_, _) => ran.(next := ComputeNextRun(cron, j.schedule, now))
    case UnknownKind => ran
  }

  /** The job list once the run of `j` (a copy taken earlier) is recorded. */
  function Recorded(cron: CronTable, jobs: seq<Job>, j: Job, failed: bool, now: int): seq<Job> {
    if j.schedule.At? && j.deleteAfterRun then Removed(jobs, j.id)
    else Replaced(jobs, AfterRun(cron, j, failed, now))
  }

  /** The first job with the id goes, if there is one. */
  ghost predicate Drops(jobs: seq<Job>, id: string, jobs2: seq<Job>) {
    if exists j :: j in jobs && j.id == id then
      exists i :: IsFirst(jobs, i, id) && jobs2 == jobs[..i] + jobs[i + 1..]
    else jobs2 == jobs
  }

  /** After a run of `j`: a one-shot job that is to be deleted is gone, any other is replaced by `j` after the run,
      and no other job changes. */
  ghost predicate WritesBack(cron: CronTable, jobs: seq<Job>, j: Job, failed: bool, now: int, jobs2: seq<Job>) {
    if j.schedule.At? && j.deleteAfterRun then Drops(jobs, j.id, jobs2)
    else
      && |jobs2| == |jobs|
      && forall i :: 0 <= i < |jobs| ==>
           if IsFirst(jobs, i, j.id) then RanOnce(cron, j, jobs2[i], failed, now) else jobs2[i] == jobs[i]
  }

  lemma RecordedMeans(cron: CronTable, jobs: seq<Job>, j: Job, failed: bool, now: int)
    ensures WritesBack(cron, jobs, j, failed, now, Recorded(cron, jobs, j, failed, now))
  {
    hide RanOnce, IsFirst, IndexOf, AfterRun;
    FirstIndex(jobs, j.id);
    RunMeans(cron, j, failed, now);
  }

  lemma RunMeans(cron: CronTable, j: Job, failed: bool, now: int)
    ensures RanOnce(cron, j, AfterRun(cron, j, failed, now), failed, now) && AfterRun(cron, j, failed, now).id == j.id
  {
  }

  /** How the runs of a tick go: whether the n-th one failed and when it ended. */
  type Runs = nat -> (bool, int)

  /** The job list once the first n of the due jobs have run. */
  function AllRecorded(cron: CronTable, jobs: seq<Job>, due: seq<Job>, runs: Runs, n: nat): seq<Job>
    requires n <= |due|
  {
    if n == 0 then jobs
    else Recorded(cron, AllRecorded(cron, jobs, due, runs, n - 1), due[n - 1], runs(n - 1).0, runs(n - 1).1)
  }

  class Service {
    const cron: CronTable
    var jobs: seq<Job>

    constructor (cron: CronTable)
      ensures this.cron == cron && jobs == []
    {
      this.cron, this.jobs := cron, [];
    }

    method RecomputeNextRuns(now: int)
      modifies this
      ensures jobs == Recompute(cron, old(jobs), now)
      ensures |jobs| == |old(jobs)| && forall i :: 0 <= i < |jobs| ==>
                jobs[i] == if old(jobs)[i].enabled
                           then old(jobs)[i].(next := ComputeNextRun(cron, old(jobs)[i].schedule, now))
                           else old(jobs)[i]
    {
      for i := 0 to |jobs|
        invariant |jobs| == |old(jobs)|
        invariant forall k :: 0 <= k < |jobs| ==>
                    jobs[k] == if k < i then Rearmed(cron, old(jobs)[k], now) else old(jobs)[k]
      {
        if jobs[i].enabled {
          jobs := jobs[i := jobs[i].(next := ComputeNextRun(cron, jobs[i].schedule, now))];
        }
      }
    }

    method CollectDue(now: int) returns (due: seq<Job>)
      ensures due == DueJobs(jobs, now)
    {
      due := [];
      for i := 0 to |jobs|
        invariant due == DueJobs(jobs[..i], now)
      {
        assert jobs[..i + 1][..i] == jobs[..i];
        if jobs[i].enabled && jobs[i].next > 0 && now >= jobs[i].next {
          due := due + [jobs[i]];
        }
      }
      assert jobs[..|jobs|] == jobs;
    }

    method FindJob(id: string) returns (i: nat)
      ensures i == IndexOf(jobs, id)
    {
      i := 0;
      while i < |jobs| && jobs[i].id != id
        invariant i <= |jobs| && IndexOf(jobs, id) == i + IndexOf(jobs[i..], id)
      {
        assert jobs[i..][1..] == jobs[i + 1..];
        i := i + 1;
      }
    }

    method AddJob(id: string, payload: string, schedule: Schedule, deleteAfterRun: bool, now: int) returns (job: Job)
      modifies this
      ensures job == Job(id, payload, true, schedule, deleteAfterRun, ComputeNextRun(cron, schedule, now), 0, now,
              false)
      ensures jobs == old(jobs) + [job]
    {
      job := Job(id, payload, true, schedule, deleteAfterRun, ComputeNextRun(cron, schedule, now), 0, now, false);
      jobs := jobs + [job];
    }

    method RemoveJob(id: string) returns (found: bool)
      modifies this
      ensures jobs == Removed(old(jobs), id) && found == exists j :: j in old(jobs) && j.id == id
      ensures Drops(old(jobs), id, jobs)
    {
      FirstIndex(jobs, id);
      var i := FindJob(id);
      if i == |jobs| {
        return false;
      }
      jobs := jobs[..i] + jobs[i + 1..];
      return true;
    }

    method EnableJob(id: string, enabled: bool, now: int) returns (found: bool)
      modifies this
      ensures jobs == Enabled(cron, old(jobs), id, enabled, now) && found == exists j :: j in old(jobs) && j.id == id
      ensures |jobs| == |old(jobs)| && forall i :: 0 <= i < |jobs| ==>
                if IsFirst(old(jobs), i, id) then
                  && jobs[i].enabled == enabled && jobs[i].updated == now
                  && jobs[i].next == (if enabled then ComputeNextRun(cron, old(jobs)[i].schedule, now) else 0)
                  && SameOtherwise(old(jobs)[i], jobs[i])
                else jobs[i] == old(jobs)[i]
    {
      FirstIndex(jobs, id);
      var i := FindJob(id);
      if i == |jobs| {
        return false;
      }
      var j := jobs[i].(enabled := enabled, updated := now);
      if enabled {
        j := j.(next := ComputeNextRun(cron, j.schedule, now));
      } else {
        j := j.(next := 0);
      }
      jobs := jobs[i := j];
      return true;
    }

    /** The second half of a run: the copy taken when the job was found due is updated and written back. */
    method RecordRun(job: Job, failed: bool, now: int)
      modifies this
      ensures jobs == Recorded(cron, old(jobs), job, failed, now)
      ensures WritesBack(cron, old(jobs), job, failed, now, jobs)
    {
      RecordedMeans(cron, jobs, job, failed, now);
      var j := job.(failed := failed, lastRun := now, updated := now);
      if j.schedule.At? {
        if j.deleteAfterRun {
          var found := RemoveJob(j.id);
          return;
        }
        j := j.(enabled := false, next := 0);
      } else if j.schedule.Every? {
        j := j.(next := now + j.schedule.everyMs);
      } else if j.schedule.CronExpr? {
        j := j.(next := ComputeNextRun(cron, j.schedule, now));
      }
      var i := FindJob(j.id);
      if i < |jobs| {
        jobs := jobs[i := j];
      }
    }

    /** A tick no one interferes with: every due job is run once, in list order, then all jobs are re-armed. */
    method Tick(now: int, runs: Runs, end: int) returns (executed: seq<Job>)
      modifies this
      ensures executed == DueJobs(old(jobs), now)
      ensures exists at :: SelectsDue(old(jobs), now, executed, at)
      ensures forall j :: j in executed <==> j in old(jobs) && j.enabled && 0 < j.next <= now
      ensures jobs == Recompute(cron, AllRecorded(cron, old(jobs), executed, runs, |executed|), end)
    {
      hide Recorded, Recompute, DueJobs, SelectsDue;
      var due := CollectDue(now);
      DueMembers(jobs, now);
      executed := [];
      for i := 0 to |due|
        invariant executed == due[..i] && jobs == AllRecorded(cron, old(jobs), due, runs, i)
      {
        RecordRun(due[i], runs(i).0, runs(i).1);
        executed := executed + [due[i]];
      }
      RecomputeNextRuns(end);
    }
  }
}
