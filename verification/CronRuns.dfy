/** Interleavings of the scheduler's ticks with the operations users and jobs make (cron/service.go). */
module CronRuns {
  import opened Wrappers
  import opened Cron

  /** The scheduler between two steps. `due` are the copies the current tick still has to run and `running` the
      one whose OnJob is under way. `issued` records the schedule each id was created with, `ran` the ids the
      tick has started, in order. */
  datatype State = State(jobs: seq<Job>, clock: int, ticking: bool, due: seq<Job>, running: Option<Job>,
                         issued: map<string, Schedule>, ran: seq<string>)

  datatype Step =
    | Advance(to: int)
    | Add(job: Job)
    | Enable(id: string, enabled: bool)
    | Remove(id: string)
    | Restart
    | BeginTick
    | StartRun
    | FinishRun(failed: bool)
    | EndTick

  /** What can happen next. One goroutine ticks; everything else may come at any time. */
  predicate CanStep(cron: CronTable, s: State, a: Step) {
    match a
    case Advance(to) => to >= s.clock
    case Add(job) =>
      job.id !in s.issued && job.enabled && job.next == ComputeNextRun(cron, job.schedule, s.clock)
    case Enable(_, _) => true
    case Remove(_) => true
    case Restart => !s.ticking
    case BeginTick => !s.ticking
    case StartRun => s.ticking && s.running.None? && s.due != []
    case FinishRun(_) => s.running.Some?
    case EndTick => s.ticking && s.running.None? && s.due == []
  }

  function Next(cron: CronTable, s: State, a: Step): State
    requires CanStep(cron, s, a)
  {
    match a
    case Advance(to) => s.(clock := to)
    case Add(job) => s.(jobs := s.jobs + [job], issued := s.issued[job.id := job.schedule])
    case Enable(id, enabled) => s.(jobs := Enabled(cron, s.jobs, id, enabled, s.clock))
    case Remove(id) => s.(jobs := Removed(s.jobs, id))
    case Restart => s.(jobs := Recompute(cron, s.jobs, s.clock))
    case BeginTick => s.(ticking := true, due := DueJobs(s.jobs, s.clock))
    case StartRun => s.(due := s.due[1..], running := Some(s.due[0]), ran := s.ran + [s.due[0].id])
    case FinishRun(failed) => s.(jobs := Recorded(cron, s.jobs, s.running.value, failed, s.clock), running := None)
    case EndTick => s.(ticking := false, jobs := Recompute(cron, s.jobs, s.clock))
  }

  /** A job as the service could hold it: known id, the schedule it was created with, and for a one-shot job
      the scheduled time or nothing as its next run. */
  predicate IsCopy(issued: map<string, Schedule>, j: Job) {
    && j.id in issued && issued[j.id] == j.schedule
    && (j.schedule.At? ==> j.next == 0 || j.next == j.schedule.atMs)
  }

  predicate UniqueIds(jobs: seq<Job>) {
    forall i, k :: 0 <= i < k < |jobs| ==> jobs[i].id != jobs[k].id
  }

  predicate IsRunning(s: State, id: string) {
    s.running.Some? && s.running.value.id == id
  }

  /** The one-shot job `id` is past its time. */
  predicate IsPast(s: State, id: string) {
    id in s.issued && s.issued[id].At? && s.issued[id].atMs <= s.clock
  }

  ghost predicate Inv(s: State) {
    && UniqueIds(s.jobs) && UniqueIds(s.due)
    && (forall j :: j in s.jobs || j in s.due || Some(j) == s.running ==> IsCopy(s.issued, j))
    && (s.due != [] || s.running.Some? ==> s.ticking)
    // a one-shot job that was started or is about to be is past its time ...
    && (forall j :: j in s.due && j.schedule.At? ==> IsPast(s, j.id) && j.id !in s.ran && !IsRunning(s, j.id))
    && (forall id :: id in s.ran && id in s.issued && s.issued[id].At? ==> IsPast(s, id))
    && (forall id :: id in s.ran ==> id in s.issued)
    && (s.running.Some? ==> s.running.value.id in s.ran)
    // ... and once its run is recorded it has no next run
    && (forall j :: j in s.jobs && j.schedule.At? && j.id in s.ran ==> j.next == 0 || IsRunning(s, j.id))
    && OnceEach(s)
  }

  /** No one-shot job was started twice. */
  predicate OnceEach(s: State) {
    forall i, k :: 0 <= i < k < |s.ran| && s.ran[i] in s.issued && s.issued[s.ran[i]].At? ==> s.ran[i] != s.ran[k]
  }

  lemma {:induction false} DueMeaning(jobs: seq<Job>, now: int)
    ensures forall j :: j in DueJobs(jobs, now) <==> j in jobs && IsDue(j, now)
    ensures UniqueIds(jobs) ==> UniqueIds(DueJobs(jobs, now))
  {
    if jobs != [] {
      var init, last := jobs[..|jobs| - 1], jobs[|jobs| - 1];
      assert jobs == init + [last];
      DueMeaning(init, now);
      if UniqueIds(jobs) {
        assert forall j :: j in init ==> j.id != last.id;
        assert forall j :: j in DueJobs(init, now) ==> j in init;
      }
    }
  }

  lemma RecomputeMeaning(cron: CronTable, jobs: seq<Job>, now: int)
    ensures UniqueIds(jobs) ==> UniqueIds(Recompute(cron, jobs, now))
    ensures forall r :: r in Recompute(cron, jobs, now) ==> exists j :: j in jobs && r == Rearmed(cron, j, now)
  {
    var rs := Recompute(cron, jobs, now);
    forall r | r in rs
      ensures exists j :: j in jobs && r == Rearmed(cron, j, now)
    {
      var i :| 0 <= i < |rs| && rs[i] == r;
      assert jobs[i] in jobs;
    }
  }

  lemma RemovedMeaning(jobs: seq<Job>, id: string)
    ensures forall j :: j in Removed(jobs, id) ==> j in jobs
    ensures UniqueIds(jobs) ==> UniqueIds(Removed(jobs, id)) && forall j :: j in Removed(jobs, id) ==> j.id != id
  {
    hide IndexOf;
    var i, rest := IndexOf(jobs, id), Removed(jobs, id);
    if i < |jobs| {
      assert forall k :: 0 <= k < |rest| ==> rest[k] == jobs[if k < i then k else k + 1];
    }
  }

  lemma ReplacedMeaning(jobs: seq<Job>, j: Job)
    ensures forall r :: r in Replaced(jobs, j) ==> r == j || r in jobs
    ensures UniqueIds(jobs) ==> UniqueIds(Replaced(jobs, j))
    ensures UniqueIds(jobs) ==> forall r :: r in Replaced(jobs, j) && r.id == j.id ==> r == j
  {
  }

  lemma EnabledMeaning(cron: CronTable, jobs: seq<Job>, id: string, enabled: bool, now: int)
    ensures UniqueIds(jobs) ==> UniqueIds(Enabled(cron, jobs, id, enabled, now))
    ensures forall r :: r in Enabled(cron, jobs, id, enabled, now) ==>
              r in jobs || exists j :: j in jobs && r == SetEnabled(cron, j, enabled, now)
  {
    var i := IndexOf(jobs, id);
    if i < |jobs| {
      assert jobs[i] in jobs;
    }
  }

  // ---------------------------------------------------------------- every step keeps the invariant

  /** What an operation may do to the job list: every entry is an old one, or an old one with its next run
      computed afresh or cleared. */
  ghost predicate Touched(cron: CronTable, jobs: seq<Job>, now: int, jobs2: seq<Job>) {
    forall r :: r in jobs2 ==> exists j :: j in jobs && SameJob(cron, j, now, r)
  }

  ghost predicate SameJob(cron: CronTable, j: Job, now: int, r: Job) {
    && r.id == j.id && r.schedule == j.schedule
    && (r.next == j.next || r.next == 0 || r.next == ComputeNextRun(cron, j.schedule, now))
  }

  lemma {:induction false} TouchedKeepsInv(cron: CronTable, s: State, jobs2: seq<Job>)
    requires Inv(s) && UniqueIds(jobs2) && Touched(cron, s.jobs, s.clock, jobs2)
    ensures Inv(s.(jobs := jobs2))
  {
    forall r | r in jobs2
      ensures IsCopy(s.issued, r)
      ensures r.schedule.At? && r.id in s.ran ==> r.next == 0 || IsRunning(s, r.id)
    {
      var j :| j in s.jobs && SameJob(cron, j, s.clock, r);
      assert IsCopy(s.issued, j);
      if r.schedule.At? && r.id in s.ran {
        assert IsPast(s, r.id);
      }
    }
  }

  lemma BeginTickKeepsInv(cron: CronTable, s: State)
    requires Inv(s) && CanStep(cron, s, BeginTick)
    ensures Inv(Next(cron, s, BeginTick))
  {
    DueMeaning(s.jobs, s.clock);
  }

  lemma TailUnique(jobs: seq<Job>)
    requires jobs != [] && UniqueIds(jobs)
    ensures UniqueIds(jobs[1..]) && forall d :: d in jobs[1..] ==> d in jobs && d.id != jobs[0].id
  {
  }

  lemma StartRunKeepsInv(cron: CronTable, s: State)
    requires Inv(s) && CanStep(cron, s, StartRun)
    ensures Inv(Next(cron, s, StartRun))
  {
    hide UniqueIds;
    var j := s.due[0];
    TailUnique(s.due);
    assert j in s.due && forall d :: d in s.due[1..] ==> d in s.due && d.id != j.id;
  }

  lemma RecordedMeaning(cron: CronTable, s: State, failed: bool)
    requires Inv(s) && s.running.Some?
    ensures var jobs2 := Recorded(cron, s.jobs, s.running.value, failed, s.clock);
            && UniqueIds(jobs2)
            && forall r :: r in jobs2 ==>
                 (r in s.jobs && r.id != s.running.value.id) || (r == AfterRun(cron, s.running.value, failed, s.clock))
  {
    hide Removed, Replaced, Inv, UniqueIds;
    var j := s.running.value;
    RemovedMeaning(s.jobs, j.id);
    ReplacedMeaning(s.jobs, AfterRun(cron, j, failed, s.clock));
    UniqueOf(s);
  }

  lemma FinishRunKeepsInv(cron: CronTable, s: State, failed: bool)
    requires Inv(s) && CanStep(cron, s, FinishRun(failed))
    ensures Inv(Next(cron, s, FinishRun(failed)))
  {
    hide Recorded, UniqueIds;
    RecordedMeaning(cron, s, failed);
    var r := AfterRun(cron, s.running.value, failed, s.clock);
    assert IsCopy(s.issued, s.running.value);
    assert r.schedule.At? ==> r.next == 0;
  }

  lemma AdvanceKeepsInv(cron: CronTable, s: State, to: int)
    requires Inv(s) && CanStep(cron, s, Advance(to))
    ensures Inv(Next(cron, s, Advance(to)))
  {
  }

  lemma AddKeepsInv(cron: CronTable, s: State, job: Job)
    requires Inv(s) && CanStep(cron, s, Add(job))
    ensures Inv(Next(cron, s, Add(job)))
  {
    var s2 := Next(cron, s, Add(job));
    assert forall j :: j in s.jobs || j in s.due || Some(j) == s.running ==> IsCopy(s2.issued, j);
    assert forall j :: j in s.jobs ==> j.id in s.issued;
  }

  lemma RemovedTouches(cron: CronTable, jobs: seq<Job>, id: string, now: int)
    ensures Touched(cron, jobs, now, Removed(jobs, id))
  {
    RemovedMeaning(jobs, id);
    forall r | r in Removed(jobs, id)
      ensures exists j :: j in jobs && SameJob(cron, j, now, r)
    {
      assert SameJob(cron, r, now, r);
    }
  }

  lemma {:induction false} StepKeepsInv(cron: CronTable, s: State, a: Step)
    requires Inv(s) && CanStep(cron, s, a)
    ensures Inv(Next(cron, s, a))
  {
    hide Inv, Touched, Enabled, Removed, Recompute, DueJobs, Recorded;
    match a
    case Advance(to) =>
      AdvanceKeepsInv(cron, s, to);
    case Add(job) =>
      AddKeepsInv(cron, s, job);
    case Enable(id, enabled) =>
      EnabledMeaning(cron, s.jobs, id, enabled, s.clock);
      EnabledTouches(cron, s.jobs, id, enabled, s.clock);
      UniqueOf(s);
      TouchedKeepsInv(cron, s, Enabled(cron, s.jobs, id, enabled, s.clock));
    case Remove(id) =>
      RemovedMeaning(s.jobs, id);
      RemovedTouches(cron, s.jobs, id, s.clock);
      UniqueOf(s);
      TouchedKeepsInv(cron, s, Removed(s.jobs, id));
    case Restart =>
      RecomputeKeepsInv(cron, s);
    case BeginTick =>
      BeginTickKeepsInv(cron, s);
    case StartRun =>
      StartRunKeepsInv(cron, s);
    case FinishRun(failed) =>
      FinishRunKeepsInv(cron, s, failed);
    case EndTick =>
      RecomputeKeepsInv(cron, s);
      EndTickKeepsInv(cron, s);
  }

  lemma UniqueOf(s: State)
    requires Inv(s)
    ensures UniqueIds(s.jobs)
  {
  }

  lemma EnabledTouches(cron: CronTable, jobs: seq<Job>, id: string, enabled: bool, now: int)
    ensures Touched(cron, jobs, now, Enabled(cron, jobs, id, enabled, now))
  {
    hide Enabled;
    EnabledMeaning(cron, jobs, id, enabled, now);
    forall r | r in Enabled(cron, jobs, id, enabled, now)
      ensures exists j :: j in jobs && SameJob(cron, j, now, r)
    {
      if r in jobs {
        assert SameJob(cron, r, now, r);
      } else {
        var j :| j in jobs && r == SetEnabled(cron, j, enabled, now);
        assert SameJob(cron, j, now, r);
      }
    }
  }

  lemma RecomputeKeepsInv(cron: CronTable, s: State)
    requires Inv(s)
    ensures Inv(s.(jobs := Recompute(cron, s.jobs, s.clock)))
  {
    hide Inv, Recompute;
    RecomputeMeaning(cron, s.jobs, s.clock);
    UniqueOf(s);
    forall r | r in Recompute(cron, s.jobs, s.clock)
      ensures exists j :: j in s.jobs && SameJob(cron, j, s.clock, r)
    {
      var j :| j in s.jobs && r == Rearmed(cron, j, s.clock);
      assert SameJob(cron, j, s.clock, r);
    }
    TouchedKeepsInv(cron, s, Recompute(cron, s.jobs, s.clock));
  }

  lemma EndTickKeepsInv(cron: CronTable, s: State)
    requires CanStep(cron, s, EndTick) && Inv(s.(jobs := Recompute(cron, s.jobs, s.clock)))
    ensures Inv(Next(cron, s, EndTick))
  {
    hide Recompute;
  }

  // ---------------------------------------------------------------- runs

  const START := State([], 0, false, [], None, map[], [])

  /** The state after some steps, each possible when it comes. */
  function RunSteps(cron: CronTable, steps: seq<Step>): Option<State> {
    if steps == [] then Some(START)
    else match RunSteps(cron, steps[..|steps| - 1])
      case None => None
      case Some(s) => if CanStep(cron, s, steps[|steps| - 1]) then Some(Next(cron, s, steps[|steps| - 1])) else None
  }

  /** One-shot jobs run at most once: in any interleaving of additions, enabling, disabling, removals and
      ticks, with a clock that does not run backwards, no id of an `at` job is started twice. */
  lemma {:induction false} AtMostOnce(cron: CronTable, steps: seq<Step>)
    requires RunSteps(cron, steps).Some?
    ensures Inv(RunSteps(cron, steps).value) && OnceEach(RunSteps(cron, steps).value)
  {
    if steps != [] {
      AtMostOnce(cron, steps[..|steps| - 1]);
      StepKeepsInv(cron, RunSteps(cron, steps[..|steps| - 1]).value, steps[|steps| - 1]);
      InvOnce(RunSteps(cron, steps).value);
    } else {
      assert Inv(START);
    }
  }

  lemma InvOnce(s: State)
    requires Inv(s)
    ensures OnceEach(s)
  {
  }

  /** After a tick every enabled job is armed for later or not armed. */
  lemma ArmedAfterTick(cron: CronTable, s: State, j: Job)
    requires IsSound(cron) && CanStep(cron, s, EndTick) && j in Next(cron, s, EndTick).jobs && j.enabled
    ensures j.next <= 0 || j.next > s.clock
  {
    RecomputeMeaning(cron, s.jobs, s.clock);
  }

  /** A tick collects every enabled job whose time has come, of any schedule ... */
  lemma DueIsCollected(cron: CronTable, s: State, j: Job)
    requires CanStep(cron, s, BeginTick)
    ensures j in Next(cron, s, BeginTick).due <==> j in s.jobs && j.enabled && 0 < j.next <= s.clock
  {
    hide DueJobs;
    DueMembers(s.jobs, s.clock);
  }

  /** The state after some steps from `s`, each possible when it comes. */
  function StepsFrom(cron: CronTable, s: State, steps: seq<Step>): Option<State> {
    if steps == [] then Some(s)
    else match StepsFrom(cron, s, steps[..|steps| - 1])
      case None => None
      case Some(t) => if CanStep(cron, t, steps[|steps| - 1]) then Some(Next(cron, t, steps[|steps| - 1])) else None
  }

  /** ... and starts it before it ends, whatever comes in between. */
  lemma {:induction false} CollectedIsStarted(cron: CronTable, s: State, steps: seq<Step>, j: Job)
    requires s.ticking && j in s.due && (forall a :: a in steps ==> !a.EndTick?)
    requires StepsFrom(cron, s, steps).Some?
    ensures var t := StepsFrom(cron, s, steps).value;
            && t.ticking && s.ran <= t.ran && (j in t.due || j.id in t.ran[|s.ran|..])
            && (CanStep(cron, t, EndTick) ==> j.id in t.ran[|s.ran|..])
  {
    hide Enabled, Removed, Recompute, DueJobs, Recorded;
    if steps != [] {
      var n := |steps| - 1;
      CollectedIsStarted(cron, s, steps[..n], j);
      assert steps[n] in steps;
      var t := StepsFrom(cron, s, steps[..n]).value;
      var t2 := Next(cron, t, steps[n]);
      if steps[n].StartRun? {
        assert t2.ran[|s.ran|..] == t.ran[|s.ran|..] + [t.due[0].id];
        assert t.due == [t.due[0]] + t.due[1..];
      }
    } else {
      assert s.ran <= s.ran;
    }
  }

  /** The one-shot job is past its time, not armed and not in the hands of a tick. */
  ghost predicate IsSpent(s: State, id: string) {
    && IsPast(s, id) && !IsRunning(s, id)
    && (forall d :: d in s.due ==> d.id != id)
    && (forall j :: j in s.jobs && j.id == id ==> j.next == 0)
  }

  /** A step leaves such a job spent and does not start it. */
  lemma {:induction false} SpentForever(cron: CronTable, s: State, a: Step, id: string)
    requires Inv(s) && IsSpent(s, id) && CanStep(cron, s, a)
    ensures IsSpent(Next(cron, s, a), id)
    ensures a.StartRun? ==> s.due[0].id != id
  {
    hide Removed, Replaced, Enabled, Recompute, UniqueIds, OnceEach;
    match a
    case Advance(to) =>
    case Add(job) =>
    case Enable(i, enabled) =>
      EnabledTouches(cron, s.jobs, i, enabled, s.clock);
      SpentTouched(cron, s, Enabled(cron, s.jobs, i, enabled, s.clock), id);
    case Remove(i) =>
      RemovedMeaning(s.jobs, i);
    case BeginTick =>
      DueMeaning(s.jobs, s.clock);
    case StartRun =>
      assert s.due[0] in s.due && forall d :: d in s.due[1..] ==> d in s.due;
    case FinishRun(failed) =>
      RemovedMeaning(s.jobs, s.running.value.id);
      ReplacedMeaning(s.jobs, AfterRun(cron, s.running.value, failed, s.clock));
    case _ =>
      SpentRecomputed(cron, s, id);
  }

  lemma SpentTouched(cron: CronTable, s: State, jobs2: seq<Job>, id: string)
    requires Inv(s) && IsSpent(s, id) && Touched(cron, s.jobs, s.clock, jobs2)
    ensures forall r :: r in jobs2 && r.id == id ==> r.next == 0
  {
    forall r | r in jobs2 && r.id == id
      ensures r.next == 0
    {
      var j :| j in s.jobs && SameJob(cron, j, s.clock, r);
      assert IsCopy(s.issued, j);
    }
  }

  lemma SpentRecomputed(cron: CronTable, s: State, id: string)
    requires Inv(s) && IsSpent(s, id)
    ensures forall r :: r in Recompute(cron, s.jobs, s.clock) && r.id == id ==> r.next == 0
  {
    RecomputeMeaning(cron, s.jobs, s.clock);
    forall r | r in Recompute(cron, s.jobs, s.clock) && r.id == id
      ensures r.next == 0
    {
      var j :| j in s.jobs && r == Rearmed(cron, j, s.clock);
      assert IsCopy(s.issued, j);
    }
  }

  /** A one-shot job is spent as soon as its run is recorded. */
  lemma RecordedIsSpent(cron: CronTable, s: State, id: string, failed: bool)
    requires Inv(s) && IsPast(s, id) && IsRunning(s, id)
    ensures IsSpent(Next(cron, s, FinishRun(failed)), id)
  {
    hide Recorded, UniqueIds, OnceEach;
    RecordedMeaning(cron, s, failed);
    assert s.running.value.id in s.ran;
  }

  /** At the end of a tick, and at a restart, an enabled one-shot job is spent exactly when its time has come;
      otherwise it is armed for its time. It does not matter whether it was ever started: this is how a job
      whose time passes while a tick is busy is lost. */
  lemma SpentWhenRearmed(cron: CronTable, s: State, a: Step, j: Job)
    requires Inv(s) && CanStep(cron, s, a) && (a.EndTick? || a.Restart?)
    requires j in s.jobs && j.enabled && j.schedule.At?
    ensures IsSpent(Next(cron, s, a), j.id) <==> j.schedule.atMs <= s.clock
    ensures j.schedule.atMs > s.clock ==> j.(next := j.schedule.atMs) in Next(cron, s, a).jobs
  {
    hide Recompute, OnceEach;
    RearmedAlone(cron, s, j);
  }

  lemma RearmedAlone(cron: CronTable, s: State, j: Job)
    requires Inv(s) && j in s.jobs
    ensures IsCopy(s.issued, j)
    ensures Rearmed(cron, j, s.clock) in Recompute(cron, s.jobs, s.clock)
    ensures forall r :: r in Recompute(cron, s.jobs, s.clock) && r.id == j.id ==> r == Rearmed(cron, j, s.clock)
  {
    hide Rearmed, OnceEach;
    var rs := Recompute(cron, s.jobs, s.clock);
    var i :| 0 <= i < |s.jobs| && s.jobs[i] == j;
    assert rs[i] in rs;
    forall r | r in rs && r.id == j.id
      ensures r == Rearmed(cron, j, s.clock)
    {
      var k :| 0 <= k < |rs| && rs[k] == r;
      RearmedSameId(cron, s.jobs[k], s.clock);
      assert s.jobs[k].id == j.id;
    }
  }

  lemma RearmedSameId(cron: CronTable, j: Job, now: int)
    ensures Rearmed(cron, j, now).id == j.id
  {
  }

  /** Once a one-shot job is spent, nothing that follows in any run makes a tick start it: not enabling it
      again, not a restart, not the passing of time. */
  lemma {:induction false} SpentNeverStarts(cron: CronTable, steps: seq<Step>, n: nat, id: string)
    requires n <= |steps| && RunSteps(cron, steps).Some?
    requires RunSteps(cron, steps[..n]).Some? && IsSpent(RunSteps(cron, steps[..n]).value, id)
    ensures var s, s2 := RunSteps(cron, steps[..n]).value, RunSteps(cron, steps).value;
            && IsSpent(s2, id) && s.ran <= s2.ran
            && forall k :: |s.ran| <= k < |s2.ran| ==> s2.ran[k] != id
  {
    hide Inv, IsSpent, CanStep;
    if n == |steps| {
      assert steps[..n] == steps;
    } else {
      var init := steps[..|steps| - 1];
      assert init[..n] == steps[..n];
      SpentNeverStarts(cron, init, n, id);
      AtMostOnce(cron, init);
      SpentForever(cron, RunSteps(cron, init).value, steps[|steps| - 1], id);
    }
  }

  /** It happens: a job for time 5 is added at time 0, a tick begins, other work keeps the tick busy until 7, and
      the job ends up enabled, never started, and spent. */
  lemma LostJob(cron: CronTable)
    ensures exists steps: seq<Step>, job: Job ::
              && RunSteps(cron, steps).Some?
              && var s := RunSteps(cron, steps).value;
                 && job in s.jobs && job.enabled && job.schedule.At? && 0 < job.schedule.atMs <= s.clock
                 && s.ran == [] && IsSpent(s, job.id)
  {
    hide RunSteps, CanStep, Next;
    var job := Job("a", "", true, At(5), false, 5, 0, 0, false);
    var steps := [] + [Add(job)] + [BeginTick] + [Advance(7)] + [EndTick];
    LostSteps(cron, job);
    var s := State([job.(next := 0)], 7, false, [], None, map[job.id := job.schedule], []);
    OneStep(cron, [], Add(job));
    OneStep(cron, [] + [Add(job)], BeginTick);
    OneStep(cron, [] + [Add(job)] + [BeginTick], Advance(7));
    OneStep(cron, [] + [Add(job)] + [BeginTick] + [Advance(7)], EndTick);
    assert RunSteps(cron, steps) == Some(s);
    assert s.jobs[0] in s.jobs;
  }

  /** The four steps, state by state. */
  lemma LostSteps(cron: CronTable, job: Job)
    requires job.enabled && job.schedule == At(5) && job.next == 5
    ensures RunSteps(cron, []) == Some(START)
    ensures var s1 := START.(jobs := [job], issued := map[job.id := At(5)]);
            var s2 := s1.(ticking := true);
            var s3 := s2.(clock := 7);
            && CanStep(cron, START, Add(job)) && Next(cron, START, Add(job)) == s1
            && CanStep(cron, s1, BeginTick) && Next(cron, s1, BeginTick) == s2
            && CanStep(cron, s2, Advance(7)) && Next(cron, s2, Advance(7)) == s3
            && CanStep(cron, s3, EndTick)
            && Next(cron, s3, EndTick) == s3.(ticking := false, jobs := [job.(next := 0)])
  {
    assert [job][..0] == [] && DueJobs([job], 0) == [];
    assert Recompute(cron, [job], 7) == [job.(next := 0)];
  }

  lemma OneStep(cron: CronTable, steps: seq<Step>, a: Step)
    requires RunSteps(cron, steps).Some? && CanStep(cron, RunSteps(cron, steps).value, a)
    ensures RunSteps(cron, steps + [a]) == Some(Next(cron, RunSteps(cron, steps).value, a))
  {
    hide CanStep, Next;
    assert (steps + [a])[..|steps|] == steps;
  }
}
