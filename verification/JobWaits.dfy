/** Waits for the job scheduler: which removals make them hang, and which of them can still return. */
module JobWaits {
  import opened JobScheduler
  import opened JobOverlap

  // ---------------------------------------------------------------- waits that never return

  /** The `notifyFinish` task of the wait was removed. */
  predicate Forsaken(s: State, e: nat) {
    e in s.waits && s.waits[e].Pushed? && s.waits[e].job in s.removed
  }

  /** The step sweeps the queue of a collection while the notification of the wait for it is queued. */
  predicate SweepsWait(s: State, step: Step, e: nat) {
    && e in s.waits && s.waits[e].Pushed? && IsQueued(s, s.waits[e].job) && s.waits[e].job < |s.jobs|
    && (step.RemoveIfWhen? || step.RemoveIf?) && step.call < |s.removals|
    && s.removals[step.call].collection == s.jobs[s.waits[e].job].collection
    && (step.RemoveIfWhen? ==> s.removals[step.call].collection != CurrentCollection(s))
  }

  lemma ForsakenStep(s: State, step: Step, e: nat)
    requires Inv(s) && Enabled(s, step)
    ensures Forsaken(Apply(s, step), e) <==> Forsaken(s, e) || SweepsWait(s, step, e)
  {
    assert WaitOk(s, e);
    if e in s.waits && s.waits[e].Pushed? {
      var job := s.waits[e].job;
      assert job in s.removed ==> IsGone(s, job);
      assert job in s.started ==> IsHeld(s, job) || IsGone(s, job);
      if step.RemoveIfWhen? || step.RemoveIf? { SweepMoves(s, s.removals[step.call].collection, job); }
    } else if step == PushNotify(e) {
      assert IsGone(s, |s.jobs|) <==> |s.jobs| in s.ended || |s.jobs| in s.removed;
    }
  }

  predicate RunSweepsWait(s: State, steps: seq<Step>, e: nat)
    requires IsRun(s, steps)
    decreases |steps|
  {
    steps != [] && (SweepsWait(s, steps[0], e) || RunSweepsWait(Apply(s, steps[0]), steps[1..], e))
  }

  /** A wait is forsaken exactly if some step of the run sweeps its collection while its notification is
      queued. */
  lemma {:induction false} ForsakenIff(s: State, steps: seq<Step>, e: nat)
    requires Inv(s) && IsRun(s, steps) && SerialRun(s, steps)
    ensures Forsaken(After(s, steps), e) <==> Forsaken(s, e) || RunSweepsWait(s, steps, e)
    decreases |steps|
  {
    hide Inv, Enabled, Apply, Serial, Forsaken, SweepsWait;
    if steps != [] {
      var t := Apply(s, steps[0]);
      StartsSerial(t, steps[1..]);
      StepKeeps(s, steps[0]);
      ForsakenStep(s, steps[0], e);
      ForsakenIff(t, steps[1..], e);
    }
  }

  /** Such a run: a wait for `c` begins while a task of another collection runs, then the tasks of `c` are
      removed. */
  lemma HangingWait(x: string, c: string) returns (s: State)
    requires x != c
    ensures Reached([] + [AddTask(x)] + [Pop(0)] + [AskWait(c)] + [PushNotify(1)] + [CallRemove(c)]
                    + [RemoveIfWhen(0)], s)
    ensures Forsaken(s, 1)
  {
    hide Reached;
    HangingStart(x);
    var run := [] + [AddTask(x)] + [Pop(0)];
    var p := [Worker(Popped, false)];
    var s2 := State([Job(x, 0)], [], Holds(0), p, [], 0, {}, map[], [], {}, {});
    var s3 := State([Job(x, 0)], [], Holds(0), p, [], 1, {}, map[1 := Asked(1, c)], [], {}, {});
    Reach(run, s2, AskWait(c), s3);
    s := HangingEnd(x, c, run + [AskWait(c)], s3);
  }

  lemma HangingStart(x: string)
    ensures Reached([] + [AddTask(x)] + [Pop(0)],
                    State([Job(x, 0)], [], Holds(0), [Worker(Popped, false)], [], 0, {}, map[], [], {}, {}))
  {
    hide Reached;
    ReachStart();
    var s1 := State([Job(x, 0)], [0], Empty, [Worker(Popping, false)], [], 0, {}, map[], [], {}, {});
    Reach([], START, AddTask(x), s1);
    Reach([] + [AddTask(x)], s1, Pop(0),
      State([Job(x, 0)], [], Holds(0), [Worker(Popped, false)], [], 0, {}, map[], [], {}, {}));
  }

  lemma HangingEnd(x: string, c: string, run: seq<Step>, s: State) returns (t: State)
    requires x != c && Reached(run, s)
    requires s == State([Job(x, 0)], [], Holds(0), [Worker(Popped, false)], [], 1, {}, map[1 := Asked(1, c)], [], {},
             {})
    ensures Reached(run + [PushNotify(1)] + [CallRemove(c)] + [RemoveIfWhen(0)], t) && Forsaken(t, 1)
  {
    hide Reached;
    var jobs, p, waits := [Job(x, 0), Job(c, 1)], [Worker(Popped, false)], map[1 := Pushed(1, 1)];
    var s1 := State(jobs, [1], Holds(0), p, [], 1, {}, waits, [], {}, {});
    Reach(run, s, PushNotify(1), s1);
    var s2 := State(jobs, [1], Holds(0), p, [Removal(c, 2, Called)], 1, {}, waits, [], {}, {});
    Reach(run + [PushNotify(1)], s1, CallRemove(c), s2);
    t := State(jobs, [], Holds(0), p, [Removal(c, 2, Finished)], 1, {}, waits, [], {}, {1});
    assert Without([1][1..], jobs, c) == [];
    assert Without([1], jobs, c) == [];
    Reach(run + [PushNotify(1)] + [CallRemove(c)], s2, RemoveIfWhen(0), t);
  }

  // ---------------------------------------------------------------- waits that can return

  ghost predicate IsPending(s: State, e: nat) {
    e in s.waits && s.waits[e].Pushed? && s.waits[e].job < |s.jobs|
  }

  /** A call has interrupted the worker and has yet to sweep collection `c`. */
  ghost predicate SweepAhead(s: State, c: string) {
    exists r :: 0 <= r < |s.removals| && s.removals[r].collection == c && IsBeforeSweep(s.removals[r].stage)
  }

  predicate IsBeforeSweep(stage: Stage) {
    stage.Closed? || stage.Joining? || stage.Sweeping?
  }

  /** A task queued before `job` that no call can take away by itself: removing its collection would
      sweep `c` or count as a removal of the running task. */
  predicate Blocks(s: State, x: nat, job: nat, c: string) {
    && IsQueued(s, x) && x < job && x < |s.jobs|
    && (s.jobs[x].collection == c || s.jobs[x].collection == CurrentCollection(s))
  }

  ghost predicate Blocked(s: State, job: nat, c: string) {
    exists x: nat :: Blocks(s, x, job, c)
  }

  /** The notification is queued and will be swept before the worker can come to it: the worker is going
      down, and it is past its last `pop`, or that will give it another task for certain. */
  ghost predicate Doomed(s: State, e: nat) {
    && IsPending(s, e) && IsQueued(s, s.waits[e].job)
    && var job, c := s.waits[e].job, s.jobs[s.waits[e].job].collection;
       SweepAhead(s, c) && (Hand(s).phase.Popping? ==> Blocked(s, job, c))
  }

  ghost predicate Hopeful(s: State, e: nat) {
    IsPending(s, e) && !Forsaken(s, e) && !Doomed(s, e)
  }

  /** The notification of a hopeful wait is queued or in hand until the event is raised. */
  lemma HopefulHas(s: State, e: nat)
    requires Inv(s) && Hopeful(s, e) && e !in s.events
    ensures IsQueued(s, s.waits[e].job) || IsHeld(s, s.waits[e].job)
    ensures Hand(s).phase.Popping? || Hand(s).phase.Stopped? ==> IsQueued(s, s.waits[e].job) && s.queue != []
  {
    assert WaitOk(s, e);
  }

  /** A step of the worker that keeps a hopeful wait hopeful. */
  lemma WorkerHopeful(s: State, step: Step, e: nat)
    requires Inv(s) && Hopeful(s, e) && Enabled(s, step) && IsWorkerStep(step)
    requires !step.Abort? && !step.PopInterrupted?
    requires step.Pop? ==> !SweepAhead(s, s.jobs[s.waits[e].job].collection) || s.queue[0] == s.waits[e].job
    ensures Serial(Apply(s, step)) && Hopeful(Apply(s, step), e)
  {
    TheWorker(s, step);
    ForsakenStep(s, step, e);
    var t := Apply(s, step);
    assert t.removals == s.removals && t.waits == s.waits && t.jobs == s.jobs;
    var c := s.jobs[s.waits[e].job].collection;
    assert SweepAhead(t, c) == SweepAhead(s, c);
    if step.Pop? {
      PopFates(s, t);
    }
  }

  /** What the worker does next. */
  function GoOn(s: State): Step
    requires OneAlive(s) && !Hand(s).phase.Stopped? && (Hand(s).phase.Popping? ==> s.queue != [])
  {
    var w := |s.workers| - 1;
    match Hand(s).phase
    case Popping => Pop(w)
    case Popped => Begin(w)
    case Running(job) => if s.jobs[job].notify > 0 && s.jobs[job].notify !in s.events then Notify(w) else Finish(w)
    case _ => Point(w)
  }

  lemma GoOnStep(s: State)
    requires Inv(s) && !Hand(s).phase.Stopped? && (Hand(s).phase.Popping? ==> s.queue != [])
    ensures Enabled(s, GoOn(s)) && IsWorkerStep(GoOn(s)) && !GoOn(s).Abort? && !GoOn(s).PopInterrupted?
    ensures Apply(s, GoOn(s)).queue == if Hand(s).phase.Popping? then s.queue[1..] else s.queue
    ensures !Hand(s).phase.Popping? ==> GoRank(Apply(s, GoOn(s))) < GoRank(s)
  {
  }

  function GoRank(s: State): nat {
    match Hand(s).phase
    case Popped => 5
    case Running(job) => if job < |s.jobs| && s.jobs[job].notify > 0 && s.jobs[job].notify !in s.events then 4 else 3
    case AtPoint => 2
    case Stopped => 1
    case Popping => 0
  }

  lemma {:induction false} WithoutShrinks(queue: seq<nat>, jobs: seq<Job>, c: string)
    ensures |Without(queue, jobs, c)| <= |queue|
    decreases |queue|
  {
    if queue != [] { WithoutShrinks(queue[1..], jobs, c); }
  }

  lemma ProceedEnabled(s: State, r: nat)
    requires Inv(s) && Hand(s).phase.Stopped?
    requires r < |s.removals| && IsDown(s.removals[r].stage) && !s.removals[r].stage.Restarting?
    ensures Enabled(s, Proceed(s, r)) && Serial(Apply(s, Proceed(s, r)))
    ensures var t := Apply(s, Proceed(s, r));
            && t.workers == s.workers && t.events == s.events && t.waits == s.waits && t.jobs == s.jobs
            && |t.queue| <= |s.queue| && |t.removals| == |s.removals|
            && (forall q | 0 <= q < |s.removals| :: t.removals[q].collection == s.removals[q].collection)
            && (forall q | 0 <= q < |s.removals| && q != r :: t.removals[q] == s.removals[q])
            && IsDown(t.removals[r].stage) && StageRank(t.removals[r].stage) < StageRank(s.removals[r].stage)
  {
    assert RemovalOk(s, r);
    WithoutShrinks(s.queue, s.jobs, s.removals[r].collection);
    hide Fates, InOrder, Events, RemovalOk;
  }

  /** The call that has the worker down, up to the start of another one: it is not about to sweep the
      notification away. */
  lemma CallHopeful(s: State, r: nat, e: nat)
    requires Inv(s) && Hopeful(s, e) && e !in s.events && Hand(s).phase.Stopped?
    requires r < |s.removals| && IsDown(s.removals[r].stage) && !s.removals[r].stage.Restarting?
    ensures Enabled(s, Proceed(s, r)) && Hopeful(Apply(s, Proceed(s, r)), e)
  {
    ProceedEnabled(s, r);
    HopefulHas(s, e);
    var t, c := Apply(s, Proceed(s, r)), s.jobs[s.waits[e].job].collection;
    assert !SweepAhead(s, c);
    assert s.removals[r].collection != c;
    ForsakenStep(s, Proceed(s, r), e);
    hide Inv, Apply, Enabled;
    assert !SweepAhead(t, c) by {
      forall q | 0 <= q < |t.removals| && t.removals[q].collection == c ensures !IsBeforeSweep(t.removals[q].stage) {
        assert q != r;
      }
    }
  }

  /** A new worker: nothing stands in the way of the wait any more. */
  lemma RestartHopeful(s: State, r: nat, e: nat)
    requires Inv(s) && Hopeful(s, e) && Enabled(s, Restart(r))
    ensures var t := Apply(s, Restart(r));
            && Serial(t) && Hopeful(t, e) && t.queue == s.queue && t.events == s.events && Hand(t).phase.Popping?
  {
    var t := Apply(s, Restart(r));
    ForsakenStep(s, Restart(r), e);
    var c := s.jobs[s.waits[e].job].collection;
    forall q | 0 <= q < |t.removals| ensures !IsBeforeSweep(t.removals[q].stage) {
      assert q < r ==> !(IsPast(s.removals[q].stage) && IsPast(s.removals[r].stage));
      assert r < q ==> !(IsPast(s.removals[r].stage) && IsPast(s.removals[q].stage));
    }
    assert !SweepAhead(t, c);
  }

  /** A removal that has the worker down can be carried through without harm to a hopeful wait. */
  lemma {:induction false} BringUp(s: State, r: nat, e: nat) returns (steps: seq<Step>)
    requires Inv(s) && Hopeful(s, e) && e !in s.events && Hand(s).phase.Stopped?
    requires r < |s.removals| && IsDown(s.removals[r].stage)
    ensures IsRun(s, steps) && SerialRun(s, steps)
    ensures var t := After(s, steps);
            Inv(t) && Hopeful(t, e) && |t.queue| <= |s.queue| && t.events == s.events && Hand(t).phase.Popping?
    decreases StageRank(s.removals[r].stage)
  {
    if s.removals[r].stage.Restarting? {
      RestartHopeful(s, r, e);
      StepKeeps(s, Restart(r));
      RunOne(s, Restart(r));
      steps := [Restart(r)];
    } else {
      ProceedEnabled(s, r);
      CallHopeful(s, r, e);
      var step := Proceed(s, r);
      var t := Apply(s, step);
      StepKeeps(s, step);
      assert Serial(s);
      hide Inv, Enabled, Apply, Serial, Hopeful, Proceed;
      var rest := BringUp(t, r, e);
      steps := [step] + rest;
      RunCons(s, step, rest);
    }
  }

  lemma WithoutHead(queue: seq<nat>, jobs: seq<Job>, c: string)
    requires queue != [] && queue[0] < |jobs| && jobs[queue[0]].collection == c
    ensures |Without(queue, jobs, c)| < |queue|
  {
    WithoutShrinks(queue[1..], jobs, c);
  }

  /** The worker is going down and another task is first in the queue: removing that one's collection
      brings the notification nearer. */
  lemma ClearAhead(s: State, e: nat) returns (steps: seq<Step>)
    requires Inv(s) && Hopeful(s, e) && Hand(s).phase.Popping? && s.queue != [] && IsQueued(s, s.waits[e].job)
    requires SweepAhead(s, s.jobs[s.waits[e].job].collection) && s.queue[0] != s.waits[e].job
    ensures IsRun(s, steps) && SerialRun(s, steps) && Inv(After(s, steps)) && Hopeful(After(s, steps), e)
    ensures |After(s, steps).queue| < |s.queue|
  {
    var x, job := s.queue[0], s.waits[e].job;
    HeadIsFirst(s, job);
    var d, r := s.jobs[x].collection, |s.removals|;
    assert !Blocks(s, x, job, s.jobs[job].collection);
    var t := Apply(s, CallRemove(d));
    CallAdded(s, d, e);
    StepKeeps(s, CallRemove(d));
    WithoutHead(s.queue, s.jobs, d);
    AheadRemoved(t, r, e);
    var u := Apply(t, RemoveIfWhen(r));
    StepKeeps(t, RemoveIfWhen(r));
    assert Serial(s) && Serial(t) && Serial(u);
    RunOne(t, RemoveIfWhen(r));
    RunCons(s, CallRemove(d), [RemoveIfWhen(r)]);
    steps := [CallRemove(d)] + [RemoveIfWhen(r)];
    hide Apply, Enabled, Inv, Hopeful;
  }

  lemma HeadIsFirst(s: State, job: nat)
    requires Inv(s) && IsQueued(s, job) && s.queue[0] != job
    ensures s.queue[0] < job && s.queue[0] < |s.jobs| && IsQueued(s, s.queue[0])
  {
    assert IsQueued(s, s.queue[0]);
  }

  lemma CallAdded(s: State, d: string, e: nat)
    requires Inv(s) && Hopeful(s, e) && Hand(s).phase.Popping?
    ensures var t := Apply(s, CallRemove(d));
            && Serial(t) && Hopeful(t, e) && t.queue == s.queue && t.jobs == s.jobs && t.waits == s.waits
            && t.workers == s.workers && t.current == s.current
            && t.removals == s.removals + [Removal(d, |s.jobs|, Called)]
  {
    var t := Apply(s, CallRemove(d));
    var job := s.waits[e].job;
    var c := s.jobs[job].collection;
    assert SweepAhead(t, c) ==> SweepAhead(s, c);
    assert Blocked(t, job, c) ==> Blocked(s, job, c) by {
      if x: nat :| Blocks(t, x, job, c) { assert Blocks(s, x, job, c); }
    }
  }

  /** A removal of another collection than those of the slot and of the wait. */
  lemma AheadRemoved(s: State, r: nat, e: nat)
    requires Inv(s) && Hopeful(s, e) && Hand(s).phase.Popping? && AtStage(s, r, Called)
    requires s.removals[r].collection != CurrentCollection(s)
    requires s.removals[r].collection != s.jobs[s.waits[e].job].collection
    ensures var t := Apply(s, RemoveIfWhen(r)); Serial(t) && Hopeful(t, e)
  {
    var t := Apply(s, RemoveIfWhen(r));
    var job := s.waits[e].job;
    var c := s.jobs[job].collection;
    ForsakenStep(s, RemoveIfWhen(r), e);
    assert SweepAhead(t, c) ==> SweepAhead(s, c) by {
      if q :| 0 <= q < |t.removals| && t.removals[q].collection == c && IsBeforeSweep(t.removals[q].stage) {
        assert q != r;
      }
    }
    SweepMoves(s, s.removals[r].collection, job);
    assert Blocked(t, job, c) ==> Blocked(s, job, c) by {
      if x: nat :| Blocks(t, x, job, c) {
        SweepMoves(s, s.removals[r].collection, x);
        assert Blocks(s, x, job, c);
      }
    }
  }

  /** A wait that is neither forsaken nor doomed can still return. */
  lemma {:induction false} CanReturn(s: State, e: nat) returns (steps: seq<Step>)
    requires Inv(s) && Hopeful(s, e)
    ensures IsRun(s, steps) && SerialRun(s, steps)
    ensures e in After(s, steps).waits && After(s, steps).waits[e].Returned?
    decreases |s.queue|, GoRank(s)
  {
    if e in s.events {
      assert Serial(s);
      RunOne(s, ReturnWait(e));
      return [ReturnWait(e)];
    }
    HopefulHas(s, e);
    var first;
    if Hand(s).phase.Stopped? {
      var r :| 0 <= r < |s.removals| && IsDown(s.removals[r].stage);
      first := BringUp(s, r, e);
    } else if Hand(s).phase.Popping? && SweepAhead(s, s.jobs[s.waits[e].job].collection)
      && s.queue[0] != s.waits[e].job {
      first := ClearAhead(s, e);
    } else {
      first := GoOnce(s, e);
    }
    var t := After(s, first);
    hide Inv, Hopeful, IsRun, SerialRun, After;
    var rest := CanReturn(t, e);
    steps := first + rest;
    RunAppend(s, first, rest);
  }

  lemma GoOnce(s: State, e: nat) returns (steps: seq<Step>)
    requires Inv(s) && Hopeful(s, e) && !Hand(s).phase.Stopped? && (Hand(s).phase.Popping? ==> s.queue != [])
    requires Hand(s).phase.Popping?
            ==> !SweepAhead(s, s.jobs[s.waits[e].job].collection) || s.queue[0] == s.waits[e].job
    ensures IsRun(s, steps) && SerialRun(s, steps) && Inv(After(s, steps)) && Hopeful(After(s, steps), e)
    ensures var t := After(s, steps); |t.queue| < |s.queue| || (|t.queue| == |s.queue| && GoRank(t) < GoRank(s))
  {
    var step := GoOn(s);
    GoOnStep(s);
    WorkerHopeful(s, step, e);
    StepKeeps(s, step);
    assert Serial(s);
    RunOne(s, step);
    steps := [step];
    hide Enabled, Apply, GoOn, Inv, Hopeful;
  }

  // ---------------------------------------------------------------- and waits that cannot

  /** A doomed wait stays so until it is forsaken. */
  lemma DoomedStep(s: State, step: Step, e: nat)
    requires Inv(s) && Doomed(s, e) && Enabled(s, step) && Serial(Apply(s, step)) && !SweepsWait(s, step, e)
    ensures Doomed(Apply(s, step), e)
  {
    var t := Apply(s, step);
    var job := s.waits[e].job;
    var c := s.jobs[job].collection;
    DoomedPending(s, step, e);
    AheadStays(s, step, job, c);
    if Hand(t).phase.Popping? {
      PoppingBefore(s, step, c);
      var x: nat :| Blocks(s, x, job, c);
      BlockStays(s, step, x, job, c);
    }
  }

  lemma DoomedPending(s: State, step: Step, e: nat)
    requires Inv(s) && Doomed(s, e) && Enabled(s, step) && !SweepsWait(s, step, e)
    ensures var t := Apply(s, step);
            && IsPending(t, e) && t.waits[e] == s.waits[e] && IsQueued(t, s.waits[e].job)
            && t.jobs[s.waits[e].job] == s.jobs[s.waits[e].job]
  {
    var job := s.waits[e].job;
    assert WaitOk(s, e);
    assert IsQueued(s, job) && !IsHeld(s, job) && !IsGone(s, job);
    if step.RemoveIfWhen? || step.RemoveIf? { SweepMoves(s, s.removals[step.call].collection, job); }
    if step.Pop? {
      TheWorker(s, step);
      assert s.queue == [s.queue[0]] + s.queue[1..];
      var x: nat :| Blocks(s, x, job, s.jobs[job].collection);
      assert s.queue[0] <= x;
    }
  }

  /** A call stays ahead of its sweep until it sweeps. */
  lemma AheadStays(s: State, step: Step, job: nat, c: string)
    requires Inv(s) && SweepAhead(s, c) && Enabled(s, step)
    requires step.RemoveIf? ==> s.removals[step.call].collection != c
    ensures SweepAhead(Apply(s, step), c)
  {
    var t := Apply(s, step);
    var r :| 0 <= r < |s.removals| && s.removals[r].collection == c && IsBeforeSweep(s.removals[r].stage);
    assert t.removals[r].collection == c && IsBeforeSweep(t.removals[r].stage);
  }

  lemma OnlyPast(s: State, q: nat, r: nat)
    requires Serial(s) && q < |s.removals| && r < |s.removals| && q != r && IsPast(s.removals[q].stage)
    ensures !IsPast(s.removals[r].stage)
  {
    if q < r { assert !(IsPast(s.removals[q].stage) && IsPast(s.removals[r].stage)); }
  }

  /** A worker going down does not come back to `pop`. */
  lemma PoppingBefore(s: State, step: Step, c: string)
    requires Inv(s) && SweepAhead(s, c) && Enabled(s, step) && Serial(Apply(s, step))
            && Hand(Apply(s, step)).phase.Popping?
    ensures Hand(s).phase.Popping? && !IsWorkerStep(step) && Apply(s, step).current == s.current
  {
    var r :| 0 <= r < |s.removals| && s.removals[r].collection == c && IsBeforeSweep(s.removals[r].stage);
    assert RemovalOk(s, r);
    if IsWorkerStep(step) { TheWorker(s, step); }
    if step.Restart? { OnlyPast(s, step.call, r); }
  }

  lemma BlockStays(s: State, step: Step, x: nat, job: nat, c: string)
    requires Inv(s) && Enabled(s, step) && Serial(Apply(s, step)) && Blocks(s, x, job, c) && SweepAhead(s, c)
    requires !IsWorkerStep(step) && Apply(s, step).current == s.current
    requires (step.RemoveIf? || step.RemoveIfWhen?) && s.removals[step.call].collection == c ==>
               step.RemoveIfWhen? && CurrentCollection(s) == c
    ensures Blocks(Apply(s, step), x, job, c)
  {
    if step.RemoveIfWhen? || step.RemoveIf? { SweepMoves(s, s.removals[step.call].collection, x); }
  }

  /** A wait that is doomed or forsaken never returns, whatever follows. */
  lemma {:induction false} LostForever(s: State, steps: seq<Step>, e: nat)
    requires Inv(s) && (Doomed(s, e) || Forsaken(s, e)) && IsRun(s, steps) && SerialRun(s, steps)
    ensures e in After(s, steps).waits && !After(s, steps).waits[e].Returned?
    decreases |steps|
  {
    hide Inv, Enabled, Apply, Serial, SweepsWait;
    if steps != [] {
      var t := Apply(s, steps[0]);
      StartsSerial(t, steps[1..]);
      StepKeeps(s, steps[0]);
      ForsakenStep(s, steps[0], e);
      if !Forsaken(s, e) && !SweepsWait(s, steps[0], e) { DoomedStep(s, steps[0], e); }
      hide Doomed, Forsaken;
      LostForever(t, steps[1..], e);
    }
  }

  /** A pending wait can return in some serial continuation exactly if its notification has not been
      removed and is not about to be for certain. */
  lemma ReturnsIff(s: State, e: nat)
    requires Inv(s) && IsPending(s, e)
    ensures (exists steps :: Returns(s, steps, e)) <==> !Forsaken(s, e) && !Doomed(s, e)
  {
    if !Forsaken(s, e) && !Doomed(s, e) {
      var steps := CanReturn(s, e);
      assert Returns(s, steps, e);
    } else {
      forall steps ensures !Returns(s, steps, e) {
        if IsRun(s, steps) && SerialRun(s, steps) { LostForever(s, steps, e); }
      }
    }
  }

  ghost predicate Returns(s: State, steps: seq<Step>, e: nat) {
    IsRun(s, steps) && SerialRun(s, steps) && e in After(s, steps).waits && After(s, steps).waits[e].Returned?
  }
}
