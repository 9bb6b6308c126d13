/** Two removals of tasks that replace the worker of the job scheduler at once: what can follow, and a run
    that gets there. */
module JobOverlap {
  import opened Orders
  import opened JobScheduler

  // ---------------------------------------------------------------- two removals at once

  predicate NumbersOk(s: State) {
    forall j | 0 <= j < |s.queue| :: s.queue[j] < |s.jobs|
  }

  /** A call that replaces the worker, while the worker it found is still the last one. */
  predicate Replacing(s: State, r: nat) {
    && r < |s.removals| && IsPast(s.removals[r].stage)
    && (s.removals[r].stage.Joining? ==> s.removals[r].stage.worker == |s.workers| - 1)
    && (s.removals[r].stage.Closed? || s.removals[r].stage.Joining? ==> Hand(s).interrupted)
    && (s.removals[r].stage.Sweeping? || s.removals[r].stage.Restarting? ==> Hand(s).phase.Stopped?)
  }

  ghost predicate Overlapping(s: State, q: nat, r: nat) {
    q != r && OneAlive(s) && NumbersOk(s) && Replacing(s, q) && Replacing(s, r)
  }

  function StageRank(stage: Stage): nat {
    match stage
    case Closing => 5
    case Closed => 4
    case Joining(_) => 3
    case Sweeping => 2
    case Restarting => 1
    case _ => 0
  }

  function PhaseRank(s: State): nat {
    match Hand(s).phase
    case Popping => 6
    case Popped => 5
    case Running(job) => if job < |s.jobs| && s.jobs[job].notify > 0 && s.jobs[job].notify !in s.events then 4 else 3
    case AtPoint => 2
    case Stopped => 0
  }

  /** What the worker, marked to stop, does next. */
  function WindDown(s: State): Step
    requires OneAlive(s) && !Hand(s).phase.Stopped?
  {
    var w := |s.workers| - 1;
    match Hand(s).phase
    case Popping => if s.queue == [] then PopInterrupted(w) else Pop(w)
    case Popped => Begin(w)
    case Running(job) => if s.jobs[job].notify > 0 && s.jobs[job].notify !in s.events then Notify(w) else Finish(w)
    case _ => Point(w)
  }

  lemma WindDownStep(s: State, q: nat, r: nat)
    requires Overlapping(s, q, r) && Hand(s).interrupted && !Hand(s).phase.Stopped?
    ensures Enabled(s, WindDown(s)) && Overlapping(Apply(s, WindDown(s)), q, r)
    ensures PhaseRank(Apply(s, WindDown(s))) < PhaseRank(s) && Apply(s, WindDown(s)).removals == s.removals
  {
    WindDownEnabled(s);
    TheWorker(s, WindDown(s));
    WorkerAlive(s, WindDown(s));
    hide OneAlive;
  }

  lemma WindDownEnabled(s: State)
    requires OneAlive(s) && NumbersOk(s) && !Hand(s).phase.Stopped? && Hand(s).interrupted
    ensures Enabled(s, WindDown(s)) && IsWorkerStep(WindDown(s)) && (WindDown(s).Pop? ==> s.queue[0] < |s.jobs|)
  {
  }

  /** What a call that is behind the check does next, short of starting another worker. */
  function Proceed(s: State, r: nat): Step
    requires r < |s.removals|
  {
    match s.removals[r].stage
    case Closing => Interrupt(r)
    case Closed => BeginJoin(r)
    case Joining(_) => Join(r)
    case _ => RemoveIf(r)
  }

  /** The step is one of the call `r` that keeps the two calls overlapping. */
  ghost predicate Proceeds(s: State, t: State, q: nat, r: nat) {
    && Overlapping(t, q, r) && Overlapping(t, r, q) && q < |s.removals| && r < |s.removals|
    && t.removals[q] == s.removals[q] && StageRank(t.removals[r].stage) < StageRank(s.removals[r].stage)
  }

  lemma ProceedSweep(s: State, q: nat, r: nat)
    requires (Overlapping(s, q, r) || Overlapping(s, r, q)) && s.removals[r].stage.Sweeping?
    ensures Enabled(s, RemoveIf(r)) && Proceeds(s, Apply(s, RemoveIf(r)), q, r)
  {
    SweepNumbers(s, s.removals[r].collection);
  }

  lemma ProceedClose(s: State, q: nat, r: nat)
    requires (Overlapping(s, q, r) || Overlapping(s, r, q))
    requires s.removals[r].stage.Closing? || s.removals[r].stage.Closed?
    ensures Enabled(s, Proceed(s, r)) && Proceeds(s, Apply(s, Proceed(s, r)), q, r)
  {
  }

  lemma ProceedJoin(s: State, q: nat, r: nat)
    requires (Overlapping(s, q, r) || Overlapping(s, r, q)) && s.removals[r].stage.Joining? && Hand(s).phase.Stopped?
    ensures Enabled(s, Join(r)) && Proceeds(s, Apply(s, Join(r)), q, r)
  {
  }

  lemma ProceedStep(s: State, q: nat, r: nat)
    requires (Overlapping(s, q, r) || Overlapping(s, r, q)) && !s.removals[r].stage.Restarting?
    requires s.removals[r].stage.Joining? ==> Hand(s).phase.Stopped?
    ensures Enabled(s, Proceed(s, r)) && Proceeds(s, Apply(s, Proceed(s, r)), q, r)
  {
    if s.removals[r].stage.Sweeping? {
      ProceedSweep(s, q, r);
    } else if s.removals[r].stage.Joining? {
      ProceedJoin(s, q, r);
    } else {
      ProceedClose(s, q, r);
    }
    hide Proceeds, Apply, Enabled, OneAlive;
  }

  lemma SweepNumbers(s: State, c: string)
    requires NumbersOk(s)
    ensures NumbersOk(Sweep(s, c))
  {
    var rest := Sweep(s, c).queue;
    forall j | 0 <= j < |rest| ensures rest[j] < |s.jobs| {
      WithoutIs(s.queue, s.jobs, c, rest[j]);
      assert rest[j] in s.queue;
    }
  }

  /** Two calls behind the check can both come to where they start another worker. */
  lemma {:induction false} BothRestarting(s: State, q: nat, r: nat) returns (steps: seq<Step>)
    requires Overlapping(s, q, r)
    ensures IsRun(s, steps) && Overlapping(After(s, steps), q, r)
    ensures After(s, steps).removals[q].stage.Restarting? && After(s, steps).removals[r].stage.Restarting?
    decreases StageRank(s.removals[q].stage) + StageRank(s.removals[r].stage), PhaseRank(s)
  {
    var a, b := s.removals[q].stage, s.removals[r].stage;
    var step;
    if a.Restarting? && b.Restarting? {
      return [];
    } else if !a.Restarting? && (a.Joining? ==> Hand(s).phase.Stopped?) {
      step := Proceed(s, q);
      ProceedStep(s, r, q);
    } else if !b.Restarting? && (b.Joining? ==> Hand(s).phase.Stopped?) {
      step := Proceed(s, r);
      ProceedStep(s, q, r);
    } else {
      step := WindDown(s);
      WindDownStep(s, q, r);
    }
    hide Enabled, Apply, Proceed, WindDown, IsPast;
    var rest := BothRestarting(Apply(s, step), q, r);
    steps := [step] + rest;
    RunCons(s, step, rest);
  }

  /** Then there are two workers. */
  lemma TwoWorkers(s: State, q: nat, r: nat)
    requires Overlapping(s, q, r) && s.removals[q].stage.Restarting? && s.removals[r].stage.Restarting?
    ensures IsRun(s, [Restart(q), Restart(r)])
    ensures var t := After(s, [Restart(q), Restart(r)]);
            && |t.workers| >= 2 && NumbersOk(t)
            && InPhase(t, |t.workers| - 2, Popping) && InPhase(t, |t.workers| - 1, Popping)
  {
    var t := Apply(s, Restart(q));
    assert Enabled(t, Restart(r));
    var u := Apply(t, Restart(r));
    RunOne(t, Restart(r));
    RunCons(s, Restart(q), [Restart(r)]);
    assert [Restart(q)] + [Restart(r)] == [Restart(q), Restart(r)];
    assert After(t, [Restart(r)]) == u;
  }

  lemma RunOne(s: State, step: Step)
    requires Enabled(s, step)
    ensures IsRun(s, [step]) && After(s, [step]) == Apply(s, step)
    ensures Serial(s) && Serial(Apply(s, step)) ==> SerialRun(s, [step])
  {
    hide Enabled, Apply, Serial;
    assert [step][1..] == [];
  }

  /** Two workers share the slot: both pop before either runs its task, and both run the second one. */
  lemma SharedSlot(s: State, v: nat, w: nat) returns (job: nat)
    requires v != w && InPhase(s, v, Popping) && InPhase(s, w, Popping)
    ensures IsRun(s, [AddTask(""), AddTask(""), Pop(v), Pop(w), Begin(v), Begin(w)])
    ensures After(s, [AddTask(""), AddTask(""), Pop(v), Pop(w), Begin(v), Begin(w)]).started == s.started + [job, job]
  {
    var a := Apply(s, AddTask(""));
    var b := Apply(a, AddTask(""));
    assert |b.queue| >= 2 && b.started == s.started && b.workers == s.workers;
    job := BothPop(b, v, w);
    hide Enabled, Apply, InPhase;
    RunTwo(a, AddTask(""), b, [Pop(v), Pop(w), Begin(v), Begin(w)]);
    RunTwo(s, AddTask(""), a, [AddTask(""), Pop(v), Pop(w), Begin(v), Begin(w)]);
  }

  lemma BothPop(b: State, v: nat, w: nat) returns (job: nat)
    requires v != w && InPhase(b, v, Popping) && InPhase(b, w, Popping) && |b.queue| >= 2
    ensures IsRun(b, [Pop(v), Pop(w), Begin(v), Begin(w)])
    ensures After(b, [Pop(v), Pop(w), Begin(v), Begin(w)]).started == b.started + [job, job]
  {
    job := b.queue[1];
    var c := Apply(b, Pop(v));
    assert InPhase(c, w, Popping) && c.queue[0] == job;
    var d := Apply(c, Pop(w));
    assert InPhase(d, v, Popped) && InPhase(d, w, Popped) && d.current == Holds(job) && d.started == b.started;
    BothBegin(d, v, w, job);
    hide Enabled, Apply, InPhase;
    RunTwo(c, Pop(w), d, [Begin(v), Begin(w)]);
    RunTwo(b, Pop(v), c, [Pop(w), Begin(v), Begin(w)]);
  }

  lemma BothBegin(d: State, v: nat, w: nat, job: nat)
    requires v != w && InPhase(d, v, Popped) && InPhase(d, w, Popped) && d.current == Holds(job)
    ensures IsRun(d, [Begin(v), Begin(w)])
    ensures After(d, [Begin(v), Begin(w)]).started == d.started + [job, job]
  {
    var e := Apply(d, Begin(v));
    assert InPhase(e, w, Popped) && e.current == Holds(job) && e.started == d.started + [job];
    var f := Apply(e, Begin(w));
    assert f.started == d.started + [job, job];
    RunOne(e, Begin(w));
    hide Enabled, Apply, InPhase;
    RunTwo(d, Begin(v), e, [Begin(w)]);
  }

  lemma RunTwo(s: State, step: Step, t: State, rest: seq<Step>)
    requires Enabled(s, step) && t == Apply(s, step) && IsRun(t, rest)
    ensures IsRun(s, [step] + rest) && After(s, [step] + rest) == After(t, rest)
  {
    RunCons(s, step, rest);
  }

  /** The condition is exact: as soon as a second call gets behind the check, a run may follow that has
      two workers alive and starts a task twice. */
  lemma OverlapBreaks(s: State, step: Step) returns (steps: seq<Step>)
    requires Inv(s) && Enabled(s, step) && !Serial(Apply(s, step))
    ensures IsRun(s, [step] + steps) && !Ascends(After(s, [step] + steps).started)
  {
    var t := Apply(s, step);
    var q, r := OverlapFound(s, step);
    var first := BothRestarting(t, q, r);
    var u := After(t, first);
    TwoWorkers(u, q, r);
    var x := After(u, [Restart(q), Restart(r)]);
    var v, w := |x.workers| - 2, |x.workers| - 1;
    var job := SharedSlot(x, v, w);
    hide Inv, Overlapping, Enabled, Apply, Serial;
    var last := [AddTask(""), AddTask(""), Pop(v), Pop(w), Begin(v), Begin(w)];
    RunAppend(u, [Restart(q), Restart(r)], last);
    RunAppend(t, first, [Restart(q), Restart(r)] + last);
    steps := first + ([Restart(q), Restart(r)] + last);
    RunCons(s, step, steps);
    var started := After(t, steps).started;
    assert started == x.started + [job, job];
    assert started[|x.started|] == started[|x.started| + 1];
  }

  lemma OverlapFound(s: State, step: Step) returns (q: nat, r: nat)
    requires Inv(s) && Enabled(s, step) && !Serial(Apply(s, step))
    ensures Overlapping(Apply(s, step), q, r)
  {
    var t := Apply(s, step);
    q, r :| 0 <= q < r < |t.removals| && IsPast(t.removals[q].stage) && IsPast(t.removals[r].stage);
    AliveStep(s, step);
    FatesStep(s, step);
    OrderStep(s, step);
    KnownNumbers(t);
    RemovalStep(s, step, q);
    RemovalStep(s, step, r);
  }

  /** The run is a serial one from the start and ends in `s`. */
  ghost predicate Reached(steps: seq<Step>, s: State) {
    IsRun(START, steps) && SerialRun(START, steps) && After(START, steps) == s && Inv(s)
  }

  lemma ReachStart()
    ensures Reached([], START)
  {
    StartHolds();
  }

  lemma Reach(steps: seq<Step>, s: State, step: Step, t: State)
    requires Reached(steps, s) && Enabled(s, step) && Apply(s, step) == t && Serial(t)
    ensures Reached(steps + [step], t)
  {
    StepKeeps(s, step);
    RunOne(s, step);
    RunAppend(START, steps, [step]);
    assert Serial(s);
    hide Apply, Enabled;
  }

  /** A state with the two tasks, without waits. */
  ghost function Picture(a: string, b: string, queue: seq<nat>, current: Slot, phase: Phase, removals: seq<Removal>,
                         started: seq<nat>, ended: set<nat>): State
  {
    State([Job(a, 0), Job(b, 0)], queue, current, [Worker(phase, false)], removals, 0, {}, map[], started, ended, {})
  }

  lemma OneQueued(a: string)
    ensures Reached([AddTask(a)],
            State([Job(a, 0)], [0], Empty, [Worker(Popping, false)], [], 0, {}, map[], [], {}, {}))
  {
    hide Reached;
    ReachStart();
    Reach([], START, AddTask(a),
      State([Job(a, 0)], [0], Empty, [Worker(Popping, false)], [], 0, {}, map[], [], {}, {}));
    assert [] + [AddTask(a)] == [AddTask(a)];
  }

  lemma TwoQueued(a: string, b: string)
    ensures Reached([AddTask(a), AddTask(b)], Picture(a, b, [0, 1], Empty, Popping, [], [], {}))
  {
    hide Reached;
    OneQueued(a);
    var s1 := State([Job(a, 0)], [0], Empty, [Worker(Popping, false)], [], 0, {}, map[], [], {}, {});
    Reach([AddTask(a)], s1, AddTask(b), Picture(a, b, [0, 1], Empty, Popping, [], [], {}));
    assert [AddTask(a)] + [AddTask(b)] == [AddTask(a), AddTask(b)];
  }

  /** The worker has popped a task of `a` when its collection is removed. */
  lemma FirstCall(a: string, b: string) returns (steps: seq<Step>)
    ensures Reached(steps, Picture(a, b, [1], Holds(0), Popped, [Removal(a, 2, Closing)], [], {}))
  {
    hide Reached;
    TwoQueued(a, b);
    var run := [AddTask(a), AddTask(b)];
    var s3 := Picture(a, b, [1], Holds(0), Popped, [], [], {});
    Reach(run, Picture(a, b, [0, 1], Empty, Popping, [], [], {}), Pop(0), s3);
    var s4 := Picture(a, b, [1], Holds(0), Popped, [Removal(a, 2, Called)], [], {});
    Reach(run + [Pop(0)], s3, CallRemove(a), s4);
    CheckFails(run + [Pop(0)] + [CallRemove(a)], a, b);
    steps := run + [Pop(0)] + [CallRemove(a)] + [RemoveIfWhen(0)];
  }

  lemma CheckFails(run: seq<Step>, a: string, b: string)
    requires Reached(run, Picture(a, b, [1], Holds(0), Popped, [Removal(a, 2, Called)], [], {}))
    ensures Reached(run + [RemoveIfWhen(0)], Picture(a, b, [1], Holds(0), Popped, [Removal(a, 2, Closing)], [], {}))
  {
    hide Reached;
    var s := Picture(a, b, [1], Holds(0), Popped, [Removal(a, 2, Called)], [], {});
    Reach(run, s, RemoveIfWhen(0), Picture(a, b, [1], Holds(0), Popped, [Removal(a, 2, Closing)], [], {}));
  }

  lemma FirstTaskEnds(run: seq<Step>, a: string, b: string, calls: seq<Removal>)
    requires Reached(run, Picture(a, b, [1], Holds(0), Popped, calls, [], {}))
    ensures Reached(run + [Begin(0)] + [Finish(0)], Picture(a, b, [1], Holds(0), AtPoint, calls, [0], {0}))
  {
    ReachedSerial(run, Picture(a, b, [1], Holds(0), Popped, calls, [], {}));
    hide Reached, Serial;
    var s1 := Picture(a, b, [1], Holds(0), Popped, calls, [], {});
    var s2 := Picture(a, b, [1], Holds(0), Running(0), calls, [0], {});
    SameSerial(s1, s2);
    Reach(run, s1, Begin(0), s2);
    var s3 := Picture(a, b, [1], Holds(0), AtPoint, calls, [0], {0});
    SameSerial(s1, s3);
    Reach(run + [Begin(0)], s2, Finish(0), s3);
  }

  lemma NextTaskPopped(run: seq<Step>, a: string, b: string, calls: seq<Removal>)
    requires Reached(run, Picture(a, b, [1], Holds(0), AtPoint, calls, [0], {0}))
    ensures Reached(run + [Point(0)] + [Pop(0)], Picture(a, b, [], Holds(1), Popped, calls, [0], {0}))
  {
    ReachedSerial(run, Picture(a, b, [1], Holds(0), AtPoint, calls, [0], {0}));
    hide Reached, Serial;
    var s3 := Picture(a, b, [1], Holds(0), AtPoint, calls, [0], {0});
    var s4 := Picture(a, b, [1], Holds(0), Popping, calls, [0], {0});
    SameSerial(s3, s4);
    Reach(run, s3, Point(0), s4);
    var s5 := Picture(a, b, [], Holds(1), Popped, calls, [0], {0});
    SameSerial(s3, s5);
    Reach(run + [Point(0)], s4, Pop(0), s5);
  }

  lemma ReachedSerial(run: seq<Step>, s: State)
    requires Reached(run, s)
    ensures Serial(s)
  {
  }

  lemma SameSerial(s: State, t: State)
    requires Serial(s) && t.removals == s.removals
    ensures Serial(t)
  {
  }

  /** Before that call interrupts it, it runs this task and pops one of `b`, whose collection is removed. */
  lemma SecondCall(a: string, b: string) returns (steps: seq<Step>)
    ensures Reached(steps, Picture(a, b, [], Holds(1), Popped, [Removal(a, 2, Closing), Removal(b, 2, Called)],
                                    [0], {0}))
  {
    hide Reached;
    var run := FirstCall(a, b);
    var calls := [Removal(a, 2, Closing)];
    FirstTaskEnds(run, a, b, calls);
    run := run + [Begin(0)] + [Finish(0)];
    NextTaskPopped(run, a, b, calls);
    run := run + [Point(0)] + [Pop(0)];
    var s5 := Picture(a, b, [], Holds(1), Popped, calls, [0], {0});
    var s6 := Picture(a, b, [], Holds(1), Popped, [Removal(a, 2, Closing), Removal(b, 2, Called)], [0], {0});
    Reach(run, s5, CallRemove(b), s6);
    steps := run + [CallRemove(b)];
  }

  /** So the condition can fail: the worker passes on from a task of the one collection to a task of the
      other between the two checks, both calls start a worker, and a task starts twice. */
  lemma TwoRemovalsBreak(a: string, b: string) returns (steps: seq<Step>)
    ensures IsRun(START, steps) && !Ascends(After(START, steps).started)
  {
    var run := SecondCall(a, b);
    var s := Picture(a, b, [], Holds(1), Popped, [Removal(a, 2, Closing), Removal(b, 2, Called)], [0], {0});
    var step := RemoveIfWhen(1);
    var t := Apply(s, step);
    assert IsPast(t.removals[0].stage) && IsPast(t.removals[1].stage);
    var rest := OverlapBreaks(s, step);
    hide Inv, Enabled, Apply, Serial;
    RunAppend(START, run, [step] + rest);
    steps := run + ([step] + rest);
  }
}
