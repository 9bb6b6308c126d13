/** Collection directories: guarded sections, copies and crashes (`Directory`, `DirectoryGuard`), and the
    rotation that puts the newest directory first (`DirectoryRotator`). */
module Directories {
  import opened DirectoryCookie

  // ---------------------------------------------------------------- operations

  const NEW_COOKIE := Cookie(0, "", true)

  datatype Opened = Opened(accepted: bool, memory: Cookie, disk: string)

  /** Opening an existing directory. A rejected handle is destroyed, and its destructor writes the
      cookie in memory back to disk. */
  function Open(disk: string): Opened {
    var r := ReadInto(disk, NEW_COOKIE);
    if r.ok && r.cookie.valid then Opened(true, r.cookie, disk) else Opened(false, r.cookie, Render(r.cookie))
  }

  class Directory {
    const name: string
    var memory: Cookie
    var disk: string

    /** A directory just created: valid, and the cookie on disk says so. */
    constructor (name: string)
      ensures this.name == name && memory == Cookie(0, "", true) && disk == Render(memory)
    {
      this.name := name;
      memory := NEW_COOKIE;
      disk := Render(NEW_COOKIE);
    }

    method Flush()
      modifies this`disk
      ensures disk == Render(memory)
    {
      disk := Render(memory);
    }

    method Invalidate()
      modifies this
      ensures memory == old(memory).(valid := false) && disk == Render(memory)
    {
      memory := memory.(valid := false);
      Flush();
    }

    /** The copy is one second older than its source, so that the source is preferred. */
    method CopyFrom(d: Directory) returns (ok: bool)
      modifies this
      ensures ok == old(d.memory.valid)
      ensures !ok ==> memory == old(memory) && disk == old(disk)
      ensures ok ==> memory == Cookie(old(d.memory.time) - 1, d.name, true) && disk == Render(memory)
    {
      if !d.memory.valid {
        return false;
      }
      Invalidate();
      memory := memory.(parent := d.name);
      memory := memory.(time := d.memory.time - 1);
      memory := memory.(valid := true);
      Flush();
      ok := true;
    }
  }

  class DirectoryGuard {
    const dir: Directory
    const good: bool

    /** Entering: good only on a valid directory, which it marks invalid. */
    constructor (dir: Directory)
      modifies dir
      ensures this.dir == dir && good == old(dir.memory.valid)
      ensures good ==> dir.memory == old(dir.memory).(valid := false) && dir.disk == Render(dir.memory)
      ensures !good ==> dir.memory == old(dir.memory) && dir.disk == old(dir.disk)
    {
      this.dir := dir;
      good := dir.memory.valid;
      new;
      if good {
        dir.Invalidate();
      }
    }

    /** Leaving: only a good guard marks the directory valid again. */
    method Leave(now: int)
      modifies dir
      ensures good ==> dir.memory == old(dir.memory).(time := now, valid := true) && dir.disk == Render(dir.memory)
      ensures !good ==> dir.memory == old(dir.memory) && dir.disk == old(dir.disk)
    {
      if good {
        dir.memory := dir.memory.(time := now);
        dir.memory := dir.memory.(valid := true);
        dir.Flush();
      }
    }
  }

  // ---------------------------------------------------------------- crashes

  /** What is open on the directory: a good guard, a guard that found it invalid, or a copy. */
  datatype Scope = Guarded | Nested | Copying

  /** Cookie writes are not atomic: `written` characters have reached the disk. */
  datatype Phase = Idle | Invalidating(written: nat) | Working | Validating(written: nat)

  datatype State = State(disk: string, memory: Cookie, phase: Phase, scopes: seq<Scope>)

  datatype Event =
    | EnterGuard
    | BeginCopy
    | Write(n: nat)
    | LeaveGuard(now: int)
    | EndCopy(source: Cookie, name: string)

  predicate InProgress(s: State) {
    exists i :: 0 <= i < |s.scopes| && s.scopes[i] != Nested
  }

  function Start(s: State, scope: Scope): State {
    State("", s.memory.(valid := false), Invalidating(0), s.scopes + [scope])
  }

  function Finish(s: State, c: Cookie): State
    requires s.scopes != []
  {
    State("", c, Validating(0), s.scopes[..|s.scopes| - 1])
  }

  predicate WriteMore(s: State, n: nat, t: State) {
    && n <= |Render(s.memory)|
    && (s.phase.Invalidating? || s.phase.Validating?) && s.phase.written < n
    && t == s.(disk := Render(s.memory)[..n],
               phase := if n < |Render(s.memory)| then s.phase.(written := n)
                        else if s.phase.Invalidating? then Working else Idle)
  }

  predicate Leave(s: State, now: int, t: State) {
    && (s.phase == Idle || s.phase == Working) && s.scopes != []
    && match s.scopes[|s.scopes| - 1]
       case Nested => t == s.(scopes := s.scopes[..|s.scopes| - 1])
       case Guarded => MIN_LONG <= now <= MAX_LONG && t == Finish(s, s.memory.(time := now, valid := true))
       case Copying => false
  }

  /** One step. Scopes nest; a copy is not made onto a directory inside a section of its own. */
  predicate Next(s: State, e: Event, t: State) {
    match e
    case EnterGuard =>
      && (s.phase == Idle || s.phase == Working)
      && t == if s.memory.valid then Start(s, Guarded) else s.(scopes := s.scopes + [Nested])
    case BeginCopy =>
      s.phase == Idle && t == Start(s, Copying)
    case Write(n) => WriteMore(s, n, t)
    case LeaveGuard(now) => Leave(s, now, t)
    case EndCopy(source, name) =>
      && s.phase == Working && s.scopes != [] && s.scopes[|s.scopes| - 1] == Copying
      && MIN_LONG < source.time <= MAX_LONG && '\n' !in name
      && t == Finish(s, Cookie(source.time - 1, name, true))
  }

  ghost predicate Init(s: State) {
    Writable(s.memory) && s.disk == Render(s.memory) && s.phase == Idle && s.scopes == []
  }

  /** At most one scope is not nested, and it lies below no valid memory. */
  ghost predicate OneGood(scopes: seq<Scope>) {
    forall i, j | 0 <= i < j < |scopes| :: scopes[i] == Nested || scopes[j] == Nested
  }

  ghost predicate Inv(s: State) {
    && Writable(s.memory) && OneGood(s.scopes)
    && match s.phase
       case Idle => s.disk == Render(s.memory) && !InProgress(s)
       case Working => s.disk == Render(s.memory) && !s.memory.valid && InProgress(s)
       case Invalidating(w) =>
         w < |Render(s.memory)| && s.disk == Render(s.memory)[..w] && !s.memory.valid && InProgress(s)
       case Validating(w) =>
         w < |Render(s.memory)| && s.disk == Render(s.memory)[..w] && s.memory.valid && !InProgress(s)
  }

  lemma NotEmpty(c: Cookie)
    ensures |Render(c)| > 0
  {
    RenderShape(c);
  }

  lemma StepKeeps(s: State, e: Event, t: State)
    requires Inv(s) && Next(s, e, t)
    ensures Inv(t)
  {
    NotEmpty(t.memory);
    hide Render, Writable;
    assert Writable(t.memory) by { WritableStays(s, e, t); }
    match e
    case Write(n) =>
      if n == |Render(s.memory)| { assert Render(s.memory)[..n] == Render(s.memory); }
    case EnterGuard => ScopePushed(s, t);
    case BeginCopy => ScopePushed(s, t);
    case _ => ScopePopped(s, t);
  }

  lemma WritableStays(s: State, e: Event, t: State)
    requires Inv(s) && Next(s, e, t)
    ensures Writable(t.memory)
  {
  }

  lemma ScopePushed(s: State, t: State)
    requires |t.scopes| == |s.scopes| + 1 && t.scopes[..|s.scopes|] == s.scopes
    ensures InProgress(t) <==> InProgress(s) || t.scopes[|s.scopes|] != Nested
  {
    assert forall i | 0 <= i < |s.scopes| :: t.scopes[i] == s.scopes[i];
    if InProgress(s) {
      var i :| 0 <= i < |s.scopes| && s.scopes[i] != Nested;
      assert t.scopes[i] != Nested;
    }
  }

  lemma ScopePopped(s: State, t: State)
    requires OneGood(s.scopes) && s.scopes != [] && t.scopes == s.scopes[..|s.scopes| - 1]
    ensures OneGood(t.scopes)
    ensures s.scopes[|s.scopes| - 1] == Nested ==> InProgress(t) == InProgress(s)
    ensures s.scopes[|s.scopes| - 1] != Nested ==> InProgress(s) && !InProgress(t)
  {
    if s.scopes[|s.scopes| - 1] == Nested && InProgress(s) {
      var i :| 0 <= i < |s.scopes| && s.scopes[i] != Nested;
      assert t.scopes[i] != Nested;
    }
  }

  // ---------------------------------------------------------------- what can happen

  /** When each step is possible: guards may be entered and nested ones left whenever no cookie is being written,
      a copy begins only on an idle directory, a write goes on from where it is up to the end, a good guard or
      a copy ends once the cookie that invalidated the directory is written out. */
  lemma StepIff(s: State, e: Event)
    requires Inv(s)
    ensures (exists t :: Next(s, e, t)) <==>
      match e
      case EnterGuard => s.phase == Idle || s.phase == Working
      case BeginCopy => s.phase == Idle
      case Write(n) =>
        (s.phase.Invalidating? || s.phase.Validating?) && s.phase.written < n <= |Render(s.memory)|
      case LeaveGuard(now) =>
        && (s.phase == Idle || s.phase == Working) && s.scopes != []
        && (|| s.scopes[|s.scopes| - 1] == Nested
            || (s.scopes[|s.scopes| - 1] == Guarded && MIN_LONG <= now <= MAX_LONG))
      case EndCopy(source, name) =>
        && s.phase == Working && s.scopes != [] && s.scopes[|s.scopes| - 1] == Copying
        && MIN_LONG < source.time <= MAX_LONG && '\n' !in name
  {
    hide Render, Inv, Start, Finish;
    match e
    case EnterGuard =>
      if s.phase == Idle || s.phase == Working {
        assert Next(s, e, if s.memory.valid then Start(s, Guarded) else s.(scopes := s.scopes + [Nested]));
      }
    case BeginCopy =>
      if s.phase == Idle { assert Next(s, e, Start(s, Copying)); }
    case Write(n) => WriteIff(s, n);
    case LeaveGuard(now) => LeaveIff(s, now);
    case EndCopy(source, name) =>
      if s.phase == Working && s.scopes != [] && s.scopes[|s.scopes| - 1] == Copying
         && MIN_LONG < source.time <= MAX_LONG && '\n' !in name {
        assert Next(s, e, Finish(s, Cookie(source.time - 1, name, true)));
      }
  }

  lemma WriteIff(s: State, n: nat)
    ensures (exists t :: Next(s, Write(n), t)) <==>
      (s.phase.Invalidating? || s.phase.Validating?) && s.phase.written < n <= |Render(s.memory)|
  {
    hide Render;
    if (s.phase.Invalidating? || s.phase.Validating?) && s.phase.written < n <= |Render(s.memory)| {
      var t := s.(disk := Render(s.memory)[..n],
                  phase := if n < |Render(s.memory)| then s.phase.(written := n)
                           else if s.phase.Invalidating? then Working else Idle);
      assert Next(s, Write(n), t);
    }
  }

  lemma LeaveIff(s: State, now: int)
    ensures (exists t :: Next(s, LeaveGuard(now), t)) <==>
      && (s.phase == Idle || s.phase == Working) && s.scopes != []
      && (|| s.scopes[|s.scopes| - 1] == Nested
          || (s.scopes[|s.scopes| - 1] == Guarded && MIN_LONG <= now <= MAX_LONG))
  {
    hide Finish;
    if (s.phase == Idle || s.phase == Working) && s.scopes != [] {
      if s.scopes[|s.scopes| - 1] == Nested {
        assert Next(s, LeaveGuard(now), s.(scopes := s.scopes[..|s.scopes| - 1]));
      } else if s.scopes[|s.scopes| - 1] == Guarded && MIN_LONG <= now <= MAX_LONG {
        assert Next(s, LeaveGuard(now), Finish(s, s.memory.(time := now, valid := true)));
      }
    }
  }

  /** Whatever is open on a directory can be closed, and a section that was in progress then leaves it valid:
      from every state there is a way to an idle directory with nothing open. */
  lemma {:induction false} CanSettle(s: State) returns (steps: seq<Event>, states: seq<State>)
    requires Inv(s)
    ensures |states| == |steps| + 1 && states[0] == s
    ensures forall i | 0 <= i < |steps| :: Next(states[i], steps[i], states[i + 1])
    ensures var t := states[|steps|];
            && t.phase == Idle && t.scopes == [] && t.disk == Render(t.memory)
            && ((InProgress(s) || s.phase.Validating?) ==> t.memory.valid)
            && (s.phase == Idle ==> t.memory == s.memory)
    decreases |s.scopes|, if s.phase.Invalidating? || s.phase.Validating? then 1 else 0
  {
    if s.phase == Idle && s.scopes == [] {
      steps, states := [], [s];
    } else {
      var e, t := Onward(s);
      StepKeeps(s, e, t);
      var more, after := CanSettle(t);
      steps, states := [e] + more, [s] + after;
    }
  }

  /** A step towards the end. */
  lemma Onward(s: State) returns (e: Event, t: State)
    requires Inv(s) && !(s.phase == Idle && s.scopes == [])
    ensures Next(s, e, t)
    ensures InProgress(s) || s.phase.Validating? ==>
      InProgress(t) || t.phase.Validating? || (t.phase == Idle && t.memory.valid)
    ensures s.phase == Idle ==> t.phase == Idle && t.memory == s.memory
    ensures |t.scopes| < |s.scopes|
         || (t.scopes == s.scopes && (s.phase.Invalidating? || s.phase.Validating?)
             && !(t.phase.Invalidating? || t.phase.Validating?))
  {
    if s.phase.Invalidating? || s.phase.Validating? {
      var n := |Render(s.memory)|;
      e := Write(n);
      t := s.(disk := Render(s.memory)[..n], phase := if s.phase.Invalidating? then Working else Idle);
    } else {
      var top := s.scopes[|s.scopes| - 1];
      t := s.(scopes := s.scopes[..|s.scopes| - 1]);
      ScopePopped(s, t);
      if top == Nested {
        e := LeaveGuard(0);
      } else if top == Guarded {
        e, t := LeaveGuard(0), Finish(s, s.memory.(time := 0, valid := true));
      } else {
        e, t := EndCopy(Cookie(1, "", true), ""), Finish(s, Cookie(0, "", true));
      }
    }
  }

  ghost predicate Run(states: seq<State>, events: seq<Event>) {
    && |states| == |events| + 1 && Init(states[0])
    && forall i | 0 <= i < |events| :: Next(states[i], events[i], states[i + 1])
  }

  lemma {:induction false} RunKeeps(states: seq<State>, events: seq<Event>, i: nat)
    requires Run(states, events) && i < |states|
    ensures Inv(states[i])
    decreases i
  {
    if i > 0 {
      RunKeeps(states, events, i - 1);
      StepKeeps(states[i - 1], events[i - 1], states[i]);
    }
  }

  /** Crash safety: whenever the process dies, even inside a cookie write, the directory is accepted
      only if no guarded section and no copy was in progress; a valid idle directory is accepted. */
  lemma CrashSafe(states: seq<State>, events: seq<Event>, i: nat)
    requires Run(states, events) && i < |states|
    ensures Open(states[i].disk).accepted ==> !InProgress(states[i])
    ensures states[i].phase == Idle ==> (Open(states[i].disk).accepted <==> states[i].memory.valid)
  {
    RunKeeps(states, events, i);
    var s := states[i];
    hide Render, ReadInto, OneGood;
    match s.phase
    case Invalidating(w) => TornCookie(s.memory, w, NEW_COOKIE);
    case Validating(w) => TornCookie(s.memory, w, NEW_COOKIE);
    case _ => RoundTrip(s.memory, NEW_COOKIE);
  }

  /** A nested guard never revalidates: while a section goes on, entering and leaving other guards
      changes neither the cookie in memory nor the one on disk. */
  lemma NestedGuardIsInert(states: seq<State>, events: seq<Event>, i: nat)
    requires Run(states, events) && i < |events|
    requires states[i].phase == Working && InProgress(states[i + 1])
    requires events[i].EnterGuard? || events[i].LeaveGuard?
    ensures states[i + 1].disk == states[i].disk && states[i + 1].memory == states[i].memory
    ensures !Open(states[i + 1].disk).accepted
  {
    RunKeeps(states, events, i);
    CrashSafe(states, events, i + 1);
    assert Next(states[i], events[i], states[i + 1]);
    if events[i].LeaveGuard? { ScopePopped(states[i], states[i + 1]); }
  }

  // ---------------------------------------------------------------- opening again

  /** The disk after `n` rejected attempts to open. */
  function AfterOpens(disk: string, n: nat): string {
    if n == 0 then disk else Open(AfterOpens(disk, n - 1)).disk
  }

  /** A directory that died in the middle of its work, its cookie written out, stays rejected, however often
      it is opened. */
  lemma StaysRejected(states: seq<State>, events: seq<Event>, i: nat, n: nat)
    requires Run(states, events) && i < |states| && states[i].phase == Working
    ensures AfterOpens(states[i].disk, n) == states[i].disk
    ensures !Open(AfterOpens(states[i].disk, n)).accepted
  {
    WorkingIsRejected(states, events, i);
    FinalRejection(states[i].disk, n);
  }

  lemma WorkingIsRejected(states: seq<State>, events: seq<Event>, i: nat)
    requires Run(states, events) && i < |states| && states[i].phase == Working
    ensures !Open(states[i].disk).accepted && Open(states[i].disk).disk == states[i].disk
  {
    RunKeeps(states, events, i);
    hide Render, ReadInto, Run;
    RoundTrip(states[i].memory, NEW_COOKIE);
  }

  /** Opening is not read-only: rejecting a torn cookie rewrites it, and the second attempt accepts the
      directory exactly if the cut lay before the flag. It then claims never to have been updated. */
  lemma TornCookieIsRepaired(c: Cookie, n: nat)
    requires Writable(c) && n < |Render(c)| - 1
    ensures !Open(Render(c)[..n]).accepted
    ensures Open(Open(Render(c)[..n]).disk).accepted <==> n <= HeadSize(c)
    ensures n <= HeadSize(c) ==> Open(Open(Render(c)[..n]).disk).memory == Cookie(0, "", true)
  {
    TornCookie(c, n, NEW_COOKIE);
    hide Render, ReadInto;
    RoundTrip(NEW_COOKIE, NEW_COOKIE);
    RoundTrip(NEW_COOKIE.(valid := false), NEW_COOKIE);
  }

  ghost predicate EverAccepted(disk: string) {
    exists n: nat :: Open(AfterOpens(disk, n)).accepted
  }

  /** A rejection that leaves the disk as it was is final. */
  lemma {:induction false} FinalRejection(disk: string, n: nat)
    requires !Open(disk).accepted && Open(disk).disk == disk
    ensures AfterOpens(disk, n) == disk && !Open(AfterOpens(disk, n)).accepted
    decreases n
  {
    hide Open;
    if n > 0 { FinalRejection(disk, n - 1); }
  }

  /** ... and so is one whose rewritten disk is rejected finally. */
  lemma {:induction false} SecondFinal(disk: string, n: nat)
    requires !Open(disk).accepted && !Open(Open(disk).disk).accepted && Open(Open(disk).disk).disk == Open(disk).disk
    ensures !Open(AfterOpens(disk, n)).accepted && (n > 0 ==> AfterOpens(disk, n) == Open(disk).disk)
    decreases n
  {
    hide Open;
    if n > 0 { SecondFinal(disk, n - 1); }
  }

  /** What is on disk after a rejection of a cookie cut at `n`. */
  lemma Rejected(c: Cookie, n: nat)
    requires Writable(c) && HeadSize(c) < n <= |Render(c)| && (n >= |Render(c)| - 1 ==> !c.valid)
    ensures !Open(Render(c)[..n]).accepted && !Open(Open(Render(c)[..n]).disk).accepted
    ensures Open(Open(Render(c)[..n]).disk).disk == Open(Render(c)[..n]).disk
  {
    TornCookie(c, n, NEW_COOKIE);
    hide Render, ReadInto;
    RoundTrip(c, NEW_COOKIE);
    RoundTrip(NEW_COOKIE.(valid := false), NEW_COOKIE);
  }

  /** A cookie cut at `n` is accepted at some attempt exactly if the cut lies before the flag, or the cookie
      is complete and says valid. */
  lemma EverAcceptedIff(c: Cookie, n: nat)
    requires Writable(c) && n <= |Render(c)|
    ensures EverAccepted(Render(c)[..n]) <==> n <= HeadSize(c) || (c.valid && n >= |Render(c)| - 1)
  {
    var disk := Render(c)[..n];
    FlagBehindHead(c);
    if n <= HeadSize(c) {
      TornCookieIsRepaired(c, n);
      assert AfterOpens(disk, 0) == disk;
      assert AfterOpens(disk, 1) == Open(disk).disk;
      assert Open(AfterOpens(disk, 1)).accepted;
    } else if c.valid && n >= |Render(c)| - 1 {
      TornCookie(c, n, NEW_COOKIE);
      assert AfterOpens(disk, 0) == disk;
      assert Open(AfterOpens(disk, 0)).accepted;
    } else {
      Rejected(c, n);
      forall k: nat ensures !Open(AfterOpens(disk, k)).accepted { SecondFinal(disk, k); }
    }
  }

  lemma FlagBehindHead(c: Cookie)
    ensures HeadSize(c) < |Render(c)| - 1
  {
    RenderShape(c);
  }

  /** Crash safety over any number of attempts: a directory that died with a section or a copy in progress is
      accepted at some attempt exactly if it died in the write that was to invalidate it, before the flag. */
  lemma CrashSafeForever(states: seq<State>, events: seq<Event>, i: nat)
    requires Run(states, events) && i < |states|
    ensures InProgress(states[i]) ==>
      (EverAccepted(states[i].disk)
       <==> states[i].phase.Invalidating? && states[i].phase.written <= HeadSize(states[i].memory))
    ensures states[i].phase == Idle ==> (EverAccepted(states[i].disk) <==> states[i].memory.valid)
  {
    RunKeeps(states, events, i);
    var s := states[i];
    FlagBehindHead(s.memory);
    assert Render(s.memory)[..|Render(s.memory)|] == Render(s.memory);
    EverAcceptedIff(s.memory, match s.phase
                              case Invalidating(w) => w
                              case _ => |Render(s.memory)|);
  }

  // ---------------------------------------------------------------- rotation

  datatype Handle = Handle(name: string, time: int)

  function RotateTo(dirs: seq<Handle>, m: nat): seq<Handle>
    requires m <= |dirs|
  {
    dirs[m..] + dirs[..m]
  }

  /** One step of the rotation; a lone directory stays. */
  function RotateOnce(dirs: seq<Handle>): seq<Handle> {
    if |dirs| > 1 then RotateTo(dirs, 1) else dirs
  }

  function Rotations(dirs: seq<Handle>, n: nat): seq<Handle> {
    if n == 0 then dirs else RotateOnce(Rotations(dirs, n - 1))
  }

  /** Rotating brings one directory after the other to the front, each once, and then starts again: after
      `n` steps directory `n` is current, and after as many steps as there are all is as it was. */
  lemma {:induction false} RotationsCycle(dirs: seq<Handle>, n: nat)
    requires n <= |dirs|
    ensures Rotations(dirs, n) == RotateTo(dirs, n)
    ensures n < |dirs| ==> Rotations(dirs, n)[0] == dirs[n]
    ensures n == |dirs| ==> Rotations(dirs, n) == dirs
    decreases n
  {
    if n > 0 {
      RotationsCycle(dirs, n - 1);
      assert RotateTo(RotateTo(dirs, n - 1), 1) == RotateTo(dirs, n);
    }
  }

  /** `std::max_element` by update time: the first of the newest. */
  ghost predicate Newest(dirs: seq<Handle>, m: nat) {
    && m < |dirs|
    && (forall k | 0 <= k < m :: dirs[k].time < dirs[m].time)
    && (forall k | m < k < |dirs| :: dirs[k].time <= dirs[m].time)
  }

  class DirectoryRotator {
    var directories: seq<Handle>
    var capacity: nat

    ghost predicate Valid()
      reads this
    {
      |directories| <= capacity
    }

    constructor (capacity: nat)
      ensures Valid() && directories == [] && this.capacity == capacity
    {
      directories := [];
      this.capacity := capacity;
    }

    /** `usable` tells whether the directory could be opened or created. */
    method AppendDirectory(dir: Handle, usable: bool) returns (ok: bool)
      requires Valid()
      modifies this`directories
      ensures Valid()
      ensures ok <==> usable && |old(directories)| < capacity
      ensures directories == if ok then old(directories) + [dir] else old(directories)
    {
      if |directories| == capacity || !usable {
        return false;
      }
      directories := directories + [dir];
      ok := true;
    }

    method Rotate()
      requires Valid()
      modifies this`directories
      ensures Valid()
      ensures directories == RotateOnce(old(directories))
    {
      if |directories| > 1 {
        directories := RotateTo(directories, 1);
      }
    }

    /** The newest directory becomes current; the cyclic order stays. */
    method RotateToNewest() returns (ghost m: nat)
      requires Valid()
      modifies this`directories
      ensures Valid()
      ensures old(directories) == [] || Newest(old(directories), m)
      ensures directories == if old(directories) == [] then [] else RotateTo(old(directories), m)
    {
      m := 0;
      if |directories| > 1 {
        var newest := 0;
        for i := 1 to |directories|
          invariant newest < i
          invariant forall k | 0 <= k < newest :: directories[k].time < directories[newest].time
          invariant forall k | newest < k < i :: directories[k].time <= directories[newest].time
        {
          if directories[newest].time < directories[i].time {
            newest := i;
          }
        }
        directories := RotateTo(directories, newest);
        m := newest;
      } else {
        assert RotateTo(directories, 0) == directories;
      }
    }
  }

  /** A fresh copy is never preferred to its source. */
  lemma SourcePreferred(dirs: seq<Handle>, m: nat, source: nat, copy: nat)
    requires Newest(dirs, m) && source < |dirs| && copy < |dirs|
    requires dirs[copy].time == dirs[source].time - 1
    ensures RotateTo(dirs, m)[0] == dirs[m] && m != copy && dirs[m].time > dirs[copy].time
    ensures |dirs| == 2 ==> RotateTo(dirs, m) == [dirs[source], dirs[copy]]
  {
  }
}
