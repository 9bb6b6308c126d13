/** A migration repeated after one that failed: what the failed run can leave on the targets, and what the
    second run makes of it. */
module MigrationRetry {
  import opened Sharding
  import opened Migration

  /** A leftover of the same key is in the way on the shard. */
  ghost predicate Shadowed(left: set<Copy>, y: Copy) {
    exists z :: z in left && z.shard == y.shard && z.doc.key == y.doc.key
  }

  /** What is stored when the leftovers are there from the start. */
  ghost function Overlay(left: set<Copy>, stored: set<Copy>): set<Copy> {
    (set y | y in stored && !Shadowed(left, y)) + left
  }

  /** Leftovers lie on other shards than the copies of the same key at home. */
  lemma HomeNotShadowed(c: Setup, start: set<Copy>, left: set<Copy>, x: Copy)
    requires SetupOk(c) && Placement(c, start) && Leftovers(c, left) && x in start
    ensures !Shadowed(left, x)
  {
  }

  /** The scan passes over the leftovers. */
  lemma ScanSame(c: Setup, start: set<Copy>, left: set<Copy>)
    requires SetupOk(c) && Placement(c, start) && Leftovers(c, left)
    ensures InsertScds(c, Overlay(left, start)) == InsertScds(c, start)
    ensures DeleteScds(c, Overlay(left, start)) == DeleteScds(c, start)
  {
    forall x | x in start ensures x in Overlay(left, start) { HomeNotShadowed(c, start, left, x); }
    forall x | x in left ensures !(Moves(c, x.doc) && c.moves[VNode(c, x.doc)].src == x.shard) {}
    hide Shadowed, Leftovers, Placement, SetupOk;
  }

  /** The same step without the leftovers. */
  ghost function Mirror(s0: State, e: Event, t: State): State {
    match e
    case IndexOne(x) => t.(stored := s0.stored + {x})
    case DeleteOne(x) => t.(stored := set y | y in s0.stored && !(y.shard == x.shard && y.doc.key == x.doc.key))
    case _ => t.(stored := s0.stored)
  }

  ghost predicate Mirrors(left: set<Copy>, s: State, s0: State) {
    s == s0.(stored := Overlay(left, s0.stored))
  }

  lemma MirrorIndex(c: Setup, start: set<Copy>, left: set<Copy>, s: State, s0: State, x: Copy, t: State)
    requires SetupOk(c) && Placement(c, start) && Known(c, start, s0) && Mirrors(left, s, s0)
            && Next(c, s, IndexOne(x), t)
    ensures Next(c, s0, IndexOne(x), Mirror(s0, IndexOne(x), t)) && Mirrors(left, t, Mirror(s0, IndexOne(x), t))
  {
    if y :| y in s0.stored && y.shard == x.shard && y.doc.key == x.doc.key {
      AlreadyThere(c, start, s0, x, y);
      assert s0.stored + {x} == s0.stored;
    }
    MirrorStored(c, left, s0.stored, x);
    assert s.stored == Overlay(left, s0.stored);
    if y :| y in s.stored && y.shard == x.shard && y.doc.key == x.doc.key {
      assert y in left ==> Shadowed(left, x);
      assert y !in left ==> y == x && y in s0.stored;
    } else {
      forall z | z in left ensures !(z.shard == x.shard && z.doc.key == x.doc.key) { assert z in s.stored; }
    }
  }

  lemma MirrorStored(c: Setup, left: set<Copy>, stored: set<Copy>, x: Copy)
    ensures Overlay(left, stored + {x}) == if Shadowed(left, x) then Overlay(left, stored)
            else Overlay(left, stored) + {x}
  {
    hide Shadowed;
  }

  lemma MirrorDelete(c: Setup, start: set<Copy>, left: set<Copy>, s: State, s0: State, x: Copy, t: State)
    requires SetupOk(c) && Placement(c, start) && Leftovers(c, left) && Known(c, start, s0)
    requires Mirrors(left, s, s0) && Next(c, s, DeleteOne(x), t)
    ensures Next(c, s0, DeleteOne(x), Mirror(s0, DeleteOne(x), t)) && Mirrors(left, t, Mirror(s0, DeleteOne(x), t))
  {
    assert Leaves(c, start, x);
    HomeNotShadowed(c, start, left, x);
    forall z | z in left ensures !(z.shard == x.shard && z.doc.key == x.doc.key) {
      assert z.shard == x.shard && z.doc.key == x.doc.key ==> Shadowed(left, x);
    }
    var t0 := Mirror(s0, DeleteOne(x), t);
    assert t.stored == Overlay(left, t0.stored);
  }

  lemma MirrorStep(c: Setup, start: set<Copy>, left: set<Copy>, s: State, s0: State, e: Event, t: State)
    requires SetupOk(c) && Placement(c, start) && Leftovers(c, left) && Inv(c, start, s0)
    requires (s0.phase == Begin ==> s0.stored == start) && Mirrors(left, s, s0) && Next(c, s, e, t)
    ensures Next(c, s0, e, Mirror(s0, e, t)) && Mirrors(left, t, Mirror(s0, e, t))
  {
    match e
    case Scan => ScanSame(c, start, left);
    case IndexOne(x) => MirrorIndex(c, start, left, s, s0, x, t);
    case DeleteOne(x) => MirrorDelete(c, start, left, s, s0, x, t);
    case _ => hide Overlay, InsertScds, DeleteScds, Inv;
  }

  /** A run with leftovers is a run without them, but for what is stored: every leftover stays, and the
      copy meant for its place does not get there. */
  lemma {:induction false} MirrorRun(c: Setup, start: set<Copy>, left: set<Copy>, states: seq<State>,
                                     events: seq<Event>, i: nat)
      returns (clean: seq<State>)
    requires SetupOk(c) && Placement(c, start) && Leftovers(c, left)
    requires Run(c, Overlay(left, start), states, events) && i < |states|
    ensures Run(c, start, clean, events[..i]) && Mirrors(left, states[i], clean[i])
    ensures clean[i].phase == Begin ==> Init(c, start, clean[i])
    decreases i
  {
    if i == 0 {
      clean := [State(Begin, start, {}, {}, {}, {}, false, c.before)];
    } else {
      var short := MirrorRun(c, start, left, states, events, i - 1);
      var s, e, t := states[i - 1], events[i - 1], states[i];
      assert Next(c, s, e, t);
      RunKeeps(c, start, short, events[..i - 1], i - 1);
      MirrorStep(c, start, left, s, short[i - 1], e, t);
      var t0 := Mirror(short[i - 1], e, t);
      clean := short + [t0];
      BeginsOnce(c, start, short[i - 1], e, t0);
      RunGrows(c, start, short, events, i, t0);
    }
  }

  lemma BeginsOnce(c: Setup, start: set<Copy>, s: State, e: Event, t: State)
    requires SetupOk(c) && Inv(c, start, s) && Next(c, s, e, t)
    ensures t.phase != Begin
  {
    hide Known, UnderWay, Clearing;
  }

  lemma RunGrows(c: Setup, start: set<Copy>, short: seq<State>, events: seq<Event>, i: nat, t: State)
    requires c.before != [] && 0 < i <= |events| && Run(c, start, short, events[..i - 1])
    requires Next(c, short[i - 1], events[i - 1], t)
    ensures Run(c, start, short + [t], events[..i])
  {
    var states := short + [t];
    forall k | 0 <= k < i ensures Next(c, states[k], events[..i][k], states[k + 1]) {
      if k < i - 1 { assert Next(c, short[k], events[..i - 1][k], short[k + 1]); }
    }
  }

  /** What a run over leftovers gives: the new map, every leftover as it was, of the documents those that
      no leftover stands in the way of, and the source copies whose delete could not be pushed. */
  lemma SecondRun(c: Setup, start: set<Copy>, left: set<Copy>, states: seq<State>, events: seq<Event>, i: nat)
    requires SetupOk(c) && Placement(c, start) && Leftovers(c, left)
    requires Run(c, Overlay(left, start), states, events) && i < |states| && states[i].phase == Done
    ensures states[i].saved == c.after && (!states[i].dropped ==> states[i].deleteFiles == {})
    ensures states[i].stored == Overlay(left, Goal(c, start)) + states[i].deleteFiles
    ensures forall x | x in states[i].deleteFiles :: x in start && x !in Goal(c, start) && x !in left
  {
    var clean := MirrorRun(c, start, left, states, events, i);
    Completed(c, start, clean, events[..i], i);
    RunKeeps(c, start, clean, events[..i], i);
    forall x | x in clean[i].deleteFiles ensures x in start && x !in Goal(c, start) && x !in left
      && !Shadowed(left, x) {
      UnpushedIsApart(c, start, clean[i], x);
      HomeNotShadowed(c, start, left, x);
      assert x in left ==> Shadowed(left, x);
    }
    hide Run, Inv, Leftovers, Placement, SetupOk, Shadowed, Goal;
  }

  /** A second run completes the migration exactly if every leftover is the present copy of a document and
      every delete could be pushed. */
  lemma SecondRunIff(c: Setup, start: set<Copy>, left: set<Copy>, states: seq<State>, events: seq<Event>, i: nat)
    requires SetupOk(c) && Placement(c, start) && Leftovers(c, left)
    requires Run(c, Overlay(left, start), states, events) && i < |states| && states[i].phase == Done
    ensures states[i].stored == Goal(c, start) <==> left <= Goal(c, start) && states[i].deleteFiles == {}
  {
    SecondRun(c, start, left, states, events, i);
    var goal := Goal(c, start);
    if left <= goal {
      forall y | y in goal && Shadowed(left, y) ensures y in left {
        var z :| z in left && z.shard == y.shard && z.doc.key == y.doc.key;
        var v :| v in start && y == Moved(c, v);
        var w :| w in start && z == Moved(c, w);
        assert v == w;
      }
    }
    hide Goal, Run, SetupOk, Placement;
  }

  /** A document that changed at home between the two runs is back at its old body afterwards. */
  lemma StaleLeftover(c: Setup, start: set<Copy>, left: set<Copy>, states: seq<State>, events: seq<Event>, i: nat,
                      x: Copy, y: Copy)
    requires SetupOk(c) && Placement(c, start) && Leftovers(c, left)
    requires Run(c, Overlay(left, start), states, events) && i < |states| && states[i].phase == Done
    requires x in start && y in left && y.doc.key == x.doc.key && y.doc.body != x.doc.body
    ensures y in states[i].stored && Moved(c, x) !in states[i].stored
  {
    SecondRun(c, start, left, states, events, i);
    assert Shadowed(left, Moved(c, x));
  }

  // ---------------------------------------------------------------- which failed runs leave something behind

  function Begun(c: Setup, stored: set<Copy>): State {
    State(Begin, stored, {}, {}, {}, {}, false, c.before)
  }

  lemma ReachedRun(c: Setup, start: set<Copy>, s: State) returns (states: seq<State>, events: seq<Event>)
    requires c.before != [] && Reaches(c, Begun(c, start), s)
    ensures Run(c, start, states, events) && states[|events|] == s
  {
    states, events :| Steps(c, states, events) && states[0] == Begun(c, start) && states[|events|] == s;
  }

  lemma ReachedInv(c: Setup, start: set<Copy>, s: State)
    requires SetupOk(c) && Placement(c, start) && Reaches(c, Begun(c, start), s)
    ensures Inv(c, start, s)
  {
    var states, events := ReachedRun(c, start, s);
    RunKeeps(c, start, states, events, |events|);
  }

  /** Inserts are pushed shard by shard, and a push fails only while there is something left to push: what is
      queued or stored on a target is not on the shard of an insert file. */
  ghost predicate PushedApart(start: set<Copy>, s: State) {
    && (s.phase in {Begin, Scanned} ==> s.inserts == {} && s.stored == start)
    && (s.phase in {Inserting, Failed} ==>
          forall y, z | (y in s.inserts || y in s.stored - start) && z in s.insertFiles :: y.shard != z.shard)
    && (s.phase == Failed && (s.inserts != {} || s.stored != start) ==> s.insertFiles != {})
  }

  lemma ApartStep(c: Setup, start: set<Copy>, s: State, e: Event, t: State)
    requires SetupOk(c) && Placement(c, start) && Inv(c, start, s) && PushedApart(start, s) && Next(c, s, e, t)
    ensures PushedApart(start, t)
  {
    if e.IndexOne? { IndexStores(c, start, s, e.copy, t); }
    hide SetupOk, Placement, Inv, Known, UnderWay, Clearing;
    if e.PushInserts? { assert forall y | y in At(e.shard, s.insertFiles) :: y.shard == e.shard; }
  }

  lemma {:induction false} ApartRun(c: Setup, start: set<Copy>, states: seq<State>, events: seq<Event>, i: nat)
    requires SetupOk(c) && Placement(c, start) && Run(c, start, states, events) && i < |states|
    ensures PushedApart(start, states[i])
    decreases i
  {
    if i > 0 {
      ApartRun(c, start, states, events, i - 1);
      RunKeeps(c, start, states, events, i - 1);
      assert Next(c, states[i - 1], events[i - 1], states[i]);
      ApartStep(c, start, states[i - 1], events[i - 1], states[i]);
    }
  }

  /** Documents move to two different shards. */
  ghost predicate TwoTargets(c: Setup, start: set<Copy>)
    requires c.before != [] && |c.after| == |c.before|
  {
    exists x, z :: Leaves(c, start, x) && Leaves(c, start, z) && Target(c, x.doc) != Target(c, z.doc)
  }

  lemma LeftoverNeedsTwo(c: Setup, start: set<Copy>, s: State)
    requires SetupOk(c) && Placement(c, start) && Reaches(c, Begun(c, start), s)
    requires s.phase == Failed && s.stored != start
    ensures TwoTargets(c, start)
  {
    var states, events := ReachedRun(c, start, s);
    ApartRun(c, start, states, events, |events|);
    ReachedInv(c, start, s);
    assert exists y :: y in s.stored - start;
    var y :| y in s.stored - start;
    var z :| z in s.insertFiles;
    var v :| Leaves(c, start, v) && y == Moved(c, v);
    var w :| Leaves(c, start, w) && z == Moved(c, w);
    assert Target(c, v.doc) != Target(c, w.doc);
  }

  /** The state with the inserts for one shard pushed. */
  ghost function Pushed(c: Setup, start: set<Copy>, shard: nat): State
    requires c.before != []
  {
    var files := InsertScds(c, start);
    State(Inserting, start, files - At(shard, files), At(shard, files), DeleteScds(c, start), {}, false, c.before)
  }

  lemma OnePushed(c: Setup, start: set<Copy>, shard: nat)
    requires c.before != []
    ensures Reaches(c, Begun(c, start), Pushed(c, start, shard))
  {
    var s0, files, deletes := Begun(c, start), InsertScds(c, start), DeleteScds(c, start);
    ReachesItself(c, s0);
    var s1 := s0.(phase := Scanned, insertFiles := files, deleteFiles := deletes);
    ReachesOn(c, s0, s0, Scan, s1);
    var s2 := s1.(phase := Inserting);
    ReachesOn(c, s0, s1, StartInserting, s2);
    assert Pushed(c, start, shard).inserts == s2.inserts + At(shard, s2.insertFiles);
    ReachesOn(c, s0, s2, PushInserts(shard), Pushed(c, start, shard));
  }

  /** With two targets, the first can be served before the push to the second one fails. */
  lemma LeavesBehind(c: Setup, start: set<Copy>, x: Copy, z: Copy) returns (s: State)
    requires SetupOk(c) && Placement(c, start)
    requires Leaves(c, start, x) && Leaves(c, start, z) && Target(c, x.doc) != Target(c, z.doc)
    ensures Reaches(c, Begun(c, start), s) && s.phase == Failed
    ensures Moved(c, x) !in start && s.stored == start + {Moved(c, x)}
  {
    var shard, m := Target(c, x.doc), Moved(c, x);
    var p := Pushed(c, start, shard);
    OnePushed(c, start, shard);
    ReachedInv(c, start, p);
    Between(c, start, x);
    Between(c, start, z);
    assert m in p.inserts && Moved(c, z) in p.insertFiles;
    assert m !in start by {
      if m in start { SidesApart(c, start, m, x); }
    }
    var live := exists y :: y in p.stored && y.shard == m.shard && y.doc.key == m.doc.key;
    var q := p.(inserts := p.inserts - {m}, stored := if live then p.stored else p.stored + {m});
    IndexStores(c, start, p, m, q);
    ReachesOn(c, Begun(c, start), p, IndexOne(m), q);
    s := q.(phase := Failed);
    ReachesOn(c, Begun(c, start), q, Fail, s);
  }

  /** A failed run can leave something behind exactly if documents move to two different shards. */
  lemma LeftoverIff(c: Setup, start: set<Copy>)
    requires SetupOk(c) && Placement(c, start)
    ensures (exists s :: Reaches(c, Begun(c, start), s) && s.phase == Failed && s.stored != start)
            <==> TwoTargets(c, start)
  {
    if TwoTargets(c, start) {
      var x, z :| Leaves(c, start, x) && Leaves(c, start, z) && Target(c, x.doc) != Target(c, z.doc);
      var s := LeavesBehind(c, start, x, z);
      assert Moved(c, x) in s.stored;
    }
    forall s | Reaches(c, Begun(c, start), s) && s.phase == Failed && s.stored != start ensures TwoTargets(c, start) {
      LeftoverNeedsTwo(c, start, s);
    }
  }

  /** So the second run can go wrong: a run that fails leaves the copy of `x` behind, `x` changes at home, and
      a second run, complete and with every delete pushed, brings the old body back. */
  lemma RetryGoesStale(c: Setup, start: set<Copy>, x: Copy, z: Copy, later: set<Copy>, now: Copy)
      returns (failed: State, done: State)
    requires SetupOk(c) && Placement(c, start)
    requires Leaves(c, start, x) && Leaves(c, start, z) && Target(c, x.doc) != Target(c, z.doc)
    requires Placement(c, later) && now in later && now.doc.key == x.doc.key && now.doc.body != x.doc.body
    ensures Reaches(c, Begun(c, start), failed) && failed.phase == Failed
    ensures failed.stored - start == {Moved(c, x)}
    ensures Reaches(c, Begun(c, Overlay({Moved(c, x)}, later)), done) && done.phase == Done && !done.dropped
    ensures Moved(c, x) in done.stored && Moved(c, now) !in done.stored
  {
    failed := LeavesBehind(c, start, x, z);
    var left := {Moved(c, x)};
    assert failed.stored - start == left;
    var states, events := ReachedRun(c, start, failed);
    FailedIsHarmless(c, start, states, events, |events|);
    var begun := Begun(c, Overlay(left, later));
    ReachesItself(c, begun);
    done := CanFinish(c, begun, begun);
    var again, log := ReachedRun(c, Overlay(left, later), done);
    StaleLeftover(c, later, left, again, log, |log|, now, Moved(c, x));
  }

  function Example(): Setup {
    Setup((k: string) => if k == "p" then 0 else 1, [1, 1], [2, 3], map[0 := Move(1, 2), 1 := Move(1, 3)], true)
  }

  lemma ExampleOk(c: Setup, start: set<Copy>, later: set<Copy>)
    requires c == Example() && start == {Copy(1, Doc("p", "old")), Copy(1, Doc("q", "same"))}
    requires later == {Copy(1, Doc("p", "new")), Copy(1, Doc("q", "same"))}
    ensures SetupOk(c) && c.adding && Placement(c, start) && Placement(c, later)
    ensures Leaves(c, start, Copy(1, Doc("p", "old"))) && Leaves(c, start, Copy(1, Doc("q", "same")))
    ensures Target(c, Doc("p", "old")) == 2 && Target(c, Doc("q", "same")) == 3
    ensures Moved(c, Copy(1, Doc("p", "old"))) == Copy(2, Doc("p", "old"))
    ensures Moved(c, Copy(1, Doc("p", "new"))) == Copy(2, Doc("p", "new"))
  {
    ExampleTargets(c);
    hide Target, Moves;
  }

  lemma ExampleTargets(c: Setup)
    requires c == Example()
    ensures SetupOk(c)
    ensures forall body :: Moves(c, Doc("p", body)) && Target(c, Doc("p", body)) == 2
    ensures forall body :: Moves(c, Doc("q", body)) && Target(c, Doc("q", body)) == 3
  {
  }

  /** Such a case: shard 1 gives one of its two vnodes to each of the new shards 2 and 3, and document "p"
      changes between the two runs. */
  lemma StaleExample() returns (c: Setup, start: set<Copy>, later: set<Copy>, failed: State, done: State)
    ensures SetupOk(c) && c.adding && Placement(c, start) && Placement(c, later)
    ensures start == {Copy(1, Doc("p", "old")), Copy(1, Doc("q", "same"))}
    ensures Reaches(c, Begun(c, start), failed) && failed.phase == Failed
    ensures failed.stored - start == {Copy(2, Doc("p", "old"))}
    ensures later == {Copy(1, Doc("p", "new")), Copy(1, Doc("q", "same"))}
    ensures Reaches(c, Begun(c, Overlay({Copy(2, Doc("p", "old"))}, later)), done) && done.phase == Done
            && !done.dropped
    ensures Copy(2, Doc("p", "old")) in done.stored && Copy(2, Doc("p", "new")) !in done.stored
  {
    c := Example();
    var old_, same := Copy(1, Doc("p", "old")), Copy(1, Doc("q", "same"));
    start, later := {old_, same}, {Copy(1, Doc("p", "new")), same};
    ExampleOk(c, start, later);
    hide *;
    failed, done := RetryGoesStale(c, start, old_, same, later, Copy(1, Doc("p", "new")));
  }
}
