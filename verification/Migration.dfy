/** The migration protocol (`doMigrateWork`): scan the sources, insert on the targets, delete on the
    sources, save the map, with the shards working through their write queues at their own pace. */
module Migration {
  import opened Sharding

  datatype Doc = Doc(key: string, body: string)

  /** A document as one shard holds it, or is about to. */
  datatype Copy = Copy(shard: nat, doc: Doc)

  /** The plan being carried out; `hash` is the sharding hash of the unique key. */
  datatype Setup = Setup(hash: string -> nat, before: seq<nat>, after: seq<nat>, moves: map<nat, Move>, adding: bool)

  datatype Phase = Begin | Scanned | Inserting | Deleting | Settling | Done | Failed

  datatype State = State(
    phase: Phase,
    stored: set<Copy>,        // what the shards serve
    insertFiles: set<Copy>,   // generated insert SCDs not yet handed to their target
    inserts: set<Copy>,       // insert SCDs in the write queue of their target
    deleteFiles: set<Copy>,   // generated delete SCDs not yet handed to their source
    deletes: set<Copy>,       // delete SCDs in the write queue of their source
    dropped: bool,            // a delete request could not be pushed
    saved: seq<nat>)          // the map file

  function VNode(c: Setup, d: Doc): nat
    requires c.before != []
  {
    c.hash(d.key) % |c.before|
  }

  predicate Moves(c: Setup, d: Doc)
    requires c.before != []
  {
    VNode(c, d) in c.moves
  }

  function Home(c: Setup, d: Doc): nat
    requires c.before != []
  {
    c.before[VNode(c, d)]
  }

  function Target(c: Setup, d: Doc): nat
    requires c.before != [] && |c.after| == |c.before|
  {
    c.after[VNode(c, d)]
  }

  /** A plan that moves exactly the difference of the maps, never into a shard that also gives;
      the targets of an addition are new, those of a removal are old. */
  ghost predicate SetupOk(c: Setup) {
    && c.before != []
    && ExactDiff(c.moves, c.before, c.after)
    && (forall v, w | v in c.moves && w in c.moves :: c.moves[v].src != c.moves[w].dst)
    && (forall v | v in c.moves :: c.moves[v].dst in c.before <==> !c.adding)
  }

  /** Where the documents are at the start: each on its home shard, no key twice. */
  ghost predicate Placement(c: Setup, start: set<Copy>)
    requires c.before != []
  {
    && (forall x | x in start :: x.shard == Home(c, x.doc))
    && (forall x, y | x in start && y in start && x.doc.key == y.doc.key :: x == y)
  }

  /** The documents of `stored` a scan of their shard selects, as copies for their targets. */
  function InsertScds(c: Setup, stored: set<Copy>): set<Copy>
    requires c.before != []
  {
    set x | x in stored && Moves(c, x.doc) && c.moves[VNode(c, x.doc)].src == x.shard ::
      Copy(c.moves[VNode(c, x.doc)].dst, x.doc)
  }

  function DeleteScds(c: Setup, stored: set<Copy>): set<Copy>
    requires c.before != []
  {
    set x | x in stored && Moves(c, x.doc) && c.moves[VNode(c, x.doc)].src == x.shard
  }

  /** In terms of the plan: a document whose vnode is listed to move away from the shard that holds it goes
      to the target listed with it, and only such a document does; those are also what is deleted. */
  lemma ScdsAre(c: Setup, stored: set<Copy>, y: Copy)
    requires c.before != []
    ensures y in InsertScds(c, stored) <==>
      exists x ::
        && x in stored && c.hash(x.doc.key) % |c.before| in c.moves
        && c.moves[c.hash(x.doc.key) % |c.before|] == Move(x.shard, y.shard) && y.doc == x.doc
    ensures y in DeleteScds(c, stored) <==>
      && y in stored && c.hash(y.doc.key) % |c.before| in c.moves
      && c.moves[c.hash(y.doc.key) % |c.before|].src == y.shard
  {
    if y in InsertScds(c, stored) {
      var x :| x in stored && Moves(c, x.doc) && c.moves[VNode(c, x.doc)].src == x.shard
               && y == Copy(c.moves[VNode(c, x.doc)].dst, x.doc);
      assert c.moves[c.hash(x.doc.key) % |c.before|] == Move(x.shard, y.shard);
    }
  }

  function At(shard: nat, copies: set<Copy>): set<Copy> {
    set x | x in copies && x.shard == shard
  }

  /** The write queues of these shards are empty. */
  ghost predicate QueuesEmpty(s: State, shards: set<nat>) {
    forall x | x in s.inserts + s.deletes :: x.shard !in shards
  }

  function NewShards(c: Setup): set<nat> {
    set v | v in c.moves :: c.moves[v].dst
  }

  datatype Event =
    | Scan                         // generate the SCDs
    | StartInserting               // write queues drained, new shards up
    | PushInserts(shard: nat)
    | StartDeleting                // all inserts pushed; new shards have indexed them
    | PushDeletes(shard: nat)
    | DeletePushFails              // the result of pushing deletes is ignored
    | AllDeletesPushed
    | SaveMap                      // all shards have finished indexing
    | Fail                         // any of the early returns
    | IndexOne(copy: Copy)         // a shard works on its queue
    | DeleteOne(copy: Copy)

  ghost predicate Init(c: Setup, start: set<Copy>, s: State) {
    s == State(Begin, start, {}, {}, {}, {}, false, c.before)
  }

  ghost predicate Next(c: Setup, s: State, e: Event, t: State)
    requires c.before != []
  {
    match e
    case Scan =>
      && s.phase == Begin
      && t == s.(phase := Scanned, insertFiles := InsertScds(c, s.stored), deleteFiles := DeleteScds(c, s.stored))
    case StartInserting =>
      s.phase == Scanned && t == s.(phase := Inserting)
    case PushInserts(shard) =>
      && s.phase == Inserting
      && t == s.(insertFiles := s.insertFiles - At(shard, s.insertFiles),
        inserts := s.inserts + At(shard, s.insertFiles))
    case StartDeleting =>
      && s.phase == Inserting && s.insertFiles == {}
      && (c.adding ==> QueuesEmpty(s, NewShards(c)))
      && t == s.(phase := Deleting)
    case PushDeletes(shard) =>
      && s.phase == Deleting
      && t == s.(deleteFiles := s.deleteFiles - At(shard, s.deleteFiles),
        deletes := s.deletes + At(shard, s.deleteFiles))
    case DeletePushFails =>
      s.phase == Deleting && t == s.(phase := Settling, dropped := true)
    case AllDeletesPushed =>
      s.phase == Deleting && s.deleteFiles == {} && t == s.(phase := Settling)
    case SaveMap =>
      && s.phase == Settling && QueuesEmpty(s, Elements(c.before))
      && t == s.(phase := Done, saved := c.after)
    case Fail =>
      && (s.phase in {Begin, Scanned} || (s.phase == Inserting && s.insertFiles != {}))
      && t == s.(phase := Failed)
    case IndexOne(x) =>
      // an insert for a key that is already live on the shard is skipped
      && x in s.inserts
      && var live := exists y :: y in s.stored && y.shard == x.shard && y.doc.key == x.doc.key;
         t == s.(inserts := s.inserts - {x}, stored := if live then s.stored else s.stored + {x})
    case DeleteOne(x) =>
      && x in s.deletes
      && t == s.(deletes := s.deletes - {x},
                 stored := set y | y in s.stored && !(y.shard == x.shard && y.doc.key == x.doc.key))
  }

  function Moved(c: Setup, x: Copy): Copy
    requires c.before != [] && |c.after| == |c.before|
  {
    Copy(Target(c, x.doc), x.doc)
  }

  ghost predicate Leaves(c: Setup, start: set<Copy>, x: Copy)
    requires c.before != []
  {
    x in start && Moves(c, x.doc)
  }

  /** Nothing but the documents of the start, on their old or their new shard. */
  ghost predicate Known(c: Setup, start: set<Copy>, s: State)
    requires c.before != [] && |c.after| == |c.before|
  {
    && (forall y | y in s.stored :: y in start || exists x :: Leaves(c, start, x) && y == Moved(c, x))
    && (forall y | y in s.insertFiles || y in s.inserts :: exists x :: Leaves(c, start, x) && y == Moved(c, x))
    && (forall y | y in s.deleteFiles || y in s.deletes :: Leaves(c, start, y))
  }

  /** Every document that must move has its copy under way or stored on its target. */
  ghost predicate UnderWay(c: Setup, start: set<Copy>, s: State)
    requires c.before != [] && |c.after| == |c.before|
  {
    s.phase != Begin && s.phase != Failed ==> forall x | Leaves(c, start, x) ::
      Moved(c, x) in s.insertFiles || Moved(c, x) in s.inserts || Moved(c, x) in s.stored
  }

  /** Before the deletes, and after a failure, every document is still at home; later on, those that
      do not move are. */
  ghost predicate AtHome(c: Setup, start: set<Copy>, s: State)
    requires c.before != []
  {
    if s.phase in {Begin, Scanned, Inserting, Failed} then start <= s.stored && s.deletes == {} && !s.dropped
    else forall x | x in start && !Moves(c, x.doc) :: x in s.stored
  }

  /** A source copy is still there only while its delete is under way, or was never pushed; and as long
      as that is so it is still there. */
  ghost predicate Clearing(c: Setup, start: set<Copy>, s: State)
    requires c.before != []
  {
    && (s.phase in {Scanned, Inserting, Deleting, Settling, Done} ==>
          forall x | Leaves(c, start, x) && x in s.stored :: x in s.deleteFiles || x in s.deletes)
    && (forall x | x in s.deleteFiles :: x in s.stored && x !in s.deletes)
  }

  ghost predicate Progress(c: Setup, s: State) {
    && (s.phase == Begin ==> s.insertFiles == s.inserts == s.deleteFiles == {})
    && (s.phase in {Deleting, Settling, Done} ==> s.insertFiles == {} && (c.adding ==> s.inserts == {}))
    && (s.phase in {Settling, Done} && !s.dropped ==> s.deleteFiles == {})
    && (s.phase == Done ==> s.inserts == s.deletes == {})
    && s.saved == if s.phase == Done then c.after else c.before
  }

  ghost predicate Inv(c: Setup, start: set<Copy>, s: State)
    requires c.before != [] && |c.after| == |c.before|
  {
    Known(c, start, s) && UnderWay(c, start, s) && AtHome(c, start, s) && Clearing(c, start, s) && Progress(c, s)
  }

  // ---------------------------------------------------------------- every step keeps the invariant

  lemma Between(c: Setup, start: set<Copy>, x: Copy)
    requires SetupOk(c) && Placement(c, start) && Leaves(c, start, x)
    ensures c.moves[VNode(c, x.doc)] == Move(x.shard, Target(c, x.doc))
    ensures x.shard != Target(c, x.doc)
    ensures Target(c, x.doc) in NewShards(c)
    ensures !c.adding ==> Target(c, x.doc) in Elements(c.before)
    ensures x.shard in Elements(c.before)
  {
  }

  /** A source never is a target. */
  lemma SidesApart(c: Setup, start: set<Copy>, x: Copy, y: Copy)
    requires SetupOk(c) && Placement(c, start) && Leaves(c, start, x) && Leaves(c, start, y)
    ensures x.shard != Target(c, y.doc)
  {
    Between(c, start, x);
    Between(c, start, y);
  }

  lemma ScanKeeps(c: Setup, start: set<Copy>, s: State, t: State)
    requires SetupOk(c) && Placement(c, start) && Inv(c, start, s) && Next(c, s, Scan, t)
    ensures Inv(c, start, t)
  {
    forall x | Leaves(c, start, x) ensures Moved(c, x) in t.insertFiles && x in t.deleteFiles {
      Between(c, start, x);
    }
    forall y | y in t.deleteFiles ensures Leaves(c, start, y) {
      StartedAt(c, start, s, y);
    }
    forall y | y in t.insertFiles ensures exists x :: Leaves(c, start, x) && y == Moved(c, x) {
      var x :| x in s.stored && Moves(c, x.doc) && c.moves[VNode(c, x.doc)].src == x.shard
               && y == Copy(c.moves[VNode(c, x.doc)].dst, x.doc);
      StartedAt(c, start, s, x);
      Between(c, start, x);
      assert Leaves(c, start, x) && y == Moved(c, x);
    }
  }

  /** A stored copy on the side its vnode leaves is one of the start. */
  lemma StartedAt(c: Setup, start: set<Copy>, s: State, y: Copy)
    requires SetupOk(c) && Placement(c, start) && Known(c, start, s)
    requires y in s.stored && Moves(c, y.doc) && c.moves[VNode(c, y.doc)].src == y.shard
    ensures y in start
  {
  }

  lemma PushKeeps(c: Setup, start: set<Copy>, s: State, e: Event, t: State)
    requires SetupOk(c) && Inv(c, start, s) && Next(c, s, e, t)
    requires e.PushInserts? || e.PushDeletes?
    ensures Inv(c, start, t)
  {
  }

  lemma PhaseKeeps(c: Setup, start: set<Copy>, s: State, e: Event, t: State)
    requires SetupOk(c) && Placement(c, start) && Inv(c, start, s) && Next(c, s, e, t)
    requires e.StartInserting? || e.StartDeleting? || e.DeletePushFails? || e.AllDeletesPushed? || e.SaveMap? || e.Fail?
    ensures Inv(c, start, t)
  {
    if e.StartDeleting? && c.adding {
      forall y | y in s.inserts ensures y.shard in NewShards(c) { TargetIsNew(c, start, s, y); }
    }
    if e.SaveMap? {
      forall y | y in s.inserts + s.deletes ensures y.shard in Elements(c.before) { QueuedShard(c, start, s, y); }
    }
  }

  lemma TargetIsNew(c: Setup, start: set<Copy>, s: State, y: Copy)
    requires SetupOk(c) && Placement(c, start) && Known(c, start, s) && y in s.inserts
    ensures y.shard in NewShards(c)
  {
    var x :| Leaves(c, start, x) && y == Moved(c, x);
    Between(c, start, x);
  }

  lemma QueuedShard(c: Setup, start: set<Copy>, s: State, y: Copy)
    requires SetupOk(c) && Placement(c, start) && Known(c, start, s) && y in s.inserts + s.deletes
    requires c.adding ==> s.inserts == {}
    ensures y.shard in Elements(c.before)
  {
    if y in s.inserts {
      var x :| Leaves(c, start, x) && y == Moved(c, x);
      Between(c, start, x);
    } else {
      Between(c, start, y);
    }
  }

  /** Indexing an insert SCD: if the key is already live on the target, it is this very copy. */
  lemma AlreadyThere(c: Setup, start: set<Copy>, s: State, x: Copy, y: Copy)
    requires SetupOk(c) && Placement(c, start) && Known(c, start, s) && x in s.inserts
    requires y in s.stored && y.shard == x.shard && y.doc.key == x.doc.key
    ensures y == x
  {
    var w :| Leaves(c, start, w) && x == Moved(c, w);
    Between(c, start, w);
  }

  lemma IndexKeeps(c: Setup, start: set<Copy>, s: State, x: Copy, t: State)
    requires SetupOk(c) && Placement(c, start) && Inv(c, start, s) && Next(c, s, IndexOne(x), t)
    ensures Inv(c, start, t)
  {
    IndexStores(c, start, s, x, t);
    var w :| Leaves(c, start, w) && x == Moved(c, w);
    assert !Leaves(c, start, x) by {
      if Leaves(c, start, x) { SidesApart(c, start, x, w); }
    }
    hide Moves, Placement, SetupOk, Target, Next, Known;
    IndexKnown(c, start, s, x, t);
  }

  lemma IndexKnown(c: Setup, start: set<Copy>, s: State, x: Copy, t: State)
    requires c.before != [] && |c.after| == |c.before|
    requires Known(c, start, s) && x in s.inserts && t == s.(inserts := s.inserts - {x}, stored := s.stored + {x})
    ensures Known(c, start, t)
  {
    hide Moves, Target;
  }

  /** Indexed or skipped, the copy is stored afterwards and nothing else changes. */
  lemma IndexStores(c: Setup, start: set<Copy>, s: State, x: Copy, t: State)
    requires SetupOk(c) && Placement(c, start) && Known(c, start, s) && Next(c, s, IndexOne(x), t)
    ensures x in s.inserts && t == s.(inserts := s.inserts - {x}, stored := s.stored + {x})
  {
    if y :| y in s.stored && y.shard == x.shard && y.doc.key == x.doc.key {
      AlreadyThere(c, start, s, x, y);
    }
  }

  /** Deleting by key on a source removes exactly the source copy. */
  lemma DeletesOne(c: Setup, start: set<Copy>, s: State, x: Copy, y: Copy)
    requires SetupOk(c) && Placement(c, start) && Known(c, start, s) && x in s.deletes
    requires y in s.stored && y.shard == x.shard && y.doc.key == x.doc.key
    ensures y == x
  {
  }

  lemma DeleteKeeps(c: Setup, start: set<Copy>, s: State, x: Copy, t: State)
    requires SetupOk(c) && Placement(c, start) && Inv(c, start, s) && Next(c, s, DeleteOne(x), t)
    ensures Inv(c, start, t)
  {
    forall y | y in s.stored && y !in t.stored ensures y == x {
      DeletesOne(c, start, s, x, y);
    }
    assert Leaves(c, start, x);
    forall v | Leaves(c, start, v) && Moved(c, v) in s.stored ensures Moved(c, v) in t.stored {
      if Moved(c, v) !in t.stored { SidesApart(c, start, x, v); }
    }
  }

  lemma StepKeeps(c: Setup, start: set<Copy>, s: State, e: Event, t: State)
    requires SetupOk(c) && Placement(c, start) && Inv(c, start, s) && Next(c, s, e, t)
    ensures Inv(c, start, t)
  {
    hide Inv, SetupOk, Placement;
    match e
    case Scan => ScanKeeps(c, start, s, t);
    case PushInserts(_) => PushKeeps(c, start, s, e, t);
    case PushDeletes(_) => PushKeeps(c, start, s, e, t);
    case IndexOne(x) => IndexKeeps(c, start, s, x, t);
    case DeleteOne(x) => DeleteKeeps(c, start, s, x, t);
    case _ => PhaseKeeps(c, start, s, e, t);
  }

  // ---------------------------------------------------------------- whole runs

  ghost predicate Run(c: Setup, start: set<Copy>, states: seq<State>, events: seq<Event>)
    requires c.before != []
  {
    && |states| == |events| + 1
    && Init(c, start, states[0])
    && forall i | 0 <= i < |events| :: Next(c, states[i], events[i], states[i + 1])
  }

  lemma {:induction false} RunKeeps(c: Setup, start: set<Copy>, states: seq<State>, events: seq<Event>, i: nat)
    requires SetupOk(c) && Placement(c, start) && Run(c, start, states, events) && i < |states|
    ensures Inv(c, start, states[i])
    decreases i
  {
    if i == 0 {
      assert Init(c, start, states[0]);
    } else {
      RunKeeps(c, start, states, events, i - 1);
      assert Next(c, states[i - 1], events[i - 1], states[i]);
      StepKeeps(c, start, states[i - 1], events[i - 1], states[i]);
    }
  }

  /** No document is ever lost: in every state of every run each one is stored somewhere or sits in an
      insert SCD on its way into a shard; when shards are added it is always stored. */
  lemma NothingLost(c: Setup, start: set<Copy>, states: seq<State>, events: seq<Event>, i: nat, x: Copy)
    requires SetupOk(c) && Placement(c, start) && Run(c, start, states, events) && i < |states| && x in start
    ensures x in states[i].stored || Moved(c, x) in states[i].stored || Moved(c, x) in states[i].inserts
    ensures c.adding ==> x in states[i].stored || Moved(c, x) in states[i].stored
  {
    RunKeeps(c, start, states, events, i);
    if Moves(c, x.doc) { assert Leaves(c, start, x); }
  }

  /** Where the new map has every document. */
  ghost function Goal(c: Setup, start: set<Copy>): set<Copy>
    requires c.before != [] && |c.after| == |c.before|
  {
    set x | x in start :: Moved(c, x)
  }

  /** In terms of the maps: every document on the shard that the new map has for the vnode of its key. */
  lemma GoalIs(c: Setup, start: set<Copy>, y: Copy)
    requires c.before != [] && |c.after| == |c.before|
    ensures y in Goal(c, start) <==>
      exists x :: x in start && y.doc == x.doc && y.shard == c.after[c.hash(x.doc.key) % |c.before|]
  {
    if y in Goal(c, start) { var x :| x in start && y == Moved(c, x); }
    if x :| x in start && y.doc == x.doc && y.shard == c.after[c.hash(x.doc.key) % |c.before|] {
      assert y == Moved(c, x);
    }
  }

  /** A completed run saves the new map and leaves every document on the shard that map gives it; besides
      there are exactly the source copies whose delete request could not be pushed. */
  lemma Completed(c: Setup, start: set<Copy>, states: seq<State>, events: seq<Event>, i: nat)
    requires SetupOk(c) && Placement(c, start) && Run(c, start, states, events) && i < |states|
    requires states[i].phase == Done
    ensures states[i].saved == c.after && (!states[i].dropped ==> states[i].deleteFiles == {})
    ensures states[i].stored == Goal(c, start) + states[i].deleteFiles
    ensures states[i].stored == Goal(c, start) <==> states[i].deleteFiles == {}
  {
    RunKeeps(c, start, states, events, i);
    var s := states[i];
    forall x | x in start ensures Moved(c, x) in s.stored {
      if Moves(c, x.doc) { assert Leaves(c, start, x); } else { assert Moved(c, x) == x; }
    }
    forall y | y in s.stored && y !in s.deleteFiles ensures y in Goal(c, start) {
      if y in start {
        assert !Leaves(c, start, y);
        assert y == Moved(c, y);
      }
    }
    forall x | x in s.deleteFiles ensures x !in Goal(c, start) { UnpushedIsApart(c, start, s, x); }
  }

  lemma UnpushedIsApart(c: Setup, start: set<Copy>, s: State, x: Copy)
    requires SetupOk(c) && Placement(c, start) && Known(c, start, s) && x in s.deleteFiles
    ensures x !in Goal(c, start)
  {
    assert Leaves(c, start, x);
    forall w | w in start ensures x != Moved(c, w) {
      if Leaves(c, start, w) { SidesApart(c, start, x, w); }
    }
  }

  /** Copies that a failed run has left on the targets, at most one for a key. Their documents may have
      changed, or gone, at home since. */
  ghost predicate Leftovers(c: Setup, left: set<Copy>)
    requires c.before != [] && |c.after| == |c.before|
  {
    && (forall y | y in left :: Moves(c, y.doc) && y.shard == Target(c, y.doc))
    && (forall y, z | y in left && z in left && y.doc.key == z.doc.key :: y == z)
  }

  /** A run that fails leaves the saved map and every source copy as they were; what it leaves behind are
      copies on the targets. */
  lemma FailedIsHarmless(c: Setup, start: set<Copy>, states: seq<State>, events: seq<Event>, i: nat)
    requires SetupOk(c) && Placement(c, start) && Run(c, start, states, events) && i < |states|
    requires states[i].phase == Failed
    ensures states[i].saved == c.before && start <= states[i].stored
    ensures Leftovers(c, states[i].stored - start)
  {
    RunKeeps(c, start, states, events, i);
    var left := states[i].stored - start;
    forall y | y in left ensures exists x :: Leaves(c, start, x) && y == Moved(c, x) {}
    forall y, z | y in left && z in left && y.doc.key == z.doc.key ensures y == z {
      var v :| Leaves(c, start, v) && y == Moved(c, v);
      var w :| Leaves(c, start, w) && z == Moved(c, w);
      assert v == w;
    }
  }

  // ---------------------------------------------------------------- a run can finish

  /** A stretch of a run. */
  ghost predicate Steps(c: Setup, states: seq<State>, events: seq<Event>)
    requires c.before != []
  {
    |states| == |events| + 1 && forall i | 0 <= i < |events| :: Next(c, states[i], events[i], states[i + 1])
  }

  /** From `s` the protocol can come to `t`. */
  ghost predicate Reaches(c: Setup, s: State, t: State)
    requires c.before != []
  {
    exists states, events :: Steps(c, states, events) && states[0] == s && states[|events|] == t
  }

  lemma ReachesItself(c: Setup, s: State)
    requires c.before != []
    ensures Reaches(c, s, s)
  {
    assert Steps(c, [s], []) && [s][0] == s;
  }

  lemma ReachesOn(c: Setup, s: State, t: State, e: Event, u: State)
    requires c.before != [] && Reaches(c, s, t) && Next(c, t, e, u)
    ensures Reaches(c, s, u)
  {
    var states, events :| Steps(c, states, events) && states[0] == s && states[|events|] == t;
    StepsOn(c, states, events, e, u);
    assert (states + [u])[0] == s && (states + [u])[|events + [e]|] == u;
  }

  lemma StepsOn(c: Setup, states: seq<State>, events: seq<Event>, e: Event, u: State)
    requires c.before != [] && Steps(c, states, events) && Next(c, states[|events|], e, u)
    ensures Steps(c, states + [u], events + [e])
  {
    hide Next;
    var more, log := states + [u], events + [e];
    forall i | 0 <= i < |log| ensures Next(c, more[i], log[i], more[i + 1]) {
      if i < |events| {
        assert Next(c, states[i], events[i], states[i + 1]);
        assert more[i] == states[i] && more[i + 1] == states[i + 1];
      }
    }
  }

  function PhaseRank(s: State): nat {
    match s.phase
    case Begin => 5
    case Scanned => 4
    case Inserting => 3
    case Deleting => 2
    case Settling => 1
    case _ => 0
  }

  ghost predicate Nearer(s: State, t: State) {
    || PhaseRank(t) < PhaseRank(s)
    || (PhaseRank(t) == PhaseRank(s)
        && |t.insertFiles| + |t.deleteFiles| < |s.insertFiles| + |s.deleteFiles|)
    || (PhaseRank(t) == PhaseRank(s)
        && |t.insertFiles| + |t.deleteFiles| == |s.insertFiles| + |s.deleteFiles|
        && |t.inserts| + |t.deletes| < |s.inserts| + |s.deletes|)
  }

  lemma AtLess(shard: nat, files: set<Copy>, x: Copy)
    requires x in files && x.shard == shard
    ensures |files - At(shard, files)| < |files|
  {
    assert x !in files - At(shard, files);
    assert files - At(shard, files) <= files - {x};
    SubsetSize(files - At(shard, files), files - {x});
  }

  lemma IndexNext(c: Setup, s: State, x: Copy) returns (t: State)
    requires c.before != [] && x in s.inserts
    ensures Next(c, s, IndexOne(x), t) && Nearer(s, t) && t.phase == s.phase && t.dropped == s.dropped
    ensures t.deleteFiles == s.deleteFiles
  {
    var live := exists y :: y in s.stored && y.shard == x.shard && y.doc.key == x.doc.key;
    t := s.(inserts := s.inserts - {x}, stored := if live then s.stored else s.stored + {x});
  }

  lemma DeleteNext(c: Setup, s: State, x: Copy) returns (t: State)
    requires c.before != [] && x in s.deletes
    ensures Next(c, s, DeleteOne(x), t) && Nearer(s, t) && t.phase == s.phase && t.dropped == s.dropped
    ensures t.deleteFiles == s.deleteFiles
  {
    t := s.(deletes := s.deletes - {x},
            stored := set y | y in s.stored && !(y.shard == x.shard && y.doc.key == x.doc.key));
  }

  /** A shard works on its queue. */
  lemma Drain(c: Setup, s: State) returns (e: Event, t: State)
    requires c.before != [] && s.inserts + s.deletes != {}
    ensures Next(c, s, e, t) && Nearer(s, t) && t.phase == s.phase && t.dropped == s.dropped
    ensures t.deleteFiles == s.deleteFiles
  {
    hide Next, Nearer;
    if x :| x in s.inserts {
      e := IndexOne(x);
      t := IndexNext(c, s, x);
    } else {
      var x :| x in s.deletes;
      e := DeleteOne(x);
      t := DeleteNext(c, s, x);
    }
  }

  lemma InsertsGoOn(c: Setup, s: State) returns (e: Event, t: State)
    requires c.before != [] && s.phase == Inserting && (s.insertFiles == {} ==> s.inserts + s.deletes == {})
    ensures Next(c, s, e, t) && Nearer(s, t) && t.phase != Failed && t.dropped == s.dropped
    ensures t.deleteFiles == s.deleteFiles
    ensures t.phase in {Inserting, Deleting}
  {
    if x :| x in s.insertFiles {
      AtLess(x.shard, s.insertFiles, x);
      e := PushInserts(x.shard);
      t := s.(insertFiles := s.insertFiles - At(x.shard, s.insertFiles),
              inserts := s.inserts + At(x.shard, s.insertFiles));
    } else {
      e, t := StartDeleting, s.(phase := Deleting);
    }
  }

  lemma DeletesGoOn(c: Setup, s: State) returns (e: Event, t: State)
    requires c.before != [] && s.phase == Deleting
    ensures Next(c, s, e, t) && Nearer(s, t) && t.phase != Failed && t.dropped == s.dropped
  {
    if x :| x in s.deleteFiles {
      AtLess(x.shard, s.deleteFiles, x);
      e := PushDeletes(x.shard);
      t := s.(deleteFiles := s.deleteFiles - At(x.shard, s.deleteFiles),
              deletes := s.deletes + At(x.shard, s.deleteFiles));
    } else {
      e, t := AllDeletesPushed, s.(phase := Settling);
    }
  }

  lemma OthersGoOn(c: Setup, s: State) returns (e: Event, t: State)
    requires c.before != [] && s.phase in {Begin, Scanned, Settling}
    requires s.phase == Settling ==> s.inserts + s.deletes == {}
    ensures Next(c, s, e, t) && Nearer(s, t) && t.phase != Failed && t.dropped == s.dropped
    ensures t.deleteFiles == if s.phase == Begin then DeleteScds(c, s.stored) else s.deleteFiles
    ensures s.phase == Begin ==> t.phase == Scanned
    ensures s.phase == Scanned ==> t.phase == Inserting
    ensures s.phase == Settling ==> t.phase == Done
  {
    if s.phase == Begin {
      e := Scan;
      t := s.(phase := Scanned, insertFiles := InsertScds(c, s.stored), deleteFiles := DeleteScds(c, s.stored));
    } else if s.phase == Scanned {
      e, t := StartInserting, s.(phase := Inserting);
    } else {
      e, t := SaveMap, s.(phase := Done, saved := c.after);
    }
  }

  /** Every state short of the end has a step that brings the end nearer, without a delete being dropped. */
  lemma GoesOn(c: Setup, s: State) returns (e: Event, t: State)
    requires c.before != [] && s.phase != Done && s.phase != Failed
    ensures Next(c, s, e, t) && Nearer(s, t) && t.phase != Failed && t.dropped == s.dropped
    ensures s.phase != Deleting ==> t.deleteFiles == if s.phase == Begin then DeleteScds(c, s.stored) else s.deleteFiles
    ensures s.phase == Settling ==> t.phase in {Settling, Done}
    ensures s.phase in {Begin, Scanned, Inserting} ==> t.phase in {Scanned, Inserting, Deleting}
  {
    hide Next, Nearer;
    var idle := s.inserts + s.deletes == {};
    if s.phase == Deleting {
      e, t := DeletesGoOn(c, s);
    } else if s.phase == Inserting && (s.insertFiles != {} || idle) {
      e, t := InsertsGoOn(c, s);
    } else if s.phase in {Begin, Scanned} || idle {
      e, t := OthersGoOn(c, s);
    } else {
      e, t := Drain(c, s);
    }
  }

  /** A migration that has not failed can always be completed, with no further delete being dropped. */
  lemma {:induction false} CanFinish(c: Setup, start: State, s: State) returns (t: State)
    requires c.before != [] && Reaches(c, start, s) && s.phase != Failed
    ensures Reaches(c, start, t) && t.phase == Done && t.dropped == s.dropped
    ensures s.phase in {Settling, Done} ==> t.deleteFiles == s.deleteFiles
    decreases PhaseRank(s), |s.insertFiles| + |s.deleteFiles|, |s.inserts| + |s.deletes|
  {
    if s.phase == Done { return s; }
    var e, u := GoesOn(c, s);
    ReachesOn(c, start, s, e, u);
    t := CanFinish(c, start, u);
  }

  lemma {:induction false} ToDeleting(c: Setup, start: State, s: State) returns (t: State)
    requires c.before != [] && Reaches(c, start, s) && s.phase in {Begin, Scanned, Inserting, Deleting}
    ensures Reaches(c, start, t) && t.phase == Deleting
    ensures t.deleteFiles == if s.phase == Begin then DeleteScds(c, s.stored) else s.deleteFiles
    decreases PhaseRank(s), |s.insertFiles| + |s.deleteFiles|, |s.inserts| + |s.deletes|
  {
    if s.phase == Deleting { return s; }
    var e, u := GoesOn(c, s);
    ReachesOn(c, start, s, e, u);
    t := ToDeleting(c, start, u);
  }

  /** Completion does not wait for the deletes: whenever documents leave, a run may complete with all their
      source copies still there. */
  lemma MayKeepSources(c: Setup, start: State) returns (t: State)
    requires c.before != [] && start.phase == Begin
    ensures Reaches(c, start, t) && t.phase == Done && t.deleteFiles == DeleteScds(c, start.stored)
  {
    ReachesItself(c, start);
    var s := ToDeleting(c, start, start);
    var u := s.(phase := Settling, dropped := true);
    ReachesOn(c, start, s, DeletePushFails, u);
    t := CanFinish(c, start, u);
  }

  // ---------------------------------------------------------------- the plans are fit to be carried out

  lemma RemovalIsSetup(hash: string -> nat, removed: seq<nat>, nv: nat, current: Topology, smap: seq<nat>, plan: Plan,
                       cur: nat)
    requires TopologyOf(current, smap) && smap != []
    requires Placed(RemovalJob(removed, nv, current, smap), plan, cur, |RemovalJob(removed, nv, current, smap).queue|)
    ensures SetupOk(Setup(hash, smap, plan.smap, plan.moves, false))
  {
    hide Placed, Agrees, RemovalJob;
    RemovalMoves(removed, nv, current, smap, plan, cur);
  }

  lemma AdditionIsSetup(hash: string -> nat, added: seq<nat>, nv: nat, current: Topology, smap: seq<nat>, plan: Plan,
                        to: nat, done: nat)
    requires TopologyOf(current, smap) && smap != [] && Apart(added, current)
    requires Placed(AdditionJob(added, nv, current, smap), plan, to, done)
    ensures SetupOk(Setup(hash, smap, plan.smap, plan.moves, true))
  {
    hide Cursor, Served, Agrees, OwnsAll, Flat, Offers;
    forall v | v in plan.moves ensures plan.moves[v].dst in added && plan.moves[v].src in current {
      assert smap[v] in smap;
    }
  }
}
