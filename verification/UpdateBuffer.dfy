/** The update buffer of the index worker: document updates are collected and flushed in docid order.
    When this gives the same document store as applying every update on arrival. */
module UpdateBuffer {
  import opened Orders

  type Doc = map<string, string>

  /** A new document, the new version of document `from`, or an update of rtype values alone. */
  datatype Update = Insert(doc: Doc) | General(from: nat, doc: Doc) | Rtype

  /** The stored documents and the delete filter. */
  datatype Store = Store(docs: map<nat, Doc>, deleted: set<nat>)

  /** The effect of an update for `id`: a new version takes over the properties of the old one, which
      is then deleted; if the old one is not there, nothing happens. */
  function Apply(s: Store, id: nat, u: Update): Store {
    match u
    case Insert(doc) => s.(docs := s.docs[id := doc])
    case General(from, doc) =>
      if from in s.docs then Store(s.docs[id := s.docs[from] + doc], s.deleted + {from}) else s
    case Rtype => s
  }

  /** `doUpdateDoc_` has no case for an insertion. */
  function ApplyUpdate(s: Store, id: nat, u: Update): Store {
    if u.Insert? then s else Apply(s, id, u)
  }

  /** A new version, property by property: what the update supplies, else what the old version had. */
  lemma NewVersionHas(s: Store, id: nat, from: nat, doc: Doc)
    requires from in s.docs
    ensures var t := Apply(s, id, General(from, doc));
            && t.deleted == s.deleted + {from} && id in t.docs
            && (forall k | k != id :: k in t.docs <==> k in s.docs)
            && (forall k | k != id && k in s.docs :: t.docs[k] == s.docs[k])
            && (forall n :: n in t.docs[id] <==> n in doc || n in s.docs[from])
            && (forall n | n in t.docs[id] :: t.docs[id][n] == if n in doc then doc[n] else s.docs[from][n])
  {
  }

  /** A new document is stored as it is; without the old version, or by an rtype update, nothing changes. */
  lemma OthersApplied(s: Store, id: nat, u: Update)
    ensures u.Insert? ==> Apply(s, id, u) == Store(s.docs[id := u.doc], s.deleted)
    ensures u.Rtype? || (u.General? && u.from !in s.docs) ==> Apply(s, id, u) == s
  {
  }

  datatype State = State(store: Store, buffer: map<nat, Update>)

  /** Flushing the entries with keys below `n`, in ascending order. */
  function FlushBelow(b: State, n: nat): Store {
    if n == 0 then b.store else
      var s := FlushBelow(b, n - 1);
      if n - 1 in b.buffer then Apply(s, n - 1, b.buffer[n - 1]) else s
  }

  /** Buffering an update: a pending entry for the same key is applied at once and replaced, except
      that an insertion just takes its place. */
  function Put(b: State, id: nat, u: Update): State {
    if u.Insert? || id !in b.buffer then b.(buffer := b.buffer[id := u])
    else State(ApplyUpdate(b.store, id, b.buffer[id]), b.buffer[id := u])
  }

  datatype Op = Arrive(id: nat, u: Update) | Flush

  /** The fresh ids so far: new documents and new versions get ever larger ones. */
  function Newest(last: nat, op: Op): nat {
    if op.Arrive? && !op.u.Rtype? then op.id else last
  }

  predicate WellIdentified(last: nat, op: Op) {
    op.Arrive? ==>
      && (op.u.Rtype? ==> op.id <= last)
      && (!op.u.Rtype? ==> op.id > last)
      && (op.u.General? ==> op.u.from <= last)
  }

  function Buffered(b: State, last: nat, op: Op): State {
    match op
    case Arrive(id, u) => Put(b, id, u)
    case Flush => State(FlushBelow(b, last + 1), map[])
  }

  function Immediate(s: Store, op: Op): Store {
    if op.Arrive? then Apply(s, op.id, op.u) else s
  }

  ghost predicate Sound(b: State, last: nat) {
    && (forall k | k in b.store.docs :: k <= last)
    && (forall k | k in b.buffer :: k <= last && (b.buffer[k].General? ==> b.buffer[k].from < k))
    && (forall k | k in b.buffer && !b.buffer[k].Rtype? :: k !in b.store.docs)
  }

  /** The update that loses a document: an rtype update arrives while an insertion of the same document
      is pending, or a new version of a document that is itself still pending. */
  predicate Loses(b: State, last: nat, op: Op) {
    && op.Arrive? && op.u.Rtype? && op.id in b.buffer
    && match b.buffer[op.id]
       case Insert(_) => true
       case General(from, _) => from !in b.store.docs && from in FlushBelow(b, last + 1).docs
       case Rtype => false
  }

  // ---------------------------------------------------------------- what flushing does

  /** Flushing adds documents under pending keys and leaves stored ones alone. */
  lemma {:induction false} FlushKeeps(b: State, last: nat, n: nat)
    requires Sound(b, last)
    ensures forall k | k in b.store.docs :: k in FlushBelow(b, n).docs && FlushBelow(b, n).docs[k] == b.store.docs[k]
    ensures forall k | k in FlushBelow(b, n).docs ::
            k in b.store.docs || (k < n && k in b.buffer && !b.buffer[k].Rtype?)
    decreases n
  {
    if n > 0 { FlushKeeps(b, last, n - 1); }
  }

  /** A key once passed is settled. */
  lemma {:induction false} FlushSettles(b: State, last: nat, k: nat, n: nat)
    requires Sound(b, last) && k < n
    ensures k in FlushBelow(b, n).docs <==> k in FlushBelow(b, k + 1).docs
    decreases n
  {
    if k + 1 < n { FlushSettles(b, last, k, n - 1); }
  }

  lemma {:induction false} SameBelow(a: State, b: State, n: nat)
    requires a.store == b.store
    requires forall k: nat | k < n ::
            (k in a.buffer <==> k in b.buffer) && (k in a.buffer ==> a.buffer[k] == b.buffer[k])
    ensures FlushBelow(a, n) == FlushBelow(b, n)
    decreases n
  {
    if n > 0 { SameBelow(a, b, n - 1); }
  }

  /** Nothing pending from `n` on: flushing further changes nothing. */
  lemma {:induction false} FlushEnds(b: State, n: nat, m: nat)
    requires n <= m && forall k | k in b.buffer :: k < n
    ensures FlushBelow(b, m) == FlushBelow(b, n)
    decreases m
  {
    if n < m { FlushEnds(b, n, m - 1); }
  }

  /** A fresh key comes last. */
  lemma FreshLast(b: State, last: nat, id: nat, u: Update)
    requires Sound(b, last) && id > last
    ensures FlushBelow(Put(b, id, u), id + 1) == Apply(FlushBelow(b, last + 1), id, u)
  {
    var c := Put(b, id, u);
    SameBelow(c, b, id);
    FlushEnds(b, last + 1, id);
  }

  /** Entries that do nothing can come and go. */
  lemma {:induction false} RtypeIdle(b: State, id: nat, n: nat)
    requires id !in b.buffer || b.buffer[id].Rtype?
    ensures FlushBelow(b.(buffer := b.buffer[id := Rtype]), n) == FlushBelow(b, n)
    decreases n
  {
    if n > 0 { RtypeIdle(b, id, n - 1); }
  }

  lemma WriteSwap(m: map<nat, Doc>, a: nat, x: Doc, b: nat, y: Doc)
    requires a != b
    ensures m[a := x][b := y] == m[b := y][a := x]
  {
  }

  /** Two updates of different documents, the second not the source of the first, may be swapped. */
  lemma Commute(s: Store, id: nat, u: Update, k: nat, v: Update)
    requires u.General? && u.from in s.docs && k != id
    requires !v.Rtype? ==> k != u.from
    requires v.General? ==> v.from != id
    ensures Apply(Apply(s, id, u), k, v) == Apply(Apply(s, k, v), id, u)
  {
    var d := s.docs[u.from] + u.doc;
    match v
    case Insert(e) => WriteSwap(s.docs, id, d, k, e);
    case General(from, e) =>
      if from in s.docs {
        WriteSwap(s.docs, id, d, k, s.docs[from] + e);
        assert s.deleted + {u.from} + {from} == s.deleted + {from} + {u.from};
      }
    case Rtype =>
  }

  /** A pending new version applied early, its old version being stored: up to its own key the flush
      differs only by this one document. */
  lemma {:induction false} EarlyBelow(b: State, last: nat, id: nat, n: nat)
    requires Sound(b, last) && id in b.buffer && b.buffer[id].General? && b.buffer[id].from in b.store.docs && n <= id
    ensures FlushBelow(Put(b, id, Rtype), n) == Apply(FlushBelow(b, n), id, b.buffer[id])
    decreases n
  {
    if n > 0 {
      EarlyBelow(b, last, id, n - 1);
      FlushKeeps(b, last, n - 1);
      if n - 1 in b.buffer {
        Commute(FlushBelow(b, n - 1), id, b.buffer[id], n - 1, b.buffer[n - 1]);
      }
    }
  }

  lemma {:induction false} EarlyAll(b: State, last: nat, id: nat, n: nat)
    requires Sound(b, last) && id in b.buffer && b.buffer[id].General? && b.buffer[id].from in b.store.docs && n > id
    ensures FlushBelow(Put(b, id, Rtype), n) == FlushBelow(b, n)
    decreases n
  {
    if n == id + 1 { EarlyBelow(b, last, id, id); } else { EarlyAll(b, last, id, n - 1); }
  }

  /** A pending new version whose old version never turns up does nothing anyway. */
  lemma {:induction false} VainUpdate(b: State, last: nat, id: nat, n: nat)
    requires Sound(b, last) && id in b.buffer && b.buffer[id].General?
    requires b.buffer[id].from !in FlushBelow(b, last + 1).docs
    ensures FlushBelow(Put(b, id, Rtype), n) == FlushBelow(b, n)
    decreases n
  {
    FlushKeeps(b, last, last + 1);
    if n > 0 {
      VainUpdate(b, last, id, n - 1);
      if n - 1 == id {
        var from := b.buffer[id].from;
        FlushKeeps(b, last, id);
        if from in FlushBelow(b, id).docs {
          FlushSettles(b, last, from, id);
          FlushSettles(b, last, from, last + 1);
        }
      }
    }
  }

  // ---------------------------------------------------------------- one operation

  lemma SoundStep(b: State, last: nat, op: Op)
    requires Sound(b, last) && WellIdentified(last, op)
    ensures Sound(Buffered(b, last, op), Newest(last, op))
  {
    FlushKeeps(b, last, last + 1);
  }

  /** Without a loss the flushed buffer stays equal to immediate application. */
  lemma EqualStep(b: State, last: nat, op: Op)
    requires Sound(b, last) && WellIdentified(last, op) && !Loses(b, last, op)
    ensures FlushBelow(Buffered(b, last, op), Newest(last, op) + 1) == Immediate(FlushBelow(b, last + 1), op)
  {
    match op
    case Flush => FlushEnds(Buffered(b, last, op), 0, last + 1);
    case Arrive(id, u) =>
      if !u.Rtype? {
        FreshLast(b, last, id, u);
      } else if id !in b.buffer || b.buffer[id].Rtype? {
        RtypeIdle(b, id, last + 1);
      } else if b.buffer[id].from in b.store.docs {
        EarlyAll(b, last, id, last + 1);
      } else {
        VainUpdate(b, last, id, last + 1);
      }
  }

  /** Document `id` is gone: not stored, not pending, and its id will not come again. */
  ghost predicate Gone(b: State, last: nat, id: nat) {
    id <= last && id !in b.store.docs && (id in b.buffer ==> b.buffer[id].Rtype?)
  }

  /** With a loss a document is gone that immediate application has stored. */
  lemma LossStep(b: State, last: nat, op: Op)
    requires Sound(b, last) && WellIdentified(last, op) && Loses(b, last, op)
    ensures Gone(Buffered(b, last, op), Newest(last, op), op.id)
    ensures op.id in Immediate(FlushBelow(b, last + 1), op).docs
  {
    var id := op.id;
    FlushSettles(b, last, id, last + 1);
    if b.buffer[id].General? {
      FlushSettles(b, last, b.buffer[id].from, last + 1);
      FlushSettles(b, last, b.buffer[id].from, id);
    }
  }

  lemma GoneStays(b: State, last: nat, op: Op, id: nat)
    requires Sound(b, last) && WellIdentified(last, op) && Gone(b, last, id)
    ensures Gone(Buffered(b, last, op), Newest(last, op), id)
  {
    FlushKeeps(b, last, last + 1);
  }

  // ---------------------------------------------------------------- whole runs

  function RunBuffered(b: State, last: nat, ops: seq<Op>): State
    decreases |ops|
  {
    if ops == [] then b else RunBuffered(Buffered(b, last, ops[0]), Newest(last, ops[0]), ops[1..])
  }

  function RunImmediate(s: Store, ops: seq<Op>): Store
    decreases |ops|
  {
    if ops == [] then s else RunImmediate(Immediate(s, ops[0]), ops[1..])
  }

  function LastOf(last: nat, ops: seq<Op>): nat
    decreases |ops|
  {
    if ops == [] then last else LastOf(Newest(last, ops[0]), ops[1..])
  }

  predicate RunWellIdentified(last: nat, ops: seq<Op>)
    decreases |ops|
  {
    ops == [] || (WellIdentified(last, ops[0]) && RunWellIdentified(Newest(last, ops[0]), ops[1..]))
  }

  /** Some operation of the run loses a document. */
  predicate RunLoses(b: State, last: nat, ops: seq<Op>)
    decreases |ops|
  {
    ops != [] && (Loses(b, last, ops[0]) || RunLoses(Buffered(b, last, ops[0]), Newest(last, ops[0]), ops[1..]))
  }

  lemma {:induction false} RunEqual(b: State, last: nat, ops: seq<Op>)
    requires Sound(b, last) && RunWellIdentified(last, ops) && !RunLoses(b, last, ops)
    ensures FlushBelow(RunBuffered(b, last, ops), LastOf(last, ops) + 1) == RunImmediate(FlushBelow(b, last + 1), ops)
    decreases |ops|
  {
    if ops != [] {
      SoundStep(b, last, ops[0]);
      EqualStep(b, last, ops[0]);
      RunEqual(Buffered(b, last, ops[0]), Newest(last, ops[0]), ops[1..]);
    }
  }

  lemma {:induction false} RunGone(b: State, last: nat, ops: seq<Op>, id: nat)
    requires Sound(b, last) && RunWellIdentified(last, ops) && Gone(b, last, id)
    ensures id !in FlushBelow(RunBuffered(b, last, ops), LastOf(last, ops) + 1).docs
    decreases |ops|
  {
    if ops == [] {
      FlushKeeps(b, last, last + 1);
    } else {
      SoundStep(b, last, ops[0]);
      GoneStays(b, last, ops[0], id);
      RunGone(Buffered(b, last, ops[0]), Newest(last, ops[0]), ops[1..], id);
    }
  }

  lemma {:induction false} StoredStays(s: Store, ops: seq<Op>, id: nat)
    requires id in s.docs
    ensures id in RunImmediate(s, ops).docs
    decreases |ops|
  {
    if ops != [] { StoredStays(Immediate(s, ops[0]), ops[1..], id); }
  }

  lemma {:induction false} RunDiffers(b: State, last: nat, ops: seq<Op>)
    requires Sound(b, last) && RunWellIdentified(last, ops) && RunLoses(b, last, ops)
    ensures FlushBelow(RunBuffered(b, last, ops), LastOf(last, ops) + 1) != RunImmediate(FlushBelow(b, last + 1), ops)
    decreases |ops|
  {
    var c, next := Buffered(b, last, ops[0]), Newest(last, ops[0]);
    SoundStep(b, last, ops[0]);
    if Loses(b, last, ops[0]) {
      LossStep(b, last, ops[0]);
      RunGone(c, next, ops[1..], ops[0].id);
      StoredStays(Immediate(FlushBelow(b, last + 1), ops[0]), ops[1..], ops[0].id);
    } else {
      EqualStep(b, last, ops[0]);
      RunDiffers(c, next, ops[1..]);
    }
  }

  /** Buffered indexing equals immediate indexing, whenever the flushes come, exactly if no rtype update
      hits a pending insertion or a pending version of a pending document. */
  lemma BufferedIsImmediate(s: Store, last: nat, ops: seq<Op>)
    requires Sound(State(s, map[]), last) && RunWellIdentified(last, ops)
    ensures FlushBelow(RunBuffered(State(s, map[]), last, ops), LastOf(last, ops) + 1) == RunImmediate(s, ops)
            <==> !RunLoses(State(s, map[]), last, ops)
  {
    var b := State(s, map[]);
    FlushEnds(b, 0, last + 1);
    if RunLoses(b, last, ops) { RunDiffers(b, last, ops); } else { RunEqual(b, last, ops); }
  }

  /** The shortest run that loses a document: insert it, then update one of its rtype values. */
  lemma InsertThenRtypeLoses(doc: Doc)
    ensures var ops := [Arrive(1, Insert(doc)), Arrive(1, Rtype)];
            && RunWellIdentified(0, ops)
            && RunImmediate(Store(map[], {}), ops).docs == map[1 := doc]
            && RunBuffered(State(Store(map[], {}), map[]), 0, ops) == State(Store(map[], {}), map[1 := Rtype])
    ensures FlushBelow(State(Store(map[], {}), map[1 := Rtype]), 2).docs == map[]
  {
    var ops := [Arrive(1, Insert(doc)), Arrive(1, Rtype)];
    var s := Store(map[], {});
    var rest := ops[1..];
    assert rest == [Arrive(1, Rtype)];
    var last := rest[1..];
    assert last == [];
    assert RunWellIdentified(1, last) && RunWellIdentified(1, rest);
    var t := Store(map[1 := doc], {});
    assert Immediate(s, ops[0]) == t && Immediate(t, rest[0]) == t;
    assert RunImmediate(t, last) == t && RunImmediate(t, rest) == t;
    var b := State(s, map[1 := Insert(doc)]);
    var c := State(s, map[1 := Rtype]);
    assert Buffered(State(s, map[]), 0, ops[0]) == b;
    assert Buffered(b, 1, rest[0]) == c;
    assert RunBuffered(c, 1, last) == c && RunBuffered(b, 1, rest) == c;
    assert FlushBelow(c, 0) == s && FlushBelow(c, 1) == s;
  }

  // ---------------------------------------------------------------- the buffer itself

  /** All pending keys are at most `last`. */
  ghost predicate Bounded(buffer: map<nat, Update>, last: nat) {
    forall k | k in buffer :: k <= last
  }

  /** The first `i` entries are applied. */
  ghost predicate Flushed(b: State, keys: seq<nat>, i: nat, s: Store) {
    i <= |keys| && s == FlushBelow(b, if i == 0 then 0 else keys[i - 1] + 1)
  }

  /** No key lies strictly between two neighbours of the ascending list. */
  lemma KeyGap(buffer: map<nat, Update>, keys: seq<nat>, i: nat, k: nat)
    requires keys == Ascending(buffer.Keys) && i < |keys|
    requires (if i == 0 then 0 else keys[i - 1] + 1) <= k < keys[i]
    ensures k !in buffer
  {
    forall j | 0 <= j < |keys| ensures keys[j] != k {
      assert j < i ==> keys[j] <= keys[i - 1];
    }
    assert k !in keys;
  }

  /** Keys not pending do not matter. */
  lemma {:induction false} FlushGap(b: State, n: nat, m: nat)
    requires n <= m && forall k: nat | n <= k < m :: k !in b.buffer
    ensures FlushBelow(b, m) == FlushBelow(b, n)
    decreases m
  {
    if n < m { FlushGap(b, n, m - 1); }
  }

  lemma FlushedStart(b: State, keys: seq<nat>)
    ensures Flushed(b, keys, 0, b.store)
  {
  }

  /** Up to the next key nothing happens. */
  lemma FlushedUpTo(b: State, keys: seq<nat>, i: nat, s: Store)
    requires keys == Ascending(b.buffer.Keys) && i < |keys| && Flushed(b, keys, i, s)
    ensures keys[i] in b.buffer && s == FlushBelow(b, keys[i])
  {
    var n := if i == 0 then 0 else keys[i - 1] + 1;
    assert keys[i] in keys;
    forall k: nat | n <= k < keys[i] ensures k !in b.buffer { KeyGap(b.buffer, keys, i, k); }
    FlushGap(b, n, keys[i]);
  }

  lemma FlushedStep(b: State, keys: seq<nat>, i: nat, s: Store)
    requires keys == Ascending(b.buffer.Keys) && i < |keys| && Flushed(b, keys, i, s)
    ensures keys[i] in b.buffer && Flushed(b, keys, i + 1, Apply(s, keys[i], b.buffer[keys[i]]))
  {
    hide Apply, Ascending;
    FlushedUpTo(b, keys, i, s);
  }

  lemma FlushedEnd(b: State, keys: seq<nat>, s: Store, last: nat)
    requires keys == Ascending(b.buffer.Keys) && Flushed(b, keys, |keys|, s) && Bounded(b.buffer, last)
    ensures s == FlushBelow(b, last + 1)
  {
    var n := if |keys| == 0 then 0 else keys[|keys| - 1] + 1;
    forall k: nat | k in b.buffer ensures k < n {
      assert k in keys;
      var j :| 0 <= j < |keys| && keys[j] == k;
    }
    if |keys| > 0 { assert keys[|keys| - 1] in keys; }
    FlushEnds(b, n, last + 1);
  }

  const UPDATE_BUFFER_CAPACITY: nat := 8192

  /** What arrives at a full buffer is followed by a flush. */
  function Fill(b: State, last: nat, id: nat, u: Update): State {
    var c := Put(b, id, u);
    if |c.buffer| >= UPDATE_BUFFER_CAPACITY then State(FlushBelow(c, last + 1), map[]) else c
  }

  /** Below 8192 entries an arrival is kept in the buffer, with 8192 the buffer is emptied. */
  lemma FillBuffer(b: State, last: nat, id: nat, u: Update)
    ensures |b.buffer.Keys + {id}| < 8192 ==> Fill(b, last, id, u).buffer == b.buffer[id := u]
    ensures |b.buffer.Keys + {id}| < 8192 && u.Insert? ==> Fill(b, last, id, u).store == b.store
    ensures |b.buffer.Keys + {id}| >= 8192 ==> Fill(b, last, id, u).buffer == map[]
  {
    var more := b.buffer[id := u];
    assert more.Keys == b.buffer.Keys + {id};
    assert |more.Keys| == |more|;
    hide FlushBelow, ApplyUpdate;
  }

  /** One arrival at the worker is a run of one or two operations. */
  lemma FillIsRun(b: State, last: nat, id: nat, u: Update)
    requires WellIdentified(last, Arrive(id, u))
    ensures Fill(b, Newest(last, Arrive(id, u)), id, u) == RunBuffered(b, last, [Arrive(id, u)])
         || Fill(b, Newest(last, Arrive(id, u)), id, u) == RunBuffered(b, last, [Arrive(id, u), Flush])
  {
    var op := Arrive(id, u);
    var c, n := Buffered(b, last, op), Newest(last, op);
    if |c.buffer| >= UPDATE_BUFFER_CAPACITY {
      var ops := [op, Flush];
      var rest := ops[1..];
      assert rest == [Flush];
      assert rest[1..] == [];
      var d := Buffered(c, n, Flush);
      assert RunBuffered(d, n, rest[1..]) == d;
      assert RunBuffered(c, n, rest) == d;
    } else {
      var ops := [op];
      assert ops[1..] == [];
      assert RunBuffered(c, n, ops[1..]) == c;
    }
  }

  /** The update buffer of one worker thread, in front of the document store. */
  class Worker {
    var store: Store
    var buffer: map<nat, Update>
    /** The newest id handed out so far. */
    ghost var last: nat

    ghost predicate Valid() reads this { Bounded(buffer, last) }

    ghost function Pending(): State reads this { State(store, buffer) }

    constructor (s: Store, ghost newest: nat)
      ensures Valid() && Pending() == State(s, map[]) && last == newest
    {
      store, buffer, last := s, map[], newest;
    }

    method InsertDoc(id: nat, doc: Doc)
      requires Valid()
      modifies this
      ensures Valid() && last == (if id > old(last) then id else old(last))
      ensures Pending() == Fill(old(Pending()), last, id, Insert(doc))
      ensures |old(buffer).Keys + {id}| < 8192 ==> buffer == old(buffer)[id := Insert(doc)] && store == old(store)
      ensures |old(buffer).Keys + {id}| >= 8192 ==> buffer == map[]
    {
      FillBuffer(Pending(), if id > last then id else last, id, Insert(doc));
      hide FlushBelow, Apply;
      buffer := buffer[id := Insert(doc)];
      last := if id > last then id else last;
      if |buffer| >= UPDATE_BUFFER_CAPACITY { FlushUpdateBuffer(); }
    }

    method UpdateDoc(id: nat, u: Update)
      requires Valid()
      modifies this
      ensures Valid() && last == (if id > old(last) then id else old(last))
      ensures Pending() == Fill(old(Pending()), last, id, u)
      ensures |old(buffer).Keys + {id}| < 8192 ==> buffer == old(buffer)[id := u]
      ensures |old(buffer).Keys + {id}| >= 8192 ==> buffer == map[]
    {
      FillBuffer(Pending(), if id > last then id else last, id, u);
      hide Put, FlushBelow;
      if u.Insert? {
        InsertDoc(id, u.doc);
        return;
      }
      if id in buffer { DoUpdateDoc(id, buffer[id]); }
      buffer := buffer[id := u];
      last := if id > last then id else last;
      if |buffer| >= UPDATE_BUFFER_CAPACITY { FlushUpdateBuffer(); }
    }

    method DoInsertDoc(id: nat, doc: Doc)
      modifies this`store
      ensures store == Apply(old(store), id, Insert(doc))
    {
      store := store.(docs := store.docs[id := doc]);
    }

    method DoUpdateDoc(id: nat, u: Update)
      modifies this`store
      ensures store == ApplyUpdate(old(store), id, u)
      ensures u.General? && u.from in old(store).docs ==>
        && store.deleted == old(store).deleted + {u.from} && id in store.docs
        && (forall k | k != id :: k in store.docs <==> k in old(store).docs)
        && (forall k | k != id && k in old(store).docs :: store.docs[k] == old(store).docs[k])
        && (forall n :: n in store.docs[id] <==> n in u.doc || n in old(store).docs[u.from])
        && (forall n | n in store.docs[id] ::
              store.docs[id][n] == if n in u.doc then u.doc[n] else old(store).docs[u.from][n])
      ensures !(u.General? && u.from in old(store).docs) ==> store == old(store)
    {
      match u
      case General(from, doc) =>
        if from !in store.docs { return; }
        var merged := store.docs[from] + doc;
        store := store.(deleted := store.deleted + {from});
        store := store.(docs := store.docs[id := merged]);
      case Insert(_) =>
      case Rtype =>
    }

    method FlushUpdateBuffer()
      requires Valid()
      modifies this`store, this`buffer
      ensures Valid() && Pending() == State(FlushBelow(old(Pending()), last + 1), map[])
    {
      hide FlushBelow, Flushed, Apply;
      ghost var b := Pending();
      var keys := Ascending(buffer.Keys);
      var i := 0;
      FlushedStart(b, keys);
      while i < |keys|
        invariant 0 <= i <= |keys|
        invariant buffer == b.buffer && Flushed(b, keys, i, store)
        decreases |keys| - i
      {
        FlushedStep(b, keys, i, store);
        if buffer[keys[i]].Insert? {
          DoInsertDoc(keys[i], buffer[keys[i]].doc);
        } else {
          DoUpdateDoc(keys[i], buffer[keys[i]]);
        }
        i := i + 1;
      }
      FlushedEnd(b, keys, store, last);
      buffer := map[];
    }
  }
}
