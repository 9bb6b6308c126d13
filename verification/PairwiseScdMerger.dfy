/** Merging new SCD files into existing ones in `m` passes (`PairwiseScdMerger`): every pass handles the
    ids of one residue class, and the records written do not depend on the number of passes. */
module PairwiseScdMerger {

  datatype ScdType = NotScd | InsertScd | UpdateScd | DeleteScd | RtypeScd

  /** Properties of a document; the id is the hash of one of them and is given beside it. */
  type Doc = map<string, string>

  datatype Value = Value(doc: Doc, kind: ScdType)

  datatype Record = Record(id: nat, value: Value)

  /** An SCD file: all its documents have the type its name tells. */
  datatype File = File(kind: ScdType, docs: seq<(nat, Doc)>)

  datatype Status = Old | Exist | Replace | New

  datatype Output = Output(record: Record, status: Status)

  const EMPTY_VALUE := Value(map[], NotScd)

  /** The new value overrides, or with an INSERT replaces, what is there. */
  function DefaultMerge(value: Value, another: Value): Value {
    match another.kind
    case DeleteScd => Value(value.doc + another.doc, DeleteScd)
    case UpdateScd => Value(value.doc + another.doc, if value.kind != InsertScd then UpdateScd else value.kind)
    case RtypeScd => Value(value.doc + another.doc, if value.kind != InsertScd then RtypeScd else value.kind)
    case InsertScd => another
    case NotScd => value
  }

  // ---------------------------------------------------------------- the records in file order

  function FileRecords(f: File): seq<Record> {
    seq(|f.docs|, i requires 0 <= i < |f.docs| => Record(f.docs[i].0, Value(f.docs[i].1, f.kind)))
  }

  function Records(files: seq<File>): seq<Record> {
    if files == [] then [] else Records(files[..|files| - 1]) + FileRecords(files[|files| - 1])
  }

  ghost function IdsOf(rs: seq<Record>): set<nat> {
    set r | r in rs :: r.id
  }

  /** The left fold of the records of one id. */
  function Fold(value: Value, rs: seq<Record>, id: nat): Value {
    if rs == [] then value else
      var v := Fold(value, rs[..|rs| - 1], id);
      if rs[|rs| - 1].id == id then DefaultMerge(v, rs[|rs| - 1].value) else v
  }

  /** What the merge must give for a new id: its existing, then its new records, folded. */
  function Result(existing: seq<Record>, incoming: seq<Record>, id: nat): Value {
    Fold(Fold(EMPTY_VALUE, existing, id), incoming, id)
  }

  // ---------------------------------------------------------------- one pass, record by record

  /** The three scans of a pass: mark the new ids, fold the existing records, fold the new ones. */
  datatype Stage = Preprocess | Existing | Incoming

  datatype State = State(cache: map<nat, Value>, out: seq<Output>)

  function Step(stage: Stage, s: State, r: Record): State {
    match stage
    case Preprocess => s.(cache := s.cache[r.id := EMPTY_VALUE])
    case Existing =>
      if r.id !in s.cache then s.(out := s.out + [Output(r, Exist)])
      else State(s.cache[r.id := DefaultMerge(s.cache[r.id], r.value)], s.out + [Output(r, Old)])
    case Incoming =>
      if r.id !in s.cache then s.(out := s.out + [Output(r, New)])
      else s.(cache := s.cache[r.id := DefaultMerge(s.cache[r.id], r.value)])
  }

  /** A scan in pass `p` of `m`: only the ids of the residue class count. */
  function Scanned(stage: Stage, s: State, rs: seq<Record>, m: nat, p: nat): State
    requires m > 0
  {
    if rs == [] then s else
      var before, r := Scanned(stage, s, rs[..|rs| - 1], m, p), rs[|rs| - 1];
      if r.id % m == p then Step(stage, before, r) else before
  }

  /** The records written, counted: everything put out but the OLD ones. */
  function Written(out: seq<Output>): multiset<Record> {
    if out == [] then multiset{} else
      var o := out[|out| - 1];
      Written(out[..|out| - 1]) + if o.status == Old then multiset{} else multiset{o.record}
  }

  lemma WrittenMore(out: seq<Output>, o: Output)
    ensures Written(out + [o]) == Written(out) + if o.status == Old then multiset{} else multiset{o.record}
  {
    assert (out + [o])[..|out|] == out;
  }

  ghost predicate NoNew(out: seq<Output>) {
    forall o | o in out :: o.status != New
  }

  /** The records of one residue class whose id is not among `ids`, counted. */
  ghost function Others(rs: seq<Record>, ids: set<nat>, m: nat, p: nat): multiset<Record>
    requires m > 0
  {
    if rs == [] then multiset{} else
      var r := rs[|rs| - 1];
      Others(rs[..|rs| - 1], ids, m, p) + if r.id % m == p && r.id !in ids then multiset{r} else multiset{}
  }

  ghost function Class(rs: seq<Record>, m: nat, p: nat): set<nat>
    requires m > 0
  {
    set r | r in rs && r.id % m == p :: r.id
  }

  lemma {:induction false} PreprocessMarks(s: State, rs: seq<Record>, m: nat, p: nat)
    requires m > 0 && s.cache == map[]
    ensures Scanned(Preprocess, s, rs, m, p).out == s.out
    ensures Scanned(Preprocess, s, rs, m, p).cache == map id | id in Class(rs, m, p) :: EMPTY_VALUE
    decreases |rs|
  {
    if rs != [] {
      PreprocessMarks(s, rs[..|rs| - 1], m, p);
      assert rs == rs[..|rs| - 1] + [rs[|rs| - 1]];
    }
  }

  /** Folding scans: the cached ids are folded ... */
  lemma {:induction false} ExistingFolds(s: State, rs: seq<Record>, m: nat, p: nat)
    requires m > 0 && forall id | id in s.cache :: id % m == p
    ensures Scanned(Existing, s, rs, m, p).cache.Keys == s.cache.Keys
    ensures forall id | id in s.cache :: Scanned(Existing, s, rs, m, p).cache[id] == Fold(s.cache[id], rs, id)
    decreases |rs|
  {
    if rs != [] { ExistingFolds(s, rs[..|rs| - 1], m, p); }
  }

  /** ... and existing records of other ids are passed on. */
  lemma {:induction false} ExistingPasses(s: State, rs: seq<Record>, m: nat, p: nat)
    requires m > 0 && forall id | id in s.cache :: id % m == p
    ensures Written(Scanned(Existing, s, rs, m, p).out) == Written(s.out) + Others(rs, s.cache.Keys, m, p)
    ensures NoNew(s.out) ==> NoNew(Scanned(Existing, s, rs, m, p).out)
    decreases |rs|
  {
    if rs != [] {
      var before, r := Scanned(Existing, s, rs[..|rs| - 1], m, p), rs[|rs| - 1];
      ExistingPasses(s, rs[..|rs| - 1], m, p);
      ExistingFolds(s, rs[..|rs| - 1], m, p);
      ExistingStep(before, r);
    }
  }

  lemma ExistingStep(s: State, r: Record)
    ensures Written(Step(Existing, s, r).out) == Written(s.out) + if r.id in s.cache then multiset{} else multiset{r}
    ensures NoNew(s.out) ==> NoNew(Step(Existing, s, r).out)
  {
    WrittenMore(s.out, Output(r, Exist));
    WrittenMore(s.out, Output(r, Old));
  }

  lemma {:induction false} IncomingFolds(s: State, rs: seq<Record>, m: nat, p: nat)
    requires m > 0 && (forall id | id in s.cache :: id % m == p) && Class(rs, m, p) <= s.cache.Keys
    ensures var t := Scanned(Incoming, s, rs, m, p);
            && t.cache.Keys == s.cache.Keys && t.out == s.out
            && (forall id | id in s.cache :: t.cache[id] == Fold(s.cache[id], rs, id))
    decreases |rs|
  {
    if rs != [] {
      var short, r := rs[..|rs| - 1], rs[|rs| - 1];
      assert Class(short, m, p) <= Class(rs, m, p);
      assert r.id % m == p ==> r.id in Class(rs, m, p);
      IncomingFolds(s, short, m, p);
    }
  }

  /** Without existing files nothing is marked, and every new record is passed on as it is. */
  lemma {:induction false} IncomingPasses(s: State, rs: seq<Record>, m: nat, p: nat)
    requires m > 0 && s.cache == map[]
    ensures var t := Scanned(Incoming, s, rs, m, p);
            t.cache == map[] && Written(t.out) == Written(s.out) + Others(rs, {}, m, p)
    decreases |rs|
  {
    if rs != [] {
      var before, r := Scanned(Incoming, s, rs[..|rs| - 1], m, p), rs[|rs| - 1];
      IncomingPasses(s, rs[..|rs| - 1], m, p);
      IncomingStep(before, r);
    }
  }

  lemma IncomingStep(s: State, r: Record)
    requires s.cache == map[]
    ensures Step(Incoming, s, r).cache == map[] && Written(Step(Incoming, s, r).out) == Written(s.out) + multiset{r}
  {
    WrittenMore(s.out, Output(r, New));
  }

  // ---------------------------------------------------------------- the passes together

  /** What the merge has written after the residue classes below `p`. */
  ghost function Expected(existing: seq<Record>, incoming: seq<Record>, m: nat, p: nat): multiset<Record>
    requires m > 0
  {
    if p == 0 then multiset{} else
      Expected(existing, incoming, m, p - 1)
      + Others(existing, IdsOf(incoming), m, p - 1) + ResultBag(existing, incoming, Class(incoming, m, p - 1))
  }

  ghost function Results(existing: seq<Record>, incoming: seq<Record>, ids: set<nat>): set<Record> {
    set id | id in ids :: Record(id, Result(existing, incoming, id))
  }

  /** The records whose id is not among `ids`. */
  ghost function Untouched(rs: seq<Record>, ids: set<nat>): multiset<Record> {
    if rs == [] then multiset{} else
      var r := rs[|rs| - 1];
      Untouched(rs[..|rs| - 1], ids) + if r.id !in ids then multiset{r} else multiset{}
  }

  ghost function Below(rs: seq<Record>, ids: set<nat>, m: nat, p: nat): multiset<Record>
    requires m > 0
  {
    if rs == [] then multiset{} else
      var r := rs[|rs| - 1];
      Below(rs[..|rs| - 1], ids, m, p) + if r.id % m < p && r.id !in ids then multiset{r} else multiset{}
  }

  lemma {:induction false} BelowStep(rs: seq<Record>, ids: set<nat>, m: nat, p: nat)
    requires m > 0
    ensures Below(rs, ids, m, p + 1) == Below(rs, ids, m, p) + Others(rs, ids, m, p)
    ensures Below(rs, ids, m, 0) == multiset{} && Below(rs, ids, m, m) == Untouched(rs, ids)
    decreases |rs|
  {
    if rs != [] { BelowStep(rs[..|rs| - 1], ids, m, p); }
  }

  /** One record per id. */
  ghost function ResultBag(existing: seq<Record>, incoming: seq<Record>, ids: set<nat>): multiset<Record> {
    multiset(Results(existing, incoming, ids))
  }

  lemma ResultsJoin(existing: seq<Record>, incoming: seq<Record>, a: set<nat>, b: set<nat>)
    requires a !! b
    ensures ResultBag(existing, incoming, a + b) == ResultBag(existing, incoming, a) + ResultBag(existing, incoming, b)
  {
    assert Results(existing, incoming, a + b) == Results(existing, incoming, a) + Results(existing, incoming, b);
    assert Results(existing, incoming, a) !! Results(existing, incoming, b);
  }

  lemma Rearrange<T>(a: multiset<T>, b: multiset<T>, c: multiset<T>, d: multiset<T>)
    ensures a + b + c + d == (a + c) + (b + d)
  {
  }

  ghost function ClassesBelow(rs: seq<Record>, m: nat, p: nat): set<nat>
    requires m > 0
  {
    set r | r in rs && r.id % m < p :: r.id
  }

  lemma ClassStep(rs: seq<Record>, m: nat, p: nat)
    requires m > 0
    ensures ClassesBelow(rs, m, p) + Class(rs, m, p) == ClassesBelow(rs, m, p + 1)
    ensures ClassesBelow(rs, m, p) !! Class(rs, m, p)
  {
  }

  lemma ExpectedStep(existing: seq<Record>, incoming: seq<Record>, m: nat, p: nat)
    requires m > 0
    ensures Expected(existing, incoming, m, p + 1) ==
      Expected(existing, incoming, m, p) + Others(existing, IdsOf(incoming), m, p)
      + ResultBag(existing, incoming, Class(incoming, m, p))
  {
  }

  lemma ExpectedStart(existing: seq<Record>, incoming: seq<Record>, m: nat)
    requires m > 0
    ensures Expected(existing, incoming, m, 0) == multiset{}
    ensures Below(existing, IdsOf(incoming), m, 0) == multiset{}
    ensures ResultBag(existing, incoming, ClassesBelow(incoming, m, 0)) == multiset{}
  {
    BelowStep(existing, IdsOf(incoming), m, 0);
    assert ClassesBelow(incoming, m, 0) == {};
    assert Results(existing, incoming, {}) == {};
  }

  lemma {:induction false} ExpectedBelow(existing: seq<Record>, incoming: seq<Record>, m: nat, p: nat)
    requires m > 0
    ensures Expected(existing, incoming, m, p) ==
      Below(existing, IdsOf(incoming), m, p) + ResultBag(existing, incoming, ClassesBelow(incoming, m, p))
    decreases p
  {
    hide *;
    if p == 0 {
      ExpectedStart(existing, incoming, m);
    } else {
      var q, ids := p - 1, IdsOf(incoming);
      var low, here := ClassesBelow(incoming, m, q), Class(incoming, m, q);
      ExpectedBelow(existing, incoming, m, q);
      ExpectedStep(existing, incoming, m, q);
      BelowStep(existing, ids, m, q);
      ClassStep(incoming, m, q);
      ResultsJoin(existing, incoming, low, here);
      Rearrange(Below(existing, ids, m, q), ResultBag(existing, incoming, low),
                Others(existing, ids, m, q), ResultBag(existing, incoming, here));
    }
  }

  /** After all `m` passes: every existing record of an id that is not new, and one record per new id.
      Nothing in it depends on `m`. */
  lemma AllPasses(existing: seq<Record>, incoming: seq<Record>, m: nat)
    requires m > 0
    ensures Expected(existing, incoming, m, m) ==
      Untouched(existing, IdsOf(incoming)) + ResultBag(existing, incoming, IdsOf(incoming))
  {
    ExpectedBelow(existing, incoming, m, m);
    BelowStep(existing, IdsOf(incoming), m, 0);
    assert ClassesBelow(incoming, m, m) == IdsOf(incoming);
  }

  /** Whatever is folded before the last INSERT of an id does not matter. */
  lemma {:induction false} InsertForgets(v: Value, w: Value, before: seq<Record>, insert: Record, after: seq<Record>)
    requires insert.value.kind == InsertScd
    ensures Fold(v, before + [insert] + after, insert.id) == Fold(w, [insert] + after, insert.id)
    decreases |after|
  {
    var a, b := before + [insert] + after, [insert] + after;
    if after == [] {
      assert a[..|a| - 1] == before && a[|a| - 1] == insert && b[..0] == [];
    } else {
      InsertForgets(v, w, before, insert, after[..|after| - 1]);
      assert a[..|a| - 1] == before + [insert] + after[..|after| - 1];
      assert b[..|b| - 1] == [insert] + after[..|after| - 1];
    }
  }

  // ---------------------------------------------------------------- the record of an id, by its history

  lemma {:induction false} FoldConcat(value: Value, a: seq<Record>, b: seq<Record>, id: nat)
    ensures Fold(value, a + b, id) == Fold(Fold(value, a, id), b, id)
    decreases |b|
  {
    if b == [] {
      assert a + b == a;
    } else {
      assert (a + b)[..|a + b| - 1] == a + b[..|b| - 1];
      FoldConcat(value, a, b[..|b| - 1], id);
    }
  }

  /** Every property has the text of the last record that supplies it since the last INSERT ... */
  lemma {:induction false} FoldText(rs: seq<Record>, id: nat, i: nat, n: string)
    requires i < |rs| && rs[i].id == id && !rs[i].value.kind.NotScd? && n in rs[i].value.doc
    requires forall j | i < j < |rs| && rs[j].id == id && !rs[j].value.kind.NotScd? ::
      n !in rs[j].value.doc && !rs[j].value.kind.InsertScd?
    ensures n in Fold(EMPTY_VALUE, rs, id).doc && Fold(EMPTY_VALUE, rs, id).doc[n] == rs[i].value.doc[n]
    decreases |rs|
  {
    if i < |rs| - 1 { FoldText(rs[..|rs| - 1], id, i, n); }
  }

  /** ... and no other property is there. */
  lemma {:induction false} FoldOrigin(rs: seq<Record>, id: nat, n: string) returns (i: nat)
    requires n in Fold(EMPTY_VALUE, rs, id).doc
    ensures i < |rs| && rs[i].id == id && !rs[i].value.kind.NotScd? && n in rs[i].value.doc
    ensures forall j | i < j < |rs| && rs[j].id == id && !rs[j].value.kind.NotScd? ::
      n !in rs[j].value.doc && !rs[j].value.kind.InsertScd?
    decreases |rs|
  {
    var k := |rs| - 1;
    var r := rs[k];
    if r.id == id && !r.value.kind.NotScd? && n in r.value.doc {
      i := k;
    } else {
      i := FoldOrigin(rs[..k], id, n);
      assert forall j | 0 <= j < k :: rs[..k][j] == rs[j];
    }
  }

  /** INSERT if one came and no DELETE after it ... */
  lemma {:induction false} FoldInserted(rs: seq<Record>, id: nat, i: nat)
    requires i < |rs| && rs[i].id == id && rs[i].value.kind.InsertScd?
    requires forall j | i < j < |rs| && rs[j].id == id :: !rs[j].value.kind.DeleteScd?
    ensures Fold(EMPTY_VALUE, rs, id).kind == InsertScd
    decreases |rs|
  {
    if i < |rs| - 1 { FoldInserted(rs[..|rs| - 1], id, i); }
  }

  /** ... else the type of the last record ... */
  lemma {:induction false} FoldLast(rs: seq<Record>, id: nat, l: nat)
    requires l < |rs| && rs[l].id == id && !rs[l].value.kind.NotScd?
    requires forall j | l < j < |rs| && rs[j].id == id :: rs[j].value.kind.NotScd?
    requires forall i | 0 <= i < |rs| && rs[i].id == id && rs[i].value.kind.InsertScd? ::
      exists j :: i < j < |rs| && rs[j].id == id && rs[j].value.kind.DeleteScd?
    ensures Fold(EMPTY_VALUE, rs, id).kind == rs[l].value.kind
    decreases |rs|
  {
    var k := |rs| - 1;
    if l < k {
      forall i | 0 <= i < k && rs[..k][i].id == id && rs[..k][i].value.kind.InsertScd?
        ensures exists j :: i < j < k && rs[..k][j].id == id && rs[..k][j].value.kind.DeleteScd?
      {
        var j :| i < j < |rs| && rs[j].id == id && rs[j].value.kind.DeleteScd?;
        assert rs[..k][j] == rs[j];
      }
      FoldLast(rs[..k], id, l);
    } else if !rs[l].value.kind.DeleteScd? {
      NotInserted(rs[..k], id);
    }
  }

  lemma {:induction false} NotInserted(rs: seq<Record>, id: nat)
    requires forall i | 0 <= i < |rs| && rs[i].id == id && rs[i].value.kind.InsertScd? ::
      exists j :: i < j < |rs| && rs[j].id == id && rs[j].value.kind.DeleteScd?
    ensures Fold(EMPTY_VALUE, rs, id).kind != InsertScd
    decreases |rs|
  {
    if rs != [] {
      var k := |rs| - 1;
      if !(rs[k].id == id && rs[k].value.kind.DeleteScd?) {
        forall i | 0 <= i < k && rs[..k][i].id == id && rs[..k][i].value.kind.InsertScd?
          ensures exists j :: i < j < k && rs[..k][j].id == id && rs[..k][j].value.kind.DeleteScd?
        {
          var j :| i < j < |rs| && rs[j].id == id && rs[j].value.kind.DeleteScd?;
          assert rs[..k][j] == rs[j];
        }
        NotInserted(rs[..k], id);
      }
    }
  }

  /** `v` is what the records of `id` in `rs` make of it: each property as the last record has it that supplies
      it since the last INSERT, no other property, and the type INSERT if one came and no DELETE after it,
      else that of the last record. */
  ghost predicate IsHistory(rs: seq<Record>, id: nat, v: Value) {
    && (forall n :: n in v.doc <==> exists i: nat :: Supplies(rs, id, i, n))
    && (forall n, i: nat | Supplies(rs, id, i, n) :: n in v.doc && v.doc[n] == rs[i].value.doc[n])
    && (forall l: nat | IsLast(rs, id, l) ::
          v.kind == if exists i: nat :: StaysInserted(rs, id, i) then InsertScd else rs[l].value.kind)
  }

  ghost predicate Supplies(rs: seq<Record>, id: nat, i: nat, n: string) {
    && i < |rs| && rs[i].id == id && !rs[i].value.kind.NotScd? && n in rs[i].value.doc
    && forall j | i < j < |rs| && rs[j].id == id && !rs[j].value.kind.NotScd? ::
         n !in rs[j].value.doc && !rs[j].value.kind.InsertScd?
  }

  ghost predicate StaysInserted(rs: seq<Record>, id: nat, i: nat) {
    && i < |rs| && rs[i].id == id && rs[i].value.kind.InsertScd?
    && forall j | i < j < |rs| && rs[j].id == id :: !rs[j].value.kind.DeleteScd?
  }

  ghost predicate IsLast(rs: seq<Record>, id: nat, l: nat) {
    && l < |rs| && rs[l].id == id && !rs[l].value.kind.NotScd?
    && forall j | l < j < |rs| && rs[j].id == id :: rs[j].value.kind.NotScd?
  }

  lemma FoldIsHistory(rs: seq<Record>, id: nat)
    ensures IsHistory(rs, id, Fold(EMPTY_VALUE, rs, id))
  {
    var v := Fold(EMPTY_VALUE, rs, id);
    hide Fold, DefaultMerge;
    forall n, i: nat | Supplies(rs, id, i, n) ensures n in v.doc && v.doc[n] == rs[i].value.doc[n] {
      FoldText(rs, id, i, n);
    }
    forall n | n in v.doc ensures exists i: nat :: Supplies(rs, id, i, n) {
      var i := FoldOrigin(rs, id, n);
      assert Supplies(rs, id, i, n);
    }
    forall l: nat | IsLast(rs, id, l)
      ensures v.kind == if exists i: nat :: StaysInserted(rs, id, i) then InsertScd else rs[l].value.kind
    {
      KindOfHistory(rs, id, l);
    }
  }

  lemma KindOfHistory(rs: seq<Record>, id: nat, l: nat)
    requires IsLast(rs, id, l)
    ensures Fold(EMPTY_VALUE, rs, id).kind
            == if exists i: nat :: StaysInserted(rs, id, i) then InsertScd else rs[l].value.kind
  {
    hide Fold;
    if i: nat :| StaysInserted(rs, id, i) {
      FoldInserted(rs, id, i);
    } else {
      forall i | 0 <= i < |rs| && rs[i].id == id && rs[i].value.kind.InsertScd?
        ensures exists j :: i < j < |rs| && rs[j].id == id && rs[j].value.kind.DeleteScd?
      {
        assert !StaysInserted(rs, id, i);
      }
      FoldLast(rs, id, l);
    }
  }

  /** With existing files, a run writes exactly one record for every new id, made of the history of that id in
      the existing and then the new files ... */
  lemma NewIdsOnce(existing: seq<File>, incoming: seq<File>, id: nat)
    requires existing != [] && id in IdsOf(Records(incoming))
    ensures exists v ::
      && IsHistory(Records(existing) + Records(incoming), id, v)
      && RunBag(existing, incoming)[Record(id, v)] == 1
      && forall w | w != v :: RunBag(existing, incoming)[Record(id, w)] == 0
  {
    var old_, new_ := Records(existing), Records(incoming);
    var v := Result(old_, new_, id);
    FoldConcat(EMPTY_VALUE, old_, new_, id);
    FoldIsHistory(old_ + new_, id);
    assert incoming != [];
    hide Fold, Records, IsHistory;
    forall w ensures RunBag(existing, incoming)[Record(id, w)] == if w == v then 1 else 0 {
      UntouchedCount(old_, IdsOf(new_), Record(id, w));
      assert Record(id, w) in Results(old_, new_, IdsOf(new_)) <==> w == v;
    }
  }

  /** ... and every other existing record as often as it is there; without existing files, every new one. */
  lemma OthersAsTheyAre(existing: seq<File>, incoming: seq<File>, r: Record)
    ensures existing != [] && incoming != [] && r.id !in IdsOf(Records(incoming)) ==>
      RunBag(existing, incoming)[r] == multiset(Records(existing))[r]
    ensures existing == [] && incoming != [] ==> RunBag(existing, incoming)[r] == multiset(Records(incoming))[r]
  {
    UntouchedCount(Records(existing), IdsOf(Records(incoming)), r);
    UntouchedCount(Records(incoming), {}, r);
    hide Records;
  }

  lemma {:induction false} UntouchedCount(rs: seq<Record>, ids: set<nat>, r: Record)
    ensures Untouched(rs, ids)[r] == if r.id in ids then 0 else multiset(rs)[r]
    decreases |rs|
  {
    if rs != [] {
      UntouchedCount(rs[..|rs| - 1], ids, r);
      assert rs == rs[..|rs| - 1] + [rs[|rs| - 1]];
    }
  }

  /** The records are those of the files, file after file, each of the type its file has. */
  lemma RecordAt(files: seq<File>, f: nat, d: nat)
    requires f < |files| && d < |files[f].docs|
    ensures |Records(files[..f])| + d < |Records(files)|
    ensures Records(files)[|Records(files[..f])| + d]
            == Record(files[f].docs[d].0, Value(files[f].docs[d].1, files[f].kind))
    ensures |Records(files[..f + 1])| == |Records(files[..f])| + |files[f].docs|
  {
    RecordsStep(files, f);
    RecordsPrefix(files, f + 1);
  }

  lemma {:induction false} RecordsPrefix(files: seq<File>, f: nat)
    requires f <= |files|
    ensures |Records(files[..f])| <= |Records(files)|
    ensures Records(files)[..|Records(files[..f])|] == Records(files[..f])
    decreases |files|
  {
    if f < |files| {
      RecordsPrefix(files[..|files| - 1], f);
      assert files[..|files| - 1][..f] == files[..f];
    } else {
      assert files[..f] == files;
    }
  }

  // ---------------------------------------------------------------- the merger

  lemma RecordsStep(files: seq<File>, i: nat)
    requires i < |files|
    ensures Records(files[..i + 1]) == Records(files[..i]) + FileRecords(files[i])
  {
    assert files[..i + 1][..i] == files[..i];
  }

  lemma ScannedStep(stage: Stage, s: State, rs: seq<Record>, r: Record, m: nat, p: nat)
    requires m > 0
    ensures Scanned(stage, s, rs + [r], m, p) ==
      if r.id % m == p then Step(stage, Scanned(stage, s, rs, m, p), r) else Scanned(stage, s, rs, m, p)
  {
    assert (rs + [r])[..|rs|] == rs;
  }

  lemma FilePrefix(rs: seq<Record>, f: File, i: nat)
    requires i < |f.docs|
    ensures |FileRecords(f)| == |f.docs|
    ensures rs + FileRecords(f)[..i + 1] == rs + FileRecords(f)[..i] + [Record(f.docs[i].0, Value(f.docs[i].1, f.kind))]
  {
  }

  ghost function CacheBag(cache: map<nat, Value>, ids: set<nat>): multiset<Record> {
    multiset(set id | id in ids && id in cache :: Record(id, cache[id]))
  }

  lemma CacheBagStep(cache: map<nat, Value>, todo: set<nat>, id: nat)
    requires todo <= cache.Keys && id in todo
    ensures CacheBag(cache, cache.Keys - (todo - {id}))
            == CacheBag(cache, cache.Keys - todo) + multiset{Record(id, cache[id])}
  {
    var a := set x | x in cache.Keys - todo && x in cache :: Record(x, cache[x]);
    var b := set x | x in cache.Keys - (todo - {id}) && x in cache :: Record(x, cache[x]);
    assert b == a + {Record(id, cache[id])};
    assert Record(id, cache[id]) !in a;
  }

  /** The pass: what it writes. */
  lemma PassWrites(s: State, existing: seq<Record>, incoming: seq<Record>, m: nat, p: nat)
    requires m > 0 && s.cache == map[]
    ensures var t := Scanned(Incoming, Scanned(Existing, Scanned(Preprocess, s, incoming, m, p), existing, m, p),
            incoming, m, p);
            && Written(t.out) == Written(s.out) + Others(existing, IdsOf(incoming), m, p)
            && CacheBag(t.cache, t.cache.Keys) == ResultBag(existing, incoming, Class(incoming, m, p))
            && (NoNew(s.out) ==> NoNew(t.out))
  {
    var a := Scanned(Preprocess, s, incoming, m, p);
    var b := Scanned(Existing, a, existing, m, p);
    var t := Scanned(Incoming, b, incoming, m, p);
    PreprocessMarks(s, incoming, m, p);
    ExistingFolds(a, existing, m, p);
    ExistingPasses(a, existing, m, p);
    IncomingFolds(b, incoming, m, p);
    OthersOfClass(existing, incoming, m, p);
    assert t.cache.Keys == Class(incoming, m, p);
    assert (set id | id in t.cache.Keys && id in t.cache :: Record(id, t.cache[id]))
      == Results(existing, incoming, t.cache.Keys);
  }

  lemma {:induction false} OthersOfClass(existing: seq<Record>, incoming: seq<Record>, m: nat, p: nat)
    requires m > 0
    ensures Others(existing, Class(incoming, m, p), m, p) == Others(existing, IdsOf(incoming), m, p)
    decreases |existing|
  {
    if existing != [] { OthersOfClass(existing[..|existing| - 1], incoming, m, p); }
  }

  /** What a whole run writes. */
  ghost function RunBag(existing: seq<File>, incoming: seq<File>): multiset<Record> {
    if incoming == [] then multiset{}
    else if existing == [] then Untouched(Records(incoming), {})
    else Untouched(Records(existing), IdsOf(Records(incoming)))
         + ResultBag(Records(existing), Records(incoming), IdsOf(Records(incoming)))
  }

  /** ... after the first `p` passes. */
  ghost function PassesBag(existing: seq<File>, incoming: seq<File>, m: nat, p: nat): multiset<Record>
    requires m > 0
  {
    if existing == [] then Below(Records(incoming), {}, m, p)
    else Expected(Records(existing), Records(incoming), m, p)
  }

  /** ... in pass `p` alone. */
  ghost function PassBag(existing: seq<File>, incoming: seq<File>, m: nat, p: nat): multiset<Record>
    requires m > 0
  {
    if existing == [] then Others(Records(incoming), {}, m, p)
    else Others(Records(existing), IdsOf(Records(incoming)), m, p)
         + ResultBag(Records(existing), Records(incoming), Class(Records(incoming), m, p))
  }

  lemma PassesStep(existing: seq<File>, incoming: seq<File>, m: nat, p: nat)
    requires m > 0
    ensures PassesBag(existing, incoming, m, p + 1)
            == PassesBag(existing, incoming, m, p) + PassBag(existing, incoming, m, p)
  {
    if existing == [] {
      BelowStep(Records(incoming), {}, m, p);
    } else {
      ExpectedStep(Records(existing), Records(incoming), m, p);
    }
  }

  function DocCount(files: seq<File>): nat {
    if files == [] then 0 else DocCount(files[..|files| - 1]) + |files[|files| - 1].docs|
  }

  class Merger {
    var cache: map<nat, Value>
    var out: seq<Output>

    ghost function Now(): State
      reads this
    {
      State(cache, out)
    }

    constructor ()
      ensures cache == map[] && out == []
    {
      cache, out := map[], [];
    }

    method PreprocessOne(r: Record)
      modifies this
      ensures Now() == Step(Preprocess, old(Now()), r)
    {
      cache := cache[r.id := EMPTY_VALUE];
    }

    method ProcessE(r: Record)
      modifies this
      ensures Now() == Step(Existing, old(Now()), r)
    {
      if r.id !in cache {
        out := out + [Output(r, Exist)];
      } else {
        out := out + [Output(r, Old)];
        cache := cache[r.id := DefaultMerge(cache[r.id], r.value)];
      }
    }

    method Process(r: Record)
      modifies this
      ensures Now() == Step(Incoming, old(Now()), r)
    {
      if r.id !in cache {
        out := out + [Output(r, New)];
      } else {
        cache := cache[r.id := DefaultMerge(cache[r.id], r.value)];
      }
    }

    /** One scan over all files, document by document; `ValidM_` picks the residue class. */
    method Scan(stage: Stage, files: seq<File>, m: nat, p: nat)
      requires m > 0
      modifies this
      ensures Now() == Scanned(stage, old(Now()), Records(files), m, p)
    {
      ghost var start := Now();
      for i := 0 to |files|
        invariant Now() == Scanned(stage, start, Records(files[..i]), m, p)
      {
        RecordsStep(files, i);
        var f := files[i];
        assert Records(files[..i]) + FileRecords(f)[..0] == Records(files[..i]);
        for j := 0 to |f.docs|
          invariant Now() == Scanned(stage, start, Records(files[..i]) + FileRecords(f)[..j], m, p)
        {
          var r := Record(f.docs[j].0, Value(f.docs[j].1, f.kind));
          FilePrefix(Records(files[..i]), f, j);
          ScannedStep(stage, start, Records(files[..i]) + FileRecords(f)[..j], r, m, p);
          if r.id % m != p {
            continue;
          }
          match stage
          case Preprocess => PreprocessOne(r);
          case Existing => ProcessE(r);
          case Incoming => Process(r);
        }
        assert FileRecords(f)[..|f.docs|] == FileRecords(f);
      }
      assert files[..|files|] == files;
    }

    /** The end of a pass: the cache goes out, in the order of the hash table. */
    method MEnd()
      modifies this
      ensures cache == map[]
      ensures Written(out) == Written(old(out)) + CacheBag(old(cache), old(cache).Keys)
      ensures NoNew(old(out)) ==> NoNew(out)
    {
      var todo := cache.Keys;
      assert CacheBag(cache, {}) == multiset{};
      while todo != {}
        invariant todo <= cache.Keys && cache == old(cache)
        invariant Written(out) == Written(old(out)) + CacheBag(cache, cache.Keys - todo)
        invariant NoNew(old(out)) ==> NoNew(out)
        decreases todo
      {
        var id :| id in todo;
        CacheBagStep(cache, todo, id);
        WrittenMore(out, Output(Record(id, cache[id]), Replace));
        out := out + [Output(Record(id, cache[id]), Replace)];
        todo := todo - {id};
      }
      assert cache.Keys - {} == cache.Keys;
      cache := map[];
    }

    /** `m0` as set by the caller, 0 to have it computed from the number of new documents. The records
        written do not depend on it, and with existing files no record is put out as NEW. */
    method Run(existing: seq<File>, incoming: seq<File>, m0: nat)
      modifies this
      ensures Written(out) == Written(old(out)) + RunBag(existing, incoming)
      ensures existing != [] && NoNew(old(out)) ==> NoNew(out)
    {
      if incoming == [] {
        return;
      }
      var m := m0;
      if m == 0 {
        m := DocCount(incoming) / 1200000 + 1;
      }
      cache := map[];
      PassesStart(existing, incoming, m);
      for p := 0 to m
        invariant cache == map[]
        invariant Written(out) == Written(old(out)) + PassesBag(existing, incoming, m, p)
        invariant existing != [] && NoNew(old(out)) ==> NoNew(out)
      {
        PassesStep(existing, incoming, m, p);
        Pass(existing, incoming, m, p);
      }
      PassesEnd(existing, incoming, m);
    }

    method Pass(existing: seq<File>, incoming: seq<File>, m: nat, p: nat)
      requires cache == map[] && m > 0
      modifies this
      ensures cache == map[]
      ensures existing != [] && NoNew(old(out)) ==> NoNew(out)
      ensures Written(out) == Written(old(out)) + PassBag(existing, incoming, m, p)
    {
      ghost var s := Now();
      if existing != [] {
        Scan(Preprocess, incoming, m, p);
      }
      assert existing == [] ==> Records(existing) == [];
      Scan(Existing, existing, m, p);
      Scan(Incoming, incoming, m, p);
      PassStep(existing, incoming, m, p, s, Now());
      MEnd();
    }
  }

  lemma PassesStart(existing: seq<File>, incoming: seq<File>, m: nat)
    requires m > 0
    ensures PassesBag(existing, incoming, m, 0) == multiset{}
  {
    BelowStep(Records(incoming), {}, m, 0);
  }

  lemma PassesEnd(existing: seq<File>, incoming: seq<File>, m: nat)
    requires m > 0 && incoming != []
    ensures PassesBag(existing, incoming, m, m) == RunBag(existing, incoming)
  {
    if existing == [] {
      BelowStep(Records(incoming), {}, m, 0);
    } else {
      AllPasses(Records(existing), Records(incoming), m);
    }
  }

  lemma PassStep(existing: seq<File>, incoming: seq<File>, m: nat, p: nat, s: State, t: State)
    requires m > 0 && s.cache == map[]
    requires existing == [] ==> t == Scanned(Incoming, s, Records(incoming), m, p)
    requires existing != [] ==>
      t == Scanned(Incoming, Scanned(Existing, Scanned(Preprocess, s, Records(incoming), m, p),
                                     Records(existing), m, p), Records(incoming), m, p)
    ensures Written(t.out) + CacheBag(t.cache, t.cache.Keys) == Written(s.out) + PassBag(existing, incoming, m, p)
    ensures existing != [] && NoNew(s.out) ==> NoNew(t.out)
  {
    if existing == [] {
      IncomingPasses(s, Records(incoming), m, p);
      assert CacheBag(t.cache, t.cache.Keys) == multiset{};
    } else {
      PassWrites(s, Records(existing), Records(incoming), m, p);
    }
  }
}