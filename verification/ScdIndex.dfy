/** Building the SCD index in batches (`ScdIndexLeveldb`, `ScdIndex::build`): where the flushes fall
    does not matter. */
module ScdIndex {

  datatype Document = Document(offset: nat, docid: nat, property: string)

  /** docid -> offset, and property value -> offsets in document order */
  datatype Tables = Tables(docids: map<nat, nat>, properties: map<string, seq<nat>>)

  function Lookup(m: map<string, seq<nat>>, p: string): seq<nat> {
    if p in m then m[p] else []
  }

  /** The tables after inserting the documents directly, one after the other. */
  function Direct(docs: seq<Document>): Tables {
    if docs == [] then Tables(map[], map[]) else
      var t, d := Direct(docs[..|docs| - 1]), docs[|docs| - 1];
      Tables(t.docids[d.docid := d.offset], t.properties[d.property := Lookup(t.properties, d.property) + [d.offset]])
  }

  /** Direct insertion keeps the offset of the last document of a docid ... */
  lemma {:induction false} DirectDocid(docs: seq<Document>, i: nat)
    requires i < |docs| && forall j | i < j < |docs| :: docs[j].docid != docs[i].docid
    ensures docs[i].docid in Direct(docs).docids && Direct(docs).docids[docs[i].docid] == docs[i].offset
    decreases |docs|
  {
    if i < |docs| - 1 { DirectDocid(docs[..|docs| - 1], i); }
  }

  lemma {:induction false} DirectDocidsOnly(docs: seq<Document>, docid: nat)
    requires docid in Direct(docs).docids
    ensures exists i :: 0 <= i < |docs| && docs[i].docid == docid
    decreases |docs|
  {
    var n := |docs| - 1;
    if docs[n].docid != docid {
      DirectDocidsOnly(docs[..n], docid);
      var i :| 0 <= i < n && docs[..n][i].docid == docid;
      assert docs[i].docid == docid;
    }
  }

  /** ... and all offsets of a property, each behind those of the documents before it. */
  lemma DirectOffsets(docs: seq<Document>, p: string)
    ensures |Lookup(Direct(docs).properties, p)| == |set k: nat | k < |docs| && docs[k].property == p|
    ensures forall i: nat | i < |docs| && docs[i].property == p ::
      var at := |set k: nat | k < i && docs[k].property == p|;
      at < |Lookup(Direct(docs).properties, p)| && Lookup(Direct(docs).properties, p)[at] == docs[i].offset
  {
    hide Direct;
    DirectCount(docs, p);
    forall i: nat | i < |docs| && docs[i].property == p
      ensures var at := |set k: nat | k < i && docs[k].property == p|;
              at < |Lookup(Direct(docs).properties, p)| && Lookup(Direct(docs).properties, p)[at] == docs[i].offset
    {
      DirectAt(docs, p, i);
    }
  }

  lemma {:induction false} DirectCount(docs: seq<Document>, p: string)
    ensures |Lookup(Direct(docs).properties, p)| == |set k: nat | k < |docs| && docs[k].property == p|
    decreases |docs|
  {
    if docs != [] {
      DirectCount(docs[..|docs| - 1], p);
      OneMore(docs, docs[..|docs| - 1], p);
    }
  }

  lemma OneMore(docs: seq<Document>, short: seq<Document>, p: string)
    requires docs != [] && short == docs[..|docs| - 1]
    ensures |set k: nat | k < |docs| && docs[k].property == p|
            == |set k: nat | k < |short| && short[k].property == p|
               + if docs[|docs| - 1].property == p then 1 else 0
  {
    var n := |docs| - 1;
    var less := set k: nat | k < |short| && short[k].property == p;
    var all := set k: nat | k < |docs| && docs[k].property == p;
    assert forall k | 0 <= k < n :: short[k] == docs[k];
    if docs[n].property == p { assert all == less + {n}; } else { assert all == less; }
  }

  lemma {:induction false} DirectAt(docs: seq<Document>, p: string, i: nat)
    requires i < |docs| && docs[i].property == p
    ensures |set k: nat | k < i && docs[k].property == p| < |Lookup(Direct(docs).properties, p)|
    ensures Lookup(Direct(docs).properties, p)[|set k: nat | k < i && docs[k].property == p|] == docs[i].offset
    decreases |docs|
  {
    var n := |docs| - 1;
    if i == n {
      DirectCount(docs[..n], p);
      assert (set k: nat | k < n && docs[..n][k].property == p) == set k: nat | k < n && docs[k].property == p;
    } else {
      DirectAt(docs[..n], p, i);
      assert (set k: nat | k < i && docs[..n][k].property == p) == set k: nat | k < i && docs[k].property == p;
    }
  }

  /** Two property tables side by side, the second behind the first. */
  function Behind(a: map<string, seq<nat>>, b: map<string, seq<nat>>): map<string, seq<nat>> {
    map p | p in a.Keys + b.Keys :: Lookup(a, p) + Lookup(b, p)
  }

  ghost predicate UniqueDocids(docs: seq<Document>) {
    forall i, j | 0 <= i < j < |docs| :: docs[i].docid != docs[j].docid
  }

  class Index {
    var docidTable: map<nat, nat>
    var propertyTable: map<string, seq<nat>>
    var docidBuffer: map<nat, nat>
    var propertyBuffer: map<string, seq<nat>>

    /** What the tables will be once the buffers are flushed. */
    ghost function View(): Tables
      reads this
    {
      Tables(docidTable + docidBuffer, Behind(propertyTable, propertyBuffer))
    }

    constructor ()
      ensures View() == Direct([]) && docidBuffer == map[] && propertyBuffer == map[]
    {
      docidTable, propertyTable, docidBuffer, propertyBuffer := map[], map[], map[], map[];
    }

    method InsertProperty(property: string, offsets: seq<nat>)
      modifies this`propertyTable
      ensures propertyTable == old(propertyTable)[property := Lookup(old(propertyTable), property) + offsets]
    {
      propertyTable := propertyTable[property := Lookup(propertyTable, property) + offsets];
    }

    /** Unbuffered insertion. */
    method InsertDocument(d: Document)
      modifies this`docidTable, this`propertyTable
      ensures docidTable == old(docidTable)[d.docid := d.offset]
      ensures propertyTable == old(propertyTable)[d.property := Lookup(old(propertyTable), d.property) + [d.offset]]
    {
      docidTable := docidTable[d.docid := d.offset];
      InsertProperty(d.property, [d.offset]);
    }

    /** Buffered insertion. `std::map::insert` keeps an entry that is already there. */
    method InsertBatch(d: Document)
      modifies this
      ensures docidTable == old(docidTable) && propertyTable == old(propertyTable)
      ensures docidBuffer == if d.docid in old(docidBuffer) then old(docidBuffer)
               else old(docidBuffer)[d.docid := d.offset]
      ensures propertyBuffer == old(propertyBuffer)[d.property := Lookup(old(propertyBuffer), d.property) + [d.offset]]
    {
      if d.docid !in docidBuffer {
        docidBuffer := docidBuffer[d.docid := d.offset];
      }
      propertyBuffer := propertyBuffer[d.property := Lookup(propertyBuffer, d.property) + [d.offset]];
    }

    /** Flushing changes nothing but where the entries are. */
    method Flush()
      modifies this
      ensures docidBuffer == map[] && propertyBuffer == map[]
      ensures View() == old(View())
    {
      var todo := docidBuffer.Keys;
      while todo != {}
        invariant todo <= docidBuffer.Keys
        invariant docidTable == old(docidTable) + (docidBuffer - todo)
        invariant unchanged(`propertyTable) && unchanged(`docidBuffer) && unchanged(`propertyBuffer)
        decreases todo
      {
        var k :| k in todo;
        docidTable := docidTable[k := docidBuffer[k]];
        todo := todo - {k};
      }
      assert docidBuffer - {} == docidBuffer;
      docidBuffer := map[];
      var props := propertyBuffer.Keys;
      assert Behind(propertyTable, map[]) == propertyTable by { NothingBehind(propertyTable); }
      while props != {}
        invariant props <= propertyBuffer.Keys
        invariant propertyTable == Behind(old(propertyTable), propertyBuffer - props)
        invariant unchanged(`propertyBuffer) && docidBuffer == map[] && docidTable == old(docidTable) + old(docidBuffer)
        decreases props
      {
        var p :| p in props;
        BehindStep(old(propertyTable), propertyBuffer, props, p);
        InsertProperty(p, propertyBuffer[p]);
        props := props - {p};
      }
      assert propertyBuffer - {} == propertyBuffer;
      NothingBehind(propertyTable);
      propertyBuffer := map[];
    }
  }

  lemma NothingBehind(a: map<string, seq<nat>>)
    ensures Behind(a, map[]) == a
  {
    assert forall p | p in a :: Lookup(a, p) + [] == a[p];
    assert Behind(a, map[]).Keys == a.Keys;
  }

  lemma BehindStep(a: map<string, seq<nat>>, b: map<string, seq<nat>>, todo: set<string>, p: string)
    requires p in todo && todo <= b.Keys
    ensures var done := Behind(a, b - todo);
            done[p := Lookup(done, p) + b[p]] == Behind(a, b - (todo - {p}))
  {
    var done, more := Behind(a, b - todo), Behind(a, b - (todo - {p}));
    assert Lookup(done, p) == Lookup(a, p);
    assert done.Keys + {p} == more.Keys;
  }

  /** Buffering a document and inserting it directly do the same to the property table, repeated
      docids or not. */
  lemma BatchView(pt: map<string, seq<nat>>, pb: map<string, seq<nat>>, d: Document)
    ensures Behind(pt, pb[d.property := Lookup(pb, d.property) + [d.offset]])
            == Behind(pt, pb)[d.property := Lookup(Behind(pt, pb), d.property) + [d.offset]]
  {
    assert Lookup(Behind(pt, pb), d.property) == Lookup(pt, d.property) + Lookup(pb, d.property);
    assert Lookup(pt, d.property) + (Lookup(pb, d.property) + [d.offset])
           == Lookup(pt, d.property) + Lookup(pb, d.property) + [d.offset];
  }

  /** Building without batches. */
  method BuildDirectly(docs: seq<Document>) returns (index: Index)
    ensures Tables(index.docidTable, index.propertyTable) == Direct(docs)
  {
    index := new Index();
    NothingBehind(index.propertyTable);
    for i := 0 to |docs|
      invariant Tables(index.docidTable, index.propertyTable) == Direct(docs[..i])
    {
      assert docs[..i + 1][..i] == docs[..i];
      index.InsertDocument(docs[i]);
    }
    assert docs[..|docs|] == docs;
  }

  // ---------------------------------------------------------------- building in batches

  /** No flush behind any of the documents from `i` up to `j`. */
  ghost predicate Quiet(flushAt: nat -> bool, i: nat, j: nat) {
    forall x: nat | i <= x < j :: !flushAt(x)
  }

  /** Of the first `n` documents, one with docid `k` is still buffered. */
  ghost predicate Pending(docs: seq<Document>, flushAt: nat -> bool, n: nat, k: nat)
    requires n <= |docs|
  {
    exists i: nat :: i < n && docs[i].docid == k && Quiet(flushAt, i, n)
  }

  /** The last of the first `n` documents with docid `k` came while another one was buffered. */
  ghost predicate Overtaken(docs: seq<Document>, flushAt: nat -> bool, n: nat, k: nat)
    requires n <= |docs|
  {
    exists i: nat, j: nat :: i < j < n && docs[i].docid == docs[j].docid == k && Quiet(flushAt, i, j)
                             && forall x: nat | j < x < n :: docs[x].docid != k
  }

  lemma OvertakenStep(docs: seq<Document>, flushAt: nat -> bool, n: nat, k: nat)
    requires n < |docs|
    ensures Overtaken(docs, flushAt, n + 1, k)
            <==> if docs[n].docid == k then Pending(docs, flushAt, n, k) else Overtaken(docs, flushAt, n, k)
  {
    if docs[n].docid == k {
      if Pending(docs, flushAt, n, k) {
        var i: nat :| i < n && docs[i].docid == k && Quiet(flushAt, i, n);
        assert i < n < n + 1;
      }
    }
  }

  lemma PendingStep(docs: seq<Document>, flushAt: nat -> bool, n: nat, k: nat)
    requires n < |docs|
    ensures Pending(docs, flushAt, n + 1, k) <==> !flushAt(n) && (docs[n].docid == k || Pending(docs, flushAt, n, k))
  {
    if !flushAt(n) {
      assert Quiet(flushAt, n, n + 1);
      if Pending(docs, flushAt, n, k) {
        var i: nat :| i < n && docs[i].docid == k && Quiet(flushAt, i, n);
        assert Quiet(flushAt, i, n + 1);
      }
    }
    if Pending(docs, flushAt, n + 1, k) {
      var i: nat :| i < n + 1 && docs[i].docid == k && Quiet(flushAt, i, n + 1);
      assert !flushAt(n) && Quiet(flushAt, i, n);
    }
  }

  ghost predicate DistinctOffsets(docs: seq<Document>) {
    forall i, j | 0 <= i < j < |docs| :: docs[i].offset != docs[j].offset
  }

  /** The buffer holds an earlier offset for each pending docid. */
  ghost predicate Buffered(docs: seq<Document>, flushAt: nat -> bool, n: nat, buffer: map<nat, nat>,
                           view: map<nat, nat>)
    requires n <= |docs|
  {
    && (forall k: nat :: k in buffer <==> Pending(docs, flushAt, n, k))
    && (forall k | k in buffer :: k in view && view[k] == buffer[k])
    && (forall k | k in buffer :: exists i :: 0 <= i < n && docs[i].offset == buffer[k])
  }

  /** The offsets seen are those of direct insertion except for the overtaken docids. */
  ghost predicate Seen(docs: seq<Document>, flushAt: nat -> bool, n: nat, view: map<nat, nat>)
    requires n <= |docs|
  {
    && view.Keys == Direct(docs[..n]).docids.Keys
    && (forall k | k in view :: view[k] == Direct(docs[..n]).docids[k] <==> !Overtaken(docs, flushAt, n, k))
  }

  ghost predicate Batched(docs: seq<Document>, flushAt: nat -> bool, n: nat, buffer: map<nat, nat>, view: map<nat, nat>)
    requires n <= |docs|
  {
    Buffered(docs, flushAt, n, buffer, view) && Seen(docs, flushAt, n, view)
  }

  function AfterInsert(buffer: map<nat, nat>, d: Document): map<nat, nat> {
    if d.docid in buffer then buffer else buffer[d.docid := d.offset]
  }

  function AfterView(buffer: map<nat, nat>, view: map<nat, nat>, d: Document): map<nat, nat> {
    if d.docid in buffer then view else view[d.docid := d.offset]
  }

  lemma BufferedStep(docs: seq<Document>, flushAt: nat -> bool, n: nat, buffer: map<nat, nat>, view: map<nat, nat>)
    requires n < |docs| && Buffered(docs, flushAt, n, buffer, view)
    ensures Buffered(docs, flushAt, n + 1, if flushAt(n) then map[] else AfterInsert(buffer, docs[n]),
                     AfterView(buffer, view, docs[n]))
  {
    forall k: nat
      ensures Pending(docs, flushAt, n + 1, k) <==> !flushAt(n) && (docs[n].docid == k || Pending(docs, flushAt, n, k))
    {
      PendingStep(docs, flushAt, n, k);
    }
    hide Pending;
  }

  lemma SeenStep(docs: seq<Document>, flushAt: nat -> bool, n: nat, buffer: map<nat, nat>, view: map<nat, nat>)
    requires n < |docs| && DistinctOffsets(docs)
    requires Buffered(docs, flushAt, n, buffer, view) && Seen(docs, flushAt, n, view)
    ensures Seen(docs, flushAt, n + 1, AfterView(buffer, view, docs[n]))
  {
    assert docs[..n + 1][..n] == docs[..n];
    forall k: nat
      ensures Overtaken(docs, flushAt, n + 1, k)
              <==> if docs[n].docid == k then Pending(docs, flushAt, n, k) else Overtaken(docs, flushAt, n, k)
    {
      OvertakenStep(docs, flushAt, n, k);
    }
    hide Pending, Overtaken;
  }

  lemma BatchedStart(docs: seq<Document>, flushAt: nat -> bool)
    ensures Batched(docs, flushAt, 0, map[], map[])
  {
    assert docs[..0] == [];
  }

  /** The view of the docids after one more buffered document. */
  lemma DocidView(t: map<nat, nat>, b: map<nat, nat>, d: Document)
    ensures t + AfterInsert(b, d) == AfterView(b, t + b, d)
  {
  }

  /** Building with a flush wherever `flushAt` says, and one at the end. The property table is always
      that of direct insertion; the docid table is exactly if no docid was overtaken. */
  method BuildFlushing(docs: seq<Document>, flushAt: nat -> bool) returns (index: Index)
    requires DistinctOffsets(docs)
    ensures index.docidBuffer == map[] && index.propertyBuffer == map[]
    ensures index.propertyTable == Direct(docs).properties
    ensures index.docidTable == Direct(docs).docids <==> forall k: nat :: !Overtaken(docs, flushAt, |docs|, k)
  {
    hide Overtaken, Pending, Buffered, Seen;
    index := new Index();
    BatchedStart(docs, flushAt);
    NothingBehind(index.propertyTable);
    for i := 0 to |docs|
      invariant Behind(index.propertyTable, index.propertyBuffer) == Direct(docs[..i]).properties
      invariant Batched(docs, flushAt, i, index.docidBuffer, index.docidTable + index.docidBuffer)
    {
      assert docs[..i + 1][..i] == docs[..i];
      BufferedStep(docs, flushAt, i, index.docidBuffer, index.docidTable + index.docidBuffer);
      SeenStep(docs, flushAt, i, index.docidBuffer, index.docidTable + index.docidBuffer);
      DocidView(index.docidTable, index.docidBuffer, docs[i]);
      BatchView(index.propertyTable, index.propertyBuffer, docs[i]);
      index.InsertBatch(docs[i]);
      if flushAt(i) {
        index.Flush();
      }
    }
    assert docs[..|docs|] == docs;
    BatchedEnd(docs, flushAt, index.docidBuffer, index.docidTable + index.docidBuffer);
    index.Flush();
    NothingBehind(index.propertyTable);
  }

  lemma BatchedEnd(docs: seq<Document>, flushAt: nat -> bool, buffer: map<nat, nat>, view: map<nat, nat>)
    requires Batched(docs, flushAt, |docs|, buffer, view)
    ensures view == Direct(docs).docids <==> forall k: nat :: !Overtaken(docs, flushAt, |docs|, k)
  {
    assert docs[..|docs|] == docs;
    forall k: nat | Overtaken(docs, flushAt, |docs|, k) ensures k in view {
      var i: nat, j: nat :| i < j < |docs| && docs[i].docid == docs[j].docid == k;
      DirectKnows(docs, j);
    }
  }

  lemma {:induction false} DirectKnows(docs: seq<Document>, j: nat)
    requires j < |docs|
    ensures docs[j].docid in Direct(docs).docids
    decreases |docs|
  {
    if j < |docs| - 1 { DirectKnows(docs[..|docs| - 1], j); }
  }

  /** Unique docids are never overtaken: the tables are those of direct insertion wherever the flushes
      fall, in particular with one every `flushCount` documents. */
  method Build(docs: seq<Document>, flushCount: nat) returns (index: Index)
    requires flushCount > 0 && DistinctOffsets(docs)
    ensures index.docidBuffer == map[] && index.propertyBuffer == map[]
    ensures UniqueDocids(docs) ==> Tables(index.docidTable, index.propertyTable) == Direct(docs)
  {
    index := BuildFlushing(docs, (i: nat) => (i + 1) % flushCount == 0);
  }

  /** Two documents with one docid and no flush between them: the batch keeps the first offset, direct
      insertion the last. */
  lemma RepeatedDocidDiffers(k: nat, first: nat, second: nat, p: string)
    requires first != second
    ensures Overtaken([Document(first, k, p), Document(second, k, p)], _ => false, 2, k)
    ensures Direct([Document(first, k, p), Document(second, k, p)]).docids == map[k := second]
    ensures Buffered([Document(first, k, p), Document(second, k, p)], _ => false, 2, map[k := first], map[k := first])
  {
    var docs, never := [Document(first, k, p), Document(second, k, p)], (_: nat) => false;
    assert docs[..1] == [docs[0]] && docs[..1][..0] == [];
    assert Direct(docs[..1][..0]) == Tables(map[], map[]);
    assert Direct(docs[..1]).docids == map[k := first];
    assert Quiet(never, 0, 1) && Quiet(never, 0, 2);
    assert Overtaken(docs, never, 2, k) by { assert 0 < 1 < 2; }
    assert Pending(docs, never, 2, k) by { assert docs[0].docid == k; }
    forall x: nat ensures x in map[k := first] <==> Pending(docs, never, 2, x) {
      if Pending(docs, never, 2, x) {
        var i: nat :| i < 2 && docs[i].docid == x && Quiet(never, i, 2);
      }
    }
    assert docs[0].offset == first;
  }
}
