/** Document identity in the index worker: creating, updating and destroying documents through the API
    refines a map from DOCID to (properties, filter values, live or destroyed). */
module IndexWorker {
  import opened NumericPropertyTable
  import opened RTypeColumns
  import opened ScdDocument

  const DOCID := "DOCID"

  type Doc = map<string, string>

  datatype Kind = Text | Number | SubDoc

  datatype PropertyConfig = PropertyConfig(kind: Kind, analyzer: bool, index: bool, filter: bool, multi: bool,
                                           rtype: bool) {
    predicate IsAnalyzed() { kind.Text? && analyzer }

    predicate IsRTypeString() { kind.Text? && rtype && !IsAnalyzed() }

    /** `checkUpdateType_` passes over these. */
    predicate IsFilterOnly() { IsRTypeString() || (index && !IsAnalyzed() && filter && !kind.Text?) }

    /** `prepareDocument_` writes these to a column and not into the document. */
    predicate IsColumn() { IsNumberColumn() || IsRTypeString() }

    predicate IsNumberColumn() { kind.Number? && filter && !multi }
  }

  /** The schema of the collection, and for each column its reserved value and how its texts are read. */
  datatype Collection = Collection(schema: map<string, PropertyConfig>, invalid: map<string, int>,
                                   parse: string -> string -> Option<int>) {
    ghost predicate Valid() {
      && DOCID in schema
      && (forall n | n in schema && IsDocid(n) :: !schema[n].IsColumn())
      && (forall n | n in schema && schema[n].IsNumberColumn() :: schema[n].index)
      && (forall n :: n in invalid <==> n in schema && schema[n].IsNumberColumn())
    }

    function TextNames(): set<string> { set n | n in schema && schema[n].IsRTypeString() }

    /** The properties whose values are kept beside the document. */
    function ColumnNames(): set<string> { invalid.Keys + TextNames() }

    /** What a text stands for in column `n`, if it can be read. */
    function Reads(n: string, text: string): Option<Option<Value>> {
      if n in invalid then ReadNumber(invalid[n], parse(n)(text)) else ReadText(text)
    }

    /** No value in any column. */
    function EmptyRow(): Row { map n | n in ColumnNames() :: None }
  }

  // ---------------------------------------------------------------- one SCD document

  predicate IsStored(c: Collection, name: string) {
    name in c.schema && (IsDocid(name) || !c.schema[name].IsColumn())
  }

  /** The properties that go into the document. */
  function StoredOf(c: Collection, doc: seq<Property>): Doc
    decreases |doc|
  {
    if doc == [] then map[] else
      var m, p := StoredOf(c, doc[..|doc| - 1]), doc[|doc| - 1];
      if IsStored(c, p.name) then m[p.name := p.text] else m
  }

  /** The column values of the document while its properties are worked off one by one; the DOCID
      brings along the values `source` of the old version. */
  function RowAfter(c: Collection, doc: seq<Property>, row: Row, source: Row): Row
    decreases |doc|
  {
    if doc == [] then row else
      var r, p := RowAfter(c, doc[..|doc| - 1], row, source), doc[|doc| - 1];
      if p.name !in c.schema then r
      else if IsDocid(p.name) then Over(r, source)
      else if p.name in c.ColumnNames() then Supplied(r, p.name, c.Reads(p.name, p.text))
      else r
  }

  /** The value the document gives for column `n`. */
  function Given(c: Collection, doc: seq<Property>, n: string): Option<Option<Value>>
    decreases |doc|
  {
    if doc == [] then None else
      var p := doc[|doc| - 1];
      if p.name == n && c.Reads(n, p.text).Some? then c.Reads(n, p.text)
      else Given(c, doc[..|doc| - 1], n)
  }

  /** The old values, except where the document gives new ones. */
  function Carried(c: Collection, doc: seq<Property>, old_: Row): Row {
    map n | n in old_ ::
      if n in c.ColumnNames() && Given(c, doc, n).Some? then Given(c, doc, n).value else old_[n]
  }

  ghost predicate NoDocid(doc: seq<Property>) {
    forall i | 0 <= i < |doc| :: !IsDocid(doc[i].name)
  }

  /** Without a DOCID nothing is brought along. */
  lemma {:induction false} RowPlain(c: Collection, doc: seq<Property>, row: Row, source: Row)
    requires c.Valid() && NoDocid(doc) && row.Keys == c.ColumnNames()
    ensures RowAfter(c, doc, row, source) == Carried(c, doc, row)
    decreases |doc|
  {
    if doc != [] {
      var n := |doc| - 1;
      assert NoDocid(doc[..n]);
      RowPlain(c, doc[..n], row, source);
    }
  }

  lemma {:induction false} RowSplit(c: Collection, a: seq<Property>, b: seq<Property>, row: Row, source: Row)
    ensures RowAfter(c, a + b, row, source) == RowAfter(c, b, RowAfter(c, a, row, source), source)
    decreases |b|
  {
    if b == [] {
      assert a + b == a;
    } else {
      var n := |b| - 1;
      assert (a + b)[..|a + b| - 1] == a + b[..n];
      RowSplit(c, a, b[..n], row, source);
    }
  }

  /** Another spelling of DOCID that is no property of the collection brings nothing along either. */
  lemma RowUnknown(c: Collection, doc: seq<Property>, row: Row, source: Row)
    requires c.Valid() && doc != [] && IsDocid(doc[0].name) && doc[0].name !in c.schema && NoDocid(doc[1..])
    requires row.Keys == c.ColumnNames()
    ensures RowAfter(c, doc, row, source) == Carried(c, doc, row)
  {
    assert [doc[0]] + doc[1..] == doc;
    RowSplit(c, [doc[0]], doc[1..], row, source);
    assert [doc[0]][..0] == [];
    RowPlain(c, doc[1..], row, source);
    CarriedTail(c, doc, row);
  }

  /** In general: values given before the DOCID lose against the old version's, those behind it win. */
  lemma RowAround(c: Collection, a: seq<Property>, docid: Property, b: seq<Property>, row: Row, source: Row)
    requires c.Valid() && NoDocid(a) && NoDocid(b) && IsDocid(docid.name) && docid.name in c.schema
    requires row.Keys == c.ColumnNames()
    ensures RowAfter(c, a + [docid] + b, row, source) == Carried(c, b, Over(Carried(c, a, row), source))
  {
    RowPlain(c, a, row, source);
    RowSplit(c, a + [docid], b, row, source);
    assert (a + [docid])[..|a + [docid]| - 1] == a;
    RowPlain(c, b, Over(Carried(c, a, row), source), source);
  }

  /** Behind a leading DOCID: the given value if it can be read, else the old one. */
  lemma RowCarried(c: Collection, doc: seq<Property>, row: Row, source: Row)
    requires c.Valid() && doc != [] && IsDocid(doc[0].name) && doc[0].name in c.schema && NoDocid(doc[1..])
    requires row.Keys == c.ColumnNames()
    ensures RowAfter(c, doc, row, source) == Carried(c, doc, Over(row, source))
  {
    var a: seq<Property>, b := [], doc[1..];
    assert a + [doc[0]] + b == doc;
    assert Carried(c, a, row) == row;
    hide RowAfter, Over, Given;
    RowAround(c, a, doc[0], b, row, source);
    CarriedTail(c, doc, Over(row, source));
  }

  lemma CarriedTail(c: Collection, doc: seq<Property>, old_: Row)
    requires c.Valid() && doc != [] && IsDocid(doc[0].name)
    ensures Carried(c, doc[1..], old_) == Carried(c, doc, old_)
  {
    forall n | n in c.ColumnNames() ensures Given(c, doc[1..], n) == Given(c, doc, n) { GivenTail(c, doc, n); }
  }

  lemma {:induction false} GivenTail(c: Collection, doc: seq<Property>, n: string)
    requires doc != [] && doc[0].name != n
    ensures Given(c, doc[1..], n) == Given(c, doc, n)
    decreases |doc|
  {
    if |doc| > 1 {
      var k := |doc| - 1;
      assert doc[1..][..k - 1] == doc[..k][1..];
      GivenTail(c, doc[..k], n);
    }
  }

  // ---------------------------------------------------------------- what is kept, by the schema alone

  /** A property in the document: some spelling of DOCID, a subdocument, a text that is analyzed or no rtype,
      a number that is not filtered by or has several values. */
  lemma StoredName(c: Collection, name: string)
    requires name in c.schema
    ensures IsStored(c, name) <==>
      || IsDocid(name)
      || c.schema[name].kind.SubDoc?
      || (c.schema[name].kind.Text? && (c.schema[name].analyzer || !c.schema[name].rtype))
      || (c.schema[name].kind.Number? && (!c.schema[name].filter || c.schema[name].multi))
  {
  }

  /** The document holds exactly the supplied properties of these kinds ... */
  lemma {:induction false} StoredNames(c: Collection, doc: seq<Property>, name: string)
    ensures name in StoredOf(c, doc) <==>
      && (exists i :: 0 <= i < |doc| && doc[i].name == name)
      && name in c.schema
      && (|| IsDocid(name)
          || c.schema[name].kind.SubDoc?
          || (c.schema[name].kind.Text? && (c.schema[name].analyzer || !c.schema[name].rtype))
          || (c.schema[name].kind.Number? && (!c.schema[name].filter || c.schema[name].multi)))
    decreases |doc|
  {
    if doc != [] {
      var n := |doc| - 1;
      StoredNames(c, doc[..n], name);
      if name in c.schema { StoredName(c, name); }
      hide IsStored, IsDocid;
      if i :| 0 <= i < |doc| && doc[i].name == name { assert i < n ==> doc[..n][i].name == name; }
      assert forall i | 0 <= i < n :: doc[..n][i] == doc[i];
    }
  }

  /** ... each with the text supplied last. */
  lemma {:induction false} StoredText(c: Collection, doc: seq<Property>, i: nat)
    requires i < |doc| && doc[i].name in StoredOf(c, doc)
    requires forall j | i < j < |doc| :: doc[j].name != doc[i].name
    ensures StoredOf(c, doc)[doc[i].name] == doc[i].text
    decreases |doc|
  {
    var n := |doc| - 1;
    if i < n {
      StoredText(c, doc[..n], i);
    } else {
      StoredNames(c, doc, doc[i].name);
      StoredName(c, doc[i].name);
    }
  }

  lemma StoredIs(c: Collection, doc: seq<Property>)
    ensures forall name ::
      name in StoredOf(c, doc) <==>
        && (exists i :: 0 <= i < |doc| && doc[i].name == name)
        && name in c.schema
        && (|| IsDocid(name)
            || c.schema[name].kind.SubDoc?
            || (c.schema[name].kind.Text? && (c.schema[name].analyzer || !c.schema[name].rtype))
            || (c.schema[name].kind.Number? && (!c.schema[name].filter || c.schema[name].multi)))
    ensures forall i | 0 <= i < |doc| && doc[i].name in StoredOf(c, doc) ::
      (forall j | i < j < |doc| :: doc[j].name != doc[i].name) ==> StoredOf(c, doc)[doc[i].name] == doc[i].text
  {
    forall name
      ensures name in StoredOf(c, doc) <==>
        && (exists i :: 0 <= i < |doc| && doc[i].name == name)
        && name in c.schema
        && (|| IsDocid(name)
            || c.schema[name].kind.SubDoc?
            || (c.schema[name].kind.Text? && (c.schema[name].analyzer || !c.schema[name].rtype))
            || (c.schema[name].kind.Number? && (!c.schema[name].filter || c.schema[name].multi)))
    {
      StoredNames(c, doc, name);
    }
    hide StoredOf, IsDocid;
    forall i | 0 <= i < |doc| && doc[i].name in StoredOf(c, doc)
      ensures (forall j | i < j < |doc| :: doc[j].name != doc[i].name) ==> StoredOf(c, doc)[doc[i].name] == doc[i].text
    {
      if forall j | i < j < |doc| :: doc[j].name != doc[i].name { StoredText(c, doc, i); }
    }
  }

  /** What the last readable text for `n` stands for. */
  lemma {:induction false} GivenAt(c: Collection, doc: seq<Property>, n: string, i: nat)
    requires i < |doc| && doc[i].name == n && c.Reads(n, doc[i].text).Some?
    requires forall j | i < j < |doc| && doc[j].name == n :: c.Reads(n, doc[j].text).None?
    ensures Given(c, doc, n) == c.Reads(n, doc[i].text)
    decreases |doc|
  {
    if i < |doc| - 1 { GivenAt(c, doc[..|doc| - 1], n, i); }
  }

  lemma {:induction false} GivenNot(c: Collection, doc: seq<Property>, n: string)
    requires forall j | 0 <= j < |doc| && doc[j].name == n :: c.Reads(n, doc[j].text).None?
    ensures Given(c, doc, n).None?
    decreases |doc|
  {
    if doc != [] { GivenNot(c, doc[..|doc| - 1], n); }
  }

  /** Which properties are columns at all. */
  lemma ColumnsAre(c: Collection, n: string)
    requires c.Valid()
    ensures n in c.ColumnNames() <==>
      && n in c.schema
      && (|| (c.schema[n].kind.Number? && c.schema[n].filter && !c.schema[n].multi)
          || (c.schema[n].kind.Text? && c.schema[n].rtype && !c.schema[n].analyzer))
    ensures n in c.invalid <==>
      n in c.schema && c.schema[n].kind.Number? && c.schema[n].filter && !c.schema[n].multi
  {
  }

  // ---------------------------------------------------------------- the kind of update

  predicate ForcesNewVersion(c: Collection, p: Property) {
    && !IsDocid(p.name) && p.text != "" && p.name in c.schema
    && !c.schema[p.name].IsFilterOnly()
  }

  /** A general update, which makes a new version of the document, as opposed to one that only writes
      filter values in place. */
  predicate IsGeneral(c: Collection, doc: seq<Property>) {
    exists i | 0 <= i < |doc| :: ForcesNewVersion(c, doc[i])
  }

  /** By the schema: some property that is not empty and no spelling of DOCID is no rtype text, and is not
      indexed, or analyzed, or no filter number or subdocument. */
  lemma GeneralIs(c: Collection, doc: seq<Property>)
    ensures IsGeneral(c, doc) <==>
      exists i ::
        && 0 <= i < |doc| && !IsDocid(doc[i].name) && doc[i].text != "" && doc[i].name in c.schema
        && var s := c.schema[doc[i].name];
           && !(s.kind.Text? && s.rtype && !s.analyzer)
           && (!s.index || (s.kind.Text? && s.analyzer) || !(s.filter && !s.kind.Text?))
  {
    forall i | 0 <= i < |doc|
      ensures ForcesNewVersion(c, doc[i]) <==>
        && !IsDocid(doc[i].name) && doc[i].text != "" && doc[i].name in c.schema
        && var s := c.schema[doc[i].name];
           && !(s.kind.Text? && s.rtype && !s.analyzer)
           && (!s.index || (s.kind.Text? && s.analyzer) || !(s.filter && !s.kind.Text?))
    {
    }
    hide ForcesNewVersion, IsDocid;
  }

  method CheckUpdateType(c: Collection, doc: seq<Property>) returns (general: bool)
    ensures general <==> IsGeneral(c, doc)
    ensures general <==>
      exists i ::
        && 0 <= i < |doc| && !IsDocid(doc[i].name) && doc[i].text != "" && doc[i].name in c.schema
        && var s := c.schema[doc[i].name];
           && !(s.kind.Text? && s.rtype && !s.analyzer)
           && (!s.index || (s.kind.Text? && s.analyzer) || !(s.filter && !s.kind.Text?))
  {
    GeneralIs(c, doc);
    for i := 0 to |doc|
      invariant forall j | 0 <= j < i :: !ForcesNewVersion(c, doc[j])
    {
      var p := doc[i];
      if !IsDocid(p.name) && p.text != "" && p.name in c.schema && !c.schema[p.name].IsRTypeString() {
        if c.schema[p.name].index {
          if c.schema[p.name].IsAnalyzed() {
            assert ForcesNewVersion(c, doc[i]);
            return true;
          } else if !(c.schema[p.name].filter && !c.schema[p.name].kind.Text?) {
            assert ForcesNewVersion(c, doc[i]);
            return true;
          }
        } else {
          assert ForcesNewVersion(c, doc[i]);
          return true;
        }
      }
    }
    general := false;
  }

  // ---------------------------------------------------------------- the stores and what each call does

  /** The id table, the newest docid, the stored documents, the delete filter and the column values of
      every docid handed out. Documents without a docid of their own end up under 0. */
  datatype Db = Db(ids: map<string, nat>, last: nat, docs: map<nat, Doc>, deleted: set<nat>, rows: seq<Row>)

  ghost predicate Rooted(db: Db, id: nat) {
    exists k :: k in db.ids && db.ids[k] == id
  }

  /** Docids of different DOCIDs differ, every document that is not deleted is the one its DOCID stands for,
      and a document that bears a DOCID bears its own. */
  ghost predicate Inv(c: Collection, db: Db) {
    && |db.rows| == db.last + 1
    && (forall i | 0 <= i < |db.rows| :: db.rows[i].Keys == c.ColumnNames())
    && (forall id | id in db.docs :: id <= db.last)
    && (forall id | id in db.deleted :: 0 < id <= db.last)
    && (forall k | k in db.ids :: 0 < db.ids[k] <= db.last && Bears(db, db.ids[k], k))
    && (forall k, l | k in db.ids && l in db.ids && k != l :: db.ids[k] != db.ids[l])
    && (forall id | id in db.docs && id != 0 && id !in db.deleted :: Rooted(db, id))
  }

  ghost predicate Bears(db: Db, id: nat, key: string) {
    id in db.docs && DOCID in db.docs[id] ==> db.docs[id][DOCID] == key
  }

  /** Two documents that are not deleted never share a DOCID. */
  lemma OneLiveVersion(c: Collection, db: Db, i: nat, j: nat)
    requires Inv(c, db) && i != 0 && j != 0
    requires i in db.docs && i !in db.deleted && j in db.docs && j !in db.deleted
    requires DOCID in db.docs[i] && DOCID in db.docs[j] && db.docs[i][DOCID] == db.docs[j][DOCID]
    ensures i == j
  {
    assert Rooted(db, i) && Rooted(db, j);
    var k :| k in db.ids && db.ids[k] == i;
    var l :| l in db.ids && db.ids[l] == j;
    assert Bears(db, i, k) && Bears(db, j, l);
  }

  /** What the API makes of a value: some spelling of DOCID comes first, and no other one is left. */
  ghost predicate ForKey(key: string, doc: seq<Property>) {
    && doc != [] && IsDocid(doc[0].name) && (doc[0].name == DOCID ==> doc[0].text == key)
    && NoDocid(doc[1..])
  }

  /** Only a DOCID that is a property of the collection gives a document its docid. */
  predicate Stamped(c: Collection, doc: seq<Property>) {
    exists i | 0 <= i < |doc| :: IsDocid(doc[i].name) && doc[i].name in c.schema
  }

  lemma StampedIs(c: Collection, doc: seq<Property>)
    ensures Stamped(c, doc) <==> exists i :: 0 <= i < |doc| && IsDocid(doc[i].name) && doc[i].name in c.schema
  {
  }

  /** The docid under which a document that is to get docid `id` is stored. */
  function Place(c: Collection, doc: seq<Property>, id: nat): nat {
    if Stamped(c, doc) then id else 0
  }

  /** A first version for `key`. */
  function Inserted(c: Collection, db: Db, key: string, doc: seq<Property>): Db {
    var id := db.last + 1;
    var row := RowAfter(c, doc, c.EmptyRow(), c.EmptyRow());
    Db(db.ids[key := id], id, db.docs[Place(c, doc, id) := StoredOf(c, doc)], db.deleted, db.rows + [row])
  }

  function Create(c: Collection, db: Db, key: string, doc: seq<Property>): (bool, Db) {
    if key in db.ids && db.ids[key] !in db.deleted then (false, db) else (true, Inserted(c, db, key, doc))
  }

  ghost predicate Known(db: Db, key: string) {
    key in db.ids ==> db.ids[key] < |db.rows|
  }

  /** The new version of document `key`; without an old one there is nothing to merge with. */
  function NewVersion(c: Collection, db: Db, key: string, doc: seq<Property>): (bool, Db)
    requires Known(db, key) && key in db.ids
  {
    var from, id := db.ids[key], db.last + 1;
    var row := RowAfter(c, doc, c.EmptyRow(), db.rows[from]);
    if from in db.docs then
      (true, Db(db.ids[key := id], id, db.docs[Place(c, doc, id) := db.docs[from] + StoredOf(c, doc)],
                db.deleted + {from}, db.rows + [row]))
    else
      (false, Db(db.ids[key := id], id, db.docs, db.deleted, db.rows + [row]))
  }

  function WithRow(rows: seq<Row>, id: nat, row: Row): seq<Row> {
    if id < |rows| then rows[id := row] else rows
  }

  /** New filter values for document `key`, under its docid. */
  function InPlace(c: Collection, db: Db, key: string, doc: seq<Property>): Db
    requires Known(db, key) && key in db.ids
  {
    var id := db.ids[key];
    db.(rows := WithRow(db.rows, id, RowAfter(c, doc, db.rows[id], c.EmptyRow())))
  }

  function Update(c: Collection, db: Db, key: string, doc: seq<Property>): (bool, Db)
    requires Known(db, key)
  {
    if key !in db.ids then (false, db)
    else if IsGeneral(c, doc) then NewVersion(c, db, key, doc)
    else if db.ids[key] in db.deleted then (false, db)
    else (true, InPlace(c, db, key, doc))
  }

  function Destroy(db: Db, key: string): (bool, Db) {
    if key !in db.ids || db.ids[key] in db.deleted then (false, db)
    else (true, db.(deleted := db.deleted + {db.ids[key]}))
  }

  // ---------------------------------------------------------------- the map behind it

  /** The properties of a document, unless they are lost. */
  datatype Body = Lost | Body(props: Doc)

  datatype Entry = Entry(body: Body, values: Row, live: bool)

  ghost function BodyOf(db: Db, id: nat): Body {
    if id in db.docs then Body(db.docs[id]) else Lost
  }

  ghost function Abs(c: Collection, db: Db): map<string, Entry>
    requires Inv(c, db)
  {
    map k | k in db.ids :: Entry(BodyOf(db, db.ids[k]), db.rows[db.ids[k]], db.ids[k] !in db.deleted)
  }

  /** The properties are kept only with a DOCID of the collection. */
  function NewBody(c: Collection, doc: seq<Property>, props: Doc): Body {
    if Stamped(c, doc) then Body(props) else Lost
  }

  /** Creation starts afresh, even where a destroyed document bore the DOCID. */
  function MapCreate(c: Collection, m: map<string, Entry>, key: string, doc: seq<Property>)
    : (bool, map<string, Entry>)
  {
    if key in m && m[key].live then (false, m)
    else (true, m[key := Entry(NewBody(c, doc, StoredOf(c, doc)), Carried(c, doc, c.EmptyRow()), true)])
  }

  /** An update overrides properties and values; a general one brings a destroyed document back, but fails
      if its properties are lost. */
  function MapUpdate(c: Collection, m: map<string, Entry>, key: string, doc: seq<Property>)
    : (bool, map<string, Entry>)
  {
    if key !in m then (false, m)
    else if IsGeneral(c, doc) then
      var values := Carried(c, doc, if Stamped(c, doc) then m[key].values else c.EmptyRow());
      (m[key].body.Body?,
       m[key := Entry(if m[key].body.Lost? then Lost else NewBody(c, doc, m[key].body.props + StoredOf(c, doc)),
                      values, true)])
    else if !m[key].live then (false, m)
    else (true, m[key := m[key].(values := Carried(c, doc, m[key].values))])
  }

  function MapDestroy(m: map<string, Entry>, key: string): (bool, map<string, Entry>) {
    if key !in m || !m[key].live then (false, m) else (true, m[key := m[key].(live := false)])
  }

  /** Any DOCID that is stored is the key. */
  lemma {:induction false} StoredBears(c: Collection, key: string, doc: seq<Property>)
    requires ForKey(key, doc)
    ensures DOCID in StoredOf(c, doc) ==> StoredOf(c, doc)[DOCID] == key
    ensures c.Valid() && doc[0].name == DOCID ==> DOCID in StoredOf(c, doc)
    decreases |doc|
  {
    var n := |doc| - 1;
    if n > 0 {
      assert doc[..n][1..] == doc[1..][..n - 1];
      StoredBears(c, key, doc[..n]);
      assert doc[1..][n - 1] == doc[n];
    }
  }

  lemma {:induction false} RowKeys(c: Collection, doc: seq<Property>, row: Row, source: Row)
    requires c.Valid() && row.Keys == c.ColumnNames()
    ensures RowAfter(c, doc, row, source).Keys == c.ColumnNames()
    decreases |doc|
  {
    if doc != [] { RowKeys(c, doc[..|doc| - 1], row, source); }
  }

  /** What a new docid for `key` leads to: a document stored under it or nowhere of its own, the old one (if
      any) being deleted or gone. */
  ghost predicate Renewed(c: Collection, db: Db, key: string, next: Db) {
    && next.ids == db.ids[key := db.last + 1] && next.last == db.last + 1
    && RowAppended(c, db.rows, next.rows)
    && DocsRenewed(db, next)
    && Bears(next, next.last, key)
    && db.deleted <= next.deleted
    && (forall id | id in next.deleted && id !in db.deleted :: key in db.ids && id == db.ids[key])
    && (key in db.ids && db.ids[key] in db.docs ==> db.ids[key] in next.deleted)
  }

  ghost predicate RowAppended(c: Collection, before: seq<Row>, after: seq<Row>) {
    |after| == |before| + 1 && before < after && after[|before|].Keys == c.ColumnNames()
  }

  ghost predicate DocsRenewed(db: Db, next: Db) {
    && (forall id | id != 0 && id != next.last :: id in next.docs <==> id in db.docs)
    && (forall id | id in next.docs && id != 0 && id != next.last :: next.docs[id] == db.docs[id])
  }

  lemma RenewedKeeps(c: Collection, db: Db, key: string, next: Db)
    requires Inv(c, db) && Renewed(c, db, key, next)
    ensures Inv(c, next)
  {
    forall id | id in next.docs && id != 0 && id !in next.deleted ensures Rooted(next, id) {
      if id == next.last {
        assert next.ids[key] == id;
      } else {
        assert Rooted(db, id);
        var k :| k in db.ids && db.ids[k] == id;
        assert k in next.ids && next.ids[k] == id;
      }
    }
    forall k | k in next.ids ensures Bears(next, next.ids[k], k) {
      if k != key { assert Bears(db, db.ids[k], k); }
    }
  }

  /** Nobody else is affected. */
  lemma RenewedOther(c: Collection, db: Db, key: string, next: Db, k: string)
    requires Inv(c, db) && Renewed(c, db, key, next) && k in db.ids && k != key
    ensures k in next.ids && next.ids[k] == db.ids[k] <= db.last && db.last + 1 == |db.rows| < |next.rows|
    ensures BodyOf(next, db.ids[k]) == BodyOf(db, db.ids[k]) && next.rows[db.ids[k]] == db.rows[db.ids[k]]
    ensures db.ids[k] in next.deleted <==> db.ids[k] in db.deleted
  {
    hide Bears, Rooted;
    var id := db.ids[k];
    assert 0 < id <= db.last;
    assert id in next.docs <==> id in db.docs;
  }

  lemma RenewedKey(c: Collection, db: Db, key: string, next: Db)
    requires Inv(c, db) && Renewed(c, db, key, next)
    ensures next.ids == db.ids[key := next.last] && next.last < |next.rows| && next.last !in next.deleted
  {
    hide Bears, Rooted;
  }

  lemma RenewedRefines(c: Collection, db: Db, key: string, next: Db)
    requires Inv(c, db) && Renewed(c, db, key, next) && Inv(c, next)
    ensures next.last < |next.rows|
    ensures Abs(c, next)
            == Abs(c, db)[key := Entry(BodyOf(next, next.last), next.rows[next.last], true)]
  {
    hide *;
    RenewedKey(c, db, key, next);
    AbsAt(c, next, key);
    AbsKeys(c, db);
    forall k | k in db.ids && k != key ensures k in Abs(c, next) && Abs(c, next)[k] == Abs(c, db)[k] {
      RenewedOther(c, db, key, next, k);
      AbsAt(c, db, k);
      AbsAt(c, next, k);
    }
    ChangedAt(Abs(c, next), Abs(c, db), key, Entry(BodyOf(next, next.last), next.rows[next.last], true));
  }

  lemma ChangedAt(a: map<string, Entry>, b: map<string, Entry>, key: string, e: Entry)
    requires a.Keys == b.Keys + {key} && a[key] == e
    requires forall k | k in b && k != key :: k in a && a[k] == b[k]
    ensures a == b[key := e]
  {
  }

  lemma AbsKeys(c: Collection, db: Db)
    requires Inv(c, db)
    ensures Abs(c, db).Keys == db.ids.Keys
  {
    hide Inv;
  }

  lemma AbsAt(c: Collection, db: Db, k: string)
    requires Inv(c, db) && k in db.ids
    ensures Abs(c, db).Keys == db.ids.Keys && db.ids[k] < |db.rows|
    ensures Abs(c, db)[k] == Entry(BodyOf(db, db.ids[k]), db.rows[db.ids[k]], db.ids[k] !in db.deleted)
  {
    assert db.ids[k] < |db.rows|;
    hide Inv, BodyOf;
  }

  lemma InvKnows(c: Collection, db: Db, key: string)
    requires Inv(c, db)
    ensures Known(db, key)
    ensures key in db.ids ==> 0 < db.ids[key] <= db.last && db.rows[db.ids[key]].Keys == c.ColumnNames()
    ensures |db.rows| == db.last + 1
  {
  }

  lemma InsertedRenews(c: Collection, db: Db, key: string, doc: seq<Property>)
    requires c.Valid() && Inv(c, db) && ForKey(key, doc) && (key in db.ids ==> db.ids[key] in db.deleted)
    ensures Renewed(c, db, key, Inserted(c, db, key, doc))
  {
    assert db.last + 1 !in db.docs;
    hide Inv, RowAfter, StoredOf, ForKey, Stamped, Bears, Collection.Valid, RowAppended, DocsRenewed, Place;
    InsertedBears(c, db, key, doc);
    InsertedDocs(c, db, key, doc);
    RowKeys(c, doc, c.EmptyRow(), c.EmptyRow());
    InvKnows(c, db, key);
    Appended(c, db.rows, RowAfter(c, doc, c.EmptyRow(), c.EmptyRow()));
  }

  lemma InsertedDocs(c: Collection, db: Db, key: string, doc: seq<Property>)
    ensures DocsRenewed(db, Inserted(c, db, key, doc))
  {
    hide RowAfter, StoredOf, Stamped;
  }

  lemma Appended(c: Collection, rows: seq<Row>, row: Row)
    requires row.Keys == c.ColumnNames()
    ensures RowAppended(c, rows, rows + [row])
  {
  }

  lemma InsertedBears(c: Collection, db: Db, key: string, doc: seq<Property>)
    requires ForKey(key, doc) && db.last + 1 !in db.docs
    ensures Bears(Inserted(c, db, key, doc), db.last + 1, key)
  {
    StoredBears(c, key, doc);
    hide RowAfter, StoredOf, ForKey, Stamped;
  }

  lemma CreateKeeps(c: Collection, db: Db, key: string, doc: seq<Property>)
    requires c.Valid() && Inv(c, db) && ForKey(key, doc)
    ensures Inv(c, Create(c, db, key, doc).1)
  {
    hide Inv, Inserted, ForKey, Collection.Valid, Renewed;
    if Create(c, db, key, doc).0 {
      InsertedRenews(c, db, key, doc);
      RenewedKeeps(c, db, key, Inserted(c, db, key, doc));
    }
  }

  lemma NewVersionRenews(c: Collection, db: Db, key: string, doc: seq<Property>)
    requires c.Valid() && Inv(c, db) && ForKey(key, doc) && key in db.ids
    ensures Known(db, key) && Renewed(c, db, key, NewVersion(c, db, key, doc).1)
  {
    InvKnows(c, db, key);
    assert forall id | id in db.docs :: id <= db.last;
    assert Bears(db, db.ids[key], key);
    hide Inv, RowAfter, StoredOf, ForKey, Stamped, Collection.Valid, RowAppended;
    StoredBears(c, key, doc);
    RowKeys(c, doc, c.EmptyRow(), db.rows[db.ids[key]]);
    Appended(c, db.rows, RowAfter(c, doc, c.EmptyRow(), db.rows[db.ids[key]]));
  }

  /** Changes that leave ids and documents alone. */
  lemma SameDocsKeep(c: Collection, db: Db, next: Db)
    requires Inv(c, db) && next.ids == db.ids && next.last == db.last && next.docs == db.docs
    requires db.deleted <= next.deleted && forall id | id in next.deleted :: 0 < id <= db.last
    requires |next.rows| == |db.rows| && forall i | 0 <= i < |next.rows| :: next.rows[i].Keys == c.ColumnNames()
    ensures Inv(c, next)
  {
    forall id | id in next.docs && id != 0 && id !in next.deleted ensures Rooted(next, id) {
      assert Rooted(db, id);
    }
    forall k | k in next.ids ensures Bears(next, next.ids[k], k) { assert Bears(db, db.ids[k], k); }
  }

  lemma UpdateKeeps(c: Collection, db: Db, key: string, doc: seq<Property>)
    requires c.Valid() && Inv(c, db) && ForKey(key, doc)
    ensures Known(db, key) && Inv(c, Update(c, db, key, doc).1)
  {
    InvKnows(c, db, key);
    if key in db.ids {
      if IsGeneral(c, doc) {
        NewVersionRenews(c, db, key, doc);
        RenewedKeeps(c, db, key, NewVersion(c, db, key, doc).1);
      } else {
        RowKeys(c, doc, db.rows[db.ids[key]], c.EmptyRow());
        SameDocsKeep(c, db, Update(c, db, key, doc).1);
      }
    }
  }

  lemma DestroyKeeps(c: Collection, db: Db, key: string)
    requires Inv(c, db)
    ensures Inv(c, Destroy(db, key).1)
  {
    SameDocsKeep(c, db, Destroy(db, key).1);
  }

  lemma CarriedFresh(c: Collection, row: Row)
    requires row.Keys == c.ColumnNames()
    ensures Over(c.EmptyRow(), row) == row && Over(row, c.EmptyRow()) == row
  {
  }

  lemma StampedFirst(c: Collection, key: string, doc: seq<Property>)
    requires ForKey(key, doc)
    ensures Stamped(c, doc) <==> doc[0].name in c.schema
  {
    forall i | 0 < i < |doc| ensures !IsDocid(doc[i].name) { assert doc[1..][i - 1] == doc[i]; }
  }

  /** The values of a new docid: the given ones that can be read, else those of the old version if the DOCID
      brings them along. In place: the given ones that can be read, else the old ones. */
  lemma NewVersionValues(c: Collection, key: string, doc: seq<Property>, old_: Row)
    requires c.Valid() && ForKey(key, doc) && old_.Keys == c.ColumnNames()
    ensures RowAfter(c, doc, c.EmptyRow(), old_) == Carried(c, doc, if Stamped(c, doc) then old_ else c.EmptyRow())
    ensures RowAfter(c, doc, old_, c.EmptyRow()) == Carried(c, doc, old_)
  {
    StampedFirst(c, key, doc);
    hide RowAfter, Carried, Stamped;
    CarriedFresh(c, old_);
    if doc[0].name in c.schema {
      RowCarried(c, doc, c.EmptyRow(), old_);
      RowCarried(c, doc, old_, c.EmptyRow());
    } else {
      RowUnknown(c, doc, c.EmptyRow(), old_);
      RowUnknown(c, doc, old_, c.EmptyRow());
    }
  }

  /** A number column gets the number read last, or no value if that is the reserved one. */
  lemma NumberSupplied(c: Collection, key: string, doc: seq<Property>, old_: Row, i: nat, x: int)
    requires c.Valid() && ForKey(key, doc) && old_.Keys == c.ColumnNames()
    requires i < |doc| && doc[i].name in c.schema
    requires c.schema[doc[i].name].kind.Number? && c.schema[doc[i].name].filter && !c.schema[doc[i].name].multi
    requires c.parse(doc[i].name)(doc[i].text) == Some(x)
    requires forall j | i < j < |doc| && doc[j].name == doc[i].name :: c.parse(doc[i].name)(doc[j].text).None?
    ensures doc[i].name in c.invalid
    ensures var new_, inPlace := RowAfter(c, doc, c.EmptyRow(), old_), RowAfter(c, doc, old_, c.EmptyRow());
            var value := if x == c.invalid[doc[i].name] then None else Some(Value.Number(x));
            && doc[i].name in new_ && new_[doc[i].name] == value
            && doc[i].name in inPlace && inPlace[doc[i].name] == value
  {
    var n := doc[i].name;
    ColumnsAre(c, n);
    assert forall j | i < j < |doc| && doc[j].name == n :: c.Reads(n, doc[j].text).None?;
    GivenAt(c, doc, n, i);
    NewVersionValues(c, key, doc, old_);
    hide Given, RowAfter, ForKey, Stamped, Collection.Valid;
  }

  /** A string column gets the last text that is not empty. */
  lemma TextSupplied(c: Collection, key: string, doc: seq<Property>, old_: Row, i: nat)
    requires c.Valid() && ForKey(key, doc) && old_.Keys == c.ColumnNames()
    requires i < |doc| && doc[i].name in c.schema && doc[i].text != ""
    requires c.schema[doc[i].name].kind.Text? && c.schema[doc[i].name].rtype && !c.schema[doc[i].name].analyzer
    requires forall j | i < j < |doc| && doc[j].name == doc[i].name :: doc[j].text == ""
    ensures var new_, inPlace := RowAfter(c, doc, c.EmptyRow(), old_), RowAfter(c, doc, old_, c.EmptyRow());
            && doc[i].name in new_ && new_[doc[i].name] == Some(Chars(doc[i].text))
            && doc[i].name in inPlace && inPlace[doc[i].name] == Some(Chars(doc[i].text))
  {
    var n := doc[i].name;
    ColumnsAre(c, n);
    assert forall j | i < j < |doc| && doc[j].name == n :: c.Reads(n, doc[j].text).None?;
    GivenAt(c, doc, n, i);
    NewVersionValues(c, key, doc, old_);
    hide Given, RowAfter, ForKey, Stamped, Collection.Valid;
  }

  /** A column for which nothing can be read keeps its value, in a new version only if the DOCID is a property
      of the collection. */
  lemma ValueKept(c: Collection, key: string, doc: seq<Property>, old_: Row, n: string)
    requires c.Valid() && ForKey(key, doc) && old_.Keys == c.ColumnNames() && n in c.schema
    requires
      || (c.schema[n].kind.Number? && c.schema[n].filter && !c.schema[n].multi
          && forall j | 0 <= j < |doc| && doc[j].name == n :: c.parse(n)(doc[j].text).None?)
      || (c.schema[n].kind.Text? && c.schema[n].rtype && !c.schema[n].analyzer
          && forall j | 0 <= j < |doc| && doc[j].name == n :: doc[j].text == "")
    ensures var new_, inPlace := RowAfter(c, doc, c.EmptyRow(), old_), RowAfter(c, doc, old_, c.EmptyRow());
            && n in new_ && n in inPlace && n in old_
            && new_[n] == (if doc[0].name in c.schema then old_[n] else None) && inPlace[n] == old_[n]
  {
    ColumnsAre(c, n);
    assert forall j | 0 <= j < |doc| && doc[j].name == n :: c.Reads(n, doc[j].text).None?;
    GivenNot(c, doc, n);
    NewVersionValues(c, key, doc, old_);
    StampedFirst(c, key, doc);
    hide Given, RowAfter, ForKey, Stamped, Collection.Valid;
  }

  lemma CreateRefines(c: Collection, db: Db, key: string, doc: seq<Property>)
    requires c.Valid() && Inv(c, db) && ForKey(key, doc)
    ensures Inv(c, Create(c, db, key, doc).1)
    ensures (Create(c, db, key, doc).0, Abs(c, Create(c, db, key, doc).1)) == MapCreate(c, Abs(c, db), key, doc)
  {
    CreateKeeps(c, db, key, doc);
    if Create(c, db, key, doc).0 {
      InsertedRenews(c, db, key, doc);
      InsertedAt(c, db, key, doc);
      hide Renewed, RowAfter, Carried, StoredOf, Inserted, Stamped, ForKey, Bears;
      RenewedRefines(c, db, key, Inserted(c, db, key, doc));
    }
  }

  lemma InsertedAt(c: Collection, db: Db, key: string, doc: seq<Property>)
    requires c.Valid() && Inv(c, db) && ForKey(key, doc)
    ensures var next := Inserted(c, db, key, doc);
            && next.last < |next.rows|
            && BodyOf(next, next.last) == NewBody(c, doc, StoredOf(c, doc))
            && next.rows[next.last] == Carried(c, doc, c.EmptyRow())
  {
    NewVersionValues(c, key, doc, c.EmptyRow());
    InvKnows(c, db, key);
    assert db.last + 1 !in db.docs;
    hide Inv, RowAfter, Carried, StoredOf, ForKey, Stamped;
  }

  lemma NewVersionAt(c: Collection, db: Db, key: string, doc: seq<Property>)
    requires c.Valid() && Inv(c, db) && ForKey(key, doc) && key in db.ids && Known(db, key)
    ensures var next := NewVersion(c, db, key, doc).1;
            var was := BodyOf(db, db.ids[key]);
            && next.last < |next.rows|
            && BodyOf(next, next.last)
               == (if was.Lost? then Lost else NewBody(c, doc, was.props + StoredOf(c, doc)))
            && next.rows[next.last]
               == Carried(c, doc, if Stamped(c, doc) then db.rows[db.ids[key]] else c.EmptyRow())
  {
    InvKnows(c, db, key);
    NewVersionValues(c, key, doc, db.rows[db.ids[key]]);
    assert db.last + 1 !in db.docs;
    hide Inv, RowAfter, Carried, StoredOf, ForKey, Stamped;
  }

  lemma UpdateRefines(c: Collection, db: Db, key: string, doc: seq<Property>)
    requires c.Valid() && Inv(c, db) && ForKey(key, doc)
    ensures Known(db, key) && Inv(c, Update(c, db, key, doc).1)
    ensures (Update(c, db, key, doc).0, Abs(c, Update(c, db, key, doc).1)) == MapUpdate(c, Abs(c, db), key, doc)
  {
    UpdateKeeps(c, db, key, doc);
    AbsKeys(c, db);
    if key in db.ids {
      AbsAt(c, db, key);
      InvKnows(c, db, key);
      hide RowAfter, Carried, StoredOf, IsGeneral, ForKey, Stamped, Inv, Abs, NewVersion, Collection.Valid, BodyOf;
      if IsGeneral(c, doc) {
        NewVersionRefines(c, db, key, doc);
      } else {
        var from := db.ids[key];
        NewVersionValues(c, key, doc, db.rows[from]);
        if from !in db.deleted { InPlaceRefines(c, db, key, RowAfter(c, doc, db.rows[from], c.EmptyRow())); }
      }
    }
  }

  lemma NewVersionRefines(c: Collection, db: Db, key: string, doc: seq<Property>)
    requires c.Valid() && Inv(c, db) && ForKey(key, doc) && key in db.ids && IsGeneral(c, doc)
    requires Known(db, key) && Inv(c, NewVersion(c, db, key, doc).1)
    ensures (NewVersion(c, db, key, doc).0, Abs(c, NewVersion(c, db, key, doc).1))
            == MapUpdate(c, Abs(c, db), key, doc)
  {
    NewVersionRenews(c, db, key, doc);
    NewVersionAt(c, db, key, doc);
    var next := NewVersion(c, db, key, doc);
    assert next.0 <==> BodyOf(db, db.ids[key]).Body?;
    hide Renewed, RowAfter, Carried, StoredOf, NewVersion, Stamped, ForKey, Bears, Inv, BodyOf, IsGeneral;
    RenewedRefines(c, db, key, next.1);
  }

  lemma OtherDocid(c: Collection, db: Db, key: string, k: string)
    requires Inv(c, db) && key in db.ids && k in db.ids && k != key
    ensures db.ids[k] != db.ids[key]
  {
  }

  /** Where ids stay as they are, only the entry of `key` differs if only its docid is touched. */
  lemma OthersSame(c: Collection, db: Db, next: Db, key: string)
    requires Inv(c, db) && Inv(c, next) && next.ids == db.ids && key in db.ids
    requires next.docs == db.docs
    requires forall id | id != db.ids[key] && 0 <= id < |db.rows| :: id < |next.rows| && next.rows[id] == db.rows[id]
    requires forall id | id != db.ids[key] :: id in next.deleted <==> id in db.deleted
    ensures key in Abs(c, db) && key in Abs(c, next)
    ensures Abs(c, next) == Abs(c, db)[key := Abs(c, next)[key]]
  {
    hide Inv, Abs;
    AbsKeys(c, db);
    AbsKeys(c, next);
    forall k | k in db.ids && k != key ensures k in Abs(c, next) && Abs(c, next)[k] == Abs(c, db)[k] {
      OtherDocid(c, db, key, k);
      AbsAt(c, db, k);
      AbsAt(c, next, k);
    }
    ChangedAt(Abs(c, next), Abs(c, db), key, Abs(c, next)[key]);
  }

  lemma InPlaceRefines(c: Collection, db: Db, key: string, row: Row)
    requires Inv(c, db) && key in db.ids && db.ids[key] < |db.rows|
    requires Inv(c, db.(rows := db.rows[db.ids[key] := row]))
    ensures key in Abs(c, db)
    ensures Abs(c, db.(rows := db.rows[db.ids[key] := row])) == Abs(c, db)[key := Abs(c, db)[key].(values := row)]
  {
    hide Inv, Abs;
    var next := db.(rows := db.rows[db.ids[key] := row]);
    OthersSame(c, db, next, key);
    AbsAt(c, db, key);
    AbsAt(c, next, key);
  }

  lemma DestroyRefines(c: Collection, db: Db, key: string)
    requires Inv(c, db)
    ensures Inv(c, Destroy(db, key).1)
    ensures (Destroy(db, key).0, Abs(c, Destroy(db, key).1)) == MapDestroy(Abs(c, db), key)
  {
    DestroyKeeps(c, db, key);
    AbsKeys(c, db);
    if key in db.ids {
      AbsAt(c, db, key);
      if db.ids[key] !in db.deleted { Destroyed(c, db, key, db.(deleted := db.deleted + {db.ids[key]})); }
    }
  }

  lemma Destroyed(c: Collection, db: Db, key: string, next: Db)
    requires Inv(c, db) && key in db.ids && next == db.(deleted := db.deleted + {db.ids[key]}) && Inv(c, next)
    ensures key in Abs(c, db)
    ensures Abs(c, next) == Abs(c, db)[key := Abs(c, db)[key].(live := false)]
  {
    hide Inv, Abs;
    OthersSame(c, db, next, key);
    AbsAt(c, db, key);
    AbsAt(c, next, key);
  }

  // ---------------------------------------------------------------- runs of calls

  datatype Call = CreateCall(key: string, doc: seq<Property>)
                | UpdateCall(key: string, doc: seq<Property>)
                | DestroyCall(key: string)

  ghost predicate WellFormed(call: Call) {
    !call.DestroyCall? ==> ForKey(call.key, call.doc)
  }

  ghost function Step(c: Collection, db: Db, call: Call): (bool, Db)
    requires Inv(c, db)
  {
    match call
    case CreateCall(key, doc) => Create(c, db, key, doc)
    case UpdateCall(key, doc) => InvKnows(c, db, key); Update(c, db, key, doc)
    case DestroyCall(key) => Destroy(db, key)
  }

  function MapStep(c: Collection, m: map<string, Entry>, call: Call): (bool, map<string, Entry>) {
    match call
    case CreateCall(key, doc) => MapCreate(c, m, key, doc)
    case UpdateCall(key, doc) => MapUpdate(c, m, key, doc)
    case DestroyCall(key) => MapDestroy(m, key)
  }

  lemma StepRefines(c: Collection, db: Db, call: Call)
    requires c.Valid() && Inv(c, db) && WellFormed(call)
    ensures Inv(c, Step(c, db, call).1)
    ensures (Step(c, db, call).0, Abs(c, Step(c, db, call).1)) == MapStep(c, Abs(c, db), call)
  {
    hide Inv, Abs, Create, Update, Destroy, MapCreate, MapUpdate, MapDestroy;
    match call
    case CreateCall(key, doc) => CreateRefines(c, db, key, doc);
    case UpdateCall(key, doc) => UpdateRefines(c, db, key, doc);
    case DestroyCall(key) => DestroyRefines(c, db, key);
  }

  /** A docid once deleted stays so, and a document stored under a docid never changes. */
  lemma StepPreserves(c: Collection, db: Db, call: Call)
    requires c.Valid() && Inv(c, db) && WellFormed(call)
    ensures db.deleted <= Step(c, db, call).1.deleted
    ensures forall id | id in db.docs && id != 0 ::
      id in Step(c, db, call).1.docs && Step(c, db, call).1.docs[id] == db.docs[id]
  {
  }

  /** The answers and the final state of a run. */
  ghost function Run(c: Collection, db: Db, calls: seq<Call>): (r: (seq<bool>, Db))
    requires c.Valid() && Inv(c, db) && forall i | 0 <= i < |calls| :: WellFormed(calls[i])
    ensures Inv(c, r.1)
    decreases |calls|
  {
    if calls == [] then ([], db) else
      StepRefines(c, db, calls[0]);
      var s := Step(c, db, calls[0]);
      var r := Run(c, s.1, calls[1..]);
      ([s.0] + r.0, r.1)
  }

  function MapRun(c: Collection, m: map<string, Entry>, calls: seq<Call>): (seq<bool>, map<string, Entry>)
    decreases |calls|
  {
    if calls == [] then ([], m) else
      var s := MapStep(c, m, calls[0]);
      var r := MapRun(c, s.1, calls[1..]);
      ([s.0] + r.0, r.1)
  }

  /** Any run answers as the map from DOCID to (properties, values, live or destroyed) does. */
  lemma {:induction false} RunRefines(c: Collection, db: Db, calls: seq<Call>)
    requires c.Valid() && Inv(c, db) && forall i | 0 <= i < |calls| :: WellFormed(calls[i])
    ensures (Run(c, db, calls).0, Abs(c, Run(c, db, calls).1)) == MapRun(c, Abs(c, db), calls)
    decreases |calls|
  {
    if calls != [] {
      StepRefines(c, db, calls[0]);
      RunRefines(c, Step(c, db, calls[0]).1, calls[1..]);
    }
  }

  /** Over a whole run no deleted docid comes back and no stored document changes under its docid. */
  lemma {:induction false} RunPreserves(c: Collection, db: Db, calls: seq<Call>)
    requires c.Valid() && Inv(c, db) && forall i | 0 <= i < |calls| :: WellFormed(calls[i])
    ensures db.deleted <= Run(c, db, calls).1.deleted
    ensures forall id | id in db.docs && id != 0 ::
      id in Run(c, db, calls).1.docs && Run(c, db, calls).1.docs[id] == db.docs[id]
    decreases |calls|
  {
    if calls != [] {
      StepRefines(c, db, calls[0]);
      StepPreserves(c, db, calls[0]);
      RunPreserves(c, Step(c, db, calls[0]).1, calls[1..]);
    }
  }

  // ---------------------------------------------------------------- what an update loses

  /** What a live document is after an update. */
  function BodyAfter(c: Collection, key: string, doc: seq<Property>, props: Doc, values: Row): Body {
    var m := MapUpdate(c, map[key := Entry(Body(props), values, true)], key, doc).1;
    if key in m then m[key].body else Lost
  }

  /** An update leaves every document as it was, overridden by the supplied properties, exactly if it
      counts as general and its DOCID is a property of the collection, or if it supplies, apart from the
      DOCID, filter values alone. */
  lemma OverridesIff(c: Collection, key: string, doc: seq<Property>)
    requires c.Valid() && ForKey(key, doc)
    ensures (forall props: Doc, values: Row | DOCID in props && props[DOCID] == key ::
               BodyAfter(c, key, doc, props, values) == Body(props + StoredOf(c, doc)))
            <==> if IsGeneral(c, doc) then Stamped(c, doc) else StoredOf(c, doc).Keys <= {DOCID}
  {
    StoredBears(c, key, doc);
    var stored := StoredOf(c, doc);
    var bare: Doc, none: Row := map[DOCID := key], map[];
    if IsGeneral(c, doc) {
      if !Stamped(c, doc) { assert BodyAfter(c, key, doc, bare, none) == Lost; }
    } else if stored.Keys <= {DOCID} {
      forall props: Doc, values: Row | DOCID in props && props[DOCID] == key
        ensures BodyAfter(c, key, doc, props, values) == Body(props + stored)
      {
        assert props + stored == props;
      }
    } else {
      assert BodyAfter(c, key, doc, bare, none) == Body(bare);
      assert exists k :: k in stored && k != DOCID;
    }
  }

  /** A number property with several values is such a case: indexed and filterable, it does not make the
      update general, yet it belongs in the document. */
  lemma MultiValueDropped(c: Collection, key: string, p: Property, props: Doc, values: Row)
    requires c.Valid() && p.name in c.schema && !IsDocid(p.name)
    requires c.schema[p.name].kind.Number? && c.schema[p.name].index && c.schema[p.name].filter
            && c.schema[p.name].multi
    ensures p.name in StoredOf(c, [Property(DOCID, key), p])
    ensures BodyAfter(c, key, [Property(DOCID, key), p], props, values) == Body(props)
  {
    var doc := [Property(DOCID, key), p];
    assert doc[..1] == [Property(DOCID, key)];
  }

  // ---------------------------------------------------------------- the worker

  /** What the API passes: a map of properties with the key DOCID. */
  predicate ForApi(value: seq<Property>) {
    DistinctNames(value) && exists i | 0 <= i < |value| :: value[i].name == DOCID
  }

  function KeyOf(value: seq<Property>): string
    decreases |value|
  {
    if value == [] then "" else
      var p := value[|value| - 1];
      if p.name == DOCID then p.text else KeyOf(value[..|value| - 1])
  }

  lemma {:induction false} KeyIs(value: seq<Property>, i: nat)
    requires DistinctNames(value) && i < |value| && value[i].name == DOCID
    ensures KeyOf(value) == value[i].text
    decreases |value|
  {
    if i < |value| - 1 { KeyIs(value[..|value| - 1], i); }
  }

  /** The SCD document made of it. */
  function ScdOf(value: seq<Property>): seq<Property>
    requires ForApi(value)
  {
    FewerOthers(value);
    Arranged(value)
  }

  lemma ApiForKey(value: seq<Property>)
    requires ForApi(value)
    ensures ForKey(KeyOf(value), ScdOf(value))
  {
    FewerOthers(value);
    LastDocidIs(value);
    var i :| 0 <= i < |value| && LastDocid(value) == value[i] && IsDocid(value[i].name);
    if value[i].name == DOCID { KeyIs(value, i); }
    var rest := Arranged(value)[1..];
    forall j | 0 <= j < |rest| ensures !IsDocid(rest[j].name) {
      if j < |Others(value)| { OthersAre(value, Others(value)[j]); }
    }
  }

  lemma Stamp(c: Collection, value: seq<Property>)
    requires ForApi(value)
    ensures Stamped(c, ScdOf(value)) <==> LastDocid(value).name in c.schema
  {
    ApiForKey(value);
    StampedFirst(c, KeyOf(value), ScdOf(value));
    FewerOthers(value);
  }

  /** Creation, store by store. */
  lemma Created(c: Collection, db: Db, value: seq<Property>)
    requires ForApi(value)
    ensures var key, r := KeyOf(value), Create(c, db, KeyOf(value), ScdOf(value));
            && (r.0 <==> key !in db.ids || db.ids[key] in db.deleted)
            && (!r.0 ==> r.1 == db)
            && (r.0 ==>
                  r.1.last == db.last + 1 && r.1.ids == db.ids[key := r.1.last] && r.1.deleted == db.deleted)
            && (r.0 && LastDocid(value).name in c.schema ==>
                  r.1.docs == db.docs[r.1.last := StoredOf(c, ScdOf(value))])
  {
    Stamp(c, value);
    hide StoredOf, ScdOf, RowAfter, Stamped, ForApi, LastDocid, KeyOf;
  }

  /** An update, store by store. */
  lemma Updated(c: Collection, db: Db, value: seq<Property>)
    requires ForApi(value) && Known(db, KeyOf(value))
    ensures var key, r := KeyOf(value), Update(c, db, KeyOf(value), ScdOf(value));
            && (key !in db.ids ==> !r.0 && r.1 == db)
            && (key in db.ids && IsGeneral(c, ScdOf(value)) ==>
                  && (r.0 <==> db.ids[key] in db.docs)
                  && r.1.last == db.last + 1 && r.1.ids == db.ids[key := r.1.last]
                  && r.1.deleted == (if r.0 then db.deleted + {db.ids[key]} else db.deleted)
                  && (r.0 && LastDocid(value).name in c.schema ==>
                        r.1.docs == db.docs[r.1.last := db.docs[db.ids[key]] + StoredOf(c, ScdOf(value))])
                  && (!r.0 ==> r.1.docs == db.docs))
            && (key in db.ids && !IsGeneral(c, ScdOf(value)) ==>
                  && (r.0 <==> db.ids[key] !in db.deleted)
                  && r.1.last == db.last && r.1.ids == db.ids && r.1.docs == db.docs && r.1.deleted == db.deleted)
  {
    Stamp(c, value);
    hide StoredOf, ScdOf, RowAfter, Stamped, ForApi, LastDocid, KeyOf, IsGeneral;
  }

  lemma ReadyToUpdate(c: Collection, db: Db, value: seq<Property>)
    requires c.Valid() && Inv(c, db) && ForApi(value)
    ensures Known(db, KeyOf(value)) && Inv(c, Update(c, db, KeyOf(value), ScdOf(value)).1)
    ensures KeyOf(value) in db.ids ==> 0 < db.ids[KeyOf(value)] <= db.last
  {
    hide Inv, ForApi, KeyOf, ScdOf;
    ApiForKey(value);
    InvKnows(c, db, KeyOf(value));
    UpdateKeeps(c, db, KeyOf(value), ScdOf(value));
  }

  /** Where the API loses a document: creating it, or making a new version of it, with a value in which
      another spelling of DOCID, which is no property of the collection, stands behind all others. */
  lemma LostIff(c: Collection, m: map<string, Entry>, value: seq<Property>)
    requires c.Valid() && ForApi(value)
    ensures var key, doc := KeyOf(value), ScdOf(value);
            var created, updated := MapCreate(c, m, key, doc), MapUpdate(c, m, key, doc);
            && (created.0 ==>
                  key in created.1 && (created.1[key].body.Lost? <==> LastDocid(value).name !in c.schema))
            && (key in m && m[key].body.Body? ==>
                  key in updated.1
                  && (updated.1[key].body.Lost? <==> IsGeneral(c, doc) && LastDocid(value).name !in c.schema))
  {
    ApiForKey(value);
    StampedFirst(c, KeyOf(value), ScdOf(value));
    FewerOthers(value);
    hide IsGeneral, ForKey, Stamped, StoredOf, Carried, KeyOf;
  }

  /** What is lost stays so and bars its DOCID, whatever is called, until it is destroyed. */
  lemma {:induction false} LostStays(c: Collection, m: map<string, Entry>, key: string, calls: seq<Call>)
    requires key in m && m[key].body.Lost? && m[key].live
    requires forall i | 0 <= i < |calls| :: !(calls[i].DestroyCall? && calls[i].key == key)
    ensures var n := MapRun(c, m, calls).1;
            key in n && n[key].body.Lost? && n[key].live
    ensures forall i | 0 <= i < |calls| && calls[i].CreateCall? && calls[i].key == key ::
      i < |MapRun(c, m, calls).0| && !MapRun(c, m, calls).0[i]
    decreases |calls|
  {
    if calls != [] {
      var s := MapStep(c, m, calls[0]);
      LostStays(c, s.1, key, calls[1..]);
      assert MapRun(c, m, calls).0 == [s.0] + MapRun(c, s.1, calls[1..]).0;
    }
  }

  /** The smallest such update: DOCID, another spelling and one property that makes the update general. */
  lemma SpellingLoses(c: Collection, m: map<string, Entry>, key: string, text: string, p: Property)
    requires c.Valid() && "docid" !in c.schema && ForcesNewVersion(c, p)
    requires key in m && m[key].body.Body?
    ensures var value := [Property("DOCID", key), Property("docid", text), p];
            && ForApi(value) && KeyOf(value) == key
            && MapUpdate(c, m, key, ScdOf(value)).0 && key in MapUpdate(c, m, key, ScdOf(value)).1
            && MapUpdate(c, m, key, ScdOf(value)).1[key].body == Lost
  {
    var value := [Property("DOCID", key), Property("docid", text), p];
    assert value[0].name == DOCID;
    KeyIs(value, 0);
    FewerOthers(value);
    LastDocidIs(value);
    OthersAre(value, p);
    assert LastDocid(value) == value[1];
    var k :| 0 <= k < |Others(value)| && Others(value)[k] == p;
    assert ScdOf(value)[k + 1] == p;
    assert IsGeneral(c, ScdOf(value));
    LostIff(c, m, value);
  }

  /** One more property worked off. */
  lemma PrefixStep(c: Collection, doc: seq<Property>, i: nat, row: Row, source: Row)
    requires i < |doc|
    ensures StoredOf(c, doc[..i + 1])
            == if IsStored(c, doc[i].name) then StoredOf(c, doc[..i])[doc[i].name := doc[i].text]
              else StoredOf(c, doc[..i])
    ensures RowAfter(c, doc[..i + 1], row, source)
            == if doc[i].name !in c.schema then RowAfter(c, doc[..i], row, source)
               else if IsDocid(doc[i].name) then Over(RowAfter(c, doc[..i], row, source), source)
               else if doc[i].name in c.ColumnNames() then
                 Supplied(RowAfter(c, doc[..i], row, source), doc[i].name, c.Reads(doc[i].name, doc[i].text))
               else RowAfter(c, doc[..i], row, source)
  {
    assert doc[..i + 1][..i] == doc[..i];
  }

  lemma StampedNext(c: Collection, doc: seq<Property>, i: nat)
    requires i < |doc|
    ensures Stamped(c, doc[..i + 1]) <==> Stamped(c, doc[..i]) || (IsDocid(doc[i].name) && doc[i].name in c.schema)
  {
    var p, q := doc[..i], doc[..i + 1];
    assert q[i] == doc[i];
    assert forall j | 0 <= j < i :: p[j] == q[j];
  }

  lemma PrefixStart(c: Collection, doc: seq<Property>, row: Row, source: Row)
    ensures StoredOf(c, doc[..0]) == map[] && !Stamped(c, doc[..0]) && RowAfter(c, doc[..0], row, source) == row
  {
  }

  lemma NothingBrought(c: Collection, row: Row)
    ensures Over(row, c.EmptyRow()) == row
  {
  }

  class IndexWorker {
    const c: Collection
    const rtypes: RTypeTables
    var ids: map<string, nat>
    var last: nat
    var docs: map<nat, Doc>
    var deleted: set<nat>

    ghost predicate Columns() {
      && c.Valid() && rtypes.Valid() && rtypes.tables.Keys == c.invalid.Keys && rtypes.strings.Keys == c.TextNames()
      && forall n | n in rtypes.tables :: rtypes.tables[n].invalid == c.invalid[n]
    }

    ghost function RowsUpTo(n: nat): (r: seq<Row>)
      reads rtypes.tables.Values, rtypes.strings.Values
      ensures |r| == n && forall i | 0 <= i < n :: r[i] == rtypes.Row(i)
    {
      seq(n, i requires 0 <= i reads rtypes.tables.Values, rtypes.strings.Values => rtypes.Row(i))
    }

    ghost function Stores(): Db
      reads this, rtypes.tables.Values, rtypes.strings.Values
    {
      Db(ids, last, docs, deleted, RowsUpTo(last + 1))
    }

    ghost predicate Valid()
      reads this, rtypes.tables.Values, rtypes.strings.Values
    {
      Columns() && Inv(c, Stores()) && Unused(last + 1)
    }

    /** No values for docids from `n` on. */
    ghost predicate Unused(n: nat)
      reads rtypes.tables.Values, rtypes.strings.Values
    {
      forall id: nat | id >= n :: rtypes.Row(id) == c.EmptyRow()
    }

    constructor (collection: Collection, tables: RTypeTables)
      requires collection.Valid() && tables.Valid() && tables.tables.Keys == collection.invalid.Keys
      requires tables.strings.Keys == collection.TextNames()
      requires forall n | n in tables.tables :: tables.tables[n].invalid == collection.invalid[n]
      requires forall id: nat :: tables.Row(id) == collection.EmptyRow()
      ensures c == collection && rtypes == tables && Valid() && Abs(c, Stores()) == map[]
    {
      hide Joined, OfNumber, OfText;
      c, rtypes := collection, tables;
      ids, last, docs, deleted := map[], 0, map[], {};
    }

    /** The document to store and the docid to store it under; the values of its columns are written at
        once, for the docid that was meant. */
    method PrepareDocument(doc: seq<Property>, oldId: nat, docId: nat) returns (document: Doc, id: nat)
      requires Columns()
      modifies rtypes.tables.Values, rtypes.strings.Values
      ensures document == StoredOf(c, doc) && id == Place(c, doc, docId)
      ensures forall name ::
        name in document <==>
          && (exists i :: 0 <= i < |doc| && doc[i].name == name)
          && name in c.schema
          && (|| IsDocid(name)
              || c.schema[name].kind.SubDoc?
              || (c.schema[name].kind.Text? && (c.schema[name].analyzer || !c.schema[name].rtype))
              || (c.schema[name].kind.Number? && (!c.schema[name].filter || c.schema[name].multi)))
      ensures forall i | 0 <= i < |doc| && doc[i].name in document ::
        (forall j | i < j < |doc| :: doc[j].name != doc[i].name) ==> document[doc[i].name] == doc[i].text
      ensures id == docId || id == 0
      ensures docId != 0 ==>
        (id == docId <==> exists i :: 0 <= i < |doc| && IsDocid(doc[i].name) && doc[i].name in c.schema)
      ensures rtypes.Row(docId) == RowAfter(c, doc, old(rtypes.Row(docId)),
                                            if oldId != 0 && oldId != docId then old(rtypes.Row(oldId))
                                            else c.EmptyRow())
      ensures forall k: nat | k != docId :: rtypes.Row(k) == old(rtypes.Row(k))
    {
      hide RowAfter, StoredOf, Over, Supplied, IsDocid, Stamped;
      document, id := map[], 0;
      ghost var source := if oldId != 0 && oldId != docId then rtypes.Row(oldId) else c.EmptyRow();
      PrefixStart(c, doc, rtypes.Row(docId), source);
      var i := 0;
      while i < |doc|
        invariant 0 <= i <= |doc| && document == StoredOf(c, doc[..i]) && id == Place(c, doc[..i], docId)
        invariant rtypes.Row(docId) == RowAfter(c, doc[..i], old(rtypes.Row(docId)), source)
        invariant forall k: nat | k != docId :: rtypes.Row(k) == old(rtypes.Row(k))
        decreases |doc| - i
      {
        PrefixStep(c, doc, i, old(rtypes.Row(docId)), source);
        StampedNext(c, doc, i);
        var p := doc[i];
        if p.name in c.schema {
          if IsDocid(p.name) {
            NothingBrought(c, rtypes.Row(docId));
            id := docId;
            document := document[p.name := p.text];
            if oldId != 0 && oldId != docId { rtypes.MoveRTypeValues(oldId, docId); }
          } else if c.schema[p.name].IsNumberColumn() {
            rtypes.SetStringValue(p.name, docId, p.text, c.parse(p.name));
          } else if c.schema[p.name].IsRTypeString() {
            rtypes.UpdateRTypeString(p.name, docId, p.text);
          } else {
            document := document[p.name := p.text];
          }
        }
        i := i + 1;
      }
      assert doc[..i] == doc;
      StoredIs(c, doc);
      StampedIs(c, doc);
    }

    twostate lemma RowAdded(n: nat)
      requires forall k: nat | k != n :: rtypes.Row(k) == old(rtypes.Row(k))
      requires old(Unused(n))
      ensures RowsUpTo(n + 1) == old(RowsUpTo(n)) + [rtypes.Row(n)]
      ensures Unused(n + 1)
    {
    }

    twostate lemma RowChanged(id: nat)
      requires id <= last && last == old(last)
      requires forall k: nat | k != id :: rtypes.Row(k) == old(rtypes.Row(k))
      requires old(Unused(last + 1))
      ensures RowsUpTo(last + 1) == WithRow(old(RowsUpTo(last + 1)), id, rtypes.Row(id))
      ensures Unused(last + 1)
    {
    }

    lemma UnusedRow()
      requires Unused(last + 1)
      ensures rtypes.Row(last + 1) == c.EmptyRow()
    {
    }

    method ReadValue(value: seq<Property>) returns (key: string, scddoc: seq<Property>)
      requires ForApi(value)
      ensures key == KeyOf(value) && scddoc == ScdOf(value)
    {
      key := KeyOf(value);
      scddoc := Value2SCDDoc(value);
    }

    /** A new document under a fresh docid, if its DOCID is a property of the collection. */
    method InsertDoc(key: string, scddoc: seq<Property>)
      requires Columns() && Unused(last + 1)
      modifies this, rtypes.tables.Values, rtypes.strings.Values
      ensures Unused(last + 1)
      ensures Stores() == Inserted(c, old(Stores()), key, scddoc)
    {
      hide RowAfter, StoredOf, Unused, RTypeTables.Row, RowsUpTo, Place, IsDocid, Columns;
      UnusedRow();
      ids, last := ids[key := last + 1], last + 1;
      var document, id := PrepareDocument(scddoc, 0, last);
      docs := docs[id := document];
      RowAdded(last);
    }

    /** The new version of a stored document; nothing is stored or deleted if the old one is missing. */
    method UpdateGeneral(key: string, scddoc: seq<Property>) returns (ok: bool)
      requires Columns() && Unused(last + 1) && key in ids && 0 < ids[key] <= last
      modifies this, rtypes.tables.Values, rtypes.strings.Values
      ensures Unused(last + 1)
      ensures Known(old(Stores()), key) && (ok, Stores()) == NewVersion(c, old(Stores()), key, scddoc)
    {
      hide RowAfter, StoredOf, Unused, RTypeTables.Row, RowsUpTo, Place, IsDocid, Columns;

      UnusedRow();
      var oldId := ids[key];
      ids, last := ids[key := last + 1], last + 1;
      var document, id := PrepareDocument(scddoc, oldId, last);
      RowAdded(last);
      ok := oldId in docs;
      if ok {
        document := docs[oldId] + document;
        deleted := deleted + {oldId};
        docs := docs[id := document];
      }
    }

    /** Filter values written in place. */
    method UpdateRType(key: string, scddoc: seq<Property>)
      requires Columns() && Unused(last + 1) && key in ids && ids[key] <= last
      modifies rtypes.tables.Values, rtypes.strings.Values
      ensures Unused(last + 1)
      ensures Known(old(Stores()), key) && Stores() == InPlace(c, old(Stores()), key, scddoc)
    {
      hide RowAfter, StoredOf, Unused, RTypeTables.Row, Place, IsDocid, Columns;
      var docId := ids[key];
      var _, _ := PrepareDocument(scddoc, docId, docId);
      RowChanged(docId);
    }

    /** Creates the document of a DOCID that is unknown or whose document was destroyed. */
    method CreateDocument(value: seq<Property>) returns (ok: bool)
      requires Valid() && ForApi(value)
      modifies this, rtypes.tables.Values, rtypes.strings.Values
      ensures Valid()
      ensures (ok, Stores()) == Create(c, old(Stores()), KeyOf(value), ScdOf(value))
      ensures ok <==> KeyOf(value) !in old(ids) || old(ids)[KeyOf(value)] in old(deleted)
      ensures ok ==> last == old(last) + 1 && ids == old(ids)[KeyOf(value) := last] && deleted == old(deleted)
      ensures ok && LastDocid(value).name in c.schema ==> docs == old(docs)[last := StoredOf(c, ScdOf(value))]
      ensures !ok ==> Stores() == old(Stores())
    {
      hide RowAfter, StoredOf, ScdOf, KeyOf, ForApi, Inv, Unused, RowsUpTo, Inserted;
      ApiForKey(value);
      CreateKeeps(c, Stores(), KeyOf(value), ScdOf(value));
      Created(c, Stores(), value);
      var key, scddoc := ReadValue(value);
      if key in ids && ids[key] !in deleted { return false; }
      InsertDoc(key, scddoc);
      ok := true;
    }

    /** Updates the document of a known DOCID: a general update stores a new version under a fresh
        docid, any other writes the filter values of a document that is not deleted. */
    method UpdateDocument(value: seq<Property>) returns (ok: bool)
      requires Valid() && ForApi(value)
      modifies this, rtypes.tables.Values, rtypes.strings.Values
      ensures Valid()
      ensures Known(old(Stores()), KeyOf(value))
      ensures (ok, Stores()) == Update(c, old(Stores()), KeyOf(value), ScdOf(value))
      ensures KeyOf(value) !in old(ids) ==> !ok && Stores() == old(Stores())
      ensures KeyOf(value) in old(ids) && IsGeneral(c, ScdOf(value)) ==>
        && (ok <==> old(ids)[KeyOf(value)] in old(docs))
        && last == old(last) + 1 && ids == old(ids)[KeyOf(value) := last]
        && deleted == (if ok then old(deleted) + {old(ids)[KeyOf(value)]} else old(deleted))
        && (ok && LastDocid(value).name in c.schema ==>
              docs == old(docs)[last := old(docs)[old(ids)[KeyOf(value)]] + StoredOf(c, ScdOf(value))])
        && (!ok ==> docs == old(docs))
      ensures KeyOf(value) in old(ids) && !IsGeneral(c, ScdOf(value)) ==>
        && (ok <==> old(ids)[KeyOf(value)] !in old(deleted))
        && last == old(last) && ids == old(ids) && docs == old(docs) && deleted == old(deleted)
    {
      hide RowAfter, StoredOf, ScdOf, KeyOf, ForApi, Inv, IsGeneral, Unused, RowsUpTo, NewVersion, InPlace;
      ReadyToUpdate(c, Stores(), value);
      Updated(c, Stores(), value);
      var key, scddoc := ReadValue(value);
      var general := CheckUpdateType(c, scddoc);
      if key !in ids || (!general && ids[key] in deleted) {
        ok := false;
      } else if general {
        ok := UpdateGeneral(key, scddoc);
      } else {
        UpdateRType(key, scddoc);
        ok := true;
      }
    }

    /** Destroys a document that is there. */
    method DestroyDocument(value: seq<Property>) returns (ok: bool)
      requires Valid() && ForApi(value)
      modifies this`deleted
      ensures Valid()
      ensures (ok, Stores()) == Destroy(old(Stores()), KeyOf(value))
      ensures ok <==> KeyOf(value) in old(ids) && old(ids)[KeyOf(value)] !in old(deleted)
      ensures deleted == if ok then old(deleted) + {old(ids)[KeyOf(value)]} else old(deleted)
    {
      hide Inv;
      ghost var db := Stores();
      DestroyKeeps(c, db, KeyOf(value));
      var key := KeyOf(value);
      if key !in ids || ids[key] in deleted { return false; }
      deleted := deleted + {ids[key]};
      ok := true;
    }
  }
}
