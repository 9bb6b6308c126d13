/** The order of documents from different workers (`greaterThan`): sort properties in turn, then the
    worker-tagged document id. */
module MergeComparator {
  import opened Orders

  datatype Kind = Int32 | Int64 | Float | Text

  datatype Cell = Num(i: int) | Real(r: real) | Str(s: string)

  /** One sort property of one worker: the values of its documents. */
  datatype Column = Column(kind: Kind, reverse: bool, data: seq<Cell>)

  predicate HasKind(x: Cell, k: Kind) {
    match k
    case Int32 => x.Num?
    case Int64 => x.Num?
    case Float => x.Real?
    case Text => x.Str?
  }

  /** `std::numeric_limits<float>::epsilon()` */
  const EPSILON: real := 1.0 / 8388608.0

  /** Floats within epsilon count as equal. */
  predicate Near(x: real, y: real) {
    -EPSILON <= x - y <= EPSILON
  }

  predicate Ties(x: Cell, y: Cell) {
    if x.Real? && y.Real? then Near(x.r, y.r) else x == y
  }

  predicate CellLess(x: Cell, y: Cell) {
    match (x, y)
    case (Num(a), Num(b)) => a < b
    case (Real(a), Real(b)) => a < b
    case (Str(a), Str(b)) => TextLess(a, b)
    case _ => false
  }

  /** Every column has a value of its kind for each of `n` documents. */
  predicate Covers(cols: seq<Column>, n: nat) {
    forall c | c in cols :: n <= |c.data| && forall x | x in c.data :: HasKind(x, c.kind)
  }

  predicate SameSchema(a: seq<Column>, b: seq<Column>) {
    |a| == |b| && forall j | 0 <= j < |a| :: a[j].kind == b[j].kind && a[j].reverse == b[j].reverse
  }

  /** The comparison from property `j` on; `newer` settles a tie in all of them. */
  predicate GreaterFrom(a: seq<Column>, i: nat, b: seq<Column>, k: nat, j: nat, newer: bool)
    requires Covers(a, i + 1) && Covers(b, k + 1)
    decreases |a| - j
  {
    if j >= |a| || j >= |b| then newer
    else if a[j].kind != b[j].kind || Ties(a[j].data[i], b[j].data[k]) then GreaterFrom(a, i, b, k, j + 1, newer)
    else Wins(a[j].reverse, a[j].data[i], b[j].data[k])
  }

  predicate Wins(reverse: bool, x: Cell, y: Cell) {
    if reverse then CellLess(x, y) else CellLess(y, x)
  }

  method GreaterThan(a: seq<Column>, i: nat, b: seq<Column>, k: nat, newer: bool) returns (greater: bool)
    requires Covers(a, i + 1) && Covers(b, k + 1)
    ensures greater == GreaterFrom(a, i, b, k, 0, newer)
  {
    for j := 0 to |a|
      invariant GreaterFrom(a, i, b, k, 0, newer) == GreaterFrom(a, i, b, k, j, newer)
    {
      if j >= |b| {
        break;
      }
      if a[j].kind != b[j].kind {
        continue;
      }
      var x, y := a[j].data[i], b[j].data[k];
      if Ties(x, y) {
        continue;
      }
      return Wins(a[j].reverse, x, y);
    }
    greater := newer;
  }

  /** Numbers and texts tie if they are equal, floats if they are no further apart than 2 to the -23. */
  lemma TiesIff(x: Cell, y: Cell)
    ensures x.Num? && y.Num? ==> (Ties(x, y) <==> x.i == y.i)
    ensures x.Str? && y.Str? ==> (Ties(x, y) <==> x.s == y.s)
    ensures x.Real? && y.Real? ==> (Ties(x, y) <==> -1.0 <= 8388608.0 * (x.r - y.r) <= 1.0)
  {
  }

  /** Sorted downwards the larger value wins, in reverse the smaller one. */
  lemma WinsIff(x: Cell, y: Cell)
    ensures x.Num? && y.Num? ==> (Wins(false, x, y) <==> x.i > y.i) && (Wins(true, x, y) <==> x.i < y.i)
    ensures x.Real? && y.Real? ==> (Wins(false, x, y) <==> x.r > y.r) && (Wins(true, x, y) <==> x.r < y.r)
    ensures x.Str? && y.Str? ==>
      (Wins(false, x, y) <==> TextLess(y.s, x.s)) && (Wins(true, x, y) <==> TextLess(x.s, y.s))
  {
  }

  /** The first property of equal type that does not tie decides ... */
  lemma {:induction false} FirstDecides(a: seq<Column>, i: nat, b: seq<Column>, k: nat, from: nat, j: nat, newer: bool)
    requires Covers(a, i + 1) && Covers(b, k + 1) && from <= j < |a| && j < |b|
    requires a[j].kind == b[j].kind && !Ties(a[j].data[i], b[j].data[k])
    requires forall l | from <= l < j :: a[l].kind != b[l].kind || Ties(a[l].data[i], b[l].data[k])
    ensures GreaterFrom(a, i, b, k, from, newer) == Wins(a[j].reverse, a[j].data[i], b[j].data[k])
    decreases j - from
  {
    if from < j { FirstDecides(a, i, b, k, from + 1, j, newer); }
  }

  /** ... and if there is none, being newer does. */
  lemma {:induction false} NewerDecides(a: seq<Column>, i: nat, b: seq<Column>, k: nat, from: nat, newer: bool)
    requires Covers(a, i + 1) && Covers(b, k + 1)
    requires forall l | from <= l < |a| && l < |b| :: a[l].kind != b[l].kind || Ties(a[l].data[i], b[l].data[k])
    ensures GreaterFrom(a, i, b, k, from, newer) == newer
    decreases |a| - from
  {
    if from < |a| { NewerDecides(a, i, b, k, from + 1, newer); }
  }

  lemma CellTotal(x: Cell, y: Cell, k: Kind)
    requires HasKind(x, k) && HasKind(y, k)
    ensures !(CellLess(x, y) && CellLess(y, x)) && (CellLess(x, y) || CellLess(y, x) || x == y)
  {
    if x.Str? { TextTotal(x.s, y.s); }
  }

  lemma CellTrans(x: Cell, y: Cell, z: Cell)
    requires CellLess(x, y) && CellLess(y, z)
    ensures CellLess(x, z)
  {
    if x.Str? { TextTrans(x.s, y.s, z.s); }
  }

  /** To tie is transitive on three cells, however arranged. */
  predicate Chained(x: Cell, y: Cell, z: Cell) {
    && (Ties(x, y) && Ties(y, z) ==> Ties(x, z))
    && (Ties(y, x) && Ties(x, z) ==> Ties(y, z))
    && (Ties(x, z) && Ties(z, y) ==> Ties(x, y))
  }

  lemma WinsTrans(reverse: bool, x: Cell, y: Cell, z: Cell, k: Kind)
    requires HasKind(x, k) && HasKind(y, k) && HasKind(z, k) && Chained(x, y, z)
    requires (Ties(x, y) || Wins(reverse, x, y)) && (Ties(y, z) || Wins(reverse, y, z))
    requires !(Ties(x, y) && Ties(y, z))
    ensures !Ties(x, z) && Wins(reverse, x, z)
  {
    CellTotal(x, y, k);
    CellTotal(y, z, k);
    if x != y && y != z && !x.Real? {
      if reverse { CellTrans(x, y, z); } else { CellTrans(z, y, x); }
    }
    CellTotal(x, z, k);
  }

  lemma WinsTotal(reverse: bool, x: Cell, y: Cell, k: Kind)
    requires HasKind(x, k) && HasKind(y, k)
    ensures Ties(x, y) == Ties(y, x)
    ensures !Ties(x, y) ==> Wins(reverse, x, y) == !Wins(reverse, y, x)
  {
    CellTotal(x, y, k);
  }

  /** With one schema on all workers the comparison decides exactly one way. */
  lemma {:induction false} GreaterTotal(a: seq<Column>, i: nat, b: seq<Column>, k: nat, j: nat, ab: bool, ba: bool)
    requires Covers(a, i + 1) && Covers(b, k + 1) && SameSchema(a, b) && ab == !ba
    ensures GreaterFrom(a, i, b, k, j, ab) == !GreaterFrom(b, k, a, i, j, ba)
    decreases |a| - j
  {
    hide Wins, CellLess, Ties;
    if j < |a| {
      WinsTotal(a[j].reverse, a[j].data[i], b[j].data[k], a[j].kind);
      if Ties(a[j].data[i], b[j].data[k]) { GreaterTotal(a, i, b, k, j + 1, ab, ba); }
    }
  }

  /** To tie is transitive on the values of three documents of one schema. */
  predicate ColumnsChained(a: seq<Column>, i: nat, b: seq<Column>, k: nat, c: seq<Column>, m: nat)
    requires Covers(a, i + 1) && Covers(b, k + 1) && Covers(c, m + 1)
  {
    forall j | 0 <= j < |a| && j < |b| && j < |c| && a[j].kind.Float? ::
      Chained(a[j].data[i], b[j].data[k], c[j].data[m])
  }

  lemma Exact(kind: Kind, x: Cell, y: Cell, z: Cell)
    requires HasKind(x, kind) && HasKind(y, kind) && HasKind(z, kind)
    ensures !kind.Float? ==> Chained(x, y, z)
  {
  }

  lemma {:induction false} GreaterTrans(a: seq<Column>, i: nat, b: seq<Column>, k: nat, c: seq<Column>, m: nat,
                                        j: nat, ab: bool, bc: bool, ac: bool)
    requires Covers(a, i + 1) && Covers(b, k + 1) && Covers(c, m + 1)
    requires SameSchema(a, b) && SameSchema(b, c) && (ab && bc ==> ac) && ColumnsChained(a, i, b, k, c, m)
    requires GreaterFrom(a, i, b, k, j, ab) && GreaterFrom(b, k, c, m, j, bc)
    ensures GreaterFrom(a, i, c, m, j, ac)
    decreases |a| - j
  {
    hide Wins, CellLess, Ties;
    if j < |a| {
      var x, y, z := a[j].data[i], b[j].data[k], c[j].data[m];
      Exact(a[j].kind, x, y, z);
      if Ties(x, y) && Ties(y, z) {
        GreaterTrans(a, i, b, k, c, m, j + 1, ab, bc, ac);
      } else {
        WinsTrans(a[j].reverse, x, y, z, a[j].kind);
      }
    }
  }

  // ---------------------------------------------------------------- exactly one schema

  /** Type and direction of a sort property. */
  datatype Spec = Spec(kind: Kind, reverse: bool)

  /** A document by itself: its sort properties, and its rank among the docids (newer ones are larger). */
  datatype Document = Document(columns: seq<Column>, docid: int)

  ghost predicate OfSchema(d: Document, schema: seq<Spec>) {
    && |d.columns| == |schema| && Covers(d.columns, 1)
    && forall j | 0 <= j < |schema| :: Spec(d.columns[j].kind, d.columns[j].reverse) == schema[j]
  }

  /** The float values of a document are among `scores`. */
  ghost predicate Among(d: Document, scores: real -> bool)
    requires Covers(d.columns, 1)
  {
    forall j | 0 <= j < |d.columns| && d.columns[j].kind.Float? ::
      d.columns[j].data[0].Real? && scores(d.columns[j].data[0].r)
  }

  ghost predicate Greater(x: Document, y: Document) {
    Covers(x.columns, 1) && Covers(y.columns, 1) && GreaterFrom(x.columns, 0, y.columns, 0, 0, x.docid > y.docid)
  }

  ghost predicate OfEither(d: Document, s: seq<Spec>, t: seq<Spec>) {
    OfSchema(d, s) || OfSchema(d, t)
  }

  /** The comparison decides every pair of the documents of two schemas one way ... */
  ghost predicate DecidesAll(s: seq<Spec>, t: seq<Spec>) {
    forall x, y | OfEither(x, s, t) && OfEither(y, s, t) && x.docid != y.docid :: Greater(x, y) == !Greater(y, x)
  }

  /** ... and is transitive on them. */
  ghost predicate ChainsAll(s: seq<Spec>, t: seq<Spec>) {
    forall x, y, z | OfEither(x, s, t) && OfEither(y, s, t) && OfEither(z, s, t) && Greater(x, y) && Greater(y, z) ::
      Greater(x, z)
  }

  /** It is transitive on the documents of one schema whose float values are among `scores`. */
  ghost predicate ChainsOn(s: seq<Spec>, scores: real -> bool) {
    forall x, y, z
      | OfSchema(x, s) && OfSchema(y, s) && OfSchema(z, s) && Among(x, scores) && Among(y, scores) && Among(z, scores)
        && Greater(x, y) && Greater(y, z) ::
      Greater(x, z)
  }

  ghost predicate NearChains(scores: real -> bool) {
    forall x, y, z | scores(x) && scores(y) && scores(z) && Near(x, y) && Near(y, z) :: Near(x, z)
  }

  predicate HasFloats(s: seq<Spec>) {
    exists j | 0 <= j < |s| :: s[j].kind.Float?
  }

  lemma Decides(s: seq<Spec>)
    ensures DecidesAll(s, s)
  {
    hide GreaterFrom;
    forall x, y | OfEither(x, s, s) && OfEither(y, s, s) && x.docid != y.docid ensures Greater(x, y) == !Greater(y, x) {
      GreaterTotal(x.columns, 0, y.columns, 0, 0, x.docid > y.docid, y.docid > x.docid);
    }
  }

  lemma NearSame(scores: real -> bool, x: Cell, y: Cell, z: Cell)
    requires NearChains(scores) && x.Real? && y.Real? && z.Real? && scores(x.r) && scores(y.r) && scores(z.r)
    ensures Chained(x, y, z)
  {
  }

  lemma ChainsIfNear(s: seq<Spec>, scores: real -> bool)
    requires !HasFloats(s) || NearChains(scores)
    ensures ChainsOn(s, scores)
  {
    hide GreaterFrom, NearChains, Chained;
    forall x, y, z
      | OfSchema(x, s) && OfSchema(y, s) && OfSchema(z, s) && Among(x, scores) && Among(y, scores) && Among(z, scores)
        && Greater(x, y) && Greater(y, z)
      ensures Greater(x, z)
    {
      forall j | 0 <= j < |s| && s[j].kind.Float?
        ensures Chained(x.columns[j].data[0], y.columns[j].data[0], z.columns[j].data[0])
      {
        NearSame(scores, x.columns[j].data[0], y.columns[j].data[0], z.columns[j].data[0]);
      }
      GreaterTrans(x.columns, 0, y.columns, 0, z.columns, 0, 0, x.docid > y.docid, y.docid > z.docid,
        x.docid > z.docid);
    }
  }

  function Low(k: Kind): (x: Cell)
    ensures HasKind(x, k)
  {
    match k
    case Int32 => Num(0)
    case Int64 => Num(0)
    case Float => Real(0.0)
    case Text => Str("")
  }

  function High(k: Kind): (x: Cell)
    ensures HasKind(x, k) && CellLess(Low(k), x) && !Ties(Low(k), x) && !Ties(x, Low(k))
  {
    match k
    case Int32 => Num(1)
    case Int64 => Num(1)
    case Float => Real(1.0)
    case Text => Str("a")
  }

  /** The document of a schema that is low in every property, except high in property `j`. */
  ghost function Plain(schema: seq<Spec>, j: int, docid: int): (d: Document)
    ensures OfSchema(d, schema)
  {
    var columns := seq(|schema|, k requires 0 <= k < |schema| =>
      Column(schema[k].kind, schema[k].reverse, [if k == j then High(schema[k].kind) else Low(schema[k].kind)]));
    Document(columns, docid)
  }

  /** The document of a schema that has one score in all float properties and is low in the others. */
  ghost function ScoredBy(schema: seq<Spec>, score: real, docid: int): (d: Document)
    ensures OfSchema(d, schema)
  {
    var columns := seq(|schema|, k requires 0 <= k < |schema| =>
      Column(schema[k].kind, schema[k].reverse,
             [if schema[k].kind.Float? then Real(score) else Low(schema[k].kind)]));
    Document(columns, docid)
  }

  /** Properties that tie or are skipped, up to `j`, leave the decision to what follows. */
  lemma {:induction false} TieUpTo(a: seq<Column>, b: seq<Column>, i: nat, j: nat, newer: bool)
    requires Covers(a, 1) && Covers(b, 1) && i <= j <= |a| && j <= |b|
    requires forall k | i <= k < j :: a[k].kind != b[k].kind || Ties(a[k].data[0], b[k].data[0])
    ensures GreaterFrom(a, 0, b, 0, i, newer) == GreaterFrom(a, 0, b, 0, j, newer)
    decreases j - i
  {
    if i < j { TieUpTo(a, b, i + 1, j, newer); }
  }

  lemma TieAll(x: Document, y: Document)
    requires Covers(x.columns, 1) && Covers(y.columns, 1)
    requires forall k | 0 <= k < |x.columns| && k < |y.columns| ::
               x.columns[k].kind != y.columns[k].kind || Ties(x.columns[k].data[0], y.columns[k].data[0])
    ensures Greater(x, y) == (x.docid > y.docid)
  {
    var n := if |x.columns| < |y.columns| then |x.columns| else |y.columns|;
    TieUpTo(x.columns, y.columns, 0, n, x.docid > y.docid);
  }

  /** `s` has a property where `t` has another type or none: two documents of `s` and one of `t`
      outrank each other in a circle. */
  lemma TypesCircle(s: seq<Spec>, t: seq<Spec>, j: nat)
    requires j < |s| && (j < |t| ==> s[j].kind != t[j].kind)
    ensures !(DecidesAll(s, t) && ChainsAll(s, t))
  {
    var top, bottom := if s[j].reverse then -1 else j, if s[j].reverse then j else -1;
    var p, q, r := Plain(s, top, 0), Plain(s, bottom, 2), Plain(t, -1, 1);
    TieAll(q, r);
    TieAll(r, p);
    TieUpTo(p.columns, q.columns, 0, j, false);
    assert Greater(p, q) && Greater(q, r) && Greater(r, p);
    assert OfEither(p, s, t) && OfEither(q, s, t) && OfEither(r, s, t);
  }

  /** A property sorted in opposite directions: two documents outrank each other. */
  lemma DirectionsClash(s: seq<Spec>, t: seq<Spec>, j: nat)
    requires j < |s| && j < |t| && s[j].kind == t[j].kind && s[j].reverse != t[j].reverse
    requires forall k | 0 <= k < j :: s[k] == t[k]
    ensures !DecidesAll(s, t)
  {
    var p, q := Plain(s, if s[j].reverse then -1 else j, 0), Plain(t, if s[j].reverse then j else -1, 1);
    TieUpTo(p.columns, q.columns, 0, j, false);
    TieUpTo(q.columns, p.columns, 0, j, true);
    assert Greater(p, q) && Greater(q, p);
    assert OfEither(p, s, t) && OfEither(q, s, t);
  }

  lemma SwapSchemas(s: seq<Spec>, t: seq<Spec>)
    ensures DecidesAll(s, t) == DecidesAll(t, s) && ChainsAll(s, t) == ChainsAll(t, s)
  {
    forall d ensures OfEither(d, s, t) == OfEither(d, t, s) {}
  }

  lemma FirstDifference(s: seq<Spec>, t: seq<Spec>) returns (j: nat)
    requires s != t
    ensures j <= |s| && j <= |t| && (j < |s| || j < |t|)
    ensures (forall k | 0 <= k < j :: s[k] == t[k]) && (j < |s| && j < |t| ==> s[j] != t[j])
  {
    j := 0;
    while j < |s| && j < |t| && s[j] == t[j]
      invariant j <= |s| && j <= |t| && forall k | 0 <= k < j :: s[k] == t[k]
      decreases |s| - j
    {
      j := j + 1;
    }
  }

  /** The comparison is a strict total order of all documents of two schemas exactly if these are the same
      and sort by no float. */
  lemma OrderIff(s: seq<Spec>, t: seq<Spec>)
    ensures DecidesAll(s, t) && ChainsAll(s, t) <==> s == t && !HasFloats(s)
  {
    if s == t {
      hide Greater, OfSchema;
      Decides(s);
      AllScores(s);
      EpsilonIff(s, (r: real) => true);
      EpsilonCircle();
    } else {
      var j := FirstDifference(s, t);
      if j == |s| || (j < |t| && s[j].kind != t[j].kind) {
        SwapSchemas(s, t);
        TypesCircle(t, s, j);
      } else if j == |t| {
        TypesCircle(s, t, j);
      } else {
        DirectionsClash(s, t, j);
      }
    }
  }

  lemma AllScores(s: seq<Spec>)
    ensures ChainsAll(s, s) <==> ChainsOn(s, (r: real) => true)
  {
    hide Greater, OfSchema;
    forall d ensures OfEither(d, s, s) <==> OfSchema(d, s) {}
    forall d | OfSchema(d, s) ensures Covers(d.columns, 1) && Among(d, (r: real) => true) { AnyScore(d, s); }
  }

  lemma AnyScore(d: Document, s: seq<Spec>)
    requires OfSchema(d, s)
    ensures Covers(d.columns, 1) && Among(d, (r: real) => true)
  {
    forall j | 0 <= j < |d.columns| && d.columns[j].kind.Float? ensures d.columns[j].data[0].Real? {
      assert d.columns[j].data[0] in d.columns[j].data;
    }
  }

  // ---------------------------------------------------------------- float scores and their epsilon

  /** Two documents with one score each in all float properties. */
  lemma ByScore(s: seq<Spec>, j: nat, a: real, c: real, x: Document, y: Document)
    requires j < |s| && s[j].kind.Float? && forall k | 0 <= k < j :: !s[k].kind.Float?
    requires x == ScoredBy(s, a, x.docid) && y == ScoredBy(s, c, y.docid)
    ensures Greater(x, y)
            == if Near(a, c) then x.docid > y.docid else if s[j].reverse then a < c else a > c
  {
    if Near(a, c) {
      TieAll(x, y);
    } else {
      TieUpTo(x.columns, y.columns, 0, j, x.docid > y.docid);
    }
  }

  lemma {:induction false} FirstFloat(s: seq<Spec>) returns (j: nat)
    requires HasFloats(s)
    ensures j < |s| && s[j].kind.Float? && forall k | 0 <= k < j :: !s[k].kind.Float?
    decreases |s|
  {
    var n := |s| - 1;
    if HasFloats(s[..n]) {
      j := FirstFloat(s[..n]);
      assert forall k | 0 <= k < n :: s[..n][k] == s[k];
    } else {
      j := n;
      assert forall k | 0 <= k < n :: s[..n][k] == s[k];
    }
  }

  lemma NotNearCircle(s: seq<Spec>, scores: real -> bool, a: real, b: real, c: real)
    requires HasFloats(s) && scores(a) && scores(b) && scores(c)
    requires Near(a, b) && Near(b, c) && !Near(a, c)
    ensures !ChainsOn(s, scores)
  {
    var j := FirstFloat(s);
    var upper, lower := if a > c then a else c, if a > c then c else a;
    var first, last := if s[j].reverse then lower else upper, if s[j].reverse then upper else lower;
    var x, y, z := ScoredBy(s, last, 2), ScoredBy(s, b, 1), ScoredBy(s, first, 0);
    ByScore(s, j, last, b, x, y);
    ByScore(s, j, b, first, y, z);
    ByScore(s, j, last, first, x, z);
    assert Among(x, scores) && Among(y, scores) && Among(z, scores);
    hide Greater, OfSchema, Among, ScoredBy;
    assert Greater(x, y) && Greater(y, z) && !Greater(x, z);
  }

  /** On the documents of one schema the comparison is transitive exactly if none of its properties is a
      float or being within epsilon is transitive on the scores at hand. */
  lemma EpsilonIff(s: seq<Spec>, scores: real -> bool)
    ensures ChainsOn(s, scores) <==> !HasFloats(s) || NearChains(scores)
  {
    if !HasFloats(s) || NearChains(scores) {
      ChainsIfNear(s, scores);
    } else {
      var a, b, c :| scores(a) && scores(b) && scores(c) && Near(a, b) && Near(b, c) && !Near(a, c);
      NotNearCircle(s, scores, a, b, c);
    }
  }

  /** It is not so on all numbers ... */
  lemma EpsilonCircle()
    ensures !NearChains((r: real) => true)
  {
    assert Near(0.0, EPSILON) && Near(EPSILON, 2.0 * EPSILON) && !Near(0.0, 2.0 * EPSILON);
  }

  /** ... as the scores 0, epsilon and twice epsilon show: their documents outrank each other in a circle. */
  lemma EpsilonCycle()
    ensures var x, y, z := Column(Float, false, [Real(0.0)]), Column(Float, false, [Real(EPSILON)]),
                           Column(Float, false, [Real(2.0 * EPSILON)]);
            && GreaterFrom([x], 0, [y], 0, 0, true)
            && GreaterFrom([y], 0, [z], 0, 0, true)
            && GreaterFrom([z], 0, [x], 0, 0, false)
  {
  }

  /** The smallest circle, of three documents: one worker lacks the column the others are sorted by. */
  lemma MissingColumnCycle()
    ensures var one, zero, none := [Column(Int32, false, [Num(1)])], [Column(Int32, false, [Num(0)])], [];
            && GreaterFrom(one, 0, zero, 0, 0, false)
            && GreaterFrom(zero, 0, none, 0, 0, true)
            && GreaterFrom(none, 0, one, 0, 0, true)
  {
  }

}
