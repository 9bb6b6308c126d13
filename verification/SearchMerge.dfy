/** Merging the workers' top documents into one top list (`getDistSearchResult`). */
module SearchMerge {
  import opened Merging
  import opened MergeComparator

  /** A document of a worker, as the aggregator identifies it. */
  datatype WDoc = WDoc(worker: nat, doc: nat)

  /** What one worker answers: its documents in rank order and, aligned with them, their scores. */
  datatype Worker = Worker(id: nat, docs: seq<nat>, ranks: seq<real>, customs: seq<real>, geos: seq<real>,
                           columns: seq<Column>, error: string)

  datatype Merge = Merge(docs: seq<nat>, workers: seq<nat>, ranks: seq<real>, customs: seq<real>, geos: seq<real>,
                         offsets: seq<Pos>)

  datatype Result = Success(merge: Merge) | Failure(error: string)

  ghost predicate StrictOrder(newer: (WDoc, WDoc) -> bool) {
    && (forall x :: !newer(x, x))
    && (forall x, y | x != y :: newer(x, y) == !newer(y, x))
    && (forall x, y, z | newer(x, y) && newer(y, z) :: newer(x, z))
  }

  function Sizes(ws: seq<Worker>): (s: seq<nat>)
    ensures |s| == |ws| && forall w | 0 <= w < |ws| :: s[w] == |ws[w].docs|
  {
    seq(|ws|, w requires 0 <= w < |ws| => |ws[w].docs|)
  }

  ghost predicate Aligned(w: Worker) {
    && |w.ranks| == |w.docs|
    && (w.customs == [] || |w.customs| == |w.docs|)
    && (w.geos == [] || |w.geos| == |w.docs|)
    && Covers(w.columns, |w.docs|)
  }

  function Tag(ws: seq<Worker>, p: Pos): WDoc
    requires IsPos(Sizes(ws), p)
  {
    WDoc(ws[p.list].id, ws[p.list].docs[p.at])
  }

  /** The order of the merge: `greaterThan` on two documents of the workers. */
  ghost function Outranks(ws: seq<Worker>, newer: (WDoc, WDoc) -> bool): (Pos, Pos) -> bool {
    (p: Pos, q: Pos) =>
      && IsPos(Sizes(ws), p) && IsPos(Sizes(ws), q)
      && Covers(ws[p.list].columns, p.at + 1) && Covers(ws[q.list].columns, q.at + 1)
      && GreaterFrom(ws[p.list].columns, p.at, ws[q.list].columns, q.at, 0, newer(Tag(ws, p), Tag(ws, q)))
  }

  /** Being within epsilon is transitive on the float values of any three documents. */
  ghost predicate ScoresChain(ws: seq<Worker>) {
    forall p, q, r | Compared(ws, p) && Compared(ws, q) && Compared(ws, r) ::
      ColumnsChained(ws[p.list].columns, p.at, ws[q.list].columns, q.at, ws[r.list].columns, r.at)
  }

  ghost predicate Compared(ws: seq<Worker>, p: Pos) {
    IsPos(Sizes(ws), p) && Covers(ws[p.list].columns, p.at + 1)
  }

  /** What the aggregator relies on: one schema for all documents (a worker without any may report none),
      scores on which the comparison is transitive, no document twice, every list in rank order. */
  ghost predicate Sound(ws: seq<Worker>, newer: (WDoc, WDoc) -> bool) {
    && StrictOrder(newer)
    && (forall w | w in ws :: Aligned(w))
    && (forall v, w | v in ws && w in ws && v.docs != [] && w.docs != [] :: SameSchema(v.columns, w.columns))
    && ScoresChain(ws)
    && (forall p, q | IsPos(Sizes(ws), p) && IsPos(Sizes(ws), q) && p != q :: Tag(ws, p) != Tag(ws, q))
    && (forall p, q | IsPos(Sizes(ws), p) && IsPos(Sizes(ws), q) && p.list == q.list && p.at < q.at ::
          Outranks(ws, newer)(p, q))
  }

  lemma CoversLess(cols: seq<Column>, n: nat, m: nat)
    requires Covers(cols, n) && m <= n
    ensures Covers(cols, m)
  {
  }

  lemma OutranksIs(ws: seq<Worker>, newer: (WDoc, WDoc) -> bool, p: Pos, q: Pos)
    requires Sound(ws, newer) && IsPos(Sizes(ws), p) && IsPos(Sizes(ws), q)
    ensures Covers(ws[p.list].columns, p.at + 1) && Covers(ws[q.list].columns, q.at + 1)
    ensures SameSchema(ws[p.list].columns, ws[q.list].columns)
    ensures Outranks(ws, newer)(p, q) ==
      GreaterFrom(ws[p.list].columns, p.at, ws[q.list].columns, q.at, 0, newer(Tag(ws, p), Tag(ws, q)))
  {
    hide StrictOrder, ScoresChain, GreaterFrom;
    var v, w := ws[p.list], ws[q.list];
    assert v in ws && w in ws;
    CoversLess(v.columns, |v.docs|, p.at + 1);
    CoversLess(w.columns, |w.docs|, q.at + 1);
  }

  lemma {:induction false} NotItself(a: seq<Column>, i: nat, j: nat)
    requires Covers(a, i + 1)
    ensures !GreaterFrom(a, i, a, i, j, false)
    decreases |a| - j
  {
    if j < |a| { NotItself(a, i, j + 1); }
  }

  lemma OutranksTotal(ws: seq<Worker>, newer: (WDoc, WDoc) -> bool, p: Pos, q: Pos)
    requires Sound(ws, newer) && IsPos(Sizes(ws), p) && IsPos(Sizes(ws), q)
    ensures if p == q then !Outranks(ws, newer)(p, q) else Outranks(ws, newer)(p, q) == !Outranks(ws, newer)(q, p)
  {
    OutranksIs(ws, newer, p, q);
    OutranksIs(ws, newer, q, p);
    if p == q {
      NotItself(ws[p.list].columns, p.at, 0);
    } else {
      GreaterTotal(ws[p.list].columns, p.at, ws[q.list].columns, q.at, 0,
                   newer(Tag(ws, p), Tag(ws, q)), newer(Tag(ws, q), Tag(ws, p)));
    }
  }

  lemma NewerTrans(ws: seq<Worker>, newer: (WDoc, WDoc) -> bool, p: Pos, q: Pos, r: Pos)
    requires Sound(ws, newer) && IsPos(Sizes(ws), p) && IsPos(Sizes(ws), q) && IsPos(Sizes(ws), r)
    ensures newer(Tag(ws, p), Tag(ws, q)) && newer(Tag(ws, q), Tag(ws, r)) ==> newer(Tag(ws, p), Tag(ws, r))
    ensures ws[p.list] in ws && ws[q.list] in ws && ws[r.list] in ws
  {
  }

  lemma ColumnsOf(ws: seq<Worker>, newer: (WDoc, WDoc) -> bool, p: Pos, q: Pos, r: Pos)
    requires Sound(ws, newer) && Compared(ws, p) && Compared(ws, q) && Compared(ws, r)
    ensures ColumnsChained(ws[p.list].columns, p.at, ws[q.list].columns, q.at, ws[r.list].columns, r.at)
  {
  }

  lemma InRange(sizes: seq<nat>, p: Pos)
    requires IsPos(sizes, p)
    ensures p.list < |sizes|
  {
  }

  lemma OutranksTrans(ws: seq<Worker>, newer: (WDoc, WDoc) -> bool, p: Pos, q: Pos, r: Pos)
    requires Sound(ws, newer) && IsPos(Sizes(ws), p) && IsPos(Sizes(ws), q) && IsPos(Sizes(ws), r)
    requires Outranks(ws, newer)(p, q) && Outranks(ws, newer)(q, r)
    ensures Outranks(ws, newer)(p, r)
  {
    hide Sound, Outranks, GreaterFrom, Covers, SameSchema, Tag, IsPos;
    OutranksIs(ws, newer, p, q);
    OutranksIs(ws, newer, q, r);
    OutranksIs(ws, newer, p, r);
    NewerTrans(ws, newer, p, q, r);
    ColumnsOf(ws, newer, p, q, r);
    InRange(Sizes(ws), p);
    InRange(Sizes(ws), q);
    InRange(Sizes(ws), r);
    GreaterTrans(ws[p.list].columns, p.at, ws[q.list].columns, q.at, ws[r.list].columns, r.at, 0,
                 newer(Tag(ws, p), Tag(ws, q)), newer(Tag(ws, q), Tag(ws, r)), newer(Tag(ws, p), Tag(ws, r)));
  }

  lemma OutranksInList(ws: seq<Worker>, newer: (WDoc, WDoc) -> bool)
    requires Sound(ws, newer)
    ensures forall p, q | IsPos(Sizes(ws), p) && IsPos(Sizes(ws), q) && p.list == q.list && p.at < q.at ::
      Outranks(ws, newer)(p, q)
  {
  }

  /** On sound answers `greaterThan` is a strict total order of all the documents. */
  lemma OutranksIsOrder(ws: seq<Worker>, newer: (WDoc, WDoc) -> bool)
    requires Sound(ws, newer)
    ensures SortedLists(Outranks(ws, newer), Sizes(ws))
  {
    hide Sound, Outranks, IsPos;
    var before, sizes := Outranks(ws, newer), Sizes(ws);
    OutranksInList(ws, newer);
    forall p, q | IsPos(sizes, p) && IsPos(sizes, q)
      ensures if p == q then !before(p, q) else before(p, q) == !before(q, p)
    {
      OutranksTotal(ws, newer, p, q);
    }
    forall p, q, r | IsPos(sizes, p) && IsPos(sizes, q) && IsPos(sizes, r) && before(p, q) && before(q, r)
      ensures before(p, r)
    {
      OutranksTrans(ws, newer, p, q, r);
    }
  }

  /** The inner loop: the worker whose head goes out next, -1 if all are exhausted. */
  method PickHead(ws: seq<Worker>, newer: (WDoc, WDoc) -> bool, heads: seq<nat>) returns (max: int)
    requires Sound(ws, newer) && |heads| == |ws|
    ensures -1 <= max < |ws|
    ensures BestOf(Outranks(ws, newer), Sizes(ws), heads, if max < 0 then |ws| else max, |ws|)
  {
    ghost var before, sizes := Outranks(ws, newer), Sizes(ws);
    OutranksIsOrder(ws, newer);
    assert BestOf(before, sizes, heads, 0, 0);
    hide Sound, Outranks, SortedLists, BestOf, Covers, GreaterFrom;
    max := -1;
    for i := 0 to |ws|
      invariant -1 <= max < i && BestOf(before, sizes, heads, if max < 0 then i else max, i)
    {
      BestStep(before, sizes, heads, if max < 0 then i else max, i);
      if heads[i] >= |ws[i].docs| {
        continue;
      }
      if max == -1 {
        max := i;
        continue;
      }
      BestHead(before, sizes, heads, max, i);
      var p, q := Pos(i, heads[i]), Pos(max, heads[max]);
      OutranksIs(ws, newer, p, q);
      var greater := GreaterThan(ws[i].columns, heads[i], ws[max].columns, heads[max], newer(Tag(ws, p), Tag(ws, q)));
      if greater {
        max := i;
      }
    }
  }

  lemma BestHead(before: (Pos, Pos) -> bool, sizes: seq<nat>, heads: seq<nat>, m: nat, i: nat)
    requires BestOf(before, sizes, heads, m, i) && m < i
    ensures m < |sizes| == |heads| && heads[m] < sizes[m]
  {
  }

  // ---------------------------------------------------------------- the merge

  function ScoreAt(scores: seq<real>, at: nat): real {
    if at < |scores| then scores[at] else 0.0
  }

  /** Every array of the result tells of the same documents: those at the given positions. */
  ghost predicate Reports(ws: seq<Worker>, m: Merge, hasCustom: bool, hasGeo: bool) {
    && |m.docs| == |m.workers| == |m.ranks| == |m.offsets|
    && |m.customs| == (if hasCustom then |m.offsets| else 0)
    && |m.geos| == (if hasGeo then |m.offsets| else 0)
    && (forall i | 0 <= i < |m.offsets| :: ReportsAt(ws, m, hasCustom, hasGeo, i))
  }

  ghost predicate ReportsAt(ws: seq<Worker>, m: Merge, hasCustom: bool, hasGeo: bool, i: nat)
    requires i < |m.docs| == |m.workers| == |m.ranks| == |m.offsets|
    requires |m.customs| == (if hasCustom then |m.offsets| else 0) && |m.geos| == (if hasGeo then |m.offsets| else 0)
  {
    var p := m.offsets[i];
    && IsPos(Sizes(ws), p) && p.at < |ws[p.list].ranks|
    && m.docs[i] == ws[p.list].docs[p.at]
    && m.workers[i] == ws[p.list].id
    && m.ranks[i] == ws[p.list].ranks[p.at]
    && (hasCustom ==> m.customs[i] == ScoreAt(ws[p.list].customs, p.at))
    && (hasGeo ==> m.geos[i] == ScoreAt(ws[p.list].geos, p.at))
  }

  function Append(ws: seq<Worker>, m: Merge, hasCustom: bool, hasGeo: bool, p: Pos): Merge
    requires p.list < |ws| && p.at < |ws[p.list].docs| && p.at < |ws[p.list].ranks|
  {
    var w := ws[p.list];
    Merge(m.docs + [w.docs[p.at]], m.workers + [w.id], m.ranks + [w.ranks[p.at]],
          if hasCustom then m.customs + [ScoreAt(w.customs, p.at)] else m.customs,
          if hasGeo then m.geos + [ScoreAt(w.geos, p.at)] else m.geos,
          m.offsets + [p])
  }

  lemma ReportsMore(ws: seq<Worker>, m: Merge, hasCustom: bool, hasGeo: bool, p: Pos)
    requires Reports(ws, m, hasCustom, hasGeo)
    requires IsPos(Sizes(ws), p) && p.at < |ws[p.list].ranks|
    ensures Reports(ws, Append(ws, m, hasCustom, hasGeo, p), hasCustom, hasGeo)
  {
    var more := Append(ws, m, hasCustom, hasGeo, p);
    forall i | 0 <= i < |more.offsets| ensures ReportsAt(ws, more, hasCustom, hasGeo, i) {
      if i < |m.offsets| { assert ReportsAt(ws, m, hasCustom, hasGeo, i); }
    }
  }

  predicate HasCustom(ws: seq<Worker>) {
    exists w :: w in ws && w.customs != []
  }

  predicate HasGeo(ws: seq<Worker>) {
    exists w :: w in ws && w.geos != []
  }

  /** How many documents are merged: one page of at most `topKNum`, as far as they reach. */
  function TopCount(total: nat, start: nat, topKNum: nat): (n: nat)
    requires topKNum > 0
    ensures n <= total && n <= topKNum
  {
    var topStart := start - start % topKNum;
    var rest := if topStart < total then total - topStart else 0;
    if rest < topKNum then rest else topKNum
  }

  /** These are the places that lie on the same stretch of `topKNum` places as the start. */
  lemma TopCountIs(total: nat, start: nat, topKNum: nat)
    requires topKNum > 0
    ensures TopCount(total, start, topKNum) == |set k: nat | k < total && k / topKNum == start / topKNum|
  {
    hide TopCount;
    var first := start - start % topKNum;
    Stretch(start, topKNum);
    CountStretch(total, first, topKNum, start / topKNum);
    TopCountBy(total, start, topKNum);
  }

  lemma Stretch(start: nat, t: nat)
    requires t > 0
    ensures start - start % t == t * (start / t)
  {
  }

  lemma TopCountBy(total: nat, start: nat, topKNum: nat)
    requires topKNum > 0
    ensures var first := start - start % topKNum;
            TopCount(total, start, topKNum)
            == if total <= first then 0 else if total < first + topKNum then total - first else topKNum
  {
  }

  lemma {:induction false} CountStretch(total: nat, first: nat, t: nat, q: nat)
    requires t > 0 && first == t * q
    ensures |set k: nat | k < total && k / t == q|
            == if total <= first then 0 else if total < first + t then total - first else t
    decreases total
  {
    if total > 0 {
      CountStretch(total - 1, first, t, q);
      SameStretch(total - 1, first, t, q);
      StretchNext(total, t, q);
    } else {
      assert (set k: nat | k < total && k / t == q) == {};
    }
  }

  lemma StretchNext(total: nat, t: nat, q: nat)
    requires total > 0 && t > 0
    ensures |set k: nat | k < total && k / t == q|
            == |set k: nat | k < total - 1 && k / t == q| + if (total - 1) / t == q then 1 else 0
  {
    var less, all := set k: nat | k < total - 1 && k / t == q, set k: nat | k < total && k / t == q;
    if (total - 1) / t == q { assert all == less + {total - 1}; } else { assert all == less; }
  }

  lemma SameStretch(k: nat, first: nat, t: nat, q: nat)
    requires t > 0 && first == t * q
    ensures k / t == q <==> first <= k < first + t
  {
    var p := k / t;
    assert k == t * p + k % t;
    if p < q { Scaled(t, p + 1, q); } else if p > q { Scaled(t, q + 1, p); }
  }

  lemma Scaled(t: nat, a: nat, b: nat)
    requires a <= b
    ensures t * a <= t * b
  {
  }

  /** `m` has merged `n` documents and the heads stand right behind them. */
  ghost predicate MergedTo(ws: seq<Worker>, newer: (WDoc, WDoc) -> bool, heads: seq<nat>, m: Merge, n: nat) {
    && Merged(Outranks(ws, newer), Sizes(ws), heads, m.offsets)
    && Total(heads) == n == |m.offsets|
    && Reports(ws, m, HasCustom(ws), HasGeo(ws))
  }

  lemma MergedStart(ws: seq<Worker>, newer: (WDoc, WDoc) -> bool)
    ensures MergedTo(ws, newer, Zeros(|ws|), Merge([], [], [], [], [], []), 0)
  {
    MergeStart(Outranks(ws, newer), Sizes(ws));
  }

  lemma MergedStep(ws: seq<Worker>, newer: (WDoc, WDoc) -> bool, heads: seq<nat>, m: Merge, n: nat, max: nat)
    requires Sound(ws, newer) && MergedTo(ws, newer, heads, m, n) && n < Total(Sizes(ws))
    requires |heads| == |ws| && BestOf(Outranks(ws, newer), Sizes(ws), heads, max, |ws|)
    ensures max < |ws| && heads[max] < |ws[max].docs| == |ws[max].ranks|
    ensures MergedTo(ws, newer, heads[max := heads[max] + 1],
            Append(ws, m, HasCustom(ws), HasGeo(ws), Pos(max, heads[max])), n + 1)
  {
    var before, sizes := Outranks(ws, newer), Sizes(ws);
    BestIsFirst(before, sizes, heads, max);
    assert max < |ws| && heads[max] < sizes[max];
    assert Aligned(ws[max]);
    OutranksIsOrder(ws, newer);
    hide SortedLists, BestOf, FirstHead, Merged, Sound, Reports, Outranks;
    MergeStep(before, sizes, heads, m.offsets, max);
    TotalStep(heads, max);
    ReportsMore(ws, m, HasCustom(ws), HasGeo(ws), Pos(max, heads[max]));
  }

  lemma HeadsFit(ws: seq<Worker>, newer: (WDoc, WDoc) -> bool, heads: seq<nat>, m: Merge, n: nat)
    requires MergedTo(ws, newer, heads, m, n)
    ensures |heads| == |ws|
  {
  }

  /** The outer loop. The `break` for exhausted workers is never taken: there are always enough. */
  method MergeTop(ws: seq<Worker>, newer: (WDoc, WDoc) -> bool, count: nat, hasCustom: bool, hasGeo: bool)
    returns (m: Merge)
    requires Sound(ws, newer) && count <= Total(Sizes(ws))
    requires hasCustom == HasCustom(ws) && hasGeo == HasGeo(ws)
    ensures TopOfUnion(ws, newer, m, count)
  {
    hide *;
    var iter := Zeros(|ws|);
    m := Merge([], [], [], [], [], []);
    MergedStart(ws, newer);
    for cnt := 0 to count
      invariant MergedTo(ws, newer, iter, m, cnt)
    {
      HeadsFit(ws, newer, iter, m, cnt);
      var max := PickHead(ws, newer, iter);
      MergedStep(ws, newer, iter, m, cnt, if max < 0 then |ws| else max);
      m := Append(ws, m, hasCustom, hasGeo, Pos(max, iter[max]));
      iter := iter[max := iter[max] + 1];
    }
    MergedIsTop(ws, newer, iter, m, count);
  }

  /** `m` is the top `n` of the sorted union of all the workers' documents, fully aligned. */
  ghost predicate TopOfUnion(ws: seq<Worker>, newer: (WDoc, WDoc) -> bool, m: Merge, n: nat) {
    && |m.offsets| == n
    && Reports(ws, m, HasCustom(ws), HasGeo(ws))
    && (exists heads :: Merged(Outranks(ws, newer), Sizes(ws), heads, m.offsets))
    && (forall all | SortedUnion(Outranks(ws, newer), Sizes(ws), all) :: n <= |all| && m.offsets == all[..n])
  }

  lemma MergedIsTop(ws: seq<Worker>, newer: (WDoc, WDoc) -> bool, heads: seq<nat>, m: Merge, n: nat)
    requires Sound(ws, newer) && MergedTo(ws, newer, heads, m, n)
    ensures TopOfUnion(ws, newer, m, n)
  {
    var before, sizes := Outranks(ws, newer), Sizes(ws);
    OutranksIsOrder(ws, newer);
    hide Sound, Merged, SortedLists, SortedUnion, Reports, Outranks;
    forall all | SortedUnion(before, sizes, all) ensures n <= |all| && m.offsets == all[..n] {
      MergedIsPrefix(before, sizes, heads, m.offsets, all);
    }
  }

  /** The sorted union exists: merging everything yields it. */
  lemma MergedAllIsUnion(ws: seq<Worker>, newer: (WDoc, WDoc) -> bool, heads: seq<nat>, m: Merge)
    requires MergedTo(ws, newer, heads, m, Total(Sizes(ws)))
    ensures SortedUnion(Outranks(ws, newer), Sizes(ws), m.offsets)
  {
    AllOut(Outranks(ws, newer), Sizes(ws), heads, m.offsets);
  }

  /** No (worker, offset) pair is used twice, and each worker's documents come out from its first on
      and in its own order. */
  lemma TopKeepsOrder(ws: seq<Worker>, newer: (WDoc, WDoc) -> bool, m: Merge, n: nat, i: nat, j: nat)
    requires Sound(ws, newer) && TopOfUnion(ws, newer, m, n) && i < j < n
    ensures m.offsets[i] != m.offsets[j]
    ensures m.offsets[i].list == m.offsets[j].list ==> m.offsets[i].at < m.offsets[j].at
    ensures forall k: nat | k < m.offsets[i].at :: Pos(m.offsets[i].list, k) in m.offsets[..i]
  {
    var before, sizes, p, q := Outranks(ws, newer), Sizes(ws), m.offsets[i], m.offsets[j];
    OutranksIsOrder(ws, newer);
    hide Sound, Reports, Outranks;
    var heads :| Merged(before, sizes, heads, m.offsets);
    assert p in m.offsets && q in m.offsets && before(p, q);
    forall k: nat | k < p.at ensures Pos(p.list, k) in m.offsets[..i] {
      EarlierIsBefore(before, sizes, heads, m.offsets, i, k);
    }
  }

  /** What a worker ranks before a merged document was merged before it. */
  lemma EarlierIsBefore(before: (Pos, Pos) -> bool, sizes: seq<nat>, heads: seq<nat>, offsets: seq<Pos>, i: nat, k: nat)
    requires SortedLists(before, sizes) && Merged(before, sizes, heads, offsets) && i < |offsets| && k < offsets[i].at
    ensures Pos(offsets[i].list, k) in offsets[..i]
  {
    var p, x := offsets[i], Pos(offsets[i].list, k);
    assert p in offsets;
    assert IsPos(sizes, x) && x in offsets && before(x, p);
    var l :| 0 <= l < |offsets| && offsets[l] == x;
    assert l > i ==> before(p, x);
    assert offsets[..i][l] == x;
  }

  lemma TopSize(ws: seq<Worker>, newer: (WDoc, WDoc) -> bool, m: Merge, n: nat)
    requires TopOfUnion(ws, newer, m, n)
    ensures |m.offsets| == n
  {
  }

  /** What the top of the union is: the merged documents are those of the workers at their offsets, with their
      worker and rank score; each outranks all behind it and every document of any worker that was not
      merged. */
  lemma TopMeans(ws: seq<Worker>, newer: (WDoc, WDoc) -> bool, m: Merge, n: nat)
    requires Sound(ws, newer) && TopOfUnion(ws, newer, m, n)
    ensures |m.offsets| == |m.docs| == |m.workers| == |m.ranks| == n
    ensures forall i | 0 <= i < n ::
      var o := m.offsets[i];
      && o.list < |ws| && o.at < |ws[o.list].docs| && o.at < |ws[o.list].ranks|
      && m.docs[i] == ws[o.list].docs[o.at] && m.workers[i] == ws[o.list].id && m.ranks[i] == ws[o.list].ranks[o.at]
    ensures |m.customs| == (if exists w :: w in ws && w.customs != [] then n else 0)
    ensures |m.geos| == (if exists w :: w in ws && w.geos != [] then n else 0)
    ensures forall i | 0 <= i < n && i < |m.customs| ::
      var o, scores := m.offsets[i], ws[m.offsets[i].list].customs;
      m.customs[i] == if o.at < |scores| then scores[o.at] else 0.0
    ensures forall i | 0 <= i < n && i < |m.geos| ::
      var o, scores := m.offsets[i], ws[m.offsets[i].list].geos;
      m.geos[i] == if o.at < |scores| then scores[o.at] else 0.0
    ensures forall i, j | 0 <= i < j < n :: Outranks(ws, newer)(m.offsets[i], m.offsets[j])
    ensures forall i, w, d | 0 <= i < n && 0 <= w < |ws| && 0 <= d < |ws[w].docs| && Pos(w, d) !in m.offsets ::
      Outranks(ws, newer)(m.offsets[i], Pos(w, d))
  {
    forall i | 0 <= i < n
      ensures var o := m.offsets[i];
              && o.list < |ws| && o.at < |ws[o.list].docs| && o.at < |ws[o.list].ranks|
              && m.docs[i] == ws[o.list].docs[o.at] && m.workers[i] == ws[o.list].id
              && m.ranks[i] == ws[o.list].ranks[o.at]
              && (i < |m.customs| ==>
                    m.customs[i] == if o.at < |ws[o.list].customs| then ws[o.list].customs[o.at] else 0.0)
              && (i < |m.geos| ==> m.geos[i] == if o.at < |ws[o.list].geos| then ws[o.list].geos[o.at] else 0.0)
    {
      assert ReportsAt(ws, m, HasCustom(ws), HasGeo(ws), i);
    }
    TopFirst(Outranks(ws, newer), Sizes(ws), m.offsets);
    hide *;
    forall i, w, d | 0 <= i < n && 0 <= w < |ws| && 0 <= d < |ws[w].docs| && Pos(w, d) !in m.offsets
      ensures Outranks(ws, newer)(m.offsets[i], Pos(w, d))
    {
      assert |Sizes(ws)| == |ws| && Sizes(ws)[w] == |ws[w].docs|;
    }
  }

  lemma TopFirst(before: (Pos, Pos) -> bool, sizes: seq<nat>, offsets: seq<Pos>)
    requires exists heads :: Merged(before, sizes, heads, offsets)
    ensures forall i, j | 0 <= i < j < |offsets| :: before(offsets[i], offsets[j])
    ensures forall i, w, d | 0 <= i < |offsets| && 0 <= w < |sizes| && 0 <= d < sizes[w] && Pos(w, d) !in offsets ::
      before(offsets[i], Pos(w, d))
  {
    var heads :| Merged(before, sizes, heads, offsets);
    forall i, w, d | 0 <= i < |offsets| && 0 <= w < |sizes| && 0 <= d < sizes[w] && Pos(w, d) !in offsets
      ensures before(offsets[i], Pos(w, d))
    {
      assert IsPos(sizes, Pos(w, d)) && offsets[i] in offsets;
    }
  }

  function WholeAnswer(w: Worker): Merge {
    Merge(w.docs, seq(|w.docs|, _ => w.id), w.ranks, w.customs, w.geos, seq(|w.docs|, i requires 0 <= i => Pos(0, i)))
  }

  lemma WholeReports(w: Worker)
    requires Aligned(w)
    ensures Reports([w], WholeAnswer(w), HasCustom([w]), HasGeo([w]))
  {
    hide Covers;
    assert HasCustom([w]) == (w.customs != []) && HasGeo([w]) == (w.geos != []) by {
      assert w in [w];
    }
  }

  method CheckErrors(ws: seq<Worker>) returns (error: string)
    ensures error == "" <==> forall w | w in ws :: w.error == ""
    ensures error != "" ==>
      exists k :: 0 <= k < |ws| && ws[k].error == error && forall l | 0 <= l < k :: ws[l].error == ""
  {
    for i := 0 to |ws|
      invariant forall k | 0 <= k < i :: ws[k].error == ""
    {
      if ws[i].error != "" {
        return ws[i].error;
      }
    }
    error := "";
  }

  /** The whole answer. A single worker's answer is passed on as it is, not cut. */
  method GetDistSearchResult(ws: seq<Worker>, newer: (WDoc, WDoc) -> bool, start: nat, topKNum: nat) returns (r: Result)
    requires topKNum > 0
    requires |ws| == 1 ==> Aligned(ws[0])
    requires |ws| > 1 && (forall w | w in ws :: w.error == "") ==> Sound(ws, newer)
    ensures r.Success? <==> ws != [] && forall w | w in ws :: w.error == ""
    ensures ws == [] ==> r == Failure("empty worker.")
    ensures r.Failure? && ws != [] ==>
      exists k :: 0 <= k < |ws| && ws[k].error == r.error != "" && forall l | 0 <= l < k :: ws[l].error == ""
    ensures r.Success? && |ws| == 1 ==> r.merge.docs == ws[0].docs && Reports(ws, r.merge, HasCustom(ws), HasGeo(ws))
    ensures r.Success? && |ws| == 1 ==>
      && r.merge.ranks == ws[0].ranks && r.merge.customs == ws[0].customs && r.merge.geos == ws[0].geos
      && |r.merge.workers| == |ws[0].docs| && forall i | 0 <= i < |ws[0].docs| :: r.merge.workers[i] == ws[0].id
    ensures r.Success? && |ws| > 1 ==>
      && TopOfUnion(ws, newer, r.merge, TopCount(Total(Sizes(ws)), start, topKNum))
      && |r.merge.offsets| == |set k: nat | k < Total(Sizes(ws)) && k / topKNum == start / topKNum|
  {
    hide Reports, TopOfUnion, Sound, Aligned, TopCount, Total, Sizes;
    if |ws| == 0 {
      return Failure("empty worker.");
    }
    var error := CheckErrors(ws);
    if error != "" {
      return Failure(error);
    }
    if |ws| == 1 {
      WholeReports(ws[0]);
      assert ws == [ws[0]];
      return Success(WholeAnswer(ws[0]));
    }
    var count := TopCount(Total(Sizes(ws)), start, topKNum);
    TopCountIs(Total(Sizes(ws)), start, topKNum);
    var m := MergeTop(ws, newer, count, HasCustom(ws), HasGeo(ws));
    TopSize(ws, newer, m, count);
    r := Success(m);
  }
}
