/** Merging the workers' group labels: for every path the best info any worker has for it
    (`mergeScoreGroupLabel`). */
module GroupLabels {
  import opened SearchMerge

  type Path = seq<string>

  datatype Info = Info(score: real, wdoc: WDoc)
  datatype Label = Label(path: Path, info: Info)

  /** property -> its labels */
  type LabelMap = map<string, seq<Label>>

  /** A worker's labels; their document ids are the worker's own. */
  datatype Source = Source(worker: nat, labels: LabelMap)

  /** Higher score first, then the newer document. */
  predicate Better(newer: (WDoc, WDoc) -> bool, x: Info, y: Info) {
    x.score > y.score || (x.score == y.score && newer(x.wdoc, y.wdoc))
  }

  function Tagged(l: Label, worker: nat): Label {
    Label(l.path, Info(l.info.score, WDoc(worker, l.info.wdoc.doc)))
  }

  predicate DistinctPaths(list: seq<Label>) {
    forall i, j | 0 <= i < j < |list| :: list[i].path != list[j].path
  }

  ghost predicate Descending(newer: (WDoc, WDoc) -> bool, list: seq<Label>) {
    forall i, j | 0 <= i < j < |list| :: !Better(newer, list[j].info, list[i].info)
  }

  /** `list` holds offers only, and for every offer one of its path that is at least as good. */
  ghost predicate Covers(newer: (WDoc, WDoc) -> bool, list: seq<Label>, offers: set<Label>) {
    && (forall l | l in list :: l in offers)
    && (forall o | o in offers :: Matched(newer, list, o))
  }

  ghost predicate Matched(newer: (WDoc, WDoc) -> bool, list: seq<Label>, o: Label) {
    exists i :: 0 <= i < |list| && list[i].path == o.path && !Better(newer, o.info, list[i].info)
  }

  /** None of the offers of its path is better. */
  ghost predicate IsBest(newer: (WDoc, WDoc) -> bool, l: Label, offers: set<Label>) {
    l in offers && forall o | o in offers && o.path == l.path :: !Better(newer, o.info, l.info)
  }

  /** `list` has every offered path exactly once, with the best info offered for it. */
  ghost predicate BestOf(newer: (WDoc, WDoc) -> bool, list: seq<Label>, offers: set<Label>) {
    && DistinctPaths(list)
    && (forall l | l in list :: IsBest(newer, l, offers))
    && (forall o | o in offers :: exists i :: 0 <= i < |list| && list[i].path == o.path)
  }

  ghost function Tags(list: seq<Label>, worker: nat): set<Label> {
    set l | l in list :: Tagged(l, worker)
  }

  ghost function LabelsFor(m: LabelMap, prop: string): seq<Label> {
    if prop in m then m[prop] else []
  }

  /** Everything the sources have for a property. */
  ghost function Offers(sources: seq<Source>, prop: string): set<Label> {
    set s, l | s in sources && l in Tags(LabelsFor(s.labels, prop), s.worker) :: l
  }

  /** What the sources offer: their labels, each tagged with the worker it comes from. */
  lemma OfferIs(sources: seq<Source>, prop: string, o: Label)
    ensures o in Offers(sources, prop) <==>
      exists s, l ::
        && s in sources && prop in s.labels && l in s.labels[prop]
        && o == Label(l.path, Info(l.info.score, WDoc(s.worker, l.info.wdoc.doc)))
  {
    if o in Offers(sources, prop) {
      var s :| s in sources && o in Tags(LabelsFor(s.labels, prop), s.worker);
      var l :| l in LabelsFor(s.labels, prop) && o == Tagged(l, s.worker);
      assert s in sources && prop in s.labels && l in s.labels[prop];
    }
    if s, l :| s in sources && prop in s.labels && l in s.labels[prop]
               && o == Label(l.path, Info(l.info.score, WDoc(s.worker, l.info.wdoc.doc))) {
      assert l in LabelsFor(s.labels, prop) && o == Tagged(l, s.worker);
      assert o in Tags(LabelsFor(s.labels, prop), s.worker);
    }
  }

  lemma BetterTotal(newer: (WDoc, WDoc) -> bool, x: Info, y: Info)
    requires StrictOrder(newer)
    ensures x != y ==> Better(newer, x, y) == !Better(newer, y, x)
    ensures !Better(newer, x, x)
  {
  }

  lemma BetterTrans(newer: (WDoc, WDoc) -> bool, x: Info, y: Info, z: Info)
    requires StrictOrder(newer) && Better(newer, x, y) && Better(newer, y, z)
    ensures Better(newer, x, z)
  {
  }

  /** Wherever the offers are covered, the best label of every path is present ... */
  lemma BestIsPresent(newer: (WDoc, WDoc) -> bool, list: seq<Label>, offers: set<Label>, l: Label)
    requires StrictOrder(newer) && Covers(newer, list, offers) && IsBest(newer, l, offers)
    ensures l in list
  {
    assert Matched(newer, list, l);
    var i :| 0 <= i < |list| && list[i].path == l.path && !Better(newer, l.info, list[i].info);
    assert list[i] in list && list[i] in offers;
    BetterTotal(newer, l.info, list[i].info);
  }

  /** ... and where no path is repeated nothing else is. */
  lemma CoversOnce(newer: (WDoc, WDoc) -> bool, list: seq<Label>, offers: set<Label>)
    requires Covers(newer, list, offers) && DistinctPaths(list)
    ensures BestOf(newer, list, offers)
  {
    forall l | l in list ensures IsBest(newer, l, offers) {
      var k :| 0 <= k < |list| && list[k] == l;
      forall o | o in offers && o.path == l.path ensures !Better(newer, o.info, l.info) {
        assert Matched(newer, list, o);
        var i :| 0 <= i < |list| && list[i].path == o.path && !Better(newer, o.info, list[i].info);
        assert i == k;
      }
    }
    forall o | o in offers ensures exists i :: 0 <= i < |list| && list[i].path == o.path {
      assert Matched(newer, list, o);
    }
  }

  /** There is only one best list, up to the order of its labels. */
  lemma BestIsUnique(newer: (WDoc, WDoc) -> bool, a: seq<Label>, b: seq<Label>, offers: set<Label>)
    requires StrictOrder(newer) && BestOf(newer, a, offers) && BestOf(newer, b, offers)
    ensures forall l :: l in a <==> l in b
  {
    forall l | l in a ensures l in b { BestInBoth(newer, a, b, offers, l); }
    forall l | l in b ensures l in a { BestInBoth(newer, b, a, offers, l); }
  }

  lemma BestInBoth(newer: (WDoc, WDoc) -> bool, a: seq<Label>, b: seq<Label>, offers: set<Label>, l: Label)
    requires StrictOrder(newer) && BestOf(newer, a, offers) && BestOf(newer, b, offers) && l in a
    ensures l in b
  {
    var i :| 0 <= i < |b| && b[i].path == l.path;
    assert b[i] in b && b[i] in offers && l in offers;
    BetterTotal(newer, l.info, b[i].info);
  }

  // ---------------------------------------------------------------- one label at a time

  method FindPath(list: seq<Label>, path: Path) returns (j: nat)
    ensures IsFirst(list, path, j)
  {
    j := 0;
    while j < |list| && list[j].path != path
      invariant j <= |list| && forall k | 0 <= k < j :: list[k].path != path
    {
      j := j + 1;
    }
  }

  /** The list after one more offer: it replaces the info of the first label of its path if it is better, or
      opens a new path. */
  function Offered(newer: (WDoc, WDoc) -> bool, list: seq<Label>, o: Label, j: nat): seq<Label>
    requires j <= |list|
  {
    if j == |list| then list + [o] else if Better(newer, o.info, list[j].info) then list[j := o] else list
  }

  predicate IsFirst(list: seq<Label>, path: Path, j: nat) {
    j <= |list| && (j < |list| ==> list[j].path == path) && forall k | 0 <= k < j :: list[k].path != path
  }

  /** Afterwards the list covers the offer as well, and repeats paths exactly if it did before. */
  lemma OfferStep(newer: (WDoc, WDoc) -> bool, list: seq<Label>, offers: set<Label>, o: Label, j: nat)
    requires StrictOrder(newer) && Covers(newer, list, offers) && IsFirst(list, o.path, j)
    ensures Covers(newer, Offered(newer, list, o, j), offers + {o})
    ensures DistinctPaths(Offered(newer, list, o, j)) <==> DistinctPaths(list)
  {
    var after := Offered(newer, list, o, j);
    forall x | x in offers ensures Matched(newer, after, x) { StillMatched(newer, list, o, j, x); }
    assert Matched(newer, after, o) by { assert after[j].path == o.path && !Better(newer, o.info, after[j].info); }
    SamePaths(newer, list, o, j);
  }

  lemma NoBetter(newer: (WDoc, WDoc) -> bool, x: Info, y: Info, z: Info)
    requires StrictOrder(newer) && Better(newer, y, z) && !Better(newer, x, z)
    ensures !Better(newer, x, y)
  {
    if Better(newer, x, y) { BetterTrans(newer, x, y, z); }
  }

  lemma StillMatched(newer: (WDoc, WDoc) -> bool, list: seq<Label>, o: Label, j: nat, x: Label)
    requires StrictOrder(newer) && IsFirst(list, o.path, j) && Matched(newer, list, x)
    ensures Matched(newer, Offered(newer, list, o, j), x)
  {
    var after := Offered(newer, list, o, j);
    var i :| 0 <= i < |list| && list[i].path == x.path && !Better(newer, x.info, list[i].info);
    if i == j && Better(newer, o.info, list[j].info) { NoBetter(newer, x.info, o.info, list[j].info); }
    assert after[i].path == x.path && !Better(newer, x.info, after[i].info);
  }

  lemma SamePaths(newer: (WDoc, WDoc) -> bool, list: seq<Label>, o: Label, j: nat)
    requires IsFirst(list, o.path, j)
    ensures DistinctPaths(Offered(newer, list, o, j)) <==> DistinctPaths(list)
  {
    var after := Offered(newer, list, o, j);
    assert forall i | 0 <= i < |list| :: after[i].path == list[i].path;
  }

  // ---------------------------------------------------------------- sorting

  lemma InsertKeepsOrder(newer: (WDoc, WDoc) -> bool, s: seq<Label>, l: Label, k: nat)
    requires StrictOrder(newer) && Descending(newer, s) && k <= |s|
    requires forall i | 0 <= i < k :: Better(newer, s[i].info, l.info)
    requires k < |s| ==> !Better(newer, s[k].info, l.info)
    ensures Descending(newer, s[..k] + [l] + s[k..])
  {
    forall i | 0 <= i < k ensures !Better(newer, l.info, s[i].info) {
      BetterTotal(newer, l.info, s[i].info);
    }
    forall i | k <= i < |s| ensures !Better(newer, s[i].info, l.info) {
      if i > k && Better(newer, s[i].info, l.info) {
        assert !Better(newer, s[i].info, s[k].info);
        BetterTotal(newer, s[k].info, s[i].info);
        if s[k].info != s[i].info { BetterTrans(newer, s[k].info, s[i].info, l.info); }
      }
    }
  }

  lemma InsertKeepsLabels(s: seq<Label>, l: Label, k: nat)
    requires k <= |s|
    ensures DistinctPaths(s[..k] + [l] + s[k..]) <==> DistinctPaths(s + [l])
    ensures multiset(s[..k] + [l] + s[k..]) == multiset(s + [l])
  {
    var r, t := s[..k] + [l] + s[k..], s + [l];
    assert s == s[..k] + s[k..];
    if DistinctPaths(t) {
      forall i, j | 0 <= i < j < |r| ensures r[i].path != r[j].path {
        assert r[i] == t[Back(s, k, i)] && r[j] == t[Back(s, k, j)];
      }
    }
    if DistinctPaths(r) {
      forall i, j | 0 <= i < j < |t| ensures t[i].path != t[j].path {
        assert t[i] == r[if i < k then i else i + 1];
        assert t[j] == if j == |s| then r[k] else r[if j < k then j else j + 1];
      }
    }
  }

  /** Where the label at place `i` came from. */
  function Back(s: seq<Label>, k: nat, i: nat): nat {
    if i < k then i else if i == k then |s| else i - 1
  }

  /** `std::sort`: the same labels in descending order. */
  method SortLabels(newer: (WDoc, WDoc) -> bool, list: seq<Label>) returns (r: seq<Label>)
    requires StrictOrder(newer)
    ensures Descending(newer, r)
    ensures multiset(r) == multiset(list) && (DistinctPaths(r) <==> DistinctPaths(list))
  {
    r := [];
    assert Descending(newer, r) && DistinctPaths(r) && list[..0] == r;
    hide *;
    for i := 0 to |list|
      invariant Descending(newer, r)
      invariant multiset(r) == multiset(list[..i]) && (DistinctPaths(r) <==> DistinctPaths(list[..i]))
    {
      var l, k := list[i], 0;
      while k < |r| && Better(newer, r[k].info, l.info)
        invariant k <= |r| && forall j | 0 <= j < k :: Better(newer, r[j].info, l.info)
      {
        k := k + 1;
      }
      InsertKeepsOrder(newer, r, l, k);
      InsertKeepsLabels(r, l, k);
      FreshPath(list[..i], r, l);
      assert list[..i + 1] == list[..i] + [l];
      r := r[..k] + [l] + r[k..];
    }
    assert list[..|list|] == list;
  }

  lemma FreshPath(a: seq<Label>, b: seq<Label>, l: Label)
    requires multiset(a) == multiset(b) && (DistinctPaths(a) <==> DistinctPaths(b))
    ensures DistinctPaths(a + [l]) <==> DistinctPaths(b + [l])
  {
    FreshOne(a, b, l);
    FreshOne(b, a, l);
  }

  lemma FreshOne(a: seq<Label>, b: seq<Label>, l: Label)
    requires multiset(a) == multiset(b) && (DistinctPaths(a) ==> DistinctPaths(b))
    ensures DistinctPaths(a + [l]) ==> DistinctPaths(b + [l])
  {
    if DistinctPaths(a + [l]) {
      assert forall i | 0 <= i < |a| :: (a + [l])[i] == a[i];
      forall k | 0 <= k < |b| ensures b[k].path != l.path {
        assert b[k] in multiset(b);
        assert b[k] in multiset(a);
        var i :| 0 <= i < |a| && a[i] == b[k];
        assert (a + [l])[i].path != (a + [l])[|a|].path;
      }
    }
  }

  lemma CoversSame(newer: (WDoc, WDoc) -> bool, a: seq<Label>, b: seq<Label>, offers: set<Label>)
    requires Covers(newer, a, offers) && multiset(a) == multiset(b)
    ensures Covers(newer, b, offers)
  {
    assert forall x :: x in a <==> x in multiset(a);
    assert forall x :: x in b <==> x in multiset(b);
    forall o | o in offers ensures Matched(newer, b, o) {
      assert Matched(newer, a, o);
      var i :| 0 <= i < |a| && a[i].path == o.path && !Better(newer, o.info, a[i].info);
      assert a[i] in b;
    }
  }

  // ---------------------------------------------------------------- one worker

  lemma TagsStep(list: seq<Label>, i: nat, worker: nat)
    requires i < |list|
    ensures Tags(list[..i + 1], worker) == Tags(list[..i], worker) + {Tagged(list[i], worker)}
  {
    assert list[..i + 1] == list[..i] + [list[i]];
  }

  /** The labels of one property of one worker join those already there. */
  method MergeList(newer: (WDoc, WDoc) -> bool, into: seq<Label>, from: seq<Label>, worker: nat,
                   ghost offers: set<Label>)
    returns (list: seq<Label>)
    requires StrictOrder(newer) && Covers(newer, into, offers)
    ensures Covers(newer, list, offers + Tags(from, worker))
    ensures DistinctPaths(list) <==> DistinctPaths(into)
  {
    list := into;
    assert Tags(from[..0], worker) == {};
    assert offers + {} == offers;
    hide Covers, Tags, StrictOrder, Better, DistinctPaths;
    for i := 0 to |from|
      invariant Covers(newer, list, offers + Tags(from[..i], worker))
      invariant DistinctPaths(list) <==> DistinctPaths(into)
    {
      var o := Tagged(from[i], worker);
      var j := FindPath(list, o.path);
      OfferStep(newer, list, offers + Tags(from[..i], worker), o, j);
      TagsStep(from, i, worker);
      assert offers + Tags(from[..i], worker) + {o} == offers + (Tags(from[..i], worker) + {o});
      if j < |list| {
        if Better(newer, o.info, list[j].info) {
          list := list[j := o];
        }
      } else {
        list := list + [o];
      }
    }
    assert from[..|from|] == from;
  }

  lemma FirstWorker(newer: (WDoc, WDoc) -> bool, from: seq<Label>, worker: nat, list: seq<Label>)
    requires StrictOrder(newer)
    requires |list| == |from| && forall i | 0 <= i < |from| :: list[i] == Tagged(from[i], worker)
    ensures Covers(newer, list, Tags(from, worker))
    ensures DistinctPaths(list) <==> DistinctPaths(from)
  {
    forall o | o in Tags(from, worker) ensures Matched(newer, list, o) {
      var x :| x in from && o == Tagged(x, worker);
      var k :| 0 <= k < |from| && from[k] == x;
      BetterTotal(newer, o.info, o.info);
      assert list[k].path == o.path && !Better(newer, o.info, list[k].info);
    }
    assert forall i | 0 <= i < |from| :: list[i].path == from[i].path;
  }

  method TagAll(from: seq<Label>, worker: nat) returns (list: seq<Label>)
    ensures |list| == |from| && forall i | 0 <= i < |from| :: list[i] == Tagged(from[i], worker)
  {
    list := [];
    for i := 0 to |from|
      invariant |list| == i && forall k | 0 <= k < i :: list[k] == Tagged(from[k], worker)
    {
      list := list + [Tagged(from[i], worker)];
    }
  }

  method MergeProperty(newer: (WDoc, WDoc) -> bool, into: LabelMap, prop: string, from: seq<Label>, worker: nat,
                       ghost offers: set<Label>)
    returns (list: seq<Label>)
    requires StrictOrder(newer)
    requires if prop in into then Covers(newer, into[prop], offers) else offers == {}
    ensures Covers(newer, list, offers + Tags(from, worker)) && Descending(newer, list)
    ensures DistinctPaths(list) <==> DistinctPaths(if prop in into then into[prop] else from)
  {
    hide Covers, Better, DistinctPaths, Descending, Tags, StrictOrder;
    if prop !in into {
      list := TagAll(from, worker);
      FirstWorker(newer, from, worker, list);
      assert offers + Tags(from, worker) == Tags(from, worker);
    } else {
      list := MergeList(newer, into[prop], from, worker, offers);
    }
    ghost var unsorted := list;
    list := SortLabels(newer, list);
    CoversSame(newer, unsorted, list, offers + Tags(from, worker));
  }

  // ---------------------------------------------------------------- all workers

  /** The first source that has the property names no path twice. */
  ghost predicate FirstDistinct(sources: seq<Source>, p: string) {
    exists i: nat :: IsFirstWith(sources, p, i) && DistinctPaths(sources[i].labels[p])
  }

  predicate IsFirstWith(sources: seq<Source>, p: string, i: nat) {
    i < |sources| && p in sources[i].labels && forall j | 0 <= j < i :: p !in sources[j].labels
  }

  /** `m` has, for every property some source has, what covers the sources' offers, sorted, with each path
      once exactly if the first source that has the property names each once. */
  ghost predicate Best(newer: (WDoc, WDoc) -> bool, m: LabelMap, sources: seq<Source>) {
    && (forall p :: p in m <==> exists s :: s in sources && p in s.labels)
    && (forall p | p in m :: BestAt(newer, m[p], sources, p))
  }

  ghost predicate BestAt(newer: (WDoc, WDoc) -> bool, list: seq<Label>, sources: seq<Source>, p: string) {
    && Covers(newer, list, Offers(sources, p)) && Descending(newer, list)
    && (DistinctPaths(list) <==> FirstDistinct(sources, p))
  }

  /** ... already so for the properties `done`, and for the others without the last source. */
  ghost predicate BestFor(newer: (WDoc, WDoc) -> bool, m: LabelMap, into: LabelMap, sources: seq<Source>,
                          from: LabelMap, worker: nat, done: set<string>) {
    && m.Keys == into.Keys + done && done <= from.Keys
    && (forall p | p in done :: BestAt(newer, m[p], sources + [Source(worker, from)], p))
    && (forall p | p in into && p !in done :: m[p] == into[p])
  }

  lemma NoOffers(newer: (WDoc, WDoc) -> bool, into: LabelMap, sources: seq<Source>, p: string)
    requires Best(newer, into, sources) && p !in into
    ensures Offers(sources, p) == {}
  {
  }

  lemma OffersMore(sources: seq<Source>, s: Source, p: string)
    ensures Offers(sources + [s], p) == Offers(sources, p) + Tags(LabelsFor(s.labels, p), s.worker)
  {
    assert forall x :: x in sources + [s] <==> x in sources || x == s;
  }

  /** One more source does not change who is first, unless nobody had the property. */
  lemma FirstMore(sources: seq<Source>, s: Source, p: string)
    ensures (exists x :: x in sources && p in x.labels) ==>
      (FirstDistinct(sources + [s], p) <==> FirstDistinct(sources, p))
    ensures !(exists x :: x in sources && p in x.labels) && p in s.labels ==>
      (FirstDistinct(sources + [s], p) <==> DistinctPaths(s.labels[p]))
  {
    hide DistinctPaths;
    var more := sources + [s];
    if x :| x in sources && p in x.labels {
      var k :| 0 <= k < |sources| && sources[k] == x;
      forall i: nat ensures IsFirstWith(more, p, i) <==> IsFirstWith(sources, p, i) {
        assert more[k] == sources[k];
        assert forall j | 0 <= j < |sources| :: more[j] == sources[j];
      }
      FirstSame(sources, more, p);
    } else if p in s.labels {
      forall j | 0 <= j < |sources| ensures p !in more[j].labels { assert more[j] in sources; }
      assert IsFirstWith(more, p, |sources|) && more[|sources|] == s;
      forall i: nat | IsFirstWith(more, p, i) ensures i == |sources| {}
    }
  }

  lemma FirstSame(sources: seq<Source>, more: seq<Source>, p: string)
    requires forall i: nat :: IsFirstWith(more, p, i) <==> IsFirstWith(sources, p, i)
    requires |more| > |sources| && forall j | 0 <= j < |sources| :: more[j] == sources[j]
    ensures FirstDistinct(more, p) <==> FirstDistinct(sources, p)
  {
    hide DistinctPaths;
    if FirstDistinct(more, p) {
      var i: nat :| IsFirstWith(more, p, i) && DistinctPaths(more[i].labels[p]);
      assert IsFirstWith(sources, p, i);
    }
    if FirstDistinct(sources, p) {
      var i: nat :| IsFirstWith(sources, p, i) && DistinctPaths(sources[i].labels[p]);
      assert IsFirstWith(more, p, i);
    }
  }

  lemma KeptAt(newer: (WDoc, WDoc) -> bool, into: LabelMap, sources: seq<Source>, s: Source, p: string)
    requires Best(newer, into, sources) && p in into && p !in s.labels
    ensures BestAt(newer, into[p], sources + [s], p)
  {
    hide Covers, Descending, DistinctPaths, FirstDistinct, Offers;
    assert BestAt(newer, into[p], sources, p);
    OffersMore(sources, s, p);
    assert Tags(LabelsFor(s.labels, p), s.worker) == {};
    assert Offers(sources, p) + {} == Offers(sources, p);
    FirstMore(sources, s, p);
  }

  lemma BestForAll(newer: (WDoc, WDoc) -> bool, m: LabelMap, into: LabelMap, sources: seq<Source>, from: LabelMap,
                   worker: nat)
    requires Best(newer, into, sources) && BestFor(newer, m, into, sources, from, worker, from.Keys)
    ensures Best(newer, m, sources + [Source(worker, from)])
  {
    var s := Source(worker, from);
    hide Covers, Descending, DistinctPaths, FirstDistinct, Offers;
    forall p ensures p in m <==> exists x :: x in sources + [s] && p in x.labels {
      assert s in sources + [s];
      if x :| x in sources && p in x.labels { assert x in sources + [s]; }
    }
    forall p | p in m ensures BestAt(newer, m[p], sources + [s], p) {
      if p !in from { KeptAt(newer, into, sources, s, p); }
    }
  }

  /** What one property has become is what it should. */
  lemma MergedAt(newer: (WDoc, WDoc) -> bool, into: LabelMap, sources: seq<Source>, from: LabelMap, worker: nat,
                 p: string, list: seq<Label>)
    requires Best(newer, into, sources) && p in from
    requires Covers(newer, list, Offers(sources, p) + Tags(from[p], worker)) && Descending(newer, list)
    requires DistinctPaths(list) <==> DistinctPaths(if p in into then into[p] else from[p])
    ensures BestAt(newer, list, sources + [Source(worker, from)], p)
  {
    var s := Source(worker, from);
    hide Covers, Descending, DistinctPaths, FirstDistinct, Offers;
    OffersMore(sources, s, p);
    FirstMore(sources, s, p);
    assert p in into ==> BestAt(newer, into[p], sources, p);
  }

  method MergeScoreGroupLabel(newer: (WDoc, WDoc) -> bool, into: LabelMap, from: LabelMap, worker: nat,
                              ghost sources: seq<Source>)
    returns (m: LabelMap)
    requires StrictOrder(newer) && Best(newer, into, sources)
    ensures Best(newer, m, sources + [Source(worker, from)])
  {
    hide Best, Covers, Descending, DistinctPaths, Offers, BestAt, StrictOrder;
    m := into;
    var todo := from.Keys;
    while todo != {}
      invariant todo <= from.Keys
      invariant BestFor(newer, m, into, sources, from, worker, from.Keys - todo)
      decreases todo
    {
      var p :| p in todo;
      if p !in m { NoOffers(newer, into, sources, p); }
      OldBest(newer, m, into, sources, from, worker, from.Keys - todo, p);
      var list := MergeProperty(newer, m, p, from[p], worker, Offers(sources, p));
      MergedAt(newer, into, sources, from, worker, p, list);
      m := m[p := list];
      assert from.Keys - (todo - {p}) == from.Keys - todo + {p};
      todo := todo - {p};
    }
    assert from.Keys - {} == from.Keys;
    BestForAll(newer, m, into, sources, from, worker);
  }

  lemma OldBest(newer: (WDoc, WDoc) -> bool, m: LabelMap, into: LabelMap, sources: seq<Source>,
                from: LabelMap, worker: nat, done: set<string>, p: string)
    requires Best(newer, into, sources) && BestFor(newer, m, into, sources, from, worker, done) && p !in done
    ensures p in m <==> p in into
    ensures p in m ==> m[p] == into[p] && Covers(newer, m[p], Offers(sources, p))
  {
  }

  /** The fold over all workers. */
  method MergeAllLabels(newer: (WDoc, WDoc) -> bool, sources: seq<Source>) returns (m: LabelMap)
    requires StrictOrder(newer)
    ensures Best(newer, m, sources)
  {
    m := map[];
    for i := 0 to |sources|
      invariant Best(newer, m, sources[..i])
    {
      m := MergeScoreGroupLabel(newer, m, sources[i].labels, sources[i].worker, sources[..i]);
      assert sources[..i + 1] == sources[..i] + [Source(sources[i].worker, sources[i].labels)];
    }
    assert sources[..|sources|] == sources;
  }

  /** What is merged has the best label of every path. */
  lemma MergedIsBest(newer: (WDoc, WDoc) -> bool, m: LabelMap, sources: seq<Source>, p: string)
    requires StrictOrder(newer) && Best(newer, m, sources) && p in m
    ensures forall l | IsBest(newer, l, Offers(sources, p)) :: l in m[p]
    ensures BestOf(newer, m[p], Offers(sources, p)) <==> FirstDistinct(sources, p)
  {
    assert BestAt(newer, m[p], sources, p);
    hide Best, Offers, FirstDistinct;
    forall l | IsBest(newer, l, Offers(sources, p)) ensures l in m[p] {
      BestIsPresent(newer, m[p], Offers(sources, p), l);
    }
    if DistinctPaths(m[p]) { CoversOnce(newer, m[p], Offers(sources, p)); }
  }

  /** By scores: the merged list descends by score, newer documents first among equal scores; and for every
      offer it has a label of that path with a score at least as high, and with no older document if the
      score is the same. */
  lemma MergedScores(newer: (WDoc, WDoc) -> bool, m: LabelMap, sources: seq<Source>, p: string)
    requires StrictOrder(newer) && Best(newer, m, sources) && p in m
    ensures forall i, j | 0 <= i < j < |m[p]| ::
      && m[p][i].info.score >= m[p][j].info.score
      && (m[p][i].info.score == m[p][j].info.score ==> !newer(m[p][j].info.wdoc, m[p][i].info.wdoc))
    ensures forall o | o in Offers(sources, p) ::
      exists i ::
        && 0 <= i < |m[p]| && m[p][i].path == o.path && m[p][i].info.score >= o.info.score
        && (m[p][i].info.score == o.info.score ==> !newer(o.info.wdoc, m[p][i].info.wdoc))
    ensures forall l | l in m[p] :: l in Offers(sources, p)
  {
    assert BestAt(newer, m[p], sources, p);
    hide Best, Offers, FirstDistinct, StrictOrder;
    forall o | o in Offers(sources, p)
      ensures exists i ::
        && 0 <= i < |m[p]| && m[p][i].path == o.path && m[p][i].info.score >= o.info.score
        && (m[p][i].info.score == o.info.score ==> !newer(o.info.wdoc, m[p][i].info.wdoc))
    {
      assert Matched(newer, m[p], o);
    }
  }

  /** The order in which the workers answer does not matter to the properties and the best labels, nor to any
      label unless the worker that comes first repeats a path. */
  lemma OrderIrrelevant(newer: (WDoc, WDoc) -> bool, a: LabelMap, b: LabelMap, sources: seq<Source>,
                        shuffled: seq<Source>)
    requires StrictOrder(newer) && Best(newer, a, sources) && Best(newer, b, shuffled)
    requires forall s :: s in sources <==> s in shuffled
    ensures a.Keys == b.Keys
    ensures forall p, l | p in a && IsBest(newer, l, Offers(sources, p)) :: l in a[p] && l in b[p]
    ensures forall p | p in a && FirstDistinct(sources, p) && FirstDistinct(shuffled, p) ::
      forall l :: l in a[p] <==> l in b[p]
  {
    assert forall p :: p in a <==> p in b;
    hide IsBest, StrictOrder, FirstDistinct;
    forall p | p in a
      ensures forall l | IsBest(newer, l, Offers(sources, p)) :: l in a[p] && l in b[p]
      ensures FirstDistinct(sources, p) && FirstDistinct(shuffled, p) ==> forall l :: l in a[p] <==> l in b[p]
    {
      assert Offers(sources, p) == Offers(shuffled, p);
      MergedIsBest(newer, a, sources, p);
      MergedIsBest(newer, b, shuffled, p);
      if FirstDistinct(sources, p) && FirstDistinct(shuffled, p) {
        BestIsUnique(newer, a[p], b[p], Offers(sources, p));
      }
    }
  }
}
