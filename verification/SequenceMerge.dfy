/** Merging sorted sequences (`SequenceMerger`): the result is the stable sort of all of them laid
    end to end, for any strict weak order. */
module SequenceMerge {
  import opened Merging

  /** Asymmetric, and whatever lies between two ordered elements is ordered with one of them. */
  ghost predicate StrictWeakOrder<T(!new)>(less: (T, T) -> bool) {
    && (forall x, y :: !(less(x, y) && less(y, x)))
    && (forall x, y, z | less(x, y) :: less(x, z) || less(z, y))
  }

  ghost predicate Ordered<T(!new)>(less: (T, T) -> bool, s: seq<T>) {
    forall i, j | 0 <= i < j < |s| :: !less(s[j], s[i])
  }

  function Lengths<T>(lists: seq<seq<T>>): (s: seq<nat>)
    ensures |s| == |lists| && forall w | 0 <= w < |lists| :: s[w] == |lists[w]|
  {
    seq(|lists|, w requires 0 <= w < |lists| => |lists[w]|)
  }

  function Item<T>(lists: seq<seq<T>>, p: Pos): T
    requires IsPos(Lengths(lists), p)
  {
    lists[p.list][p.at]
  }

  predicate Earlier(p: Pos, q: Pos) {
    p.list < q.list || (p.list == q.list && p.at < q.at)
  }

  /** Smaller first; equals in the order of their sequences and of their places there. */
  ghost function Stable<T>(less: (T, T) -> bool, lists: seq<seq<T>>): (Pos, Pos) -> bool {
    (p: Pos, q: Pos) =>
      && IsPos(Lengths(lists), p) && IsPos(Lengths(lists), q)
      && (less(Item(lists, p), Item(lists, q))
          || (!less(Item(lists, q), Item(lists, p)) && Earlier(p, q)))
  }

  lemma StableIsOrder<T(!new)>(less: (T, T) -> bool, lists: seq<seq<T>>)
    requires StrictWeakOrder(less) && forall s | s in lists :: Ordered(less, s)
    ensures SortedLists(Stable(less, lists), Lengths(lists))
  {
    var before, sizes := Stable(less, lists), Lengths(lists);
    forall p, q | IsPos(sizes, p) && IsPos(sizes, q)
      ensures if p == q then !before(p, q) else before(p, q) == !before(q, p)
      ensures p.list == q.list && p.at < q.at ==> before(p, q)
    {
      StableTotal(less, lists, p, q);
    }
    hide Stable, Ordered;
    forall p, q, r | IsPos(sizes, p) && IsPos(sizes, q) && IsPos(sizes, r) && before(p, q) && before(q, r)
      ensures before(p, r)
    {
      StableTrans(less, lists, p, q, r);
    }
  }

  lemma StableTotal<T(!new)>(less: (T, T) -> bool, lists: seq<seq<T>>, p: Pos, q: Pos)
    requires StrictWeakOrder(less) && forall s | s in lists :: Ordered(less, s)
    requires IsPos(Lengths(lists), p) && IsPos(Lengths(lists), q)
    ensures if p == q then !Stable(less, lists)(p, q) else Stable(less, lists)(p, q) == !Stable(less, lists)(q, p)
    ensures p.list == q.list && p.at < q.at ==> Stable(less, lists)(p, q)
  {
    var x, y := Item(lists, p), Item(lists, q);
    assert !(less(x, y) && less(y, x));
    assert lists[p.list] in lists;
    assert p.list == q.list && p.at < q.at ==> !less(lists[p.list][q.at], lists[p.list][p.at]);
  }

  lemma StableTrans<T(!new)>(less: (T, T) -> bool, lists: seq<seq<T>>, p: Pos, q: Pos, r: Pos)
    requires StrictWeakOrder(less) && IsPos(Lengths(lists), p) && IsPos(Lengths(lists), q) && IsPos(Lengths(lists), r)
    requires Stable(less, lists)(p, q) && Stable(less, lists)(q, r)
    ensures Stable(less, lists)(p, r)
  {
    var x, y, z := Item(lists, p), Item(lists, q), Item(lists, r);
    assert less(x, y) ==> less(x, z) || less(z, y);
    assert less(y, z) ==> less(y, x) || less(x, z);
    assert less(z, x) ==> less(z, y) || less(y, x);
  }

  // ---------------------------------------------------------------- the stable sort, independently

  function Concat<T>(lists: seq<seq<T>>): seq<T> {
    if lists == [] then [] else Concat(lists[..|lists| - 1]) + lists[|lists| - 1]
  }

  /** `out` rearranges `all` by `from`, sorted, equals in their old order. */
  ghost predicate StableSortBy<T(!new)>(less: (T, T) -> bool, all: seq<T>, out: seq<T>, from: seq<nat>) {
    && |out| == |from| == |all|
    && (forall i | 0 <= i < |from| :: from[i] < |all| && out[i] == all[from[i]])
    && (forall i, j | 0 <= i < j < |from| ::
          from[i] != from[j] && !less(out[j], out[i]) && (!less(out[i], out[j]) ==> from[i] < from[j]))
  }

  ghost predicate IsStableSort<T(!new)>(less: (T, T) -> bool, all: seq<T>, out: seq<T>) {
    exists from :: StableSortBy(less, all, out, from)
  }

  /** The place of a position in the concatenation. */
  function Place(sizes: seq<nat>, p: Pos): nat
    requires p.list < |sizes|
  {
    Total(sizes[..p.list]) + p.at
  }

  lemma {:induction false} ConcatAt<T>(lists: seq<seq<T>>, p: Pos)
    requires IsPos(Lengths(lists), p)
    ensures |Concat(lists)| == Total(Lengths(lists))
    ensures Place(Lengths(lists), p) < |Concat(lists)| && Concat(lists)[Place(Lengths(lists), p)] == Item(lists, p)
    decreases |lists|
  {
    var n := |lists| - 1;
    var short := lists[..n];
    assert Lengths(short) == Lengths(lists)[..n];
    ConcatSize(short);
    if p.list < n {
      ConcatAt(short, p);
      assert Lengths(lists)[..n][..p.list] == Lengths(lists)[..p.list];
    }
  }

  lemma {:induction false} ConcatSize<T>(lists: seq<seq<T>>)
    ensures |Concat(lists)| == Total(Lengths(lists))
    decreases |lists|
  {
    if lists != [] {
      ConcatSize(lists[..|lists| - 1]);
      assert Lengths(lists[..|lists| - 1]) == Lengths(lists)[..|lists| - 1];
    }
  }

  /** Places keep the order of sequences and of places in them. */
  lemma {:induction false} PlaceOrder(sizes: seq<nat>, p: Pos, q: Pos)
    requires IsPos(sizes, p) && IsPos(sizes, q) && Earlier(p, q)
    ensures Place(sizes, p) < Place(sizes, q)
  {
    if p.list < q.list {
      TotalPrefix(sizes, p.list + 1, q.list);
      assert sizes[..p.list + 1][..p.list] == sizes[..p.list];
    }
  }

  lemma {:induction false} TotalPrefix(sizes: seq<nat>, i: nat, j: nat)
    requires i <= j <= |sizes|
    ensures Total(sizes[..i]) <= Total(sizes[..j])
    decreases j
  {
    if i < j {
      TotalPrefix(sizes, i, j - 1);
      assert sizes[..j][..j - 1] == sizes[..j - 1];
    }
  }

  function Items<T>(lists: seq<seq<T>>, ps: seq<Pos>): (out: seq<T>)
    requires forall p | p in ps :: IsPos(Lengths(lists), p)
    ensures |out| == |ps| && forall i | 0 <= i < |ps| :: ps[i] in ps && out[i] == Item(lists, ps[i])
  {
    seq(|ps|, i requires 0 <= i < |ps| => assert ps[i] in ps; Item(lists, ps[i]))
  }

  function Places(sizes: seq<nat>, ps: seq<Pos>): (out: seq<nat>)
    requires forall p | p in ps :: IsPos(sizes, p)
    ensures |out| == |ps| && forall i | 0 <= i < |ps| ::
            ps[i] in ps && IsPos(sizes, ps[i]) && out[i] == Place(sizes, ps[i])
  {
    seq(|ps|, i requires 0 <= i < |ps| => assert ps[i] in ps && IsPos(sizes, ps[i]); Place(sizes, ps[i]))
  }

  /** The sorted union read off gives the stable sort of the concatenation. */
  lemma UnionIsStableSort<T(!new)>(less: (T, T) -> bool, lists: seq<seq<T>>, ps: seq<Pos>)
    requires StrictWeakOrder(less) && SortedUnion(Stable(less, lists), Lengths(lists), ps)
    requires |ps| == Total(Lengths(lists))
    ensures StableSortBy(less, Concat(lists), Items(lists, ps), Places(Lengths(lists), ps))
  {
    var sizes, out, from := Lengths(lists), Items(lists, ps), Places(Lengths(lists), ps);
    ConcatSize(lists);
    forall i | 0 <= i < |ps| ensures from[i] < |Concat(lists)| && out[i] == Concat(lists)[from[i]] {
      ConcatAt(lists, ps[i]);
    }
    forall i, j | 0 <= i < j < |ps|
      ensures from[i] != from[j] && !less(out[j], out[i]) && (!less(out[i], out[j]) ==> from[i] < from[j])
    {
      assert Stable(less, lists)(ps[i], ps[j]);
      if Earlier(ps[i], ps[j]) { PlaceOrder(sizes, ps[i], ps[j]); }
      if Earlier(ps[j], ps[i]) { PlaceOrder(sizes, ps[j], ps[i]); }
    }
  }

  // ---------------------------------------------------------------- the merger

  /** What is left of list `w` once its first `heads[w]` elements are gone. */
  ghost predicate Rest<T(!new)>(lists: seq<seq<T>>, heads: seq<nat>, w: nat, rest: seq<T>) {
    w < |lists| == |heads| && heads[w] < |lists[w]| && rest == lists[w][heads[w]..]
  }

  /** The remaining sequences, in order, are the rests of the lists that are not exhausted. */
  ghost predicate Rests<T(!new)>(lists: seq<seq<T>>, heads: seq<nat>, rests: seq<seq<T>>, origins: seq<nat>) {
    && |heads| == |lists| && |origins| == |rests|
    && (forall k | 0 <= k < |rests| :: Rest(lists, heads, origins[k], rests[k]))
    && (forall j, k | 0 <= j < k < |origins| :: origins[j] < origins[k])
    && (forall w: nat | w < |lists| :: w in origins || heads[w] >= |lists[w]|)
  }

  /** `std::min_element`: the first of the smallest heads. */
  ghost predicate FirstMin<T(!new)>(less: (T, T) -> bool, rests: seq<seq<T>>, m: nat, n: nat) {
    && m < n <= |rests| && (forall k | 0 <= k < n :: rests[k] != [])
    && (forall k | 0 <= k < m :: less(rests[m][0], rests[k][0]))
    && (forall k | m < k < n :: !less(rests[k][0], rests[m][0]))
  }

  lemma Split<T(!new)>(less: (T, T) -> bool, x: T, y: T, z: T)
    requires StrictWeakOrder(less) && less(x, y)
    ensures less(x, z) || less(z, y)
  {
  }

  method MinElement<T(!new)>(less: (T, T) -> bool, rests: seq<seq<T>>) returns (m: nat)
    requires StrictWeakOrder(less) && rests != [] && forall k | 0 <= k < |rests| :: rests[k] != []
    ensures FirstMin(less, rests, m, |rests|)
  {
    m := 0;
    for i := 1 to |rests|
      invariant FirstMin(less, rests, m, i)
    {
      if less(rests[i][0], rests[m][0]) {
        forall k | 0 <= k < i ensures less(rests[i][0], rests[k][0]) {
          Split(less, rests[i][0], rests[m][0], rests[k][0]);
        }
        m := i;
      }
    }
  }

  lemma MinIsFirstHead<T(!new)>(less: (T, T) -> bool, lists: seq<seq<T>>, heads: seq<nat>, rests: seq<seq<T>>,
                                origins: seq<nat>, m: nat)
    requires StrictWeakOrder(less) && Rests(lists, heads, rests, origins) && FirstMin(less, rests, m, |rests|)
    ensures FirstHead(Stable(less, lists), Lengths(lists), heads, origins[m])
  {
    var before, sizes, h := Stable(less, lists), Lengths(lists), origins[m];
    assert Rest(lists, heads, h, rests[m]);
    forall w | 0 <= w < |sizes| && w != h && heads[w] < sizes[w] ensures before(Pos(h, heads[h]), Pos(w, heads[w])) {
      var k :| 0 <= k < |origins| && origins[k] == w;
      assert Rest(lists, heads, w, rests[k]);
      assert IsPos(sizes, Pos(h, heads[h])) && IsPos(sizes, Pos(w, heads[w]));
      assert Item(lists, Pos(h, heads[h])) == rests[m][0] && Item(lists, Pos(w, heads[w])) == rests[k][0];
    }
  }

  /** The head of rest `m` has been taken; the rest is dropped when nothing follows. */
  function Advance<T>(rests: seq<seq<T>>, m: nat): seq<seq<T>>
    requires m < |rests| && rests[m] != []
  {
    if |rests[m]| == 1 then rests[..m] + rests[m + 1..] else rests[m := rests[m][1..]]
  }

  ghost function AdvanceOrigins(origins: seq<nat>, m: nat, drop: bool): seq<nat>
    requires m < |origins|
  {
    if drop then origins[..m] + origins[m + 1..] else origins
  }

  lemma RestTaken<T(!new)>(lists: seq<seq<T>>, heads: seq<nat>, h: nat, rest: seq<T>)
    requires Rest(lists, heads, h, rest)
    ensures h < |heads|
    ensures |rest| > 1 ==> Rest(lists, heads[h := heads[h] + 1], h, rest[1..])
  {
  }

  lemma RestKept<T(!new)>(lists: seq<seq<T>>, heads: seq<nat>, h: nat, w: nat, rest: seq<T>)
    requires Rest(lists, heads, w, rest) && h < |heads| && w != h
    ensures Rest(lists, heads[h := heads[h] + 1], w, rest)
  {
  }

  /** Where entry `k` was before entry `m` was possibly dropped. */
  function Was(k: nat, m: nat, drop: bool): nat { if drop && k >= m then k + 1 else k }

  lemma AdvanceAt<T>(rests: seq<seq<T>>, origins: seq<nat>, m: nat, k: nat)
    requires m < |rests| == |origins| && rests[m] != [] && k < |Advance(rests, m)|
    ensures |AdvanceOrigins(origins, m, |rests[m]| == 1)| == |Advance(rests, m)|
    ensures var was := Was(k, m, |rests[m]| == 1);
            && was < |rests| && (was == m ==> |rests[m]| > 1)
            && AdvanceOrigins(origins, m, |rests[m]| == 1)[k] == origins[was]
            && Advance(rests, m)[k] == if was == m then rests[m][1..] else rests[was]
  {
  }

  lemma AdvanceRest<T(!new)>(lists: seq<seq<T>>, heads: seq<nat>, rests: seq<seq<T>>, origins: seq<nat>, m: nat, k: nat)
    requires Rests(lists, heads, rests, origins) && m < |rests| && rests[m] != [] && k < |Advance(rests, m)|
    ensures var left := AdvanceOrigins(origins, m, |rests[m]| == 1);
            && |left| == |Advance(rests, m)| && origins[m] < |heads|
            && Rest(lists, heads[origins[m] := heads[origins[m]] + 1], left[k], Advance(rests, m)[k])
  {
    hide Rest, Advance, AdvanceOrigins;
    AdvanceAt(rests, origins, m, k);
    RestTaken(lists, heads, origins[m], rests[m]);
    var was := Was(k, m, |rests[m]| == 1);
    if was != m { RestKept(lists, heads, origins[m], origins[was], rests[was]); }
  }

  lemma AdvanceCovers<T(!new)>(lists: seq<seq<T>>, heads: seq<nat>, rests: seq<seq<T>>, origins: seq<nat>, m: nat,
                               w: nat)
    requires Rests(lists, heads, rests, origins) && m < |rests| && rests[m] != [] && w < |lists|
    ensures origins[m] < |heads|
    ensures w in AdvanceOrigins(origins, m, |rests[m]| == 1)
            || heads[origins[m] := heads[origins[m]] + 1][w] >= |lists[w]|
  {
    var left := AdvanceOrigins(origins, m, |rests[m]| == 1);
    assert Rest(lists, heads, origins[m], rests[m]);
    if w in origins {
      var k :| 0 <= k < |origins| && origins[k] == w;
      if k != m || |rests[m]| > 1 {
        assert left[if |rests[m]| == 1 && k > m then k - 1 else k] == w;
      }
    }
  }

  lemma RestsStep<T(!new)>(lists: seq<seq<T>>, heads: seq<nat>, rests: seq<seq<T>>, origins: seq<nat>, m: nat)
    requires Rests(lists, heads, rests, origins) && m < |rests|
    ensures rests[m] != [] && origins[m] < |heads|
    ensures Rests(lists, heads[origins[m] := heads[origins[m]] + 1], Advance(rests, m),
                  AdvanceOrigins(origins, m, |rests[m]| == 1))
  {
    assert Rest(lists, heads, origins[m], rests[m]);
    var after, more, left := heads[origins[m] := heads[origins[m]] + 1], Advance(rests, m),
      AdvanceOrigins(origins, m, |rests[m]| == 1);
    forall k | 0 <= k < |more| ensures |left| == |more| && Rest(lists, after, left[k], more[k]) {
      AdvanceRest(lists, heads, rests, origins, m, k);
    }
    forall w: nat | w < |lists| ensures w in left || after[w] >= |lists[w]| {
      AdvanceCovers(lists, heads, rests, origins, m, w);
    }
    hide Rest;
  }

  /** `out` is what the merge has written when `heads` says how much of each list it has consumed. */
  ghost predicate MergingTo<T(!new)>(less: (T, T) -> bool, lists: seq<seq<T>>, heads: seq<nat>, ps: seq<Pos>,
                                     out: seq<T>) {
    && Merged(Stable(less, lists), Lengths(lists), heads, ps)
    && |ps| == Total(heads)
    && (forall p | p in ps :: IsPos(Lengths(lists), p))
    && out == Items(lists, ps)
  }

  lemma MergingStep<T(!new)>(less: (T, T) -> bool, lists: seq<seq<T>>, heads: seq<nat>, ps: seq<Pos>, out: seq<T>,
                             rests: seq<seq<T>>, origins: seq<nat>, m: nat)
    requires StrictWeakOrder(less) && forall s | s in lists :: Ordered(less, s)
    requires MergingTo(less, lists, heads, ps, out) && Rests(lists, heads, rests, origins)
    requires FirstMin(less, rests, m, |rests|)
    ensures m < |rests| == |origins| && rests[m] != [] && origins[m] < |heads|
    ensures MergingTo(less, lists, heads[origins[m] := heads[origins[m]] + 1],
                      ps + [Pos(origins[m], heads[origins[m]])], out + [rests[m][0]])
    ensures |out| < Total(Lengths(lists))
  {
    var p := Pos(origins[m], heads[origins[m]]);
    assert Rest(lists, heads, origins[m], rests[m]);
    assert IsPos(Lengths(lists), p);
    StableIsOrder(less, lists);
    MinIsFirstHead(less, lists, heads, rests, origins, m);
    TotalMono(heads, Lengths(lists));
    hide Stable, Merged, SortedLists, FirstHead, StrictWeakOrder, Ordered, FirstMin;
    MergeStep(Stable(less, lists), Lengths(lists), heads, ps, origins[m]);
    TotalStep(heads, origins[m]);
    assert Items(lists, ps + [p]) == Items(lists, ps) + [Item(lists, p)];
  }

  lemma MergingEnd<T(!new)>(less: (T, T) -> bool, lists: seq<seq<T>>, heads: seq<nat>, ps: seq<Pos>, out: seq<T>)
    requires StrictWeakOrder(less)
    requires MergingTo(less, lists, heads, ps, out) && Rests(lists, heads, [], [])
    ensures StableSortBy(less, Concat(lists), out, Places(Lengths(lists), ps))
  {
    assert heads == Lengths(lists);
    hide Stable, StrictWeakOrder;
    AllOut(Stable(less, lists), Lengths(lists), heads, ps);
    UnionIsStableSort(less, lists, ps);
  }

  ghost predicate NoneEmpty<T>(lists: seq<seq<T>>) {
    forall s | s in lists :: s != []
  }

  function Indices(n: nat): seq<nat> {
    seq(n, w requires 0 <= w => w)
  }

  lemma MergingStart<T(!new)>(less: (T, T) -> bool, lists: seq<seq<T>>)
    requires forall s | s in lists :: s != []
    ensures MergingTo(less, lists, Zeros(|lists|), [], [])
    ensures Rests(lists, Zeros(|lists|), lists, Indices(|lists|))
  {
    var heads, origins := Zeros(|lists|), Indices(|lists|);
    MergeStart(Stable(less, lists), Lengths(lists));
    forall k | 0 <= k < |lists| ensures Rest(lists, heads, origins[k], lists[k]) && k in origins {
      assert lists[k] in lists && origins[k] == k;
    }
  }

  lemma NonEmpty<T(!new)>(lists: seq<seq<T>>, heads: seq<nat>, rests: seq<seq<T>>, origins: seq<nat>)
    requires Rests(lists, heads, rests, origins)
    ensures forall k | 0 <= k < |rests| :: rests[k] != []
  {
    forall k | 0 <= k < |rests| ensures rests[k] != [] {
      assert Rest(lists, heads, origins[k], rests[k]);
    }
  }

  lemma OneLeft<T(!new)>(less: (T, T) -> bool, rest: seq<T>)
    requires rest != []
    ensures FirstMin(less, [rest], 0, 1)
    ensures Advance([rest], 0) == if |rest| == 1 then [] else [rest[1..]]
  {
  }

  lemma LeftSize<T(!new)>(lists: seq<seq<T>>, heads: seq<nat>, rests: seq<seq<T>>, origins: seq<nat>)
    requires Rests(lists, heads, rests, origins)
    ensures |origins| == |rests|
  {
  }

  /** `std::copy` of the last sequence. */
  method Copy<T(!new)>(less: (T, T) -> bool, last: seq<T>, out0: seq<T>,
                       ghost lists: seq<seq<T>>, ghost heads0: seq<nat>, ghost ps0: seq<Pos>, ghost origins0: seq<nat>)
    returns (out: seq<T>, ghost heads: seq<nat>, ghost ps: seq<Pos>)
    requires StrictWeakOrder(less) && forall s | s in lists :: Ordered(less, s)
    requires MergingTo(less, lists, heads0, ps0, out0) && Rests(lists, heads0, [last], origins0)
    ensures MergingTo(less, lists, heads, ps, out) && Rests(lists, heads, [], [])
  {
    hide *;
    NonEmpty(lists, heads0, [last], origins0);
    assert [last][0] != [];
    out, heads, ps := out0, heads0, ps0;
    var rest := last;
    ghost var rests, origins := [last], origins0;
    while rest != []
      invariant MergingTo(less, lists, heads, ps, out) && Rests(lists, heads, rests, origins)
      invariant rests == if rest == [] then [] else [rest]
      decreases |rest|
    {
      OneLeft(less, rest);
      MergingStep(less, lists, heads, ps, out, rests, origins, 0);
      RestsStep(lists, heads, rests, origins, 0);
      out := out + [rest[0]];
      ps := ps + [Pos(origins[0], heads[origins[0]])];
      heads := heads[origins[0] := heads[origins[0]] + 1];
      origins := AdvanceOrigins(origins, 0, |rest| == 1);
      rests := Advance(rests, 0);
      rest := rest[1..];
    }
    LeftSize(lists, heads, rests, origins);
  }

  lemma AllPositions<T(!new)>(less: (T, T) -> bool, lists: seq<seq<T>>, heads: seq<nat>, ps: seq<Pos>, out: seq<T>)
    requires MergingTo(less, lists, heads, ps, out)
    ensures forall p | p in ps :: IsPos(Lengths(lists), p)
  {
  }

  lemma SortedSomehow<T(!new)>(less: (T, T) -> bool, all: seq<T>, out: seq<T>, from: seq<nat>)
    requires StableSortBy(less, all, out, from)
    ensures IsStableSort(less, all, out)
  {
  }

  /** The merge loop over the remaining sequences. */
  method MergeAll<T(!new)>(less: (T, T) -> bool, lists: seq<seq<T>>) returns (out: seq<T>)
    requires NoneEmpty(lists) && StrictWeakOrder(less) && forall s | s in lists :: Ordered(less, s)
    ensures IsStableSort(less, Concat(lists), out)
  {
    var sequences := lists;
    ghost var heads, ps, origins := Zeros(|lists|), [], Indices(|lists|);
    MergingStart(less, lists);
    out := [];
    hide *;
    while |sequences| > 1
      invariant MergingTo(less, lists, heads, ps, out) && Rests(lists, heads, sequences, origins)
      decreases Total(Lengths(lists)) - |out|
    {
      NonEmpty(lists, heads, sequences, origins);
      var min := MinElement(less, sequences);
      MergingStep(less, lists, heads, ps, out, sequences, origins, min);
      RestsStep(lists, heads, sequences, origins, min);
      out := out + [sequences[min][0]];
      ps := ps + [Pos(origins[min], heads[origins[min]])];
      heads := heads[origins[min] := heads[origins[min]] + 1];
      origins := AdvanceOrigins(origins, min, |sequences[min]| == 1);
      sequences := Advance(sequences, min);
    }
    if |sequences| == 1 {
      assert sequences == [sequences[0]];
      out, heads, ps := Copy(less, sequences[0], out, lists, heads, ps, origins);
      sequences, origins := [], [];
    }
    LeftSize(lists, heads, sequences, origins);
    MergingEnd(less, lists, heads, ps, out);
    AllPositions(less, lists, heads, ps, out);
    SortedSomehow(less, Concat(lists), out, Places(Lengths(lists), ps));
  }

  /** The merger: its sequences still to be merged, none of them empty. */
  class SequenceMerger<T(!new)> {
    var sequences: seq<seq<T>>

    ghost predicate Valid()
      reads this
    {
      NoneEmpty(sequences)
    }

    constructor ()
      ensures Valid() && sequences == []
    {
      sequences := [];
    }

    method AddSequence(s: seq<T>)
      requires Valid()
      modifies this
      ensures Valid()
      ensures sequences == if s == [] then old(sequences) else old(sequences) + [s]
    {
      if s != [] {
        sequences := sequences + [s];
      }
    }

    /** The result is the stable sort of the sequences laid end to end; none is left. */
    method Merge(less: (T, T) -> bool) returns (out: seq<T>)
      requires Valid() && StrictWeakOrder(less) && forall s | s in sequences :: Ordered(less, s)
      modifies this
      ensures Valid() && sequences == []
      ensures IsStableSort(less, Concat(old(sequences)), out)
    {
      out := MergeAll(less, sequences);
      sequences := [];
    }
  }
}
