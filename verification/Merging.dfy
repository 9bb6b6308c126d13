/** What merging sorted lists means: positions of the lists, an order on positions, and the unique
    sorted union of all positions. */
module Merging {
  import opened Orders

  /** Element number `at` of list number `list`. */
  datatype Pos = Pos(list: nat, at: nat)

  ghost predicate IsPos(sizes: seq<nat>, p: Pos) {
    p.list < |sizes| && p.at < sizes[p.list]
  }

  /** `before` is a strict total order of the positions and every list is sorted by it. */
  ghost predicate SortedLists(before: (Pos, Pos) -> bool, sizes: seq<nat>) {
    && (forall p, q | IsPos(sizes, p) && IsPos(sizes, q) && p != q :: before(p, q) || before(q, p))
    && (forall p, q | IsPos(sizes, p) && IsPos(sizes, q) :: !(before(p, q) && before(q, p)))
    && (forall p, q, r | IsPos(sizes, p) && IsPos(sizes, q) && IsPos(sizes, r) && before(p, q) && before(q, r) ::
      before(p, r))
    && (forall p, q | IsPos(sizes, p) && IsPos(sizes, q) && p.list == q.list && p.at < q.at :: before(p, q))
  }

  /** All positions, each once, in order. */
  ghost predicate SortedUnion(before: (Pos, Pos) -> bool, sizes: seq<nat>, all: seq<Pos>) {
    StrictlySorted(before, all) && forall p :: p in all <==> IsPos(sizes, p)
  }

  /** The first `heads[w]` elements of each list have gone out, in order, and precede all others. */
  ghost predicate Merged(before: (Pos, Pos) -> bool, sizes: seq<nat>, heads: seq<nat>, out: seq<Pos>) {
    && |heads| == |sizes| && (forall w | 0 <= w < |sizes| :: heads[w] <= sizes[w])
    && StrictlySorted(before, out)
    && (forall p :: p in out <==> IsPos(sizes, p) && p.at < heads[p.list])
    && (forall p, q | p in out && IsPos(sizes, q) && heads[q.list] <= q.at :: before(p, q))
  }

  /** `m` heads the list to take from next. */
  ghost predicate FirstHead(before: (Pos, Pos) -> bool, sizes: seq<nat>, heads: seq<nat>, m: nat) {
    && m < |sizes| == |heads| && heads[m] < sizes[m]
    && forall w | 0 <= w < |sizes| && w != m && heads[w] < sizes[w] :: before(Pos(m, heads[m]), Pos(w, heads[w]))
  }

  lemma FirstOfAll(before: (Pos, Pos) -> bool, sizes: seq<nat>, heads: seq<nat>, m: nat, q: Pos)
    requires SortedLists(before, sizes) && FirstHead(before, sizes, heads, m)
    requires IsPos(sizes, q) && heads[q.list] <= q.at && q != Pos(m, heads[m])
    ensures before(Pos(m, heads[m]), q)
  {
    var h := Pos(q.list, heads[q.list]);
    assert IsPos(sizes, h) && IsPos(sizes, Pos(m, heads[m]));
    assert q.list != m ==> before(Pos(m, heads[m]), h);
    assert q != h ==> before(h, q);
  }

  /** Taking the first head keeps the merge right. */
  lemma MergeStep(before: (Pos, Pos) -> bool, sizes: seq<nat>, heads: seq<nat>, out: seq<Pos>, m: nat)
    requires SortedLists(before, sizes) && Merged(before, sizes, heads, out) && FirstHead(before, sizes, heads, m)
    ensures Merged(before, sizes, heads[m := heads[m] + 1], out + [Pos(m, heads[m])])
  {
    var p := Pos(m, heads[m]);
    var after, longer := heads[m := heads[m] + 1], out + [p];
    assert IsPos(sizes, p);
    forall q ensures q in longer <==> IsPos(sizes, q) && q.at < after[q.list] {
      assert q in longer <==> q in out || q == p;
    }
    forall x, q | x in longer && IsPos(sizes, q) && after[q.list] <= q.at ensures before(x, q) {
      if x == p { FirstOfAll(before, sizes, heads, m, q); }
    }
  }

  /** Whatever has been merged is a prefix of the sorted union. */
  lemma {:induction false} MergedIsPrefix(before: (Pos, Pos) -> bool, sizes: seq<nat>, heads: seq<nat>, out: seq<Pos>,
                                          all: seq<Pos>)
    requires SortedLists(before, sizes) && Merged(before, sizes, heads, out) && SortedUnion(before, sizes, all)
    ensures |out| <= |all| && out == all[..|out|]
  {
    PrefixUnique(before, out, all);
  }

  lemma PrefixHead<T(!new)>(before: (T, T) -> bool, out: seq<T>, all: seq<T>)
    requires StrictlySorted(before, out) && StrictlySorted(before, all) && NoCycle(before, all)
    requires forall x | x in out :: x in all
    requires forall x, y | x in out && y in all && y !in out :: before(x, y)
    requires out != []
    ensures all != [] && out[0] == all[0]
    ensures forall x | x in out[1..] :: x in all[1..]
    ensures forall x, y | x in out[1..] && y in all[1..] && y !in out[1..] :: before(x, y)
  {
    assert out[0] in out && out[0] in all;
    assert all[0] in all;
    assert all[0] == out[0];
    forall x | x in out[1..] ensures x in all[1..] {
      var j :| 0 <= j < |out| - 1 && out[1..][j] == x;
      assert before(out[0], out[j + 1]) && x in out;
    }
    forall y | y in all[1..] && y !in out[1..] ensures y !in out {
      var j :| 0 <= j < |all| - 1 && all[1..][j] == y;
      assert before(all[0], all[j + 1]);
    }
  }

  lemma {:induction false} PrefixUnique<T(!new)>(before: (T, T) -> bool, out: seq<T>, all: seq<T>)
    requires StrictlySorted(before, out) && StrictlySorted(before, all) && NoCycle(before, all)
    requires forall x | x in out :: x in all
    requires forall x, y | x in out && y in all && y !in out :: before(x, y)
    ensures |out| <= |all| && out == all[..|out|]
    decreases |out|
  {
    if out != [] {
      PrefixHead(before, out, all);
      PrefixUnique(before, out[1..], all[1..]);
      assert out == [out[0]] + out[1..];
    }
  }

  /** How many elements there are. */
  function Total(sizes: seq<nat>): nat {
    if sizes == [] then 0 else Total(sizes[..|sizes| - 1]) + sizes[|sizes| - 1]
  }

  lemma {:induction false} TotalStep(heads: seq<nat>, m: nat)
    requires m < |heads|
    ensures Total(heads[m := heads[m] + 1]) == Total(heads) + 1
    decreases |heads|
  {
    var n, more := |heads| - 1, heads[m := heads[m] + 1];
    if m == n {
      assert more[..n] == heads[..n];
    } else {
      TotalStep(heads[..n], m);
      assert more[..n] == heads[..n][m := heads[m] + 1];
    }
  }

  /** As long as fewer elements than there are have gone out, some list is not exhausted. */
  lemma {:induction false} SomeLeft(heads: seq<nat>, sizes: seq<nat>)
    requires |heads| == |sizes| && Total(heads) < Total(sizes)
    ensures exists w :: 0 <= w < |sizes| && heads[w] < sizes[w]
    decreases |sizes|
  {
    if sizes != [] {
      var n := |sizes| - 1;
      if heads[n] >= sizes[n] {
        SomeLeft(heads[..n], sizes[..n]);
        var w :| 0 <= w < n && heads[..n][w] < sizes[..n][w];
        assert heads[w] < sizes[w];
      } else {
        assert heads[n] < sizes[n];
      }
    }
  }

  function Zeros(n: nat): (z: seq<nat>)
    ensures |z| == n && forall i | 0 <= i < n :: z[i] == 0
  {
    seq(n, _ => 0)
  }

  lemma {:induction false} TotalZeros(z: seq<nat>)
    requires forall i | 0 <= i < |z| :: z[i] == 0
    ensures Total(z) == 0
    decreases |z|
  {
    if z != [] { TotalZeros(z[..|z| - 1]); }
  }

  lemma MergeStart(before: (Pos, Pos) -> bool, sizes: seq<nat>)
    ensures Merged(before, sizes, Zeros(|sizes|), []) && Total(Zeros(|sizes|)) == 0
  {
    TotalZeros(Zeros(|sizes|));
  }

  /** Among the first `i` lists, `m` has the first head; `m == i` if they are all exhausted. */
  ghost predicate BestOf(before: (Pos, Pos) -> bool, sizes: seq<nat>, heads: seq<nat>, m: nat, i: nat) {
    && m <= i <= |sizes| == |heads|
    && (m == i ==> forall w | 0 <= w < i :: heads[w] >= sizes[w])
    && (m < i ==> heads[m] < sizes[m])
    && (m < i ==> forall w | 0 <= w < i && w != m && heads[w] < sizes[w] ::
          before(Pos(m, heads[m]), Pos(w, heads[w])))
  }

  /** Looking at one more list: its head replaces the best so far exactly when it comes before it. */
  lemma BestStep(before: (Pos, Pos) -> bool, sizes: seq<nat>, heads: seq<nat>, m: nat, i: nat)
    requires SortedLists(before, sizes) && BestOf(before, sizes, heads, m, i) && i < |sizes|
    ensures heads[i] >= sizes[i] ==> BestOf(before, sizes, heads, if m == i then i + 1 else m, i + 1)
    ensures heads[i] < sizes[i] && m == i ==> BestOf(before, sizes, heads, i, i + 1)
    ensures heads[i] < sizes[i] && m < i ==>
      if before(Pos(i, heads[i]), Pos(m, heads[m])) then BestOf(before, sizes, heads, i, i + 1)
      else BestOf(before, sizes, heads, m, i + 1)
  {
    if heads[i] < sizes[i] && m < i {
      assert IsPos(sizes, Pos(i, heads[i])) && IsPos(sizes, Pos(m, heads[m]));
      forall w | 0 <= w < i && heads[w] < sizes[w] ensures IsPos(sizes, Pos(w, heads[w])) {}
    }
  }

  lemma BestIsFirst(before: (Pos, Pos) -> bool, sizes: seq<nat>, heads: seq<nat>, m: nat)
    requires BestOf(before, sizes, heads, m, |sizes|)
    ensures m < |sizes| ==> FirstHead(before, sizes, heads, m)
    ensures m == |sizes| ==> Total(heads) >= Total(sizes)
  {
    if m == |sizes| && Total(heads) < Total(sizes) { SomeLeft(heads, sizes); }
  }

  lemma {:induction false} TotalMono(heads: seq<nat>, sizes: seq<nat>)
    requires |heads| == |sizes| && forall w | 0 <= w < |sizes| :: heads[w] <= sizes[w]
    ensures Total(heads) <= Total(sizes)
    ensures Total(heads) == Total(sizes) ==> heads == sizes
    decreases |sizes|
  {
    if sizes != [] {
      var n := |sizes| - 1;
      TotalMono(heads[..n], sizes[..n]);
      assert heads == heads[..n] + [heads[n]] && sizes == sizes[..n] + [sizes[n]];
    }
  }

  /** When as many elements have gone out as there are, all have: the sorted union exists. */
  lemma AllOut(before: (Pos, Pos) -> bool, sizes: seq<nat>, heads: seq<nat>, out: seq<Pos>)
    requires Merged(before, sizes, heads, out) && Total(heads) == Total(sizes)
    ensures SortedUnion(before, sizes, out)
  {
    TotalMono(heads, sizes);
  }
}
