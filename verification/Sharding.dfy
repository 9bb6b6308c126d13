/** The rebalancing plan: which vnode leaves which shard for which other shard
    (`removeSharding`, `migrateSharding` and the arithmetic of their callers). */
module Sharding {
  import opened Orders

  /** shard -> the vnodes it holds; `std::map`, walked in ascending shard order. */
  type Topology = map<nat, seq<nat>>

  datatype Move = Move(src: nat, dst: nat)

  /** What the planning loops build: the load of each target, the migration list, the new map. */
  datatype Plan = Plan(topo: Topology, moves: map<nat, Move>, smap: seq<nat>)

  function Held(topo: Topology, s: nat): seq<nat> {
    if s in topo then topo[s] else []
  }

  /** The lists of the given shards one after the other. */
  function Flat(topo: Topology, keys: seq<nat>): seq<nat> {
    if keys == [] then [] else Flat(topo, keys[..|keys| - 1]) + Held(topo, keys[|keys| - 1])
  }

  /** Topology and sharding map tell the same story about every shard of the topology. */
  ghost predicate Agrees(topo: Topology, smap: seq<nat>) {
    forall s | s in topo :: Owns(topo[s], smap, s)
  }

  ghost predicate Owns(list: seq<nat>, smap: seq<nat>, s: nat) {
    && Distinct(list)
    && (forall v: nat {:trigger v in list} {:trigger smap[v]} :: v in list <==> v < |smap| && smap[v] == s)
  }

  /** The topology built from a sharding map. */
  ghost predicate TopologyOf(topo: Topology, smap: seq<nat>) {
    && Agrees(topo, smap)
    && (forall s :: s in topo <==> s in smap)
  }

  /** `moves` is exactly the difference between the two maps. */
  ghost predicate ExactDiff(moves: map<nat, Move>, before: seq<nat>, after: seq<nat>) {
    && |before| == |after|
    && (forall v: nat :: v in moves <==> v < |before| && before[v] != after[v])
    && (forall v | v in moves :: moves[v] == Move(before[v], after[v]))
  }

  lemma ConcatDistinct(a: seq<nat>, b: seq<nat>)
    requires Distinct(a) && Distinct(b) && forall x | x in a :: x !in b
    ensures Distinct(a + b)
  {
    forall i, j | 0 <= i < j < |a + b| ensures (a + b)[i] != (a + b)[j] {
      if i < |a| <= j { assert a[i] in a && b[j - |a|] in b; }
    }
  }

  lemma OwnsNext(list: seq<nat>, smap: seq<nat>, s: nat)
    requires Owns(list, smap, s)
    ensures Owns(list + [|smap|], smap + [s], s)
  {
    var l, m := list + [|smap|], smap + [s];
    ConcatDistinct(list, [|smap|]);
    forall v: nat ensures v in l <==> v < |m| && m[v] == s {
      assert v in l <==> v in list || v == |smap|;
    }
  }

  /** The lists in ascending order of vnodes. */
  function Table(smap: seq<nat>): Topology {
    if smap == [] then map[] else
      var n := |smap| - 1;
      var topo := Table(smap[..n]);
      topo[smap[n] := Held(topo, smap[n]) + [n]]
  }

  lemma {:induction false} TableIs(smap: seq<nat>)
    ensures TopologyOf(Table(smap), smap)
    decreases |smap|
  {
    if smap != [] {
      var n := |smap| - 1;
      var before, s := Table(smap[..n]), smap[n];
      TableIs(smap[..n]);
      assert smap == smap[..n] + [s];
      assert Owns(Held(before, s), smap[..n], s);
      OwnsNext(Held(before, s), smap[..n], s);
    }
  }

  /** Every list ascends: vnodes are entered in the order of the map. */
  lemma {:induction false} TableAscends(smap: seq<nat>, s: nat)
    requires s in Table(smap)
    ensures Ascends(Table(smap)[s])
    decreases |smap|
  {
    var n := |smap| - 1;
    if s in Table(smap[..n]) {
      TableAscends(smap[..n], s);
      TableIs(smap[..n]);
      var list := Table(smap[..n])[s];
      forall k | 0 <= k < |list| ensures list[k] < n { assert list[k] in list; }
    }
  }

  method BuildTopology(smap: seq<nat>) returns (topo: Topology)
    ensures topo == Table(smap) && TopologyOf(topo, smap) && forall s | s in topo :: Ascends(topo[s])
  {
    topo := map[];
    for i := 0 to |smap|
      invariant topo == Table(smap[..i])
    {
      assert smap[..i + 1][..i] == smap[..i];
      topo := topo[smap[i] := Held(topo, smap[i]) + [i]];
    }
    assert smap[..|smap|] == smap;
    TableIs(smap);
    forall s | s in topo ensures Ascends(topo[s]) { TableAscends(smap, s); }
  }

  // ---------------------------------------------------------------- lists laid end to end

  lemma {:induction false} FlatElements(topo: Topology, keys: seq<nat>, v: nat)
    ensures v in Flat(topo, keys) <==> exists s | s in keys :: v in Held(topo, s)
  {
    if keys != [] {
      FlatElements(topo, keys[..|keys| - 1], v);
      assert keys == keys[..|keys| - 1] + [keys[|keys| - 1]];
    }
  }

  lemma {:induction false} FlatPrefix(topo: Topology, keys: seq<nat>, i: nat)
    requires i < |keys|
    ensures Flat(topo, keys[..i + 1]) == Flat(topo, keys[..i]) + Held(topo, keys[i])
    ensures |Flat(topo, keys[..i + 1])| <= |Flat(topo, keys)|
    ensures Flat(topo, keys[..i + 1]) == Flat(topo, keys)[..|Flat(topo, keys[..i + 1])|]
    decreases |keys|
  {
    assert keys[..i + 1][..i] == keys[..i];
    if i + 1 == |keys| {
      assert keys[..i + 1] == keys;
    } else {
      var short := keys[..|keys| - 1];
      assert short[..i + 1] == keys[..i + 1] && short[..i] == keys[..i];
      FlatPrefix(topo, short, i);
    }
  }

  ghost predicate Within(list: seq<nat>, smap: seq<nat>, s: nat) {
    Distinct(list) && forall v | v in list :: v < |smap| && smap[v] == s
  }

  /** Lists of different shards share no vnode, so laid end to end they hold no vnode twice. */
  lemma {:induction false} FlatWithin(topo: Topology, keys: seq<nat>, smap: seq<nat>)
    requires Distinct(keys) && forall s | s in topo :: Within(topo[s], smap, s)
    ensures Distinct(Flat(topo, keys))
    ensures forall v | v in Flat(topo, keys) :: v < |smap| && smap[v] in keys && v in Held(topo, smap[v])
    decreases |keys|
  {
    if keys != [] {
      var short, last := keys[..|keys| - 1], keys[|keys| - 1];
      FlatWithin(topo, short, smap);
      assert keys == short + [last];
      ConcatDistinct(Flat(topo, short), Held(topo, last));
    }
  }

  /** If the lists agree with the map, nothing of those shards is missing either. */
  lemma FlatDistinct(topo: Topology, keys: seq<nat>, smap: seq<nat>)
    requires Agrees(topo, smap) && Distinct(keys)
    ensures Distinct(Flat(topo, keys))
    ensures forall v: nat :: v in Flat(topo, keys) <==> v < |smap| && smap[v] in keys && smap[v] in topo
  {
    FlatWithin(topo, keys, smap);
    forall v: nat | v < |smap| && smap[v] in keys && smap[v] in topo ensures v in Flat(topo, keys) {
      assert v in Held(topo, smap[v]);
      FlatElements(topo, keys, v);
    }
  }

  function Range(n: nat): (r: set<nat>)
    ensures |r| == n
    ensures forall v: nat :: v in r <==> v < n
  {
    if n == 0 then {} else Range(n - 1) + {n - 1}
  }

  function Elements(s: seq<nat>): set<nat> {
    set x | x in s
  }

  lemma {:induction false} ElementsSize(s: seq<nat>)
    ensures |Elements(s)| <= |s|
    ensures |Elements(s)| == |s| <==> Distinct(s)
  {
    if s != [] {
      var t, x := s[..|s| - 1], s[|s| - 1];
      ElementsSize(t);
      assert s == t + [x];
      assert Elements(s) == Elements(t) + {x};
      if x in t {
        var i :| 0 <= i < |t| && t[i] == x;
        assert s[i] == s[|s| - 1];
        assert Elements(s) == Elements(t);
      } else if Distinct(t) {
        assert Distinct(s);
      } else {
        var i, j :| 0 <= i < j < |t| && t[i] == t[j];
        assert s[i] == s[j];
      }
    }
  }

  lemma {:induction false} SubsetSize<T>(a: set<T>, b: set<T>)
    requires a <= b
    ensures |a| <= |b|
    decreases a
  {
    if a != {} {
      var x :| x in a;
      SubsetSize(a - {x}, b - {x});
    }
  }

  /** The vnodes of two complementary groups of shards add up to the whole map. */
  lemma FlatTotal(topo: Topology, smap: seq<nat>, a: seq<nat>, b: seq<nat>)
    requires TopologyOf(topo, smap) && Distinct(a) && Distinct(b)
    requires forall s :: s in a ==> s !in b
    requires forall s | s in topo :: s in a || s in b
    ensures |Flat(topo, a)| + |Flat(topo, b)| == |smap|
  {
    FlatDistinct(topo, a, smap);
    FlatDistinct(topo, b, smap);
    var ea, eb := Elements(Flat(topo, a)), Elements(Flat(topo, b));
    ElementsSize(Flat(topo, a));
    ElementsSize(Flat(topo, b));
    forall v: nat ensures v in Range(|smap|) <==> v in ea || v in eb {
      if v < |smap| { assert smap[v] in smap && smap[v] in topo; }
    }
    assert ea + eb == Range(|smap|);
    assert ea * eb == {};
  }

  // ---------------------------------------------------------------- filling targets in order

  /** One filling job: the vnodes to place in order, the targets in order, and the load `cap` at
      which the cursor leaves a target (it always accepts one vnode before that test). A target may be
      listed more than once. */
  datatype Job = Job(base: Topology, smap: seq<nat>, queue: seq<nat>, targets: seq<nat>, cap: nat)

  ghost predicate JobOk(job: Job) {
    && Distinct(job.queue)
    && (forall k | 0 <= k < |job.queue| :: job.queue[k] < |job.smap| && job.smap[job.queue[k]] !in job.targets)
    && OwnsAll(job.targets, job.base, job.smap)
  }

  /** Vnode `v` goes from `src` to `dst`. */
  function Push(plan: Plan, v: nat, src: nat, dst: nat): Plan {
    if v < |plan.smap| then
      Plan(plan.topo[dst := Held(plan.topo, dst) + [v]], plan.moves[v := Move(src, dst)], plan.smap[v := dst])
    else plan
  }

  /** How many vnodes a target of load `n` takes before the cursor leaves it. */
  function Room(n: nat, cap: nat): (r: nat)
    ensures r > 0
  {
    if cap <= n then 1 else cap - n
  }

  /** The load of shard `s` when the cursor has passed the first `n` entries of the target list. */
  function LoadAfter(job: Job, n: nat, s: nat): nat
    requires n <= |job.targets|
  {
    if n == 0 then |Held(job.base, s)| else
      var load := LoadAfter(job, n - 1, s);
      if job.targets[n - 1] == s then load + Room(load, job.cap) else load
  }

  /** How many vnodes the first `n` entries of the target list take together. */
  function RoomSum(job: Job, n: nat): nat
    requires n <= |job.targets|
  {
    if n == 0 then 0 else
      RoomSum(job, n - 1) + Room(LoadAfter(job, n - 1, job.targets[n - 1]), job.cap)
  }

  function Slice(queue: seq<nat>, a: nat, b: nat): seq<nat> {
    if a <= b <= |queue| then queue[a..b] else []
  }

  /** What shard `s` gets of the first `done` queued vnodes through the first `n` entries of the target
      list: entry `k` takes the vnodes from number `RoomSum(k)` up to number `RoomSum(k + 1)`. */
  function Share(job: Job, done: nat, n: nat, s: nat): seq<nat>
    requires n <= |job.targets|
  {
    if n == 0 then [] else
      Share(job, done, n - 1, s)
      + if job.targets[n - 1] == s then Slice(job.queue, RoomSum(job, n - 1), Least(RoomSum(job, n), done)) else []
  }

  /** The cursor stands at the entry that takes the next vnode. */
  ghost predicate Cursor(job: Job, cur: nat, done: nat) {
    && cur <= |job.targets| && RoomSum(job, cur) <= done
    && (if cur < |job.targets| then done < RoomSum(job, cur + 1) else done == RoomSum(job, cur))
  }

  /** Every target holds what it did and its share. */
  ghost predicate Served(job: Job, topo: Topology, done: nat) {
    forall s | s in job.targets :: Held(topo, s) == Held(job.base, s) + Share(job, done, |job.targets|, s)
  }

  /** The first `done` queued vnodes have been placed and nothing else has changed. */
  ghost predicate Placed(job: Job, plan: Plan, cur: nat, done: nat) {
    && cur <= |job.targets| && done <= |job.queue|
    && Cursor(job, cur, done) && Served(job, plan.topo, done)
    && Recorded(job, plan.moves, plan.smap, done)
    && OwnsAll(job.targets, plan.topo, plan.smap)
    && job.base.Keys <= plan.topo.Keys <= job.base.Keys + Elements(job.targets)
  }

  ghost predicate Recorded(job: Job, moves: map<nat, Move>, smap: seq<nat>, done: nat)
    requires done <= |job.queue|
  {
    && ExactDiff(moves, job.smap, smap)
    && (forall v: nat :: v in moves <==> v in job.queue[..done])
    && (forall v | v in moves :: moves[v].dst in job.targets)
  }

  ghost predicate OwnsAll(shards: seq<nat>, topo: Topology, smap: seq<nat>) {
    forall s | s in shards :: Owns(Held(topo, s), smap, s)
  }

  lemma {:induction false} RoomGrows(job: Job, i: nat, n: nat)
    requires i <= n <= |job.targets|
    ensures RoomSum(job, i) <= RoomSum(job, n)
    ensures i < n ==> RoomSum(job, i) < RoomSum(job, n)
    decreases n
  {
    if i < n { RoomGrows(job, i, n - 1); }
  }

  /** The next vnode goes to the shard at the cursor. */
  lemma {:induction false} ShareNext(job: Job, done: nat, n: nat, s: nat, cur: nat)
    requires Cursor(job, cur, done) && cur < |job.targets| && done < |job.queue| && n <= |job.targets|
    ensures Share(job, done + 1, n, s)
            == Share(job, done, n, s) + if cur < n && job.targets[cur] == s then [job.queue[done]] else []
    decreases n
  {
    hide LoadAfter, Room, Slice, RoomSum;
    if n > 0 {
      ShareNext(job, done, n - 1, s, cur);
      if n <= cur {
        RoomGrows(job, n, cur);
      } else {
        RoomGrows(job, cur + 1, n);
        if n == cur + 1 {
          NextSlice(job.queue, RoomSum(job, cur), done);
        } else {
          RoomGrows(job, cur + 1, n - 1);
          RoomGrows(job, n - 1, n);
          EmptySlice(job.queue, RoomSum(job, n - 1), done);
        }
      }
    }
  }

  lemma NextSlice(queue: seq<nat>, a: nat, done: nat)
    requires a <= done < |queue|
    ensures Slice(queue, a, done + 1) == Slice(queue, a, done) + [queue[done]]
  {
  }

  lemma EmptySlice(queue: seq<nat>, a: nat, done: nat)
    requires done < a
    ensures Slice(queue, a, done) == Slice(queue, a, done + 1) == []
  {
  }

  /** How much shard `s` has got through the first `n` entries. */
  lemma {:induction false} ShareSize(job: Job, done: nat, n: nat, s: nat, cur: nat)
    requires Cursor(job, cur, done) && done <= |job.queue| && n <= |job.targets|
    ensures n <= cur ==> |Held(job.base, s)| + |Share(job, done, n, s)| == LoadAfter(job, n, s)
    ensures cur < n ==>
      |Held(job.base, s)| + |Share(job, done, n, s)|
      == LoadAfter(job, cur, s) + if job.targets[cur] == s then done - RoomSum(job, cur) else 0
    decreases n
  {
    hide Room, Slice;
    if n > 0 {
      ShareSize(job, done, n - 1, s, cur);
      RoomGrows(job, n - 1, n);
      SliceSize(job.queue, RoomSum(job, n - 1), Least(RoomSum(job, n), done));
      if n <= cur {
        RoomGrows(job, n, cur);
      } else if n > cur + 1 {
        RoomGrows(job, cur + 1, n - 1);
      }
    }
  }

  lemma SliceSize(queue: seq<nat>, a: nat, b: nat)
    requires b <= |queue|
    ensures |Slice(queue, a, b)| == if a <= b then b - a else 0
  {
  }

  lemma OwnsMove(list: seq<nat>, smap: seq<nat>, v: nat, t: nat, s: nat)
    requires Owns(list, smap, s) && v < |smap| && smap[v] != s
    ensures s != t ==> Owns(list, smap[v := t], s)
    ensures s == t ==> Owns(list + [v], smap[v := t], s)
  {
    var m := smap[v := t];
    if s == t {
      ConcatDistinct(list, [v]);
      forall u: nat ensures u in list + [v] <==> u < |m| && m[u] == s {
        assert u in list + [v] <==> u in list || u == v;
      }
    }
  }

  lemma ServedShard(job: Job, topo: Topology, after: Topology, cur: nat, done: nat, s: nat)
    requires Cursor(job, cur, done) && cur < |job.targets| && done < |job.queue|
    requires Held(topo, s) == Held(job.base, s) + Share(job, done, |job.targets|, s)
    requires after == topo[job.targets[cur] := Held(topo, job.targets[cur]) + [job.queue[done]]]
    ensures Held(after, s) == Held(job.base, s) + Share(job, done + 1, |job.targets|, s)
  {
    hide Cursor, Share;
    var was, share := Held(job.base, s), Share(job, done, |job.targets|, s);
    ShareNext(job, done, |job.targets|, s, cur);
    assert was + share + [job.queue[done]] == was + (share + [job.queue[done]]);
  }

  lemma ServedPush(job: Job, topo: Topology, after: Topology, cur: nat, done: nat)
    requires Cursor(job, cur, done) && cur < |job.targets| && done < |job.queue|
    requires Served(job, topo, done)
    requires after == topo[job.targets[cur] := Held(topo, job.targets[cur]) + [job.queue[done]]]
    ensures Served(job, after, done + 1)
  {
    hide Cursor, Share, Held;
    forall s | s in job.targets
      ensures Held(after, s) == Held(job.base, s) + Share(job, done + 1, |job.targets|, s)
    {
      ServedShard(job, topo, after, cur, done, s);
    }
  }

  lemma AtNext(job: Job, after: Topology, cur: nat, done: nat)
    requires Cursor(job, cur, done) && cur < |job.targets| && done < |job.queue|
    requires Served(job, after, done + 1)
    ensures Cursor(job, if |Held(after, job.targets[cur])| >= job.cap then cur + 1 else cur, done + 1)
  {
    var t := job.targets[cur];
    ShareNext(job, done, |job.targets|, t, cur);
    ShareSize(job, done, |job.targets|, t, cur);
    assert |Held(after, t)| == LoadAfter(job, cur, t) + done + 1 - RoomSum(job, cur);
  }

  lemma RecordedPush(job: Job, moves: map<nat, Move>, smap: seq<nat>, done: nat, t: nat)
    requires done < |job.queue| && Distinct(job.queue) && t in job.targets
    requires job.queue[done] < |job.smap| && job.smap[job.queue[done]] !in job.targets
    requires Recorded(job, moves, smap, done)
    ensures var v := job.queue[done];
            && v < |smap| && smap[v] == job.smap[v]
            && Recorded(job, moves[v := Move(job.smap[v], t)], smap[v := t], done + 1)
            && job.queue[..done + 1] == job.queue[..done] + [v]
  {
    var v := job.queue[done];
    assert v !in job.queue[..done];
    assert job.queue[..done + 1] == job.queue[..done] + [v];
  }

  lemma OwnsPush(job: Job, topo: Topology, after: Topology, smap: seq<nat>, cur: nat, v: nat)
    requires cur < |job.targets| && v < |smap| && smap[v] !in job.targets
    requires OwnsAll(job.targets, topo, smap)
    requires after == topo[job.targets[cur] := Held(topo, job.targets[cur]) + [v]]
    ensures OwnsAll(job.targets, after, smap[v := job.targets[cur]])
  {
    forall s | s in job.targets ensures Owns(Held(after, s), smap[v := job.targets[cur]], s) {
      OwnsMove(Held(topo, s), smap, v, job.targets[cur], s);
    }
  }

  /** One iteration of either planning loop. */
  lemma PlaceStep(job: Job, plan: Plan, after: Plan, cur: nat, done: nat)
    requires JobOk(job) && Placed(job, plan, cur, done)
    requires cur < |job.targets| && done < |job.queue|
    requires after == Push(plan, job.queue[done], job.smap[job.queue[done]], job.targets[cur])
    ensures Placed(job, after, if |Held(after.topo, job.targets[cur])| >= job.cap then cur + 1 else cur, done + 1)
  {
    var v, t := job.queue[done], job.targets[cur];
    hide Cursor, Served, Owns, OwnsAll;
    RecordedPush(job, plan.moves, plan.smap, done, t);
    ServedPush(job, plan.topo, after.topo, cur, done);
    AtNext(job, after.topo, cur, done);
    OwnsPush(job, plan.topo, after.topo, plan.smap, cur, v);
  }

  lemma PlacedCount(job: Job, plan: Plan, cur: nat, done: nat)
    requires Placed(job, plan, cur, done)
    ensures cur == |job.targets| ==> done == RoomSum(job, |job.targets|)
    ensures cur < |job.targets| ==> RoomSum(job, cur) <= done < RoomSum(job, cur + 1)
  {
  }

  /** A target that is listed once takes what it has room for. */
  lemma {:induction false} LoadOnce(job: Job, n: nat, s: nat)
    requires Distinct(job.targets) && n <= |job.targets|
    ensures LoadAfter(job, n, s)
            == |Held(job.base, s)| + if s in job.targets[..n] then Room(|Held(job.base, s)|, job.cap) else 0
    decreases n
  {
    if n > 0 {
      LoadOnce(job, n - 1, s);
      assert job.targets[..n] == job.targets[..n - 1] + [job.targets[n - 1]];
      assert job.targets[n - 1] !in job.targets[..n - 1];
    }
  }

  /** No target gets more than it takes. */
  lemma {:induction false} ShareBound(job: Job, done: nat, n: nat, s: nat)
    requires n <= |job.targets|
    ensures |Held(job.base, s)| + |Share(job, done, n, s)| <= LoadAfter(job, n, s)
    decreases n
  {
    if n > 0 { ShareBound(job, done, n - 1, s); }
  }

  // ---------------------------------------------------------------- removing shards

  ghost function Given(current: Topology, shards: seq<nat>): Topology {
    map s | s in shards :: Held(current, s)
  }

  /** Every vnode of the removed shards, to be spread over the shards that stay. */
  ghost function RemovalJob(removed: seq<nat>, nv: nat, current: Topology, smap: seq<nat>): Job {
    var stay := current - Elements(removed);
    Job(stay, smap, Flat(Given(current, removed), Ascending(Elements(removed))), Ascending(stay.Keys), nv + 1)
  }

  lemma RemovedQueue(removed: seq<nat>, current: Topology, smap: seq<nat>)
    requires TopologyOf(current, smap)
    ensures var gone, sources := Given(current, removed), Ascending(Elements(removed));
            && Agrees(gone, smap) && Distinct(Flat(gone, sources))
            && (forall v: nat :: v in Flat(gone, sources) <==> v < |smap| && smap[v] in removed)
  {
    FlatDistinct(Given(current, removed), Ascending(Elements(removed)), smap);
  }

  lemma RemovalJobOk(removed: seq<nat>, nv: nat, current: Topology, smap: seq<nat>)
    requires TopologyOf(current, smap)
    ensures var job := RemovalJob(removed, nv, current, smap);
            JobOk(job) && Placed(job, Plan(job.base, map[], smap), 0, 0)
  {
    var job := RemovalJob(removed, nv, current, smap);
    RemovedQueue(removed, current, smap);
    forall k | 0 <= k < |job.queue|
      ensures job.queue[k] < |smap| && smap[job.queue[k]] !in job.targets
    {
      assert job.queue[k] in job.queue;
    }
    StartPlaced(job);
  }

  lemma StartPlaced(job: Job)
    requires JobOk(job)
    ensures Placed(job, Plan(job.base, map[], job.smap), 0, 0)
  {
    forall s | s in job.targets ensures Share(job, 0, |job.targets|, s) == [] {
      NoShare(job, |job.targets|, s);
    }
  }

  lemma {:induction false} NoShare(job: Job, n: nat, s: nat)
    requires n <= |job.targets|
    ensures Share(job, 0, n, s) == []
    decreases n
  {
    if n > 0 { NoShare(job, n - 1, s); }
  }

  method SplitOff(removed: seq<nat>, current: Topology) returns (gone: Topology, stay: Topology)
    ensures stay == current - Elements(removed)
    ensures gone.Keys == Elements(removed)
    ensures Distinct(removed) ==> gone == Given(current, removed)
  {
    gone, stay := map[], current;
    for i := 0 to |removed|
      invariant stay == current - Elements(removed[..i])
      invariant gone.Keys == Elements(removed[..i])
      invariant Distinct(removed) ==> gone == Given(current, removed[..i])
    {
      assert removed[..i + 1] == removed[..i] + [removed[i]];
      gone := gone[removed[i] := Held(stay, removed[i])];
      stay := stay - {removed[i]};
    }
    assert removed[..|removed|] == removed;
  }

  /** Every vnode finds room, and if the last free place is taken, a vnode of the last source takes it. */
  ghost predicate Fits(job: Job, gone: Topology, sources: seq<nat>) {
    var room := RoomSum(job, |job.targets|);
    |job.queue| < room || (|job.queue| == room && sources != [] && Held(gone, sources[|sources| - 1]) != [])
  }

  lemma FitsAtEnd(job: Job, plan: Plan, cur: nat, gone: Topology, sources: seq<nat>)
    requires Placed(job, plan, cur, |job.queue|)
    requires cur == |job.targets| ==> sources != [] && Held(gone, sources[|sources| - 1]) != []
    ensures Fits(job, gone, sources)
  {
    PlacedCount(job, plan, cur, |job.queue|);
    if cur < |job.targets| { RoomGrows(job, cur + 1, |job.targets|); }
  }

  lemma FitsNot(job: Job, plan: Plan, done: nat, gone: Topology, sources: seq<nat>)
    requires Placed(job, plan, |job.targets|, done)
    requires done == |job.queue| ==> sources == [] || Held(gone, sources[|sources| - 1]) == []
    ensures !Fits(job, gone, sources)
  {
    PlacedCount(job, plan, |job.targets|, done);
  }

  /** The inner loop: one removed shard gives its vnodes to the targets from `to0` on. */
  method Drain(src: nat, list: seq<nat>, last: bool, targets: seq<nat>, nv: nat,
               plan0: Plan, to0: nat, left0: seq<nat>, ghost job: Job, ghost done: nat)
    returns (ok: bool, plan: Plan, to: nat, left: seq<nat>, ghost n: nat)
    requires JobOk(job) && job.targets == targets && job.cap == nv + 1
    requires to0 < |targets| && left0 == targets[..to0] && Placed(job, plan0, to0, done)
    requires done + |list| <= |job.queue| && job.queue[done..done + |list|] == list
    requires forall k | 0 <= k < |list| :: list[k] < |job.smap| && job.smap[list[k]] == src
    ensures n <= |list| && to <= |targets| && left == targets[..to] && Placed(job, plan, to, done + n)
    ensures if ok then n == |list| && (to == |targets| ==> last && list != [])
            else to == |targets| && (n == |list| ==> !last)
  {
    hide *;
    plan, to, left := plan0, to0, left0;
    n := 0;
    var i := 0;
    while i < |list|
      invariant n == i <= |list| && to < |targets| && left == targets[..to]
      invariant Placed(job, plan, to, done + i)
    {
      assert job.queue[done + i] == list[i];
      PlaceStep(job, plan, Push(plan, list[i], src, targets[to]), to, done + i);
      plan := Push(plan, list[i], src, targets[to]);
      i := i + 1;
      n := i;
      if |Held(plan.topo, targets[to])| > nv {
        left := left + [targets[to]];
        to := to + 1;
        if to == |targets| {
          ok := last && i == |list|;
          return;
        }
      }
    }
    ok := true;
  }

  lemma FlatSlice(topo: Topology, keys: seq<nat>, i: nat)
    requires i < |keys|
    ensures var list, done := Held(topo, keys[i]), |Flat(topo, keys[..i])|;
            && |Flat(topo, keys[..i + 1])| == done + |list| <= |Flat(topo, keys)|
            && Flat(topo, keys)[done..done + |list|] == list
  {
    FlatPrefix(topo, keys, i);
  }

  lemma OwnsAt(list: seq<nat>, smap: seq<nat>, s: nat)
    requires Owns(list, smap, s)
    ensures forall k | 0 <= k < |list| :: list[k] < |smap| && smap[list[k]] == s
  {
    forall k | 0 <= k < |list| ensures list[k] < |smap| && smap[list[k]] == s {
      assert list[k] in list;
    }
  }

  /** What the loop over the removed shards knows when it reaches shard number `from`. */
  lemma SourceList(removed: seq<nat>, current: Topology, smap: seq<nat>, from: nat)
    requires TopologyOf(current, smap) && from < |Ascending(Elements(removed))|
    ensures var gone, sources := Given(current, removed), Ascending(Elements(removed));
            && sources[from] in gone
            && Owns(gone[sources[from]], smap, sources[from])
            && Held(gone, sources[from]) == gone[sources[from]]
  {
  }

  lemma {:induction false} TrailingEmpty(topo: Topology, keys: seq<nat>, n: nat)
    requires n < |keys| && |Flat(topo, keys[..n])| == |Flat(topo, keys)|
    ensures Held(topo, keys[|keys| - 1]) == []
  {
    FlatPrefix(topo, keys, |keys| - 1);
    assert keys[..|keys|] == keys;
    if n < |keys| - 1 {
      FlatPrefix(topo, keys[..|keys| - 1], n);
      assert keys[..|keys| - 1][..n] == keys[..n];
    }
  }

  method RemoveSharding(removed: seq<nat>, nv: nat, current: Topology, smap0: seq<nat>)
    returns (ok: bool, left: seq<nat>, plan: Plan)
    requires TopologyOf(current, smap0)
    ensures ok <==>
      && Distinct(removed) && current.Keys - Elements(removed) != {}
      && Fits(RemovalJob(removed, nv, current, smap0), Given(current, removed), Ascending(Elements(removed)))
    ensures ok ==> left == RemovalJob(removed, nv, current, smap0).targets
    ensures ok ==> exists cur: nat :: 
      Placed(RemovalJob(removed, nv, current, smap0), plan, cur, |RemovalJob(removed, nv, current, smap0).queue|)
  {
    var gone, stay := SplitOff(removed, current);
    ghost var job := RemovalJob(removed, nv, current, smap0);
    RemovalJobOk(removed, nv, current, smap0);
    ElementsSize(removed);
    left, plan := [], Plan(stay, map[], smap0);
    if stay == map[] || |gone| != |removed| {
      ok := false;
      assert |gone.Keys| == |gone|;
      return;
    }
    assert |gone.Keys| == |gone|;
    var sources, targets := Ascending(gone.Keys), Ascending(stay.Keys);
    ok, left, plan := Spread(removed, nv, current, smap0, gone, stay, sources, targets);
  }

  lemma SpreadStart(removed: seq<nat>, nv: nat, current: Topology, smap: seq<nat>)
    requires TopologyOf(current, smap)
    ensures var job, stay := RemovalJob(removed, nv, current, smap), current - Elements(removed);
            var gone, sources := Given(current, removed), Ascending(Elements(removed));
            && JobOk(job) && Placed(job, Plan(stay, map[], smap), 0, 0)
            && job.targets == Ascending(stay.Keys) && job.cap == nv + 1 && job.smap == smap
            && job.queue == Flat(gone, sources)
            && |Flat(gone, sources[..0])| == 0
  {
    RemovalJobOk(removed, nv, current, smap);
  }

  /** The nested loops of removal. */
  method Spread(ghost removed: seq<nat>, nv: nat, ghost current: Topology, smap0: seq<nat>,
                gone: Topology, stay: Topology, sources: seq<nat>, targets: seq<nat>)
    returns (ok: bool, left: seq<nat>, plan: Plan)
    requires TopologyOf(current, smap0)
    requires gone == Given(current, removed) && stay == current - Elements(removed)
    requires sources == Ascending(Elements(removed)) && targets == Ascending(stay.Keys) && targets != []
    ensures ok <==> Fits(RemovalJob(removed, nv, current, smap0), gone, sources)
    ensures ok ==> left == targets
    ensures ok ==> exists cur: nat :: 
      Placed(RemovalJob(removed, nv, current, smap0), plan, cur, |RemovalJob(removed, nv, current, smap0).queue|)
  {
    ghost var job := RemovalJob(removed, nv, current, smap0);
    hide *;
    SpreadStart(removed, nv, current, smap0);
    left, plan := [], Plan(stay, map[], smap0);
    var to := 0;
    ghost var done := 0;
    for from := 0 to |sources|
      invariant done == |Flat(gone, sources[..from])| && 0 <= to <= |targets| && left == targets[..to]
      invariant Placed(job, plan, to, done)
      invariant to == |targets| ==> from == |sources| && sources != [] && Held(gone, sources[|sources| - 1]) != []
    {
      SourceList(removed, current, smap0, from);
      FlatSlice(gone, sources, from);
      OwnsAt(gone[sources[from]], smap0, sources[from]);
      ghost var n;
      ok, plan, to, left, n := Drain(sources[from], gone[sources[from]], from + 1 == |sources|, targets, nv,
                                     plan, to, left, job, done);
      done := done + n;
      if !ok {
        if done == |job.queue| { TrailingEmpty(gone, sources, from + 1); }
        FitsNot(job, plan, done, gone, sources);
        return;
      }
    }
    assert sources[..|sources|] == sources;
    FitsAtEnd(job, plan, to, gone, sources);
    while to < |targets|
      invariant to <= |targets| && left == targets[..to]
    {
      left := left + [targets[to]];
      to := to + 1;
    }
    ok := true;
  }

  // ---------------------------------------------------------------- adding shards

  /** None of the shards is in the topology. */
  ghost predicate Apart(shards: seq<nat>, topo: Topology) {
    forall s | s in shards :: s !in topo
  }

  /** What a shard of more than `nv + 1` vnodes offers: its tail, last vnode first. */
  function Shed(list: seq<nat>, nv: nat): seq<nat> {
    if |list| <= nv + 1 then [] else [list[|list| - 1]] + Shed(list[..|list| - 1], nv)
  }

  lemma {:induction false} ShedAt(list: seq<nat>, nv: nat)
    ensures |Shed(list, nv)| == if |list| <= nv + 1 then 0 else |list| - nv - 1
    ensures forall k | 0 <= k < |Shed(list, nv)| :: Shed(list, nv)[k] == list[|list| - 1 - k]
    decreases |list|
  {
    if |list| > nv + 1 { ShedAt(list[..|list| - 1], nv); }
  }

  ghost function Offers(current: Topology, nv: nat): Topology {
    map s | s in current :: Shed(current[s], nv)
  }

  ghost function AdditionJob(added: seq<nat>, nv: nat, current: Topology, smap: seq<nat>): Job {
    Job(map[], smap, Flat(Offers(current, nv), Ascending(current.Keys)), added, nv)
  }

  lemma OffersWithin(current: Topology, nv: nat, smap: seq<nat>)
    requires TopologyOf(current, smap)
    ensures forall s | s in current :: Within(Offers(current, nv)[s], smap, s)
  {
    forall s | s in current ensures Within(Offers(current, nv)[s], smap, s) {
      var list, shed := current[s], Shed(current[s], nv);
      ShedAt(list, nv);
      forall v | v in shed ensures v in list {
        var k :| 0 <= k < |shed| && shed[k] == v;
      }
    }
  }

  lemma OfferedQueue(nv: nat, current: Topology, smap: seq<nat>)
    requires TopologyOf(current, smap)
    ensures var queue := Flat(Offers(current, nv), Ascending(current.Keys));
            && Distinct(queue)
            && forall k | 0 <= k < |queue| :: queue[k] < |smap| && smap[queue[k]] in current
  {
    var queue := Flat(Offers(current, nv), Ascending(current.Keys));
    OffersWithin(current, nv, smap);
    FlatWithin(Offers(current, nv), Ascending(current.Keys), smap);
    forall k | 0 <= k < |queue| ensures queue[k] < |smap| && smap[queue[k]] in current {
      assert queue[k] in queue;
    }
  }

  lemma AdditionJobOk(added: seq<nat>, nv: nat, current: Topology, smap: seq<nat>)
    requires TopologyOf(current, smap) && Apart(added, current)
    ensures var job := AdditionJob(added, nv, current, smap);
            && JobOk(job) && Placed(job, Plan(map[], map[], smap), 0, 0)
            && job.targets == added && job.cap == nv && job.smap == smap
            && job.queue == Flat(Offers(current, nv), Ascending(current.Keys))
            && |Flat(Offers(current, nv), Ascending(current.Keys)[..0])| == 0
  {
    hide Offers;
    OfferedQueue(nv, current, smap);
    StartPlaced(AdditionJob(added, nv, current, smap));
  }

  /** Old shard `s` now holds exactly the first `keep[s]` vnodes it used to hold. */
  ghost predicate Kept(current: Topology, keep: map<nat, nat>, smap: seq<nat>) {
    && keep.Keys == current.Keys
    && forall s | s in current :: keep[s] <= |current[s]| && Owns(current[s][..keep[s]], smap, s)
  }

  lemma KeepStep(current: Topology, keep: map<nat, nat>, smap: seq<nat>, s: nat, v: nat, t: nat)
    requires Kept(current, keep, smap) && s in current && t !in current
    requires 0 < keep[s] && v == current[s][keep[s] - 1]
    ensures v < |smap| && smap[v] == s
    ensures Kept(current, keep[s := keep[s] - 1], smap[v := t])
  {
    var list := current[s][..keep[s]];
    assert list[keep[s] - 1] in list;
    assert list == list[..keep[s] - 1] + [v];
    assert list[..keep[s] - 1] == current[s][..keep[s] - 1];
    OwnsLess(list[..keep[s] - 1], v, smap, s, t);
    forall r | r in current && r != s ensures Owns(current[r][..keep[r]], smap[v := t], r) {
      OwnsMove(current[r][..keep[r]], smap, v, t, r);
    }
  }

  lemma OwnsLess(list: seq<nat>, v: nat, smap: seq<nat>, s: nat, t: nat)
    requires Owns(list + [v], smap, s) && v < |smap| && t != s
    ensures Owns(list, smap[v := t], s)
  {
    assert (list + [v])[|list|] == v;
    forall i, j | 0 <= i < j < |list| ensures list[i] != list[j] {
      assert (list + [v])[i] == list[i] && (list + [v])[j] == list[j];
    }
    forall i | 0 <= i < |list| ensures list[i] != v { assert (list + [v])[i] == list[i]; }
    forall u: nat ensures u in list <==> u < |smap| && smap[v := t][u] == s {
      assert u in list + [v] <==> u in list || u == v;
    }
  }

  /** The inner loop: one old shard gives vnodes from its tail until `nv + 1` are left. */
  method ShedTail(src: nat, list: seq<nat>, start0: nat, nv: nat, added: seq<nat>, plan0: Plan, to0: nat,
                  ghost job: Job, ghost done: nat, ghost current: Topology, ghost keep0: map<nat, nat>)
    returns (plan: Plan, to: nat, start: nat, ghost keep: map<nat, nat>)
    requires JobOk(job) && job.targets == added && job.cap == nv
    requires to0 < |added| && Placed(job, plan0, to0, done)
    requires src in current && current[src] == list && nv < |list| && start0 == |list| - 1
    requires Apart(added, current)
    requires Kept(current, keep0, plan0.smap) && src in keep0 && keep0[src] == |list|
    requires done + |Shed(list, nv)| <= |job.queue| && job.queue[done..done + |Shed(list, nv)|] == Shed(list, nv)
    requires forall k | 0 <= k < |list| :: list[k] < |job.smap| && job.smap[list[k]] == src
    ensures to <= |added| && nv <= start <= start0 && (to < |added| ==> start == nv)
    ensures Placed(job, plan, to, done + start0 - start)
    ensures Kept(current, keep, plan.smap) && keep == keep0[src := start + 1]
  {
    hide *;
    ShedAt(list, nv);
    plan, to, start, keep := plan0, to0, start0, keep0;
    assert keep == keep0[src := start + 1];
    var i := start;
    while i > nv
      invariant nv <= i == start <= start0 && to < |added|
      invariant Placed(job, plan, to, done + start0 - start)
      invariant Kept(current, keep, plan.smap) && keep == keep0[src := start + 1]
    {
      var v := list[i];
      assert job.queue[done + (start0 - start)] == Shed(list, nv)[start0 - start] == v;
      ApartAt(added, current, to);
      KeepStep(current, keep, plan.smap, src, v, added[to]);
      PlaceStep(job, plan, Push(plan, v, src, added[to]), to, done + start0 - start);
      PushMap(plan, v, src, added[to]);
      plan := Push(plan, v, src, added[to]);
      keep := keep[src := start];
      start := start - 1;
      i := i - 1;
      if |Held(plan.topo, added[to])| >= nv {
        to := to + 1;
        if to >= |added| { break; }
      }
    }
  }

  lemma ApartAt(added: seq<nat>, topo: Topology, i: nat)
    requires Apart(added, topo) && i < |added|
    ensures added[i] !in topo
  {
  }

  lemma PushMap(plan: Plan, v: nat, src: nat, dst: nat)
    ensures v < |plan.smap| ==> Push(plan, v, src, dst).smap == plan.smap[v := dst]
  {
  }

  lemma OldShard(current: Topology, smap: seq<nat>, nv: nat, i: nat)
    requires TopologyOf(current, smap) && i < |Ascending(current.Keys)|
    ensures var s := Ascending(current.Keys)[i];
            && s in current && Owns(current[s], smap, s) && current[s] != []
            && Held(Offers(current, nv), s) == Shed(current[s], nv)
  {
    var s := Ascending(current.Keys)[i];
    assert s in Ascending(current.Keys);
    assert s in current && s in smap;
    var v :| 0 <= v < |smap| && smap[v] == s;
    assert v in current[s];
  }

  /** What the walk knows when it reaches old shard number `i`. */
  lemma AtShard(added: seq<nat>, nv: nat, current: Topology, smap: seq<nat>, i: nat)
    requires TopologyOf(current, smap) && i < |Ascending(current.Keys)|
    ensures var job, keys := AdditionJob(added, nv, current, smap), Ascending(current.Keys);
            var s, done := keys[i], |Flat(Offers(current, nv), keys[..i])|;
            && s in current && current[s] != []
            && |Flat(Offers(current, nv), keys[..i + 1])| == done + |Shed(current[s], nv)| <= |job.queue|
            && job.queue[done..done + |Shed(current[s], nv)|] == Shed(current[s], nv)
            && forall k | 0 <= k < |current[s]| :: current[s][k] < |smap| && smap[current[s][k]] == s
  {
    hide *;
    OldShard(current, smap, nv, i);
    FlatSlice(Offers(current, nv), Ascending(current.Keys), i);
    OwnsAt(current[Ascending(current.Keys)[i]], smap, Ascending(current.Keys)[i]);
    AdditionQueue(added, nv, current, smap);
  }

  lemma AdditionQueue(added: seq<nat>, nv: nat, current: Topology, smap: seq<nat>)
    ensures AdditionJob(added, nv, current, smap).queue == Flat(Offers(current, nv), Ascending(current.Keys))
  {
  }

  function Sizes(current: Topology): map<nat, nat> {
    map s | s in current :: |current[s]|
  }

  lemma KeptStart(current: Topology, smap: seq<nat>)
    requires TopologyOf(current, smap)
    ensures Kept(current, Sizes(current), smap)
  {
    forall s | s in current ensures Owns(current[s][..|current[s]|], smap, s) {
      assert current[s][..|current[s]|] == current[s];
    }
  }

  /** What a shard keeps: everything, or at least `nv + 1` vnodes. */
  predicate KeepsEnough(current: Topology, keep: map<nat, nat>, nv: nat) {
    forall s | s in current && s in keep :: keep[s] == |current[s]| || nv + 1 <= keep[s] < |current[s]|
  }

  /** The topology left behind after the first `i` shards in the walk: every list of more than `nv` vnodes
      misses one vnode its shard still owns, every other one is as it was. */
  predicate Residue(current: Topology, nv: nat, keep: map<nat, nat>, after: Topology, keys: seq<nat>, i: nat) {
    && keep.Keys == after.Keys == current.Keys
    && forall k | 0 <= k < |keys| && keys[k] in current ::
      ResidueAt(current[keys[k]], nv, keep[keys[k]], after[keys[k]], k < i)
  }

  predicate ResidueAt(was: seq<nat>, nv: nat, keep: nat, now: seq<nat>, visited: bool) {
    if visited && |was| > nv then 0 < keep <= |was| && now == was[..keep - 1]
    else keep == |was| && now == was
  }

  /** The first `i` shards in the walk have been visited; the cursor has moved only if one of them had
      something to give. */
  ghost predicate Walked(current: Topology, nv: nat, keep: map<nat, nat>, after: Topology, keys: seq<nat>, i: nat,
                         to: nat) {
    && i <= |keys| && KeepsEnough(current, keep, nv) && Residue(current, nv, keep, after, keys, i)
    && (to > 0 ==> exists k :: 0 <= k < i && Gives(current, nv, keys, k))
  }

  predicate Gives(current: Topology, nv: nat, keys: seq<nat>, k: nat) {
    k < |keys| && keys[k] in current && |current[keys[k]]| > nv
  }

  lemma WalkStart(current: Topology, nv: nat)
    ensures Walked(current, nv, Sizes(current), current, Ascending(current.Keys), 0, 0)
    ensures Distinct(Ascending(current.Keys))
  {
  }

  lemma WalkEnd(current: Topology, nv: nat, keep: map<nat, nat>, after: Topology, keys: seq<nat>, i: nat, to: nat)
    requires Walked(current, nv, keep, after, keys, i, to)
    ensures KeepsEnough(current, keep, nv) && Residue(current, nv, keep, after, keys, i)
  {
  }

  lemma AtWalk(current: Topology, nv: nat, keep: map<nat, nat>, after: Topology, keys: seq<nat>, i: nat, to: nat)
    requires Walked(current, nv, keep, after, keys, i, to) && i < |keys| && keys[i] in current
    ensures keys[i] in keep && keys[i] in after
    ensures keep[keys[i]] == |current[keys[i]]| && after[keys[i]] == current[keys[i]]
  {
  }

  /** A shard with nothing to give is passed by. */
  lemma WalkBy(current: Topology, nv: nat, keep: map<nat, nat>, after: Topology, keys: seq<nat>, i: nat, to: nat)
    requires Walked(current, nv, keep, after, keys, i, to) && i < |keys| && keys[i] in current
            && |current[keys[i]]| <= nv
    ensures Walked(current, nv, keep, after, keys, i + 1, to)
  {
  }

  /** A shard with more than `nv` vnodes is shortened. */
  lemma WalkOn(current: Topology, nv: nat, keep: map<nat, nat>, after: Topology, keys: seq<nat>, i: nat, to: nat,
               start: nat, next: nat)
    requires Walked(current, nv, keep, after, keys, i, to) && i < |keys| && keys[i] in current && Distinct(keys)
    requires nv <= start < |current[keys[i]]|
    ensures Walked(current, nv, keep[keys[i] := start + 1], after[keys[i] := current[keys[i]][..start]], keys, i + 1,
            next)
  {
    assert Gives(current, nv, keys, i);
    forall k | 0 <= k < |keys| && k != i ensures keys[k] != keys[i] {}
  }

  /** A shortened list misses the last vnode of its shard. */
  lemma ShortenedIsWrong(was: seq<nat>, keep: nat, smap: seq<nat>, s: nat)
    requires 0 < keep <= |was| && Owns(was[..keep], smap, s)
    ensures !Owns(was[..keep - 1], smap, s)
  {
    var v := was[..keep][keep - 1];
    assert v in was[..keep];
    assert forall k | 0 <= k < keep - 1 :: was[..keep - 1][k] == was[..keep][k] != v;
    assert v !in was[..keep - 1];
  }

  /** The topology left behind, which is printed, is right exactly if there is nothing to add or no old
      shard had anything to give. */
  lemma LeftoverRightIff(current: Topology, nv: nat, keep: map<nat, nat>, after: Topology, visited: nat, to: nat,
                         added: seq<nat>, smap: seq<nat>)
    requires Walked(current, nv, keep, after, Ascending(current.Keys), visited, to) && Kept(current, keep, smap)
    requires added == [] ==> visited == 0
    requires visited < |Ascending(current.Keys)| ==> to == |added|
    ensures Agrees(after, smap) <==> added == [] || forall s | s in current :: |current[s]| <= nv
  {
    hide Distinct, Owns;
    var keys := Ascending(current.Keys);
    if k :| 0 <= k < visited && Gives(current, nv, keys, k) {
      assert ResidueAt(current[keys[k]], nv, keep[keys[k]], after[keys[k]], true);
      ShortenedIsWrong(current[keys[k]], keep[keys[k]], smap, keys[k]);
    } else {
      NothingGiven(current, nv, keep, after, visited, to, smap);
      if added != [] {
        assert to == 0 && visited == |keys|;
        forall s | s in current ensures |current[s]| <= nv {
          assert s in keys;
          var k :| 0 <= k < |keys| && keys[k] == s;
          assert !Gives(current, nv, keys, k);
        }
      }
    }
  }

  lemma NothingGiven(current: Topology, nv: nat, keep: map<nat, nat>, after: Topology, visited: nat, to: nat,
                     smap: seq<nat>)
    requires Walked(current, nv, keep, after, Ascending(current.Keys), visited, to) && Kept(current, keep, smap)
    requires forall k | 0 <= k < visited :: !Gives(current, nv, Ascending(current.Keys), k)
    ensures Agrees(after, smap)
  {
    hide Distinct, Owns;
    var keys := Ascending(current.Keys);
    forall s | s in current ensures Owns(after[s], smap, s) {
      assert s in keys;
      var k :| 0 <= k < |keys| && keys[k] == s;
      assert ResidueAt(current[s], nv, keep[s], after[s], k < visited);
      assert k < visited ==> !Gives(current, nv, keys, k);
      assert current[s][..keep[s]] == current[s];
    }
  }

  lemma {:induction false} SmallTotal(current: Topology, keys: seq<nat>, nv: nat)
    requires forall s | s in current :: |current[s]| <= nv
    ensures |Flat(current, keys)| <= nv * |keys|
    decreases |keys|
  {
    if keys != [] {
      SmallTotal(current, keys[..|keys| - 1], nv);
      Times(nv, |keys| - 1);
    }
  }

  /** With the callers' average some old shard always has something to give, so an addition always
      leaves a wrong table behind. */
  lemma SomeShardGives(current: Topology, smap: seq<nat>, nv: nat, k: nat)
    requires TopologyOf(current, smap) && k > 0 && nv == PerShard(|smap|, |current| + k) && nv > 0
    ensures exists s :: s in current && |current[s]| > nv
  {
    hide *;
    if forall s | s in current :: |current[s]| <= nv {
      SmallBound(current, smap, nv);
      Quotient(|smap|, |current| + k);
      MoreShards(nv, |current|, k);
      assert false;
    }
  }

  lemma SmallBound(current: Topology, smap: seq<nat>, nv: nat)
    requires TopologyOf(current, smap) && forall s | s in current :: |current[s]| <= nv
    ensures |smap| <= nv * |current|
  {
    hide *;
    SmallTotal(current, Ascending(current.Keys), nv);
    OldTotal(current, smap);
    AscendingSize(current.Keys);
  }

  lemma MoreShards(nv: nat, c: nat, k: nat)
    requires nv > 0 && k > 0
    ensures nv * (c + k) > nv * c
  {
  }

  /** The while loop at one old shard: while a new shard has room and this one more than `nv`, shed. */
  method Visit(s: nat, list: seq<nat>, nv: nat, added: seq<nat>, plan0: Plan, to0: nat,
               ghost job: Job, ghost done0: nat, ghost current: Topology, ghost keep0: map<nat, nat>)
    returns (plan: Plan, to: nat, rest: seq<nat>, start: nat, ghost keep: map<nat, nat>, ghost done: nat)
    requires JobOk(job) && job.targets == added && job.cap == nv
    requires to0 < |added| && Placed(job, plan0, to0, done0)
    requires s in current && current[s] == list && list != [] && Apart(added, current)
    requires Kept(current, keep0, plan0.smap) && s in keep0 && keep0[s] == |list|
    requires done0 + |Shed(list, nv)| <= |job.queue| && job.queue[done0..done0 + |Shed(list, nv)|] == Shed(list, nv)
    requires forall k | 0 <= k < |list| :: list[k] < |job.smap| && job.smap[list[k]] == s
    ensures to <= |added| && Placed(job, plan, to, done) && Kept(current, keep, plan.smap)
    ensures to < |added| ==> done == done0 + |Shed(list, nv)|
    ensures |list| <= nv ==> keep == keep0 && rest == list && to == to0
    ensures |list| > nv ==> nv <= start < |list| && keep == keep0[s := start + 1] && rest == list[..start]
  {
    hide *;
    ShedAt(list, nv);
    plan, to, rest, start, keep, done := plan0, to0, list, |list| - 1, keep0, done0;
    while to < |added|
      invariant to <= |added| && Placed(job, plan, to, done) && Kept(current, keep, plan.smap)
      invariant rest == list ==> keep == keep0 && start == |list| - 1 && done == done0 && plan == plan0 && to == to0
      invariant rest != list ==> nv <= start < |list| && keep == keep0[s := start + 1] && rest == list[..start]
      invariant rest != list && to < |added| ==> |rest| <= nv && done == done0 + |Shed(list, nv)|
      decreases |rest|
    {
      if |rest| <= nv {
        break;
      }
      ghost var start0 := start;
      plan, to, start, keep := ShedTail(s, rest, start, nv, added, plan, to, job, done, current, keep);
      done := done + start0 - start;
      rest := rest[..start];
    }
  }

  lemma PlacedDiff(added: seq<nat>, nv: nat, current: Topology, smap0: seq<nat>, plan: Plan, to: nat, done: nat)
    requires Placed(AdditionJob(added, nv, current, smap0), plan, to, done)
    ensures ExactDiff(plan.moves, smap0, plan.smap)
  {
  }

  /** The walk over the old shards: `done` vnodes have moved when it ends. */
  method MigrateSharding(added: seq<nat>, nv: nat, current: Topology, smap0: seq<nat>)
    returns (plan: Plan, after: Topology, ghost keep: map<nat, nat>, ghost to: nat, ghost done: nat, ghost visited: nat)
    requires TopologyOf(current, smap0) && Apart(added, current)
    ensures Placed(AdditionJob(added, nv, current, smap0), plan, to, done)
    ensures to == |added| || done == |AdditionJob(added, nv, current, smap0).queue|
    ensures Kept(current, keep, plan.smap) && KeepsEnough(current, keep, nv)
    ensures Residue(current, nv, keep, after, Ascending(current.Keys), visited)
    ensures Agrees(after, plan.smap) <==> added == [] || forall s | s in current :: |current[s]| <= nv
    ensures ExactDiff(plan.moves, smap0, plan.smap)
  {
    ghost var job := AdditionJob(added, nv, current, smap0);
    ghost var offers := Offers(current, nv);
    var keys := Ascending(current.Keys);
    plan, after := Plan(map[], map[], smap0), current;
    keep := Sizes(current);
    hide *;
    AdditionJobOk(added, nv, current, smap0);
    KeptStart(current, smap0);
    WalkStart(current, nv);
    done, to, visited := 0, 0, 0;
    var cursor := 0;
    for i := 0 to |keys|
      invariant to == cursor <= |added| && Placed(job, plan, to, done)
      invariant to < |added| ==> done == |Flat(offers, keys[..i])|
      invariant Kept(current, keep, plan.smap) && Walked(current, nv, keep, after, keys, i, to)
      invariant visited == i && (added == [] ==> i == 0)
    {
      if cursor >= |added| {
        break;
      }
      AtShard(added, nv, current, smap0, i);
      var s, start := keys[i], 0;
      AtWalk(current, nv, keep, after, keys, i, to);
      ghost var keep0 := keep;
      var rest;
      plan, cursor, rest, start, keep, done := Visit(s, after[s], nv, added, plan, cursor, job, done, current, keep);
      if |current[s]| > nv {
        WalkOn(current, nv, keep0, after, keys, i, to, start, cursor);
        after := after[s := rest];
      } else {
        WalkBy(current, nv, keep0, after, keys, i, to);
      }
      to, visited := cursor, i + 1;
    }
    assert keys[..|keys|] == keys;
    WalkEnd(current, nv, keep, after, keys, visited, to);
    LeftoverRightIff(current, nv, keep, after, visited, to, added, plan.smap);
    PlacedDiff(added, nv, current, smap0, plan, to, done);
  }

  // ---------------------------------------------------------------- what the plans achieve

  function Max(a: int, b: int): int {
    if a < b then b else a
  }

  /** Addition: the migration list is exactly the difference of the maps, every vnode in it goes from an
      old shard to a new one, and the new shards are filled in order: those the cursor has passed hold `nv`
      vnodes and one for each repetition of their id passed, the one at it less, those behind it none. */
  lemma AdditionMoves(added: seq<nat>, nv: nat, current: Topology, smap: seq<nat>, plan: Plan, to: nat, done: nat)
    requires TopologyOf(current, smap) && Apart(added, current) && nv > 0
    requires Placed(AdditionJob(added, nv, current, smap), plan, to, done)
    ensures ExactDiff(plan.moves, smap, plan.smap)
    ensures forall v | v in plan.moves :: plan.moves[v].src in current && plan.moves[v].dst in added
    ensures plan.topo.Keys <= Elements(added) && Agrees(plan.topo, plan.smap)
    ensures to <= |added|
    ensures forall s | s in added ::
      && (s in added[..to] ==> |Held(plan.topo, s)| == nv + multiset(added[..to])[s] - 1)
      && (to < |added| && s == added[to] && s !in added[..to] ==> |Held(plan.topo, s)| < nv)
      && (s !in added[..to] && !(to < |added| && s == added[to]) ==> Held(plan.topo, s) == [])
  {
    hide Flat, Offers, Owns;
    forall v | v in plan.moves ensures plan.moves[v].src in current {
      assert smap[v] in smap;
    }
    hide *;
    forall s | s in added
      ensures s in added[..to] ==> |Held(plan.topo, s)| == nv + multiset(added[..to])[s] - 1
      ensures to < |added| && s == added[to] && s !in added[..to] ==> |Held(plan.topo, s)| < nv
      ensures s !in added[..to] && !(to < |added| && s == added[to]) ==> |Held(plan.topo, s)| == 0
    {
      AddedLoad(added, nv, current, smap, plan, to, done, s);
    }
  }

  /** The load of a new shard. */
  lemma AddedLoad(added: seq<nat>, nv: nat, current: Topology, smap: seq<nat>, plan: Plan, to: nat, done: nat, s: nat)
    requires Placed(AdditionJob(added, nv, current, smap), plan, to, done) && nv > 0 && s in added
    ensures to <= |added|
    ensures s in added[..to] ==> |Held(plan.topo, s)| == nv + multiset(added[..to])[s] - 1
    ensures s !in added[..to] ==>
      |Held(plan.topo, s)| ==
        if to < |added| && s == added[to] then done - RoomSum(AdditionJob(added, nv, current, smap), to) else 0
    ensures to < |added| && s == added[to] && s !in added[..to] ==> |Held(plan.topo, s)| < nv
  {
    var job := AdditionJob(added, nv, current, smap);
    AdditionShape(added, nv, current, smap);
    PlacedLoad(job, plan, to, done, s);
    hide *;
    LoadOfEmpty(job, to, s);
  }

  /** The load of a target. */
  lemma PlacedLoad(job: Job, plan: Plan, cur: nat, done: nat, s: nat)
    requires Placed(job, plan, cur, done) && s in job.targets
    ensures cur <= |job.targets|
    ensures |Held(plan.topo, s)|
            == LoadAfter(job, cur, s)
               + if cur < |job.targets| && job.targets[cur] == s then done - RoomSum(job, cur) else 0
    ensures cur < |job.targets| ==>
      0 <= done - RoomSum(job, cur) < Room(LoadAfter(job, cur, job.targets[cur]), job.cap)
  {
    assert |Held(plan.topo, s)| == |Held(job.base, s)| + |Share(job, done, |job.targets|, s)|;
    hide Served, Recorded, OwnsAll, LoadAfter, Room, Share;
    ShareSize(job, done, |job.targets|, s, cur);
  }

  /** A shard that held nothing: `cap` for the first entry that names it, one for every other. */
  lemma {:induction false} LoadOfEmpty(job: Job, n: nat, s: nat)
    requires n <= |job.targets| && job.base == map[] && job.cap > 0
    ensures LoadAfter(job, n, s)
            == if s in job.targets[..n] then job.cap + multiset(job.targets[..n])[s] - 1 else 0
    decreases n
  {
    if n > 0 {
      LoadOfEmpty(job, n - 1, s);
      assert job.targets[..n] == job.targets[..n - 1] + [job.targets[n - 1]];
      assert s in job.targets[..n - 1] ==> multiset(job.targets[..n - 1])[s] > 0;
    }
  }

  /** Removal: the migration list is exactly the difference of the maps, moves exactly the vnodes of
      the removed shards, and no vnode stays with a removed shard. */
  lemma RemovalMoves(removed: seq<nat>, nv: nat, current: Topology, smap0: seq<nat>, plan: Plan, cur: nat)
    requires TopologyOf(current, smap0)
    requires Placed(RemovalJob(removed, nv, current, smap0), plan, cur, |RemovalJob(removed, nv, current, smap0).queue|)
    ensures ExactDiff(plan.moves, smap0, plan.smap)
    ensures forall v: nat :: v in plan.moves <==> v < |smap0| && smap0[v] in removed
    ensures forall v | 0 <= v < |plan.smap| :: plan.smap[v] in current && plan.smap[v] !in removed
  {
    hide Cursor, Served, Distinct, Agrees, Given, Owns, Flat;
    var job := RemovalJob(removed, nv, current, smap0);
    RemovedQueue(removed, current, smap0);
    assert job.queue[..|job.queue|] == job.queue;
    forall v | 0 <= v < |plan.smap| ensures plan.smap[v] in current && plan.smap[v] !in removed {
      if v in plan.moves {
        assert plan.smap[v] in job.targets;
      } else {
        assert smap0[v] in smap0;
      }
    }
  }

  /** Removal: topology and map agree afterwards and no remaining shard is overloaded. */
  lemma RemovalLoads(removed: seq<nat>, nv: nat, current: Topology, smap0: seq<nat>, plan: Plan, cur: nat)
    requires Placed(RemovalJob(removed, nv, current, smap0), plan, cur, |RemovalJob(removed, nv, current, smap0).queue|)
    ensures plan.topo.Keys == current.Keys - Elements(removed) && Agrees(plan.topo, plan.smap)
    ensures forall s | s in plan.topo ::
      current[s] <= plan.topo[s] && |plan.topo[s]| <= Max(nv, |current[s]|) + 1
  {
    hide Recorded, Cursor, Distinct, Given, Owns, Flat;
    var job := RemovalJob(removed, nv, current, smap0);
    assert job.base.Keys == Elements(job.targets);
    forall s | s in plan.topo
      ensures current[s] <= plan.topo[s] && |plan.topo[s]| <= Max(nv, |current[s]|) + 1
    {
      assert s in job.targets;
      LoadOnce(job, |job.targets|, s);
      ShareBound(job, |job.queue|, |job.targets|, s);
    }
  }

  lemma {:induction false} FlatSame(a: Topology, b: Topology, keys: seq<nat>)
    requires forall s | s in keys :: Held(a, s) == Held(b, s)
    ensures Flat(a, keys) == Flat(b, keys)
    decreases |keys|
  {
    if keys != [] { FlatSame(a, b, keys[..|keys| - 1]); }
  }

  /** Whatever its load, a target brings it up to at least `cap` before the cursor leaves it. */
  lemma {:induction false} RoomBound(job: Job, n: nat)
    requires n <= |job.targets| && Distinct(job.targets)
    ensures RoomSum(job, n) + |Flat(job.base, job.targets[..n])| >= job.cap * n
    decreases n
  {
    if n > 0 {
      RoomBound(job, n - 1);
      FlatPrefix(job.base, job.targets, n - 1);
      LoadOnce(job, n - 1, job.targets[n - 1]);
      Times(job.cap, n - 1);
    }
  }

  lemma Times(a: nat, n: nat)
    ensures a * (n + 1) == a * n + a
  {
  }

  /** The average the callers compute: vnodes over shards, rounded down. */
  function PerShard(vnodes: nat, shards: nat): nat {
    if shards == 0 then 0 else vnodes / shards
  }

  lemma Quotient(t: nat, d: nat)
    requires d > 0
    ensures PerShard(t, d) * d <= t < (PerShard(t, d) + 1) * d
  {
  }

  lemma AscendingSize(s: set<nat>)
    ensures |Ascending(s)| == |s|
  {
    ElementsSize(Ascending(s));
    assert Elements(Ascending(s)) == s;
  }

  lemma StaySize(removed: seq<nat>, current: Topology)
    requires Distinct(removed) && (forall s | s in removed :: s in current) && |removed| < |current|
    ensures var stay := current - Elements(removed);
            |Ascending(stay.Keys)| == |stay.Keys| == |current| - |removed|
    ensures current.Keys - Elements(removed) != {}
  {
    ElementsSize(removed);
    assert Elements(removed) <= current.Keys;
    assert (current - Elements(removed)).Keys == current.Keys - Elements(removed);
    AscendingSize((current - Elements(removed)).Keys);
  }

  lemma RemovalTotal(removed: seq<nat>, current: Topology, smap: seq<nat>)
    requires TopologyOf(current, smap)
    ensures var stay, sources := current - Elements(removed), Ascending(Elements(removed));
            |Flat(stay, Ascending(stay.Keys))| + |Flat(Given(current, removed), sources)| == |smap|
  {
    var stay, sources := current - Elements(removed), Ascending(Elements(removed));
    FlatSame(stay, current, Ascending(stay.Keys));
    FlatSame(Given(current, removed), current, sources);
    hide Flat, Agrees, Owns, Given;
    FlatTotal(current, smap, Ascending(stay.Keys), sources);
  }

  /** Removing distinct members, fewer than all, always finds room for every vnode. */
  lemma RemovalFits(removed: seq<nat>, nv: nat, current: Topology, smap: seq<nat>)
    requires TopologyOf(current, smap) && Distinct(removed)
    requires (forall s | s in removed :: s in current) && |removed| < |current|
    requires nv == PerShard(|smap|, |current| - |removed|)
    ensures Fits(RemovalJob(removed, nv, current, smap), Given(current, removed), Ascending(Elements(removed)))
    ensures current.Keys - Elements(removed) != {}
  {
    var rest := |current| - |removed|;
    var job := RemovalJob(removed, nv, current, smap);
    RemovalShape(removed, nv, current, smap);
    hide *;
    StaySize(removed, current);
    assert job.targets[..rest] == job.targets;
    RoomBound(job, rest);
    RemovalTotal(removed, current, smap);
    Pigeonhole(RoomSum(job, rest), |Flat(job.base, job.targets)|, |job.queue|, |smap|, rest);
    FitsIfRoom(job, Given(current, removed), Ascending(Elements(removed)));
  }

  lemma RemovalShape(removed: seq<nat>, nv: nat, current: Topology, smap: seq<nat>)
    ensures var job, stay := RemovalJob(removed, nv, current, smap), current - Elements(removed);
            && job.base == stay && job.targets == Ascending(stay.Keys) && job.cap == nv + 1
            && job.queue == Flat(Given(current, removed), Ascending(Elements(removed)))
            && stay.Keys == current.Keys - Elements(removed)
  {
  }

  lemma Pigeonhole(room: nat, held: nat, gone: nat, total: nat, rest: nat)
    requires rest > 0 && room + held >= (PerShard(total, rest) + 1) * rest && held + gone == total
    ensures gone < room
  {
    Quotient(total, rest);
  }

  lemma FitsIfRoom(job: Job, gone: Topology, sources: seq<nat>)
    requires |job.queue| < RoomSum(job, |job.targets|)
    ensures Fits(job, gone, sources)
  {
  }

  /** The sum over the old shards of what each has beyond `nv + 1`. */
  function Surplus(current: Topology, keys: seq<nat>, nv: nat): nat {
    if keys == [] then 0 else
      Surplus(current, keys[..|keys| - 1], nv) + Max(0, |Held(current, keys[|keys| - 1])| - nv - 1)
  }

  lemma {:induction false} OfferedCount(current: Topology, keys: seq<nat>, nv: nat)
    requires forall s | s in keys :: s in current
    ensures |Flat(Offers(current, nv), keys)| == Surplus(current, keys, nv)
    decreases |keys|
  {
    if keys != [] {
      OfferedCount(current, keys[..|keys| - 1], nv);
      ShedAt(current[keys[|keys| - 1]], nv);
    }
  }

  lemma {:induction false} SurplusBound(current: Topology, keys: seq<nat>, nv: nat)
    ensures Surplus(current, keys, nv) + (nv + 1) * |keys| >= |Flat(current, keys)|
    decreases |keys|
  {
    if keys != [] {
      SurplusBound(current, keys[..|keys| - 1], nv);
      Times(nv + 1, |keys| - 1);
    }
  }

  /** What the first `n` new ids take: `nv` for every shard among them, one for every repetition. */
  function RoomBefore(added: seq<nat>, nv: nat, n: nat): int {
    if n <= |added| then |Elements(added[..n])| * nv + n - |Elements(added[..n])| else 0
  }

  lemma {:induction false} RoomOfEmpty(job: Job, n: nat)
    requires n <= |job.targets| && job.base == map[] && job.cap > 0
    ensures RoomSum(job, n) == RoomBefore(job.targets, job.cap, n)
    decreases n
  {
    if n > 0 {
      var t := job.targets[n - 1];
      RoomOfEmpty(job, n - 1);
      LoadOfEmpty(job, n - 1, t);
      RoomNext(job.targets, job.cap, n - 1);
    }
  }

  lemma RoomNext(added: seq<nat>, nv: nat, n: nat)
    requires n < |added|
    ensures RoomBefore(added, nv, n + 1) == RoomBefore(added, nv, n) + if added[n] in added[..n] then 1 else nv
  {
    var before, all := Elements(added[..n]), Elements(added[..n + 1]);
    assert added[..n + 1] == added[..n] + [added[n]];
    assert all == before + {added[n]};
    RoomOne(|before|, |all|, nv, n);
  }

  lemma RoomOne(before: nat, all: nat, nv: nat, n: nat)
    ensures all == before ==> all * nv + (n + 1) - all == before * nv + n - before + 1
    ensures all == before + 1 ==> all * nv + (n + 1) - all == before * nv + n - before + nv
  {
  }

  /** Every vnode is held by some old shard. */
  lemma OldTotal(current: Topology, smap: seq<nat>)
    requires TopologyOf(current, smap)
    ensures |Flat(current, Ascending(current.Keys))| == |smap|
  {
    FlatTotal(current, smap, Ascending(current.Keys), []);
  }

  lemma {:induction false} PlacedMoves(job: Job, plan: Plan, cur: nat, done: nat)
    requires JobOk(job) && Placed(job, plan, cur, done)
    ensures |plan.moves| == done
  {
    hide Cursor, Served, Owns, ExactDiff;
    ElementsSize(job.queue[..done]);
    assert plan.moves.Keys == Elements(job.queue[..done]);
    assert |plan.moves.Keys| == |plan.moves|;
  }

  lemma AdditionShape(added: seq<nat>, nv: nat, current: Topology, smap: seq<nat>)
    ensures AdditionJob(added, nv, current, smap).base == map[]
    ensures AdditionJob(added, nv, current, smap).targets == added
    ensures AdditionJob(added, nv, current, smap).cap == nv
    ensures AdditionJob(added, nv, current, smap).smap == smap
    ensures AdditionJob(added, nv, current, smap).queue == Flat(Offers(current, nv), Ascending(current.Keys))
  {
  }

  /** Addition moves exactly as many vnodes as there is room for or old shards offer, whichever is less. */
  lemma AdditionCount(added: seq<nat>, nv: nat, current: Topology, smap: seq<nat>, plan: Plan, to: nat, done: nat)
    requires TopologyOf(current, smap) && nv > 0
    requires Apart(added, current)
    requires Placed(AdditionJob(added, nv, current, smap), plan, to, done)
    requires to == |added| || done == |AdditionJob(added, nv, current, smap).queue|
    ensures |plan.moves| == done
    ensures to == |added| ==> done == RoomBefore(added, nv, |added|) <= Surplus(current, Ascending(current.Keys), nv)
    ensures to < |added| ==> done == Surplus(current, Ascending(current.Keys), nv) < RoomBefore(added, nv, |added|)
  {
    var job := AdditionJob(added, nv, current, smap);
    AdditionJobOk(added, nv, current, smap);
    OfferedCount(current, Ascending(current.Keys), nv);
    hide *;
    AdditionShape(added, nv, current, smap);
    PlacedMoves(job, plan, to, done);
    EmptyCount(job, plan, to, done);
  }

  /** How far targets that held nothing are filled. */
  lemma EmptyCount(job: Job, plan: Plan, cur: nat, done: nat)
    requires Placed(job, plan, cur, done) && job.base == map[] && job.cap > 0
    ensures cur <= |job.targets| && done <= |job.queue|
    ensures cur == |job.targets| ==> done == RoomBefore(job.targets, job.cap, |job.targets|)
    ensures cur < |job.targets| ==> done < RoomBefore(job.targets, job.cap, |job.targets|)
  {
    PlacedBounds(job, plan, cur, done);
    hide *;
    PlacedCount(job, plan, cur, done);
    RoomOfEmpty(job, |job.targets|);
    if cur < |job.targets| { RoomGrows(job, cur + 1, |job.targets|); }
  }

  // ---------------------------------------------------------------- who gets something

  /** Where the last of the new shards is named first. */
  function LastNew(added: seq<nat>): nat {
    var n := |added|;
    if n == 0 then 0 else if added[n - 1] !in added[..n - 1] then n - 1 else LastNew(added[..n - 1])
  }

  lemma {:induction false} LastNewIs(added: seq<nat>)
    requires added != []
    ensures var k := LastNew(added);
            && k < |added| && added[k] !in added[..k] && forall j | k < j < |added| :: added[j] in added[..j]
    decreases |added|
  {
    var short := added[..|added| - 1];
    if added[|added| - 1] in short {
      LastNewIs(short);
      var k := LastNew(short);
      assert short[..k] == added[..k];
      forall j | k < j < |added| ensures added[j] in added[..j] {
        if j < |short| { assert short[j] == added[j] && short[..j] == added[..j]; }
      }
    }
  }

  /** What the old shards offer suffices to reach every new shard. */
  predicate Supplied(added: seq<nat>, nv: nat, current: Topology) {
    added == [] || RoomBefore(added, nv, LastNew(added)) < Surplus(current, Ascending(current.Keys), nv)
  }

  /** A new shard receives something exactly if the cursor reaches the place where it is named first. */
  lemma FirstServed(job: Job, plan: Plan, cur: nat, done: nat, k: nat)
    requires Placed(job, plan, cur, done) && job.base == map[] && job.cap > 0
    requires k < |job.targets| && job.targets[k] !in job.targets[..k]
    ensures job.targets[k] in plan.smap <==> RoomBefore(job.targets, job.cap, k) < done
  {
    var s := job.targets[k];
    PlacedBounds(job, plan, cur, done);
    OwnsSome(job, plan, cur, done, s);
    hide *;
    PlacedCount(job, plan, cur, done);
    PlacedLoad(job, plan, cur, done, s);
    LoadOfEmpty(job, cur, s);
    RoomOfEmpty(job, k);
    NamedFirst(job.targets, cur, k);
    if k < cur {
      RoomGrows(job, k, cur);
    } else if k > cur {
      RoomGrows(job, cur + 1, k);
    }
  }

  lemma NamedFirst(targets: seq<nat>, cur: nat, k: nat)
    requires cur <= |targets| && k < |targets| && targets[k] !in targets[..k]
    ensures targets[k] in targets[..cur] <==> k < cur
    ensures targets[k] in targets[..cur] ==> multiset(targets[..cur])[targets[k]] > 0
    ensures cur < k ==> targets[cur] != targets[k]
  {
    if k < cur { assert targets[..cur][k] == targets[k]; }
    if cur < k { assert targets[..k][cur] == targets[cur]; }
    assert forall j | 0 <= j < cur && j < k :: targets[..k][j] == targets[..cur][j];
  }

  lemma OwnsSome(job: Job, plan: Plan, cur: nat, done: nat, s: nat)
    requires Placed(job, plan, cur, done) && s in job.targets
    ensures s in plan.smap <==> |Held(plan.topo, s)| > 0
  {
    hide Cursor, Served, Recorded;
    var list := Held(plan.topo, s);
    assert Owns(list, plan.smap, s);
    assert list != [] ==> list[0] in list;
    if s in plan.smap {
      var v :| 0 <= v < |plan.smap| && plan.smap[v] == s;
      assert v in list;
    }
  }

  /** After an addition every new shard owns a vnode exactly if the old shards offer enough. */
  lemma NewShardsOwnIff(added: seq<nat>, nv: nat, current: Topology, smap: seq<nat>, plan: Plan, to: nat, done: nat)
    requires TopologyOf(current, smap) && Apart(added, current) && nv > 0
    requires Placed(AdditionJob(added, nv, current, smap), plan, to, done)
    requires to == |added| || done == |AdditionJob(added, nv, current, smap).queue|
    ensures (forall s | s in added :: s in plan.smap) <==> Supplied(added, nv, current)
  {
    var job := AdditionJob(added, nv, current, smap);
    AdditionShape(added, nv, current, smap);
    AdditionCount(added, nv, current, smap, plan, to, done);
    hide *;
    if added != [] {
      var last := LastNew(added);
      LastNewIs(added);
      FirstServed(job, plan, to, done, last);
      RoomGrowsTo(added, nv, last, |added|);
      SuppliedIs(added, nv, current, last);
      if RoomBefore(added, nv, last) < done {
        forall s | s in added ensures s in plan.smap {
          var k := FirstNamed(added, s);
          NotBehindLast(added, k, last);
          FirstServed(job, plan, to, done, k);
          RoomGrowsTo(added, nv, k, last);
        }
      }
    } else {
      SuppliedIs(added, nv, current, LastNew(added));
    }
  }

  lemma SuppliedIs(added: seq<nat>, nv: nat, current: Topology, last: nat)
    requires last == LastNew(added)
    ensures Supplied(added, nv, current)
            <==> added == [] || RoomBefore(added, nv, last) < Surplus(current, Ascending(current.Keys), nv)
  {
  }

  lemma NotBehindLast(added: seq<nat>, k: nat, last: nat)
    requires k < |added| && added[k] !in added[..k] && forall j | last < j < |added| :: added[j] in added[..j]
    ensures k <= last
  {
  }

  lemma {:induction false} FirstNamed(added: seq<nat>, s: nat) returns (k: nat)
    requires s in added
    ensures k < |added| && added[k] == s && s !in added[..k]
    decreases |added|
  {
    var short := added[..|added| - 1];
    if s in short {
      k := FirstNamed(short, s);
      assert short[..k] == added[..k];
    } else {
      k := |added| - 1;
    }
  }

  lemma {:induction false} RoomGrowsTo(added: seq<nat>, nv: nat, i: nat, n: nat)
    requires i <= n <= |added| && nv > 0
    ensures RoomBefore(added, nv, i) <= RoomBefore(added, nv, n)
    ensures i < n ==> RoomBefore(added, nv, i) < RoomBefore(added, nv, n)
    decreases n
  {
    if i < n {
      RoomGrowsTo(added, nv, i, n - 1);
      RoomNext(added, nv, n - 1);
    }
  }

  lemma PlacedBounds(job: Job, plan: Plan, cur: nat, done: nat)
    requires Placed(job, plan, cur, done)
    ensures cur <= |job.targets| && done <= |job.queue|
  {
  }

  /** ... which is at most one per old shard short of k * nv. */
  lemma AdditionShortfall(added: seq<nat>, nv: nat, current: Topology, smap: seq<nat>)
    requires TopologyOf(current, smap)
    requires |added| > 0 && nv == PerShard(|smap|, |current| + |added|)
    ensures Surplus(current, Ascending(current.Keys), nv) + |current| >= |added| * nv
  {
    var keys := Ascending(current.Keys);
    hide *;
    SurplusBound(current, keys, nv);
    OldTotal(current, smap);
    AscendingSize(current.Keys);
    Quotient(|smap|, |current| + |added|);
    SharedOut(nv, |current|, |added|);
  }

  lemma SharedOut(nv: nat, c: nat, k: nat)
    ensures nv * (c + k) == (nv + 1) * c - c + k * nv
  {
  }
}