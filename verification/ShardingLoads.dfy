/** What the planning loops do to the sharding map itself: how many vnodes every shard has in the map
    before and after, counted in the map and compared with the limit. */
module ShardingLoads {
  import opened Orders
  import opened Sharding

  // ---------------------------------------------------------------- counting in the map

  lemma {:induction false} CountSet(smap: seq<nat>, s: nat)
    ensures |set v: nat | v < |smap| && smap[v] == s| == multiset(smap)[s]
    decreases |smap|
  {
    if smap != [] {
      var n := |smap| - 1;
      CountSet(smap[..n], s);
      assert smap == smap[..n] + [smap[n]];
      var less, all := set v: nat | v < n && smap[..n][v] == s, set v: nat | v < |smap| && smap[v] == s;
      if smap[n] == s { assert all == less + {n}; } else { assert all == less; }
    }
  }

  /** A shard's list is as long as the map names it often. */
  lemma CountOwned(list: seq<nat>, smap: seq<nat>, s: nat)
    requires Owns(list, smap, s)
    ensures |list| == multiset(smap)[s]
  {
    CountSet(smap, s);
    ElementsSize(list);
    assert Elements(list) == set v: nat | v < |smap| && smap[v] == s;
  }

  lemma CountHeld(topo: Topology, smap: seq<nat>, s: nat)
    requires TopologyOf(topo, smap)
    ensures |Held(topo, s)| == multiset(smap)[s]
  {
    if s in topo {
      CountOwned(topo[s], smap, s);
    } else {
      assert s !in smap;
    }
  }

  /** The vnodes that change hands are those of the migration list. */
  lemma CountMoves(moves: map<nat, Move>, before: seq<nat>, after: seq<nat>)
    requires ExactDiff(moves, before, after)
    ensures |before| == |after|
    ensures |set v: nat | v < |before| && after[v] != before[v]| == |moves|
  {
    assert moves.Keys == set v: nat | v < |before| && after[v] != before[v];
    assert |moves.Keys| == |moves|;
  }

  // ---------------------------------------------------------------- in which order vnodes are placed

  lemma {:induction false} ShareMember(job: Job, done: nat, n: nat, s: nat, v: nat) returns (k: nat, q: nat)
    requires n <= |job.targets| && v in Share(job, done, n, s)
    ensures k < n && job.targets[k] == s && RoomSum(job, k) <= q < RoomSum(job, k + 1)
    ensures q < |job.queue| && job.queue[q] == v
    decreases n
  {
    if v in Share(job, done, n - 1, s) {
      k, q := ShareMember(job, done, n - 1, s, v);
    } else {
      k := n - 1;
      var slice := Slice(job.queue, RoomSum(job, n - 1), Least(RoomSum(job, n), done));
      var i :| 0 <= i < |slice| && slice[i] == v;
      q := RoomSum(job, n - 1) + i;
    }
  }

  /** A placed vnode is with the entry of the target list that takes its number. */
  lemma TargetAt(job: Job, plan: Plan, cur: nat, done: nat, p: nat) returns (k: nat)
    requires JobOk(job) && Placed(job, plan, cur, done) && p < done
    ensures job.queue[p] < |plan.smap|
    ensures k < |job.targets| && job.targets[k] == plan.smap[job.queue[p]]
    ensures RoomSum(job, k) <= p < RoomSum(job, k + 1)
  {
    var v := job.queue[p];
    var t := PlacedOn(job, plan, cur, done, p);
    var q;
    k, q := ShareMember(job, done, |job.targets|, t, v);
    assert q == p by { SamePlace(job, p, q); }
  }

  lemma SamePlace(job: Job, p: nat, q: nat)
    requires JobOk(job) && p < |job.queue| && q < |job.queue| && job.queue[p] == job.queue[q]
    ensures p == q
  {
  }

  lemma PlacedOn(job: Job, plan: Plan, cur: nat, done: nat, p: nat) returns (t: nat)
    requires JobOk(job) && Placed(job, plan, cur, done) && p < done
    ensures job.queue[p] < |plan.smap| && t == plan.smap[job.queue[p]]
    ensures job.queue[p] in Share(job, done, |job.targets|, t)
  {
    var v := job.queue[p];
    assert job.queue[..done][p] in job.queue[..done];
    hide Cursor;
    t := plan.smap[v];
    assert t in job.targets && t != job.smap[v];
    assert Owns(Held(plan.topo, t), plan.smap, t) && Owns(Held(job.base, t), job.smap, t);
  }

  /** Vnodes queued earlier go to targets listed no later. */
  lemma PlacedInOrder(job: Job, plan: Plan, cur: nat, done: nat, p: nat, q: nat) returns (k: nat, l: nat)
    requires JobOk(job) && Placed(job, plan, cur, done) && p < q < done
    ensures job.queue[p] < |plan.smap| && job.queue[q] < |plan.smap|
    ensures k <= l < |job.targets|
    ensures job.targets[k] == plan.smap[job.queue[p]] && job.targets[l] == plan.smap[job.queue[q]]
  {
    hide *;
    k := TargetAt(job, plan, cur, done, p);
    l := TargetAt(job, plan, cur, done, q);
    if l < k { RoomGrows(job, l + 1, k); }
  }

  /** One vnode comes before another: its shard has the smaller id or, within a shard, it has the smaller
      number (the larger one if `down`). */
  ghost predicate Earlier(m: seq<nat>, v: nat, w: nat, down: bool) {
    v < |m| && w < |m| && (m[v] < m[w] || (m[v] == m[w] && if down then v > w else v < w))
  }

  ghost predicate ListSorted(list: seq<nat>, down: bool) {
    forall i, j | 0 <= i < j < |list| :: if down then list[i] > list[j] else list[i] < list[j]
  }

  lemma {:induction false} FlatSorted(topo: Topology, keys: seq<nat>, m: seq<nat>, down: bool, i: nat, j: nat)
    requires Ascends(keys) && i < j < |Flat(topo, keys)|
    requires forall s | s in topo :: Within(topo[s], m, s) && ListSorted(topo[s], down)
    ensures Earlier(m, Flat(topo, keys)[i], Flat(topo, keys)[j], down)
    decreases |keys|
  {
    var n := |keys| - 1;
    var short, last := Flat(topo, keys[..n]), Held(topo, keys[n]);
    if j < |short| {
      FlatSorted(topo, keys[..n], m, down, i, j);
    } else if i < |short| {
      AscendingDistinct(keys[..n]);
      FlatWithin(topo, keys[..n], m);
      assert short[i] in short && last[j - |short|] in last;
    } else {
      assert last[i - |short|] in last && last[j - |short|] in last;
    }
  }

  lemma AscendingDistinct(keys: seq<nat>)
    requires Ascends(keys)
    ensures Distinct(keys)
  {
  }

  /** Earlier vnodes have been queued earlier. */
  lemma QueuedInOrder(topo: Topology, keys: seq<nat>, m: seq<nat>, down: bool, p: nat, q: nat)
    requires Ascends(keys) && p < |Flat(topo, keys)| && q < |Flat(topo, keys)|
    requires forall s | s in topo :: Within(topo[s], m, s) && ListSorted(topo[s], down)
    requires Earlier(m, Flat(topo, keys)[p], Flat(topo, keys)[q], down)
    ensures p < q
  {
    if q < p { FlatSorted(topo, keys, m, down, q, p); }
  }

  // ---------------------------------------------------------------- additions

  /** What the shards have beyond `q + 1` vnodes each, together. */
  function Offer(m: seq<nat>, shards: seq<nat>, q: nat): nat {
    if shards == [] then 0 else
      var n := multiset(m)[shards[|shards| - 1]];
      Offer(m, shards[..|shards| - 1], q) + if n > q + 1 then n - (q + 1) else 0
  }

  lemma {:induction false} OfferIsSurplus(topo: Topology, m: seq<nat>, shards: seq<nat>, q: nat)
    requires TopologyOf(topo, m)
    ensures Offer(m, shards, q) == Surplus(topo, shards, q)
    decreases |shards|
  {
    if shards != [] {
      OfferIsSurplus(topo, m, shards[..|shards| - 1], q);
      CountHeld(topo, m, shards[|shards| - 1]);
    }
  }

  /** The loads after the list of new ids has been served up to number `to`: `q` vnodes for every new shard
      passed and one for each time it is named again, fewer for the one in turn, none for the rest. */
  ghost predicate NewLoads(smap: seq<nat>, added: seq<nat>, q: nat, to: nat) {
    && to <= |added|
    && forall s | s in added ::
         && (s in added[..to] ==> multiset(smap)[s] == q + multiset(added[..to])[s] - 1)
         && (to < |added| && s == added[to] && s !in added[..to] ==> multiset(smap)[s] < q)
         && (s !in added[..to] && !(to < |added| && s == added[to]) ==> multiset(smap)[s] == 0)
  }

  /** Old shards keep all they had or at least `q + 1` vnodes, and exactly so many if not all new ids could be
      served (`all` is false) or a shard of a larger id has given something. What they keep comes first in
      their lists. */
  ghost predicate OldLoads(m: seq<nat>, smap: seq<nat>, config: seq<nat>, q: nat, all: bool) {
    && |smap| == |m|
    && (forall s | s in config ::
          && (multiset(smap)[s] == multiset(m)[s] || q + 1 <= multiset(smap)[s] < multiset(m)[s])
          && (!all ==> multiset(smap)[s] == Least(multiset(m)[s], q + 1)))
    && (forall s, t | s in config && t in config && s < t && multiset(smap)[t] < multiset(m)[t] ::
          multiset(smap)[s] == Least(multiset(m)[s], q + 1))
    && (forall v, w | 0 <= v < w < |m| && m[v] == m[w] && smap[w] == m[w] :: smap[v] == m[v])
  }

  /** Vnodes that move are dealt to the new ids in the order of the list: smaller shards first, within a shard
      the vnode of the larger number first. */
  ghost predicate AddedInOrder(m: seq<nat>, smap: seq<nat>, added: seq<nat>)
    requires |smap| == |m|
  {
    forall v: nat, w: nat | Earlier(m, v, w, true) && smap[v] != m[v] && smap[w] != m[w] ::
      ServedBefore(added, smap[v], smap[w])
  }

  ghost predicate ServedBefore(added: seq<nat>, s: nat, t: nat) {
    exists k, l :: 0 <= k <= l < |added| && added[k] == s && added[l] == t
  }

  /** An addition with limit `q`: the order, the loads of new and old shards, and how many vnodes change hands,
      as many as there is room for (`q` for every new shard, one for every repeated id) or as old shards have
      beyond `q + 1`, whichever is less. */
  ghost predicate Rebalanced(m: seq<nat>, smap: seq<nat>, config: seq<nat>, added: seq<nat>, q: nat) {
    && (exists to :: NewLoads(smap, added, q, to) && OldLoads(m, smap, config, q, to == |added|))
    && |smap| == |m| && AddedInOrder(m, smap, added)
    && var moved, room := |set v: nat | v < |m| && smap[v] != m[v]|,
                          |Elements(added)| * q + |added| - |Elements(added)|;
       var offer := Offer(m, Ascending(Elements(config)), q);
       moved == if room < offer then room else offer
  }

  /** ... with the vnodes over the old shards and the new ids, rounded down, as limit. */
  ghost predicate AddedByAverage(m: seq<nat>, smap: seq<nat>, config: seq<nat>, added: seq<nat>) {
    |config| + |added| > 0 && Rebalanced(m, smap, config, added, |m| / (|config| + |added|))
  }

  lemma ByAverage(m: seq<nat>, smap: seq<nat>, config: seq<nat>, added: seq<nat>, q: nat)
    requires |config| + |added| > 0 && q == |m| / (|config| + |added|) && Rebalanced(m, smap, config, added, q)
    ensures AddedByAverage(m, smap, config, added)
  {
    hide Rebalanced;
  }

  lemma NewLoad(added: seq<nat>, nv: nat, current: Topology, smap: seq<nat>, plan: Plan, to: nat, done: nat, s: nat)
    requires Placed(AdditionJob(added, nv, current, smap), plan, to, done) && nv > 0 && s in added
    ensures to <= |added|
    ensures s in added[..to] ==> multiset(plan.smap)[s] == nv + multiset(added[..to])[s] - 1
    ensures to < |added| && s == added[to] && s !in added[..to] ==> multiset(plan.smap)[s] < nv
    ensures s !in added[..to] && !(to < |added| && s == added[to]) ==> multiset(plan.smap)[s] == 0
  {
    AdditionShape(added, nv, current, smap);
    assert Owns(Held(plan.topo, s), plan.smap, s);
    hide *;
    CountOwned(Held(plan.topo, s), plan.smap, s);
    AddedLoad(added, nv, current, smap, plan, to, done, s);
  }

  lemma OldLoad(current: Topology, keep: map<nat, nat>, smap: seq<nat>, after: seq<nat>, nv: nat, s: nat)
    requires TopologyOf(current, smap) && Kept(current, keep, after) && KeepsEnough(current, keep, nv) && s in current
    ensures keep[s] <= |current[s]| && multiset(after)[s] == keep[s] && multiset(smap)[s] == |current[s]|
    ensures multiset(after)[s] == multiset(smap)[s] || nv + 1 <= multiset(after)[s] < multiset(smap)[s]
  {
    CountHeld(current, smap, s);
    CountOwned(current[s][..keep[s]], after, s);
  }

  /** A vnode that has been queued and placed is no longer with its shard. */
  lemma PlacedIsGone(job: Job, plan: Plan, to: nat, done: nat, p: nat)
    requires Placed(job, plan, to, done) && p < done && job.queue[p] < |job.smap|
    ensures job.queue[p] < |plan.smap| && plan.smap[job.queue[p]] != job.smap[job.queue[p]]
  {
    hide Cursor, Served, OwnsAll;
    assert job.queue[..done][p] in job.queue[..done];
  }

  /** An old shard all whose offers have been placed keeps no more than `nv + 1` vnodes. */
  lemma AllShed(added: seq<nat>, nv: nat, current: Topology, smap: seq<nat>, plan: Plan, to: nat, done: nat,
                keep: map<nat, nat>, i: nat)
    requires TopologyOf(current, smap) && i < |Ascending(current.Keys)|
    requires Placed(AdditionJob(added, nv, current, smap), plan, to, done)
    requires |Flat(Offers(current, nv), Ascending(current.Keys)[..i + 1])| <= done
    requires Kept(current, keep, plan.smap) && KeepsEnough(current, keep, nv)
    ensures Ascending(current.Keys)[i] in current
    ensures keep[Ascending(current.Keys)[i]] == Least(|current[Ascending(current.Keys)[i]]|, nv + 1)
  {
    var job, s := AdditionJob(added, nv, current, smap), Ascending(current.Keys)[i];
    var before := |Flat(Offers(current, nv), Ascending(current.Keys)[..i])|;
    AtShard(added, nv, current, smap, i);
    AdditionShape(added, nv, current, smap);
    KeptAt(current, keep, plan.smap, nv, s);
    hide *;
    if keep[s] > nv + 1 {
      var p := ShedPosition(job.queue, current[s], nv, before, keep[s] - 1);
      PlacedIsGone(job, plan, to, done, p);
      assert false;
    }
  }

  lemma ShedPosition(queue: seq<nat>, list: seq<nat>, nv: nat, before: nat, k: nat) returns (p: nat)
    requires before + |Shed(list, nv)| <= |queue| && queue[before..before + |Shed(list, nv)|] == Shed(list, nv)
    requires nv + 1 <= k < |list|
    ensures before <= p < before + |Shed(list, nv)| && queue[p] == list[k]
  {
    ShedAt(list, nv);
    p := before + (|list| - 1 - k);
    assert queue[before..before + |Shed(list, nv)|][|list| - 1 - k] == queue[p];
  }

  lemma KeptAt(current: Topology, keep: map<nat, nat>, after: seq<nat>, nv: nat, s: nat)
    requires Kept(current, keep, after) && KeepsEnough(current, keep, nv) && s in current
    ensures s in keep && keep[s] <= |current[s]|
    ensures keep[s] == |current[s]| || nv + 1 <= keep[s] < |current[s]|
    ensures 0 < keep[s] ==> current[s][keep[s] - 1] < |after| && after[current[s][keep[s] - 1]] == s
  {
    assert keep[s] > 0 ==> current[s][..keep[s]][keep[s] - 1] in current[s][..keep[s]];
  }

  /** Whoever has given something was reached by the walk. */
  lemma GaveBeyond(added: seq<nat>, nv: nat, current: Topology, smap: seq<nat>, plan: Plan, to: nat, done: nat,
                   keep: map<nat, nat>, j: nat)
    requires TopologyOf(current, smap) && j < |Ascending(current.Keys)| && Ascending(current.Keys)[j] in current
    requires Placed(AdditionJob(added, nv, current, smap), plan, to, done)
    requires Kept(current, keep, plan.smap) && KeepsEnough(current, keep, nv)
    requires keep[Ascending(current.Keys)[j]] < |current[Ascending(current.Keys)[j]]|
    ensures |Flat(Offers(current, nv), Ascending(current.Keys)[..j])| < done
  {
    var keys := Ascending(current.Keys);
    WalkStart(current, nv);
    hide *;
    var t := keys[j];
    NotInPrefix(keys, j);
    var v := GivenVnode(current, smap, keep, plan.smap, t);
    var p := QueuedAt(added, nv, current, smap, plan, to, done, v);
    AdditionShape(added, nv, current, smap);
    NotBefore(nv, current, smap, keys[..j], t, v);
    FlatStart(Offers(current, nv), keys, j);
    BeyondPart(Flat(Offers(current, nv), keys), Flat(Offers(current, nv), keys[..j]), p);
  }

  lemma BeyondPart(all: seq<nat>, part: seq<nat>, p: nat)
    requires |part| <= |all| && all[..|part|] == part && p < |all| && all[p] !in part
    ensures p >= |part|
  {
    assert forall k | 0 <= k < |part| :: part[k] == all[k];
  }

  lemma NotInPrefix(keys: seq<nat>, j: nat)
    requires Distinct(keys) && j < |keys|
    ensures keys[j] !in keys[..j] && Distinct(keys[..j])
  {
  }

  lemma NotBefore(nv: nat, current: Topology, smap: seq<nat>, keys: seq<nat>, t: nat, v: nat)
    requires TopologyOf(current, smap) && Distinct(keys) && t !in keys && v < |smap| && smap[v] == t
    ensures v !in Flat(Offers(current, nv), keys)
  {
    OffersWithin(current, nv, smap);
    hide TopologyOf, Offers, Flat;
    assert Offers(current, nv).Keys == current.Keys by { OffersKeys(current, nv); }
    FlatWithin(Offers(current, nv), keys, smap);
  }

  lemma OffersKeys(current: Topology, nv: nat)
    ensures Offers(current, nv).Keys == current.Keys
  {
  }

  lemma GivenVnode(current: Topology, smap: seq<nat>, keep: map<nat, nat>, after: seq<nat>, t: nat) returns (v: nat)
    requires TopologyOf(current, smap) && Kept(current, keep, after) && t in current && keep[t] < |current[t]|
    ensures v < |smap| && smap[v] == t && (v < |after| ==> after[v] != t)
  {
    var list := current[t];
    v := list[keep[t]];
    assert v in list;
    assert forall k | 0 <= k < keep[t] :: list[..keep[t]][k] != v;
  }

  lemma QueuedAt(added: seq<nat>, nv: nat, current: Topology, smap: seq<nat>, plan: Plan, to: nat, done: nat, v: nat)
      returns (p: nat)
    requires Placed(AdditionJob(added, nv, current, smap), plan, to, done) && v < |smap|
    requires v < |plan.smap| ==> plan.smap[v] != smap[v]
    ensures p < done <= |AdditionJob(added, nv, current, smap).queue|
    ensures AdditionJob(added, nv, current, smap).queue[p] == v
  {
    var job := AdditionJob(added, nv, current, smap);
    AdditionShape(added, nv, current, smap);
    hide Cursor, Served, OwnsAll, AdditionJob;
    assert v in plan.moves;
    p :| 0 <= p < done && job.queue[..done][p] == v;
  }

  lemma FlatStart(topo: Topology, keys: seq<nat>, j: nat)
    requires j < |keys|
    ensures |Flat(topo, keys[..j])| <= |Flat(topo, keys)|
    ensures Flat(topo, keys)[..|Flat(topo, keys[..j])|] == Flat(topo, keys[..j])
  {
    FlatPrefix(topo, keys, j);
  }

  /** Old shards of smaller ids have given all they could before one of a larger id gives anything. */
  lemma WalkOrder(added: seq<nat>, nv: nat, current: Topology, smap: seq<nat>, plan: Plan, to: nat, done: nat,
                  keep: map<nat, nat>, i: nat, j: nat)
    requires TopologyOf(current, smap) && i < j < |Ascending(current.Keys)|
    requires Placed(AdditionJob(added, nv, current, smap), plan, to, done)
    requires Kept(current, keep, plan.smap) && KeepsEnough(current, keep, nv)
    requires Ascending(current.Keys)[j] in current
    requires keep[Ascending(current.Keys)[j]] < |current[Ascending(current.Keys)[j]]|
    ensures Ascending(current.Keys)[i] in current
    ensures keep[Ascending(current.Keys)[i]] == Least(|current[Ascending(current.Keys)[i]]|, nv + 1)
  {
    var keys, offers := Ascending(current.Keys), Offers(current, nv);
    hide *;
    GaveBeyond(added, nv, current, smap, plan, to, done, keep, j);
    FlatGrows(offers, keys, i + 1, j);
    AllShed(added, nv, current, smap, plan, to, done, keep, i);
  }

  lemma {:induction false} FlatGrows(topo: Topology, keys: seq<nat>, i: nat, j: nat)
    requires i <= j <= |keys|
    ensures |Flat(topo, keys[..i])| <= |Flat(topo, keys[..j])|
    decreases j - i
  {
    if i < j {
      FlatGrows(topo, keys, i, j - 1);
      FlatPrefix(topo, keys, j - 1);
    }
  }

  lemma KeysAt(current: Topology, s: nat) returns (i: nat)
    requires s in current
    ensures i < |Ascending(current.Keys)| && Ascending(current.Keys)[i] == s
    ensures |Ascending(current.Keys)[..i + 1]| == i + 1
  {
    assert s in Ascending(current.Keys);
    i :| 0 <= i < |Ascending(current.Keys)| && Ascending(current.Keys)[i] == s;
  }

  /** If the new ids were not all served, every old shard has given all it could. */
  lemma EverythingShed(added: seq<nat>, nv: nat, current: Topology, smap: seq<nat>, plan: Plan, to: nat, done: nat,
                       keep: map<nat, nat>, s: nat)
    requires TopologyOf(current, smap) && s in current
    requires Placed(AdditionJob(added, nv, current, smap), plan, to, done)
    requires done == |AdditionJob(added, nv, current, smap).queue|
    requires Kept(current, keep, plan.smap) && KeepsEnough(current, keep, nv)
    ensures s in keep && keep[s] == Least(|current[s]|, nv + 1)
  {
    var i := KeysAt(current, s);
    KeptAt(current, keep, plan.smap, nv, s);
    AdditionShape(added, nv, current, smap);
    hide *;
    var keys, offers := Ascending(current.Keys), Offers(current, nv);
    FlatPrefix(offers, keys, i);
    AllShed(added, nv, current, smap, plan, to, done, keep, i);
  }

  lemma InOrder(added: seq<nat>, nv: nat, current: Topology, smap: seq<nat>, plan: Plan, to: nat, done: nat,
                keep: map<nat, nat>, s: nat, t: nat)
    requires TopologyOf(current, smap) && s in current && t in current && s < t
    requires Placed(AdditionJob(added, nv, current, smap), plan, to, done)
    requires Kept(current, keep, plan.smap) && KeepsEnough(current, keep, nv) && keep[t] < |current[t]|
    ensures s in keep && keep[s] == Least(|current[s]|, nv + 1)
  {
    var i := KeysAt(current, s);
    var j := KeysAt(current, t);
    KeptAt(current, keep, plan.smap, nv, s);
    assert i < j;
    hide *;
    WalkOrder(added, nv, current, smap, plan, to, done, keep, i, j);
  }

  /** What stays with a shard comes first in its list. */
  lemma TailGone(current: Topology, smap: seq<nat>, keep: map<nat, nat>, after: seq<nat>, v: nat, w: nat)
    requires TopologyOf(current, smap) && (forall s | s in current :: Ascends(current[s]))
    requires Kept(current, keep, after) && |after| == |smap|
    requires v < w < |smap| && smap[v] == smap[w] && after[w] == smap[w]
    ensures after[v] == smap[v]
  {
    var s := smap[w];
    assert s in smap;
    var list := current[s];
    assert v in list && w in list && w in list[..keep[s]];
    var i :| 0 <= i < |list| && list[i] == v;
    var j :| 0 <= j < keep[s] && list[..keep[s]][j] == w;
    assert list[j] == w;
    assert i < j;
    assert list[..keep[s]][i] == v;
  }

  /** The whole of an addition, counted in the map. */
  lemma AdditionLoads(added: seq<nat>, nv: nat, current: Topology, smap: seq<nat>, config: seq<nat>, plan: Plan,
                      to: nat, done: nat, keep: map<nat, nat>)
    requires TopologyOf(current, smap) && (forall s | s in current :: Ascends(current[s])) && nv > 0
    requires current.Keys == Elements(config) && Apart(added, current)
    requires Placed(AdditionJob(added, nv, current, smap), plan, to, done)
    requires to == |added| || done == |AdditionJob(added, nv, current, smap).queue|
    requires Kept(current, keep, plan.smap) && KeepsEnough(current, keep, nv)
    ensures NewLoads(plan.smap, added, nv, to)
    ensures OldLoads(smap, plan.smap, config, nv, to == |added|)
  {
    AdditionBounds(added, nv, current, smap, plan, to, done);
    forall s | s in config ensures s in current { assert s in Elements(config); }
    hide *;
    NewOnes(added, nv, current, smap, plan, to, done);
    OldOnes(added, nv, current, smap, config, plan, to, done, keep);
  }

  lemma AdditionBounds(added: seq<nat>, nv: nat, current: Topology, smap: seq<nat>, plan: Plan, to: nat, done: nat)
    requires Placed(AdditionJob(added, nv, current, smap), plan, to, done)
    ensures to <= |added| && |plan.smap| == |smap|
  {
    PlacedBounds(AdditionJob(added, nv, current, smap), plan, to, done);
    PlacedDiff(added, nv, current, smap, plan, to, done);
    AdditionShape(added, nv, current, smap);
    hide Placed, AdditionJob;
  }

  lemma NewOnes(added: seq<nat>, nv: nat, current: Topology, smap: seq<nat>, plan: Plan, to: nat, done: nat)
    requires Placed(AdditionJob(added, nv, current, smap), plan, to, done) && nv > 0 && to <= |added|
    ensures NewLoads(plan.smap, added, nv, to)
  {
    hide Placed, AdditionJob;
    forall s | s in added
      ensures s in added[..to] ==> multiset(plan.smap)[s] == nv + multiset(added[..to])[s] - 1
      ensures to < |added| && s == added[to] && s !in added[..to] ==> multiset(plan.smap)[s] < nv
      ensures s !in added[..to] && !(to < |added| && s == added[to]) ==> multiset(plan.smap)[s] == 0
    {
      NewLoad(added, nv, current, smap, plan, to, done, s);
    }
  }

  lemma OldOnes(added: seq<nat>, nv: nat, current: Topology, smap: seq<nat>, config: seq<nat>, plan: Plan,
                to: nat, done: nat, keep: map<nat, nat>)
    requires TopologyOf(current, smap) && (forall s | s in current :: Ascends(current[s]))
    requires (forall s | s in config :: s in current) && |plan.smap| == |smap| && to <= |added|
    requires Placed(AdditionJob(added, nv, current, smap), plan, to, done)
    requires to == |added| || done == |AdditionJob(added, nv, current, smap).queue|
    requires Kept(current, keep, plan.smap) && KeepsEnough(current, keep, nv)
    ensures OldLoads(smap, plan.smap, config, nv, to == |added|)
  {
    hide Placed, TopologyOf, Kept, KeepsEnough, AdditionJob, Ascends, Least;
    forall s | s in config
      ensures multiset(plan.smap)[s] == multiset(smap)[s] || nv + 1 <= multiset(plan.smap)[s] < multiset(smap)[s]
      ensures to < |added| ==> multiset(plan.smap)[s] == Least(multiset(smap)[s], nv + 1)
    {
      OldLoad(current, keep, smap, plan.smap, nv, s);
      if to < |added| { EverythingShed(added, nv, current, smap, plan, to, done, keep, s); }
    }
    forall s, t | s in config && t in config && s < t && multiset(plan.smap)[t] < multiset(smap)[t]
      ensures multiset(plan.smap)[s] == Least(multiset(smap)[s], nv + 1)
    {
      OldLoad(current, keep, smap, plan.smap, nv, s);
      OldLoad(current, keep, smap, plan.smap, nv, t);
      InOrder(added, nv, current, smap, plan, to, done, keep, s, t);
    }
    forall v, w | 0 <= v < w < |smap| && smap[v] == smap[w] && plan.smap[w] == smap[w]
      ensures plan.smap[v] == smap[v]
    {
      TailGone(current, smap, keep, plan.smap, v, w);
    }
  }

  /** How many vnodes an addition moves: as many as the new shards have room for or as many as the old ones
      offer, whichever is less. */
  lemma AdditionTotal(added: seq<nat>, nv: nat, current: Topology, smap: seq<nat>, plan: Plan, to: nat, done: nat)
    requires TopologyOf(current, smap) && Apart(added, current) && nv > 0
    requires Placed(AdditionJob(added, nv, current, smap), plan, to, done)
    requires to == |added| || done == |AdditionJob(added, nv, current, smap).queue|
    ensures |plan.smap| == |smap| && RoomBefore(added, nv, |added|) >= 0
    ensures |set v: nat | v < |smap| && plan.smap[v] != smap[v]|
            == Least(RoomBefore(added, nv, |added|), Offer(smap, Ascending(current.Keys), nv))
  {
    PlacedDiff(added, nv, current, smap, plan, to, done);
    AdditionBounds(added, nv, current, smap, plan, to, done);
    hide *;
    CountMoves(plan.moves, smap, plan.smap);
    AdditionCount(added, nv, current, smap, plan, to, done);
    OfferIsSurplus(current, smap, Ascending(current.Keys), nv);
    TheLesser(to, |added|, |plan.moves|, RoomBefore(added, nv, |added|), Offer(smap, Ascending(current.Keys), nv));
  }

  /** The room there is: `q` vnodes for every new shard and one for every repeated id. */
  lemma RoomOfAll(added: seq<nat>, q: nat)
    ensures RoomBefore(added, q, |added|) == |Elements(added)| * q + |added| - |Elements(added)|
  {
    assert added[..|added|] == added;
  }

  lemma TheLesser(to: nat, k: nat, done: nat, room: int, offer: nat)
    requires to <= k
    requires to == k ==> done == room <= offer
    requires to < k ==> done == offer < room
    ensures room >= 0 && done == Least(room, offer)
  {
  }

  lemma ShedSorted(list: seq<nat>, nv: nat)
    requires Ascends(list)
    ensures ListSorted(Shed(list, nv), true)
  {
    ShedAt(list, nv);
  }

  lemma OffersSorted(current: Topology, nv: nat)
    requires forall s | s in current :: Ascends(current[s])
    ensures forall s | s in Offers(current, nv) :: ListSorted(Offers(current, nv)[s], true)
  {
    hide Ascends, ListSorted, Shed;
    forall s | s in current ensures ListSorted(Shed(current[s], nv), true) { ShedSorted(current[s], nv); }
  }

  lemma AdditionOrderAt(added: seq<nat>, nv: nat, current: Topology, smap: seq<nat>, plan: Plan, to: nat, done: nat,
                        v: nat, w: nat)
    requires TopologyOf(current, smap) && Apart(added, current) && (forall s | s in current :: Ascends(current[s]))
    requires Placed(AdditionJob(added, nv, current, smap), plan, to, done) && |plan.smap| == |smap|
    requires Earlier(smap, v, w, true) && plan.smap[v] != smap[v] && plan.smap[w] != smap[w]
    ensures ServedBefore(added, plan.smap[v], plan.smap[w])
  {
    var p := QueuedAt(added, nv, current, smap, plan, to, done, v);
    var q := QueuedAt(added, nv, current, smap, plan, to, done, w);
    AdditionShape(added, nv, current, smap);
    AdditionJobOk(added, nv, current, smap);
    OffersWithin(current, nv, smap);
    OffersKeys(current, nv);
    OffersSorted(current, nv);
    KeysAscend(current.Keys);
    hide *;
    QueuedInOrder(Offers(current, nv), Ascending(current.Keys), smap, true, p, q);
    var k, l := PlacedInOrder(AdditionJob(added, nv, current, smap), plan, to, done, p, q);
    ServedAt(added, k, l);
  }

  lemma KeysAscend(s: set<nat>)
    ensures Ascends(Ascending(s))
  {
  }

  lemma ServedAt(added: seq<nat>, k: nat, l: nat)
    requires k <= l < |added|
    ensures ServedBefore(added, added[k], added[l])
  {
  }

  lemma AdditionOrder(added: seq<nat>, nv: nat, current: Topology, smap: seq<nat>, plan: Plan, to: nat, done: nat)
    requires TopologyOf(current, smap) && Apart(added, current) && (forall s | s in current :: Ascends(current[s]))
    requires Placed(AdditionJob(added, nv, current, smap), plan, to, done) && |plan.smap| == |smap|
    ensures AddedInOrder(smap, plan.smap, added)
  {
    hide Placed, AdditionJob, TopologyOf, Apart, Ascends, ServedBefore;
    forall v: nat, w: nat | Earlier(smap, v, w, true) && plan.smap[v] != smap[v] && plan.smap[w] != smap[w]
      ensures ServedBefore(added, plan.smap[v], plan.smap[w])
    {
      AdditionOrderAt(added, nv, current, smap, plan, to, done, v, w);
    }
  }

  lemma AdditionRebalances(added: seq<nat>, nv: nat, current: Topology, smap: seq<nat>, config: seq<nat>, plan: Plan,
                           to: nat, done: nat, keep: map<nat, nat>)
    requires TopologyOf(current, smap) && (forall s | s in current :: Ascends(current[s])) && nv > 0
    requires current.Keys == Elements(config) && Apart(added, current)
    requires Placed(AdditionJob(added, nv, current, smap), plan, to, done)
    requires to == |added| || done == |AdditionJob(added, nv, current, smap).queue|
    requires Kept(current, keep, plan.smap) && KeepsEnough(current, keep, nv)
    ensures Rebalanced(smap, plan.smap, config, added, nv)
  {
    hide *;
    AdditionLoads(added, nv, current, smap, config, plan, to, done, keep);
    AdditionTotal(added, nv, current, smap, plan, to, done);
    RoomOfAll(added, nv);
    AdditionOrder(added, nv, current, smap, plan, to, done);
    Together(smap, plan.smap, config, added, nv, to, RoomBefore(added, nv, |added|));
  }

  lemma Together(m: seq<nat>, smap: seq<nat>, config: seq<nat>, added: seq<nat>, q: nat, to: nat, room: nat)
    requires NewLoads(smap, added, q, to) && OldLoads(m, smap, config, q, to == |added|)
    requires |smap| == |m| && AddedInOrder(m, smap, added)
    requires room == |Elements(added)| * q + |added| - |Elements(added)|
    requires |set v: nat | v < |m| && smap[v] != m[v]| == Least(room, Offer(m, Ascending(Elements(config)), q))
    ensures Rebalanced(m, smap, config, added, q)
  {
    hide NewLoads, OldLoads, Offer, Elements, AddedInOrder;
  }

  // ---------------------------------------------------------------- removals

  /** The loads of the remaining shards after a removal has served them up to number `to`: whoever has been
      passed holds `q + 1` vnodes, or one more than before if it had more than `q` already. */
  ghost predicate LeftLoads(m: seq<nat>, smap: seq<nat>, left: seq<nat>, q: nat, to: nat) {
    && |smap| == |m| && to <= |left|
    && forall k | 0 <= k < |left| ::
         var was, now := multiset(m)[left[k]], multiset(smap)[left[k]];
         && (k < to ==> now == if was <= q then q + 1 else was + 1)
         && (k == to ==> was <= now && now < if was <= q then q + 1 else was + 1)
         && (k > to ==> now == was)
  }

  /** The vnodes of the shards that go are dealt out in order: smaller shards and smaller vnodes first, to
      shards in ascending order. */
  ghost predicate RemovedInOrder(m: seq<nat>, smap: seq<nat>, left: seq<nat>) {
    && |smap| == |m|
    && forall v: nat, w: nat | Earlier(m, v, w, false) && m[v] !in left && m[w] !in left :: smap[v] <= smap[w]
  }

  /** A removal with limit `q`: the loads and the order. */
  ghost predicate Relieved(m: seq<nat>, smap: seq<nat>, left: seq<nat>, q: nat) {
    RemovedInOrder(m, smap, left) && exists to :: LeftLoads(m, smap, left, q, to)
  }

  lemma RemovalPosition(removed: seq<nat>, nv: nat, current: Topology, smap: seq<nat>, v: nat) returns (p: nat)
    requires TopologyOf(current, smap) && v < |smap| && smap[v] in removed
    ensures p < |RemovalJob(removed, nv, current, smap).queue| && RemovalJob(removed, nv, current, smap).queue[p] == v
  {
    RemovedQueue(removed, current, smap);
    RemovalShape(removed, nv, current, smap);
    hide TopologyOf, Given, Flat, RemovalJob, Agrees;
    var queue := RemovalJob(removed, nv, current, smap).queue;
    assert v in queue;
    p :| 0 <= p < |queue| && queue[p] == v;
  }

  lemma GivenSorted(current: Topology, removed: seq<nat>, smap: seq<nat>)
    requires TopologyOf(current, smap) && forall s | s in current :: Ascends(current[s])
    ensures forall s | s in Given(current, removed) ::
      Within(Given(current, removed)[s], smap, s) && ListSorted(Given(current, removed)[s], false)
  {
    RemovedQueue(removed, current, smap);
    hide TopologyOf, Flat;
  }

  lemma RemovalOrderAt(removed: seq<nat>, nv: nat, current: Topology, smap: seq<nat>, plan: Plan, cur: nat,
                       v: nat, w: nat)
    requires TopologyOf(current, smap) && (forall s | s in current :: Ascends(current[s])) && |plan.smap| == |smap|
    requires Placed(RemovalJob(removed, nv, current, smap), plan, cur, |RemovalJob(removed, nv, current, smap).queue|)
    requires Earlier(smap, v, w, false) && smap[v] in removed && smap[w] in removed
    ensures plan.smap[v] <= plan.smap[w]
  {
    var p := RemovalPosition(removed, nv, current, smap, v);
    var q := RemovalPosition(removed, nv, current, smap, w);
    RemovalShape(removed, nv, current, smap);
    RemovalJobOk(removed, nv, current, smap);
    GivenSorted(current, removed, smap);
    KeysAscend(Elements(removed));
    hide *;
    var job := RemovalJob(removed, nv, current, smap);
    QueuedInOrder(Given(current, removed), Ascending(Elements(removed)), smap, false, p, q);
    var k, l := PlacedInOrder(job, plan, cur, |job.queue|, p, q);
    RemovalAscends(removed, nv, current, smap, k, l);
  }

  lemma RemovalAscends(removed: seq<nat>, nv: nat, current: Topology, smap: seq<nat>, k: nat, l: nat)
    requires k <= l < |RemovalJob(removed, nv, current, smap).targets|
    ensures RemovalJob(removed, nv, current, smap).targets[k] <= RemovalJob(removed, nv, current, smap).targets[l]
  {
  }

  lemma RemovalOrder(removed: seq<nat>, nv: nat, current: Topology, smap: seq<nat>, plan: Plan, cur: nat,
                     left: seq<nat>)
    requires TopologyOf(current, smap) && (forall s | s in current :: Ascends(current[s])) && |plan.smap| == |smap|
    requires Placed(RemovalJob(removed, nv, current, smap), plan, cur, |RemovalJob(removed, nv, current, smap).queue|)
    requires forall v | 0 <= v < |smap| && smap[v] !in left :: smap[v] in removed
    ensures RemovedInOrder(smap, plan.smap, left)
  {
    hide Placed, RemovalJob, TopologyOf, Ascends;
    forall v: nat, w: nat | Earlier(smap, v, w, false) && smap[v] !in left && smap[w] !in left
      ensures plan.smap[v] <= plan.smap[w]
    {
      RemovalOrderAt(removed, nv, current, smap, plan, cur, v, w);
    }
  }

  lemma LeftOrRemoved(removed: seq<nat>, current: Topology, smap: seq<nat>)
    requires TopologyOf(current, smap)
    ensures forall v | 0 <= v < |smap| && smap[v] !in Ascending(current.Keys - Elements(removed)) :: smap[v] in removed
  {
    forall v | 0 <= v < |smap| && smap[v] !in Ascending(current.Keys - Elements(removed)) ensures smap[v] in removed {
      assert smap[v] in smap && smap[v] in current;
    }
  }

  /** ... with the vnodes over the `rest` shards that remain, rounded down, as limit. */
  ghost predicate RemovedByAverage(m: seq<nat>, smap: seq<nat>, rest: int, left: seq<nat>) {
    rest > 0 && Relieved(m, smap, left, |m| / rest)
  }

  lemma RelievedByAverage(m: seq<nat>, smap: seq<nat>, rest: int, left: seq<nat>, q: nat)
    requires rest > 0 && q == |m| / rest && Relieved(m, smap, left, q)
    ensures RemovedByAverage(m, smap, rest, left)
  {
    hide Relieved;
  }

  lemma LeftLoad(removed: seq<nat>, nv: nat, current: Topology, smap: seq<nat>, plan: Plan, cur: nat, k: nat)
    requires TopologyOf(current, smap) && k < |Ascending(current.Keys - Elements(removed))|
    requires Placed(RemovalJob(removed, nv, current, smap), plan, cur, |RemovalJob(removed, nv, current, smap).queue|)
    ensures var s := Ascending(current.Keys - Elements(removed))[k];
            var was, now := multiset(smap)[s], multiset(plan.smap)[s];
            && (k < cur ==> now == if was <= nv then nv + 1 else was + 1)
            && (k == cur ==> was <= now && now < if was <= nv then nv + 1 else was + 1)
            && (k > cur ==> now == was)
  {
    var job := RemovalJob(removed, nv, current, smap);
    var s := Ascending(current.Keys - Elements(removed))[k];
    RemovalTargets(removed, nv, current, smap, k);
    assert Owns(Held(plan.topo, s), plan.smap, s);
    PlacedBounds(job, plan, cur, |job.queue|);
    hide *;
    CountOwned(Held(plan.topo, s), plan.smap, s);
    CountHeld(current, smap, s);
    PlacedLoad(job, plan, cur, |job.queue|, s);
    LoadOnce(job, cur, s);
    if cur < |job.targets| { LoadOnce(job, cur, job.targets[cur]); }
    TargetPlace(job.targets, cur, k);
    RoomIs(|Held(current, s)|, nv);
  }

  lemma RoomIs(n: nat, nv: nat)
    ensures n + Room(n, nv + 1) == if n <= nv then nv + 1 else n + 1
  {
  }

  lemma TargetPlace(targets: seq<nat>, cur: nat, k: nat)
    requires Distinct(targets) && cur <= |targets| && k < |targets|
    ensures targets[k] in targets[..cur] <==> k < cur
    ensures cur < |targets| ==> (targets[cur] == targets[k] <==> cur == k)
  {
    if k < cur { assert targets[..cur][k] == targets[k]; }
  }

  lemma RemovalTargets(removed: seq<nat>, nv: nat, current: Topology, smap: seq<nat>, k: nat)
    requires k < |Ascending(current.Keys - Elements(removed))|
    ensures var job, s := RemovalJob(removed, nv, current, smap), Ascending(current.Keys - Elements(removed))[k];
            && job.targets == Ascending(current.Keys - Elements(removed)) && Distinct(job.targets)
            && s in job.targets && job.cap == nv + 1 && Held(job.base, s) == Held(current, s)
  {
    assert (current - Elements(removed)).Keys == current.Keys - Elements(removed);
  }

  /** The whole of a removal, counted in the map. */
  lemma RemovalCounts(removed: seq<nat>, nv: nat, current: Topology, smap: seq<nat>, plan: Plan, cur: nat)
    requires TopologyOf(current, smap) && forall s | s in current :: Ascends(current[s])
    requires Placed(RemovalJob(removed, nv, current, smap), plan, cur, |RemovalJob(removed, nv, current, smap).queue|)
    ensures Relieved(smap, plan.smap, Ascending(current.Keys - Elements(removed)), nv)
  {
    RemovalBounds(removed, nv, current, smap, plan, cur);
    hide *;
    LeftOnes(removed, nv, current, smap, plan, cur);
    LeftOrRemoved(removed, current, smap);
    RemovalOrder(removed, nv, current, smap, plan, cur, Ascending(current.Keys - Elements(removed)));
    RelievedTo(smap, plan.smap, Ascending(current.Keys - Elements(removed)), nv, cur);
  }

  lemma RelievedTo(m: seq<nat>, smap: seq<nat>, left: seq<nat>, q: nat, to: nat)
    requires LeftLoads(m, smap, left, q, to) && RemovedInOrder(m, smap, left)
    ensures Relieved(m, smap, left, q)
  {
    hide LeftLoads, RemovedInOrder;
  }

  lemma RemovalBounds(removed: seq<nat>, nv: nat, current: Topology, smap: seq<nat>, plan: Plan, cur: nat)
    requires TopologyOf(current, smap)
    requires Placed(RemovalJob(removed, nv, current, smap), plan, cur, |RemovalJob(removed, nv, current, smap).queue|)
    ensures |plan.smap| == |smap| && cur <= |Ascending(current.Keys - Elements(removed))|
  {
    var job := RemovalJob(removed, nv, current, smap);
    PlacedBounds(job, plan, cur, |job.queue|);
    RemovalMoves(removed, nv, current, smap, plan, cur);
    assert (current - Elements(removed)).Keys == current.Keys - Elements(removed);
    assert job.targets == Ascending(current.Keys - Elements(removed));
    hide Placed, RemovalJob, TopologyOf;
  }

  lemma LeftOnes(removed: seq<nat>, nv: nat, current: Topology, smap: seq<nat>, plan: Plan, cur: nat)
    requires TopologyOf(current, smap)
    requires |plan.smap| == |smap| && cur <= |Ascending(current.Keys - Elements(removed))|
    requires Placed(RemovalJob(removed, nv, current, smap), plan, cur, |RemovalJob(removed, nv, current, smap).queue|)
    ensures LeftLoads(smap, plan.smap, Ascending(current.Keys - Elements(removed)), nv, cur)
  {
    var left := Ascending(current.Keys - Elements(removed));
    hide Placed, RemovalJob, TopologyOf, Elements, Ascending;
    forall k | 0 <= k < |left|
      ensures var was, now := multiset(smap)[left[k]], multiset(plan.smap)[left[k]];
              && (k < cur ==> now == if was <= nv then nv + 1 else was + 1)
              && (k == cur ==> was <= now && now < if was <= nv then nv + 1 else was + 1)
              && (k > cur ==> now == was)
    {
      LeftLoad(removed, nv, current, smap, plan, cur, k);
    }
  }
}
