/** The master's two rebalancing commands over their whole life: additions and removals keep every configured
    shard in possession of a vnode, so that a removal never lacks room; only an addition that repeats an id
    tens of thousands of times can leave a new shard without one. */
module ShardingMaster {
  import opened Orders
  import opened Sharding
  import opened ShardingLoads

  const MAX_MAP_SIZE: nat := 0xFFFF
  const MAX_SHARD_ID: nat := 0xFF

  predicate InRange(s: seq<nat>) {
    forall i | 0 <= i < |s| :: 1 <= s[i] <= MAX_SHARD_ID
  }

  predicate ShardIds(s: seq<nat>) {
    Distinct(s) && InRange(s)
  }

  ghost predicate NoneIn(a: seq<nat>, b: seq<nat>) {
    forall s | s in a :: s !in b
  }

  ghost predicate AllIn(a: seq<nat>, b: seq<nat>) {
    forall s | s in a :: s in b
  }

  /** Only vnodes that go to one of the given shards have changed hands. */
  ghost predicate ChangedTo(before: seq<nat>, after: seq<nat>, to: seq<nat>) {
    |before| == |after| && forall v | 0 <= v < |after| && after[v] != before[v] :: after[v] in to
  }

  /** Only vnodes of the given shards have changed hands. */
  ghost predicate ChangedFrom(before: seq<nat>, after: seq<nat>, from: seq<nat>) {
    |before| == |after| && forall v | 0 <= v < |after| && after[v] != before[v] :: before[v] in from
  }

  lemma FewShards(s: seq<nat>)
    requires ShardIds(s)
    ensures |s| <= MAX_SHARD_ID
  {
    ElementsSize(s);
    var ids := Range(MAX_SHARD_ID + 1);
    assert Elements(s) <= ids - {0};
    hide *;
    SubsetSize(Elements(s), ids - {0});
  }

  /** Vnodes per shard after an addition: always more than there are old shards. */
  lemma RoomyAverage(c: nat, k: nat)
    requires 0 < k && c + k <= MAX_SHARD_ID
    ensures PerShard(MAX_MAP_SIZE, c + k) > c
  {
    var d := c + k;
    var q := PerShard(MAX_MAP_SIZE, d);
    Quotient(MAX_MAP_SIZE, d);
    if q <= c {
      assert (q + 1) * d <= (c + 1) * MAX_SHARD_ID by { Product(q + 1, c + 1, d, MAX_SHARD_ID); }
    }
  }

  lemma Product(a: nat, b: nat, c: nat, d: nat)
    requires a <= b && c <= d
    ensures a * c <= b * d
  {
    assert (b - a) * c >= 0 && b * (d - c) >= 0;
  }

  /** `nv` is what the average comes to with `c` old shards and `d` new ones, of which the list of new ids
      names `x` again. */
  lemma Roomy(c: nat, d: nat, x: nat, nv: nat)
    requires d > 0 && c + d <= MAX_SHARD_ID && nv == PerShard(MAX_MAP_SIZE, c + d + x) && nv >= 2
    ensures (x + 1) * (nv - 1) >= c
  {
    Quotient(MAX_MAP_SIZE, c + d + x);
    if x == 0 {
      RoomyAverage(c, d);
    } else if x + 1 >= MAX_SHARD_ID {
      Product(MAX_SHARD_ID, x + 1, 1, nv - 1);
    } else {
      if nv <= 128 { Product(nv + 1, 129, c + d + x, 507); }
      Product(2, x + 1, 128, nv - 1);
    }
  }

  /** With at least two vnodes a shard, the old shards always offer enough for every new one. */
  lemma AlwaysSupplied(added: seq<nat>, nv: nat, current: Topology, smap: seq<nat>)
    requires TopologyOf(current, smap) && Apart(added, current) && |smap| == MAX_MAP_SIZE
    requires |current| + |Elements(added)| <= MAX_SHARD_ID
    requires nv == PerShard(|smap|, |current| + |added|) && nv >= 2
    ensures Supplied(added, nv, current)
  {
    hide *;
    if added != [] {
      var last, d := LastNew(added), |Elements(added)|;
      LastNewIs(added);
      SuppliedIs(added, nv, current, last);
      BeforeLast(added, nv, last);
      AdditionShortfall(added, nv, current, smap);
      ElementsSize(added);
      Roomy(|current|, d, |added| - d, nv);
      Spare(|added|, d, nv, |current|, last);
    } else {
      SuppliedIs(added, nv, current, LastNew(added));
    }
  }

  lemma Spare(k: nat, d: nat, nv: nat, c: nat, last: nat)
    requires 0 < d <= k && last < k && nv > 0 && (k - d + 1) * (nv - 1) >= c
    ensures (d - 1) * nv + last - (d - 1) < k * nv - c
  {
    assert (k - d + 1) * (nv - 1) == k * nv - (d - 1) * nv - (k - d + 1);
  }

  /** All other new shards are named before the last of them. */
  lemma BeforeLast(added: seq<nat>, nv: nat, last: nat)
    requires added != [] && last < |added| && added[last] !in added[..last]
    requires forall j | last < j < |added| :: added[j] in added[..j]
    ensures |Elements(added)| > 0
    ensures RoomBefore(added, nv, last) == (|Elements(added)| - 1) * nv + last - (|Elements(added)| - 1)
  {
    NamedBy(added, last, |added|);
    assert added[..|added|] == added;
  }

  lemma {:induction false} NamedBy(added: seq<nat>, last: nat, n: nat)
    requires last < n <= |added| && added[last] !in added[..last]
    requires forall j | last < j < |added| :: added[j] in added[..j]
    ensures Elements(added[..n]) == Elements(added[..last]) + {added[last]}
    ensures |Elements(added[..n])| == |Elements(added[..last])| + 1
    decreases n
  {
    assert added[..n] == added[..n - 1] + [added[n - 1]];
    if n - 1 > last { NamedBy(added, last, n - 1); }
  }

  /** ... and every old shard keeps one. */
  lemma OldShardsOwn(current: Topology, keep: map<nat, nat>, nv: nat, smap0: seq<nat>, smap: seq<nat>)
    requires TopologyOf(current, smap0) && Kept(current, keep, smap) && KeepsEnough(current, keep, nv)
    ensures current.Keys <= Elements(smap)
  {
    forall s | s in current ensures s in smap {
      var v :| 0 <= v < |smap0| && smap0[v] == s;
      assert v in current[s];
      assert current[s][..keep[s]][0] in current[s][..keep[s]];
    }
  }

  /** A configuration and the map file that goes with it (empty until first saved). */
  ghost predicate Consistent(config: seq<nat>, saved: seq<nat>) {
    && config != [] && ShardIds(config)
    && if saved == [] then |config| == 1 else |saved| == MAX_MAP_SIZE && SameElements(config, saved)
  }

  /** The map a command works on: a lone shard without a file owns every vnode. */
  function Effective(config: seq<nat>, saved: seq<nat>): seq<nat>
    requires |config| > 0
  {
    if saved == [] && |config| == 1 then seq(MAX_MAP_SIZE, _ => config[0]) else saved
  }

  /** A saved map is taken as it is; without one, which happens to a lone shard only, that shard owns all. */
  lemma EffectiveIs(config: seq<nat>, saved: seq<nat>)
    requires Consistent(config, saved)
    ensures saved != [] ==> Effective(config, saved) == saved
    ensures saved == [] ==> |config| == 1 && |Effective(config, saved)| == 0xFFFF
    ensures saved == [] ==> forall v | 0 <= v < 0xFFFF :: Effective(config, saved)[v] == config[0]
  {
  }

  lemma EffectiveSize(config: seq<nat>, saved: seq<nat>)
    requires Consistent(config, saved)
    ensures config != [] && |Effective(config, saved)| == MAX_MAP_SIZE
  {
  }

  lemma EffectiveTopology(config: seq<nat>, saved: seq<nat>, topo: Topology)
    requires Consistent(config, saved) && TopologyOf(topo, Effective(config, saved))
    ensures |Effective(config, saved)| == MAX_MAP_SIZE
    ensures topo.Keys == Elements(config) && |topo| == |config|
  {
    var m := Effective(config, saved);
    if saved == [] { assert m[0] in m; }
    assert forall s :: s in topo <==> s in config;
    assert topo.Keys == Elements(config);
    ElementsSize(config);
    assert |topo.Keys| == |topo|;
  }

  /** The configuration once it has been parsed again: every id once, in ascending order. */
  function Folded(config: seq<nat>, added: seq<nat>): seq<nat> {
    Ascending(Elements(config) + Elements(added))
  }

  lemma FoldedIs(config: seq<nat>, added: seq<nat>)
    ensures Ascends(Folded(config, added))
    ensures forall s :: s in Folded(config, added) <==> s in config || s in added
  {
  }

  lemma FoldedInRange(config: seq<nat>, added: seq<nat>)
    requires ShardIds(config) && InRange(added)
    ensures ShardIds(Folded(config, added))
  {
    var all := Elements(config) + Elements(added);
    forall i | 0 <= i < |Ascending(all)| ensures 1 <= Ascending(all)[i] <= MAX_SHARD_ID {
      assert Ascending(all)[i] in all;
    }
  }

  lemma FoldedIds(config: seq<nat>, added: seq<nat>)
    requires ShardIds(config) && InRange(added) && NoneIn(added, config)
    ensures ShardIds(Folded(config, added))
    ensures |config| + |Elements(added)| <= MAX_SHARD_ID
  {
    FoldedInRange(config, added);
    FewShards(Folded(config, added));
    hide InRange, ShardIds;
    var a, b := Elements(config), Elements(added);
    AscendingSize(a + b);
    ElementsSize(config);
    assert a * b == {};
  }

  lemma FoldedSome(config: seq<nat>, added: seq<nat>)
    requires config != []
    ensures Folded(config, added) != []
  {
    assert config[0] in Elements(config) + Elements(added);
    assert config[0] in Folded(config, added);
  }

  lemma AddedToNone(config: seq<nat>, added: seq<nat>, topo: Topology)
    requires NoneIn(added, config) && topo.Keys == Elements(config)
    ensures Apart(added, topo)
  {
  }

  lemma Enlarged(config: seq<nat>, added: seq<nat>, smap: seq<nat>, topo: Topology, plan: Plan, job: Job, to: nat,
                 done: nat)
    requires config != [] && ShardIds(config) && InRange(added) && NoneIn(added, config)
    requires |smap| == MAX_MAP_SIZE && TopologyOf(topo, smap) && topo.Keys == Elements(config)
    requires job.smap == smap && job.targets == added && Placed(job, plan, to, done)
    requires topo.Keys <= Elements(plan.smap)
    ensures |plan.smap| == MAX_MAP_SIZE
    ensures Consistent(Folded(config, added), plan.smap) <==> AllIn(added, plan.smap)
    ensures ChangedTo(smap, plan.smap, added)
  {
    FoldedIds(config, added);
    InFolded(config, added, smap, topo, plan, job, to, done);
    hide *;
    FoldedAll(config, added, plan.smap);
  }

  /** Every vnode belongs to a shard of the new configuration, and only new shards get one. */
  lemma InFolded(config: seq<nat>, added: seq<nat>, smap: seq<nat>, topo: Topology, plan: Plan, job: Job, to: nat,
                 done: nat)
    requires TopologyOf(topo, smap) && topo.Keys == Elements(config)
    requires job.smap == smap && job.targets == added && Placed(job, plan, to, done)
    ensures |plan.smap| == |smap| && ChangedTo(smap, plan.smap, added)
    ensures forall s | s in plan.smap :: s in config || s in added
  {
    hide Cursor, Served, OwnsAll, Agrees;
    forall s | s in plan.smap ensures s in config || s in added {
      var v :| 0 <= v < |plan.smap| && plan.smap[v] == s;
      if v in plan.moves {
        assert s == plan.moves[v].dst;
      } else {
        assert smap[v] in smap && smap[v] in topo;
        assert smap[v] in Elements(config);
      }
    }
  }

  lemma FoldedAll(config: seq<nat>, added: seq<nat>, smap: seq<nat>)
    requires ShardIds(Folded(config, added)) && config != [] && |smap| == MAX_MAP_SIZE
    requires Elements(config) <= Elements(smap) && forall s | s in smap :: s in config || s in added
    ensures Consistent(Folded(config, added), smap) <==> AllIn(added, smap)
  {
    hide ShardIds;
    var folded := Folded(config, added);
    FoldedSome(config, added);
    assert forall s :: s in folded <==> s in config || s in added;
    forall s | s in config ensures s in smap { assert s in Elements(config); assert s in Elements(smap); }
  }

  lemma LeftIs(config: seq<nat>, removed: seq<nat>)
    ensures Ascends(Ascending(Elements(config) - Elements(removed)))
    ensures forall s :: s in Ascending(Elements(config) - Elements(removed)) <==> s in config && s !in removed
  {
  }

  lemma LeftIds(config: seq<nat>, stay: set<nat>)
    requires ShardIds(config) && stay <= Elements(config)
    ensures ShardIds(Ascending(stay))
  {
    var left := Ascending(stay);
    forall i | 0 <= i < |left| ensures 1 <= left[i] <= MAX_SHARD_ID {
      assert left[i] in stay;
    }
  }

  lemma Shrunk(config: seq<nat>, removed: seq<nat>, nv: nat, smap: seq<nat>, topo: Topology, plan: Plan, cur: nat)
    requires ShardIds(config) && |smap| == MAX_MAP_SIZE && TopologyOf(topo, smap) && topo.Keys == Elements(config)
    requires topo.Keys - Elements(removed) != {}
    requires Placed(RemovalJob(removed, nv, topo, smap), plan, cur, |RemovalJob(removed, nv, topo, smap).queue|)
    ensures |plan.smap| == MAX_MAP_SIZE && Consistent(Ascending(topo.Keys - Elements(removed)), plan.smap)
    ensures ChangedFrom(smap, plan.smap, removed)
  {
    var left := Ascending(topo.Keys - Elements(removed));
    hide Placed, Owns, Given, Flat, ShardIds, RemovalJob;
    RemovalMoves(removed, nv, topo, smap, plan, cur);
    forall s ensures s in left <==> s in plan.smap {
      if s in left {
        assert s in smap;
        var v :| 0 <= v < |smap| && smap[v] == s;
        assert v !in plan.moves;
        assert plan.smap[v] == s;
      }
    }
    LeftIds(config, topo.Keys - Elements(removed));
  }

  lemma LeftNonEmpty(removed: seq<nat>, nv: nat, topo: Topology, smap: seq<nat>)
    ensures RemovalJob(removed, nv, topo, smap).targets == Ascending(topo.Keys - Elements(removed))
    ensures topo.Keys - Elements(removed) != {} ==> RemovalJob(removed, nv, topo, smap).targets != []
  {
    assert (topo - Elements(removed)).Keys == topo.Keys - Elements(removed);
    if topo.Keys - Elements(removed) != {} {
      var s :| s in topo.Keys - Elements(removed);
      assert s in Ascending(topo.Keys - Elements(removed));
    }
  }

  /** The vnodes of the map the command works on suffice for every new shard. */
  predicate Suffices(config: seq<nat>, saved: seq<nat>, added: seq<nat>)
    requires config != []
  {
    var smap := Effective(config, saved);
    Supplied(added, PerShard(|smap|, |config| + |added|), Table(smap))
  }

  /** The guards passed, an addition is planned. */
  method PlanAddition(config: seq<nat>, saved: seq<nat>, added: seq<nat>) returns (smap: seq<nat>)
    requires Consistent(config, saved)
    requires InRange(added) && added != [] && NoneIn(added, config)
    requires |config| + |added| <= MAX_MAP_SIZE
    ensures Consistent(Folded(config, added), smap) <==> Suffices(config, saved, added)
    ensures ChangedTo(Effective(config, saved), smap, added)
    ensures AddedByAverage(Effective(config, saved), smap, config, added)
  {
    assert config != [] && ShardIds(config);
    hide *;
    var smap0 := Effective(config, saved);
    var topo := BuildTopology(smap0);
    EffectiveTopology(config, saved, topo);
    AddedToNone(config, added, topo);
    var nv := PerShard(|smap0|, |config| + |added|);
    ghost var keep, to, done, visited;
    var plan, after;
    plan, after, keep, to, done, visited := MigrateSharding(added, nv, topo, smap0);
    AdditionConsistent(config, added, nv, topo, smap0, plan, keep, to, done);
    SufficesIs(config, saved, added, nv);
    AdditionCounted(config, added, nv, topo, smap0, plan, keep, to, done);
    smap := plan.smap;
  }

  lemma SufficesIs(config: seq<nat>, saved: seq<nat>, added: seq<nat>, nv: nat)
    requires config != [] && nv == PerShard(|Effective(config, saved)|, |config| + |added|)
    ensures Suffices(config, saved, added) <==> Supplied(added, nv, Table(Effective(config, saved)))
  {
  }

  lemma SomeAverage(vnodes: nat, shards: nat)
    requires 0 < shards <= vnodes
    ensures PerShard(vnodes, shards) > 0
    ensures 2 * shards <= vnodes ==> PerShard(vnodes, shards) >= 2
  {
  }

  lemma AdditionConsistent(config: seq<nat>, added: seq<nat>, nv: nat, topo: Topology, smap: seq<nat>,
                           plan: Plan, keep: map<nat, nat>, to: nat, done: nat)
    requires config != [] && ShardIds(config) && InRange(added) && NoneIn(added, config)
    requires |smap| == MAX_MAP_SIZE && TopologyOf(topo, smap) && topo.Keys == Elements(config) && |topo| == |config|
    requires |config| + |added| <= MAX_MAP_SIZE && nv == PerShard(|smap|, |config| + |added|)
    requires Placed(AdditionJob(added, nv, topo, smap), plan, to, done)
    requires to == |added| || done == |AdditionJob(added, nv, topo, smap).queue|
    requires Kept(topo, keep, plan.smap) && KeepsEnough(topo, keep, nv)
    ensures Consistent(Folded(config, added), plan.smap) <==> Supplied(added, nv, topo)
    ensures ChangedTo(smap, plan.smap, added)
  {
    hide *;
    AddedToNone(config, added, topo);
    SomeAverage(MAX_MAP_SIZE, |config| + |added|);
    NewShardsOwnIff(added, nv, topo, smap, plan, to, done);
    OldShardsOwn(topo, keep, nv, smap, plan.smap);
    AdditionShape(added, nv, topo, smap);
    Enlarged(config, added, smap, topo, plan, AdditionJob(added, nv, topo, smap), to, done);
    AllInIs(added, plan.smap);
  }

  lemma AdditionCounted(config: seq<nat>, added: seq<nat>, nv: nat, topo: Topology, smap: seq<nat>,
                        plan: Plan, keep: map<nat, nat>, to: nat, done: nat)
    requires NoneIn(added, config) && (forall s | s in topo :: Ascends(topo[s]))
    requires |smap| == MAX_MAP_SIZE && TopologyOf(topo, smap) && topo.Keys == Elements(config)
    requires 0 < |config| && |config| + |added| <= MAX_MAP_SIZE && nv == PerShard(|smap|, |config| + |added|)
    requires Placed(AdditionJob(added, nv, topo, smap), plan, to, done)
    requires to == |added| || done == |AdditionJob(added, nv, topo, smap).queue|
    requires Kept(topo, keep, plan.smap) && KeepsEnough(topo, keep, nv)
    ensures AddedByAverage(smap, plan.smap, config, added)
  {
    hide *;
    AddedToNone(config, added, topo);
    SomeAverage(MAX_MAP_SIZE, |config| + |added|);
    AverageIs(|smap|, |config| + |added|);
    AdditionRebalances(added, nv, topo, smap, config, plan, to, done, keep);
    ByAverage(smap, plan.smap, config, added, nv);
  }

  lemma AverageIs(vnodes: nat, shards: nat)
    requires shards > 0
    ensures PerShard(vnodes, shards) == vnodes / shards
  {
  }

  lemma AllInIs(a: seq<nat>, b: seq<nat>)
    ensures AllIn(a, b) <==> forall s | s in a :: s in b
  {
  }

  lemma EffectiveTable(config: seq<nat>, saved: seq<nat>, added: seq<nat>)
    requires Consistent(config, saved) && NoneIn(added, config)
    ensures var smap := Effective(config, saved);
            && |smap| == MAX_MAP_SIZE && TopologyOf(Table(smap), smap) && |Table(smap)| == |config|
            && Apart(added, Table(smap))
  {
    assert config != [];
    hide *;
    var smap := Effective(config, saved);
    TableIs(smap);
    EffectiveTopology(config, saved, Table(smap));
    AddedToNone(config, added, Table(smap));
  }

  /** Up to half as many shards and new ids as there are vnodes, the vnodes suffice. */
  lemma UsuallySuffices(config: seq<nat>, saved: seq<nat>, added: seq<nat>)
    requires Consistent(config, saved) && InRange(added) && NoneIn(added, config)
    requires 2 * (|config| + |added|) <= MAX_MAP_SIZE
    ensures Suffices(config, saved, added)
  {
    hide Effective, InRange, Distinct, SameElements, NoneIn, Suffices, Table, TopologyOf, Apart, Elements;
    EffectiveTable(config, saved, added);
    UsuallyAt(config, saved, added, Effective(config, saved));
  }

  lemma UsuallyAt(config: seq<nat>, saved: seq<nat>, added: seq<nat>, smap: seq<nat>)
    requires config != [] && ShardIds(config) && InRange(added) && NoneIn(added, config)
    requires 2 * (|config| + |added|) <= MAX_MAP_SIZE
    requires smap == Effective(config, saved) && |smap| == MAX_MAP_SIZE
    requires TopologyOf(Table(smap), smap) && |Table(smap)| == |config| && Apart(added, Table(smap))
    ensures Suffices(config, saved, added)
  {
    hide *;
    FoldedIds(config, added);
    UsuallySupplied(|config|, added, smap, Table(smap));
    SufficesIs(config, saved, added, PerShard(|smap|, |config| + |added|));
  }

  lemma UsuallySupplied(c: nat, added: seq<nat>, smap: seq<nat>, topo: Topology)
    requires |smap| == MAX_MAP_SIZE && TopologyOf(topo, smap) && |topo| == c > 0 && Apart(added, topo)
    requires 2 * (c + |added|) <= MAX_MAP_SIZE && c + |Elements(added)| <= MAX_SHARD_ID
    ensures Supplied(added, PerShard(|smap|, c + |added|), topo)
  {
    hide *;
    SomeAverage(|smap|, c + |added|);
    AlwaysSupplied(added, PerShard(|smap|, c + |added|), topo, smap);
  }

  /** One new id so often repeated that another, named behind it, gets nothing. */
  lemma Starved(added: seq<nat>)
    requires added == seq(MAX_MAP_SIZE - 2, _ => 2) + [3]
    ensures Consistent([1], []) && InRange(added) && NoneIn(added, [1]) && 1 + |added| <= MAX_MAP_SIZE
    ensures !Suffices([1], [], added)
  {
    StarvedIds(added);
    assert Elements([1]) == {1};
    hide *;
    StarvedRoom(added);
    StarvedOffer([1], added);
    SufficesIs([1], [], added, 1);
    SuppliedIs(added, 1, Table(Effective([1], [])), |added| - 1);
  }

  lemma StarvedIds(added: seq<nat>)
    requires added == seq(MAX_MAP_SIZE - 2, _ => 2) + [3]
    ensures Consistent([1], []) && InRange(added) && NoneIn(added, [1]) && |added| == MAX_MAP_SIZE - 1
  {
  }

  lemma StarvedRoom(added: seq<nat>)
    requires added == seq(MAX_MAP_SIZE - 2, _ => 2) + [3]
    ensures LastNew(added) == |added| - 1 == MAX_MAP_SIZE - 2
    ensures RoomBefore(added, 1, |added| - 1) == MAX_MAP_SIZE - 2
  {
    var last := |added| - 1;
    assert added[..last] == seq(MAX_MAP_SIZE - 2, _ => 2);
    assert added[..last][0] == 2;
    assert Elements(added[..last]) == {2};
  }

  lemma StarvedOffer(config: seq<nat>, added: seq<nat>)
    requires Consistent(config, []) && config == [1] && Elements(config) == {1} && |added| == MAX_MAP_SIZE - 1
    ensures var topo := Table(Effective(config, []));
            Surplus(topo, Ascending(topo.Keys), 1) == MAX_MAP_SIZE - 2
    ensures PerShard(|Effective(config, [])|, 1 + |added|) == 1
  {
    hide Consistent, Effective, Table, Surplus;
    var smap := Effective(config, []);
    TableIs(smap);
    EffectiveTopology(config, [], Table(smap));
    LoneSurplus(1, smap, Table(smap));
  }

  lemma LoneSurplus(s: nat, smap: seq<nat>, topo: Topology)
    requires TopologyOf(topo, smap) && topo.Keys == {s}
    ensures Surplus(topo, Ascending(topo.Keys), 1) == Max(0, |smap| - 2)
  {
    var keys := Ascending(topo.Keys);
    AscendingSize(topo.Keys);
    assert keys[0] in keys;
    assert keys == [s];
    OldTotal(topo, smap);
    assert keys[..0] == [] && Flat(topo, []) == [];
    assert Flat(topo, keys) == Held(topo, s);
  }

  method PlanRemoval(config: seq<nat>, saved: seq<nat>, removed: seq<nat>)
    returns (ok: bool, left: seq<nat>, smap: seq<nat>)
    requires Consistent(config, saved) && saved != []
    requires |removed| < |config| && forall s | s in removed :: s in config
    ensures ok <==> Distinct(removed)
    ensures ok ==> left == Ascending(Elements(config) - Elements(removed)) && left != [] && Consistent(left, smap)
    ensures ok ==> ChangedFrom(saved, smap, removed)
    ensures ok ==> RemovedByAverage(saved, smap, |config| - |removed|, left)
  {
    assert ShardIds(config) && Effective(config, saved) == saved;
    assert forall s | s in removed :: s in Elements(config);
    hide *;
    var nv := PerShard(|saved|, |config| - |removed|);
    var topo := BuildTopology(saved);
    EffectiveTopology(config, saved, topo);
    if Distinct(removed) { RemovalFits(removed, nv, topo, saved); }
    var plan;
    ok, left, plan := RemoveSharding(removed, nv, topo, saved);
    smap := plan.smap;
    if ok {
      ghost var job := RemovalJob(removed, nv, topo, saved);
      ghost var cur: nat :| Placed(job, plan, cur, |job.queue|);
      Shrunk(config, removed, nv, saved, topo, plan, cur);
      AverageIs(|saved|, |config| - |removed|);
      RemovalCounts(removed, nv, topo, saved, plan, cur);
      RelievedByAverage(saved, smap, |config| - |removed|, left, nv);
      LeftNonEmpty(removed, nv, topo, saved);
    }
  }

  /** Whose turn it is. */
  function Turn(v: nat, n: nat): (k: nat)
    requires n > 0
    ensures k < n && (v < n ==> k == v) && k == v % n
  {
    v % n
  }

  method Deal(shards: seq<nat>) returns (m: seq<nat>)
    requires shards != [] && ShardIds(shards)
    ensures |m| == 0xFFFF && forall v | 0 <= v < |m| :: m[v] == shards[v % |shards|]
    ensures SameElements(shards, m)
  {
    FewShards(shards);
    hide ShardIds, Distinct, Turn;
    m := [];
    for i := 0 to MAX_MAP_SIZE
      invariant |m| == i && forall k | 0 <= k < i :: m[k] == shards[Turn(k, |shards|)]
    {
      m := m + [shards[Turn(i, |shards|)]];
    }
    DealtToAll(shards, m);
  }

  lemma DealtToAll(shards: seq<nat>, m: seq<nat>)
    requires shards != [] && |shards| <= |m|
    requires forall v | 0 <= v < |m| :: m[v] == shards[Turn(v, |shards|)]
    ensures SameElements(shards, m)
    ensures forall v | 0 <= v < |m| :: m[v] == shards[v % |shards|]
  {
    hide Turn;
    forall s | s in shards ensures s in m {
      var k :| 0 <= k < |shards| && shards[k] == s;
      assert m[k] == s;
    }
    forall v | 0 <= v < |m| ensures m[v] == shards[v % |shards|] { assert Turn(v, |shards|) == v % |shards|; }
  }

  class Master {
    var config: seq<nat>
    var saved: seq<nat>

    ghost predicate Valid()
      reads this
    {
      Consistent(config, saved)
    }

    /** First start: with several shards the vnodes are dealt out in turn. */
    constructor (shards: seq<nat>)
      requires shards != [] && ShardIds(shards)
      ensures Valid() && config == shards
    {
      config := shards;
      saved := [];
      new;
      if |shards| > 1 {
        saved := Deal(shards);
      }
    }

    /** The guards of an addition. */
    method MayAdd(added: seq<nat>) returns (ok: bool)
      requires Valid()
      ensures ok <==> added != [] && NoneIn(added, config) && |config| + |added| <= MAX_MAP_SIZE
    {
      EffectiveSize(config, saved);
      if added == [] {
        return false;
      }
      for i := 0 to |added|
        invariant forall k | 0 <= k < i :: added[k] !in config
      {
        if added[i] in config {
          return false;
        }
      }
      var smap := Effective(config, saved);
      ok := smap != [] && |smap| >= |config| + |added|;
    }

    /** `migrated` is the outcome of the migration protocol. An id may be repeated; a shard without vnodes
        can only come of tens of thousands of repetitions. */
    method AddNewShardingNodes(added: seq<nat>, migrated: bool) returns (ok: bool)
      requires Valid() && InRange(added)
      modifies this
      ensures config != [] && old(config) != []
      ensures Valid() <==> !ok || Suffices(old(config), old(saved), added)
      ensures 2 * (|old(config)| + |added|) <= MAX_MAP_SIZE ==> Valid()
      ensures ok <==>
        && migrated && added != [] && NoneIn(added, old(config))
        && |old(config)| + |added| <= MAX_MAP_SIZE
      ensures !ok ==> config == old(config) && saved == old(saved)
      ensures ok ==> config == Folded(old(config), added)
      ensures ok ==> (forall s :: s in config <==> s in old(config) || s in added) && Ascends(config)
      ensures ok ==> ChangedTo(Effective(old(config), old(saved)), saved, added)
      ensures ok ==> AddedByAverage(Effective(old(config), old(saved)), saved, old(config), added)
    {
      EffectiveSize(config, saved);
      var pass := MayAdd(added);
      if !pass { return false; }
      hide *;
      if 2 * (|config| + |added|) <= MAX_MAP_SIZE { UsuallySuffices(config, saved, added); }
      var smap := PlanAddition(config, saved, added);
      if !migrated { return false; }
      FoldedSome(config, added);
      FoldedIs(config, added);
      saved := smap;
      config := Folded(config, added);
      ok := true;
    }

    /** The guards of a removal. */
    method MayRemove(removed: seq<nat>) returns (ok: bool)
      requires Valid()
      ensures ok <==> removed != [] && |removed| < |config| && forall s | s in removed :: s in config
      ensures ok ==> saved != []
    {
      if removed == [] || |config| == 1 || |removed| >= |config| {
        return false;
      }
      for i := 0 to |removed|
        invariant forall k | 0 <= k < i :: removed[k] in config
      {
        if removed[i] !in config {
          return false;
        }
      }
      ok := saved != [];
    }

    /** Removal fails only on its guards, on a repeated id, or when the migration fails. */
    method RemoveShardingNodes(removed: seq<nat>, migrated: bool) returns (ok: bool)
      requires Valid()
      modifies this
      ensures Valid()
      ensures ok <==>
        && migrated && removed != [] && |removed| < |old(config)|
        && (forall s | s in removed :: s in old(config)) && Distinct(removed)
      ensures !ok ==> config == old(config) && saved == old(saved)
      ensures ok ==> config == Ascending(Elements(old(config)) - Elements(removed))
      ensures ok ==> (forall s :: s in config <==> s in old(config) && s !in removed) && Ascends(config)
      ensures ok ==> ChangedFrom(old(saved), saved, removed)
      ensures ok ==> RemovedByAverage(old(saved), saved, |old(config)| - |removed|, config)
    {
      var pass := MayRemove(removed);
      if !pass { return false; }
      hide *;
      var left, smap;
      ok, left, smap := PlanRemoval(config, saved, removed);
      if !ok || left == [] || !migrated { return false; }
      LeftIs(config, removed);
      saved := smap;
      config := left;
    }
  }
}
