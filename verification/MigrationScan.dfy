/** Getting the migration going: the migration list grouped by source shard, and the scan every source
    makes of its documents. Both give the protocol exactly the copies it starts from. */
module MigrationScan {
  import opened Orders
  import opened Sharding
  import opened Migration

  /** target shard -> the vnodes one source is to send there */
  type VNodeList = map<nat, seq<nat>>

  ghost predicate Lists(list: VNodeList, moves: map<nat, Move>, src: nat) {
    && (forall t | t in list :: Ascends(list[t]) && forall v | v in list[t] :: v in moves && moves[v] == Move(src, t))
    && (forall v | v in moves && moves[v].src == src :: moves[v].dst in list && v in list[moves[v].dst])
  }

  /** The grouped list is the migration list, source by source. */
  ghost predicate Grouped(groups: map<nat, VNodeList>, moves: map<nat, Move>) {
    && (forall s | s in groups :: Lists(groups[s], moves, s))
    && (forall v | v in moves :: moves[v].src in groups)
  }

  function Listed(list: VNodeList, t: nat): seq<nat> {
    if t in list then list[t] else []
  }

  function Group(groups: map<nat, VNodeList>, s: nat): VNodeList {
    if s in groups then groups[s] else map[]
  }

  function AddMove(groups: map<nat, VNodeList>, v: nat, m: Move): map<nat, VNodeList> {
    groups[m.src := Group(groups, m.src)[m.dst := Listed(Group(groups, m.src), m.dst) + [v]]]
  }

  ghost function Restrict(moves: map<nat, Move>, vs: seq<nat>): map<nat, Move> {
    map v | v in moves && v in vs :: moves[v]
  }

  lemma ListOne(list: VNodeList, was: map<nat, Move>, now: map<nat, Move>, v: nat, m: Move, s: nat)
    requires Lists(list, was, s) && v in now && now[v] == m
    requires (forall u :: u in now <==> u in was || u == v) && (forall u | u in was :: was[u] == now[u] && u < v)
    ensures if s == m.src then Lists(list[m.dst := Listed(list, m.dst) + [v]], now, s) else Lists(list, now, s)
  {
    if s == m.src && m.dst in list { AscendsMore(list[m.dst], v); }
  }

  lemma AscendsMore(list: seq<nat>, v: nat)
    requires Ascends(list) && forall u | u in list :: u < v
    ensures Ascends(list + [v])
  {
    forall i | 0 <= i < |list| ensures list[i] < v { assert list[i] in list; }
  }

  lemma GroupOne(groups: map<nat, VNodeList>, moves: map<nat, Move>, vs: seq<nat>, v: nat)
    requires Grouped(groups, Restrict(moves, vs)) && v in moves && forall u | u in vs :: u < v
    ensures Grouped(AddMove(groups, v, moves[v]), Restrict(moves, vs + [v]))
  {
    hide Lists;
    var m, was, now := moves[v], Restrict(moves, vs), Restrict(moves, vs + [v]);
    assert forall u :: u in now <==> u in was || u == v;
    NoMoves(was, m.src, groups);
    forall s | s in AddMove(groups, v, m) ensures Lists(AddMove(groups, v, m)[s], now, s) {
      ListOne(Group(groups, s), was, now, v, m, s);
    }
  }

  lemma NoMoves(moves: map<nat, Move>, s: nat, groups: map<nat, VNodeList>)
    requires Grouped(groups, moves)
    ensures Lists(Group(groups, s), moves, s)
  {
  }

  /** The first loop of the protocol; it gives up at a source shard whose address is unknown. */
  method GroupMoves(moves: map<nat, Move>, known: set<nat>) returns (ok: bool, groups: map<nat, VNodeList>)
    ensures ok <==> AllKnown(moves, moves.Keys, known)
    ensures ok ==> Grouped(groups, moves)
  {
    var vs := InOrder(moves.Keys);
    groups := map[];
    GroupStart(moves, vs, known);
    hide *;
    for i := 0 to |vs|
      invariant GroupedTo(groups, moves, vs, i, known)
    {
      GroupStep(groups, moves, vs, i, known);
      if moves[vs[i]].src !in known {
        return false, groups;
      }
      groups := AddMove(groups, vs[i], moves[vs[i]]);
    }
    GroupEnd(groups, moves, vs, known);
    ok := true;
  }

  ghost predicate GroupedTo(groups: map<nat, VNodeList>, moves: map<nat, Move>, vs: seq<nat>, i: nat, known: set<nat>)
    requires i <= |vs|
  {
    && Elements(vs) == moves.Keys && Ascends(vs)
    && Grouped(groups, Restrict(moves, vs[..i])) && AllKnown(moves, Elements(vs[..i]), known)
  }

  lemma GroupStart(moves: map<nat, Move>, vs: seq<nat>, known: set<nat>)
    requires Elements(vs) == moves.Keys && Ascends(vs)
    ensures GroupedTo(map[], moves, vs, 0, known)
  {
  }

  lemma GroupStep(groups: map<nat, VNodeList>, moves: map<nat, Move>, vs: seq<nat>, i: nat, known: set<nat>)
    requires i < |vs| && GroupedTo(groups, moves, vs, i, known)
    ensures vs[i] in moves
    ensures moves[vs[i]].src in known ==> GroupedTo(AddMove(groups, vs[i], moves[vs[i]]), moves, vs, i + 1, known)
    ensures moves[vs[i]].src !in known ==> !AllKnown(moves, moves.Keys, known)
  {
    hide Grouped, Restrict, AddMove;
    assert vs[i] in Elements(vs);
    assert forall u | u in vs[..i] :: u < vs[i];
    GroupOne(groups, moves, vs[..i], vs[i]);
    assert vs[..i + 1] == vs[..i] + [vs[i]];
    assert Elements(vs[..i + 1]) == Elements(vs[..i]) + {vs[i]};
  }

  lemma GroupEnd(groups: map<nat, VNodeList>, moves: map<nat, Move>, vs: seq<nat>, known: set<nat>)
    requires GroupedTo(groups, moves, vs, |vs|, known)
    ensures Grouped(groups, moves) && AllKnown(moves, moves.Keys, known)
  {
    assert vs[..|vs|] == vs;
    assert forall v | v in moves :: v in Elements(vs);
    assert Restrict(moves, vs) == moves;
  }

  /** Every source shard among these moves has a known address. */
  predicate AllKnown(moves: map<nat, Move>, vs: set<nat>, known: set<nat>) {
    forall v | v in vs && v in moves :: moves[v].src in known
  }

  method InOrder(s: set<nat>) returns (vs: seq<nat>)
    ensures Elements(vs) == s && Ascends(vs)
  {
    vs := Ascending(s);
    assert Elements(vs) == s;
  }

  // ---------------------------------------------------------------- the scan

  /** One docid of the document table: deleted, absent, without a unique key, or live. */
  datatype Slot = Deleted | Absent | Keyless | Live(doc: Doc)

  /** Where a vnode goes: the first target listing it, 0 for none. */
  function Route(list: VNodeList, targets: seq<nat>, v: nat): nat {
    if targets == [] then 0
    else if v in Listed(list, targets[0]) then targets[0]
    else Route(list, targets[1..], v)
  }

  function RouteOf(list: VNodeList, c: Setup, d: Doc): nat
    requires c.before != []
  {
    Route(list, Ascending(list.Keys), VNode(c, d))
  }

  /** The documents among the slots bound for target `t`, in docid order. */
  function Selected(slots: seq<Slot>, list: VNodeList, c: Setup, t: nat): seq<Doc>
    requires c.before != []
  {
    if slots == [] then [] else
      var last := slots[|slots| - 1];
      Selected(slots[..|slots| - 1], list, c, t)
      + if last.Live? && RouteOf(list, c, last.doc) == t then [last.doc] else []
  }

  /** ... bound for any target. */
  function Leaving(slots: seq<Slot>, list: VNodeList, c: Setup): seq<Doc>
    requires c.before != []
  {
    if slots == [] then [] else
      var last := slots[|slots| - 1];
      Leaving(slots[..|slots| - 1], list, c)
      + if last.Live? && RouteOf(list, c, last.doc) != 0 then [last.doc] else []
  }

  method FindShard(list: VNodeList, v: nat) returns (found: nat)
    ensures found == Route(list, Ascending(list.Keys), v)
    ensures if exists t :: t in list && v in list[t]
            then found in list && v in list[found] && forall t | t in list && t < found :: v !in list[t]
            else found == 0
  {
    var targets := Ascending(list.Keys);
    found := 0;
    hide Ascending, Listed;
    for i := 0 to |targets|
      invariant Route(list, targets[i..], v) == Route(list, targets, v)
      invariant found == 0
    {
      if v in Listed(list, targets[i]) {
        found := targets[i];
        RouteLeast(list, v);
        return;
      }
    }
    RouteLeast(list, v);
  }

  /** The least target whose list has the vnode. */
  lemma RouteLeast(list: VNodeList, v: nat)
    ensures var t := Route(list, Ascending(list.Keys), v);
            if exists s :: s in list && v in list[s]
            then t in list && v in list[t] && forall s | s in list && s < t :: v !in list[s]
            else t == 0
  {
    var targets := Ascending(list.Keys);
    RouteFirst(list, targets, v);
    if s :| s in list && v in list[s] {
      assert s in targets;
      var k :| 0 <= k < |targets| && targets[k] == s;
      assert v in Listed(list, targets[k]);
    }
    forall s | s in list ensures exists k :: 0 <= k < |targets| && targets[k] == s { assert s in targets; }
  }

  lemma {:induction false} RouteFirst(list: VNodeList, targets: seq<nat>, v: nat)
    ensures (forall k | 0 <= k < |targets| :: v !in Listed(list, targets[k])) ==> Route(list, targets, v) == 0
    ensures forall k | 0 <= k < |targets| && v in Listed(list, targets[k]) ::
      (forall l | 0 <= l < k :: v !in Listed(list, targets[l])) ==> Route(list, targets, v) == targets[k]
    ensures (exists k :: 0 <= k < |targets| && v in Listed(list, targets[k])) ==>
      exists k ::
        && 0 <= k < |targets| && v in Listed(list, targets[k]) && Route(list, targets, v) == targets[k]
        && forall l | 0 <= l < k :: v !in Listed(list, targets[l])
    decreases |targets|
  {
    if targets != [] && v !in Listed(list, targets[0]) {
      var rest := targets[1..];
      RouteFirst(list, rest, v);
      assert forall k | 0 < k < |targets| :: targets[k] == rest[k - 1];
      assert forall k | 0 <= k < |rest| :: rest[k] == targets[k + 1];
    }
  }

  /** Document by document: slot `i` of those bound for `t` stands behind as many as come before it. */
  lemma {:induction false} SelectedAt(slots: seq<Slot>, list: VNodeList, c: Setup, t: nat, i: nat)
    requires c.before != [] && i < |slots| && slots[i].Live? && RouteOf(list, c, slots[i].doc) == t
    ensures |Selected(slots[..i], list, c, t)| < |Selected(slots, list, c, t)|
    ensures Selected(slots, list, c, t)[|Selected(slots[..i], list, c, t)|] == slots[i].doc
    ensures |Selected(slots[..i + 1], list, c, t)| == |Selected(slots[..i], list, c, t)| + 1
    decreases |slots|
  {
    hide RouteOf;
    var n := |slots| - 1;
    assert slots[..i + 1][..i] == slots[..i];
    if i < n {
      SelectedAt(slots[..n], list, c, t, i);
      assert slots[..n][..i] == slots[..i] && slots[..n][..i + 1] == slots[..i + 1];
    } else {
      assert slots[..i + 1] == slots;
    }
  }

  lemma {:induction false} LeavingAt(slots: seq<Slot>, list: VNodeList, c: Setup, i: nat)
    requires c.before != [] && i < |slots| && slots[i].Live? && RouteOf(list, c, slots[i].doc) != 0
    ensures |Leaving(slots[..i], list, c)| < |Leaving(slots, list, c)|
    ensures Leaving(slots, list, c)[|Leaving(slots[..i], list, c)|] == slots[i].doc
    ensures |Leaving(slots[..i + 1], list, c)| == |Leaving(slots[..i], list, c)| + 1
    decreases |slots|
  {
    hide RouteOf;
    var n := |slots| - 1;
    assert slots[..i + 1][..i] == slots[..i];
    if i < n {
      LeavingAt(slots[..n], list, c, i);
      assert slots[..n][..i] == slots[..i] && slots[..n][..i + 1] == slots[..i + 1];
    } else {
      assert slots[..i + 1] == slots;
    }
  }

  /** A slot that is not live or goes nowhere adds nothing. */
  lemma SelectedSkips(slots: seq<Slot>, list: VNodeList, c: Setup, t: nat, i: nat)
    requires c.before != [] && i < |slots| && !(slots[i].Live? && RouteOf(list, c, slots[i].doc) == t)
    ensures Selected(slots[..i + 1], list, c, t) == Selected(slots[..i], list, c, t)
  {
    assert slots[..i + 1][..i] == slots[..i];
  }

  /** One insert SCD per target that gets something, holding what it gets. */
  ghost predicate ScdsAre(inserts: map<nat, seq<Doc>>, slots: seq<Slot>, list: VNodeList, c: Setup)
    requires c.before != []
  {
    && (forall t: nat | t != 0 :: Selected(slots, list, c, t) == ScdFor(inserts, t))
    && (forall t | t in inserts :: t != 0 && inserts[t] != [])
  }

  function ScdFor(inserts: map<nat, seq<Doc>>, t: nat): seq<Doc> {
    if t in inserts then inserts[t] else []
  }

  lemma SelectedStep(slots: seq<Slot>, slot: Slot, list: VNodeList, c: Setup, t: nat, found: nat)
    requires c.before != [] && t != 0
    requires found == if slot.Live? then RouteOf(list, c, slot.doc) else 0
    ensures Selected(slots + [slot], list, c, t) ==
            if found == t then Selected(slots, list, c, t) + [slot.doc] else Selected(slots, list, c, t)
  {
    assert (slots + [slot])[..|slots|] == slots;
  }

  lemma LeavingStep(slots: seq<Slot>, slot: Slot, list: VNodeList, c: Setup, found: nat)
    requires c.before != []
    requires found == if slot.Live? then RouteOf(list, c, slot.doc) else 0
    ensures Leaving(slots + [slot], list, c) ==
            if found != 0 then Leaving(slots, list, c) + [slot.doc] else Leaving(slots, list, c)
  {
    assert (slots + [slot])[..|slots|] == slots;
  }

  lemma ScanStep(inserts: map<nat, seq<Doc>>, slots: seq<Slot>, slot: Slot, list: VNodeList, c: Setup, found: nat)
    requires c.before != [] && ScdsAre(inserts, slots, list, c)
    requires found == if slot.Live? then RouteOf(list, c, slot.doc) else 0
    ensures found == 0 ==> ScdsAre(inserts, slots + [slot], list, c)
    ensures found != 0 ==> ScdsAre(inserts[found := ScdFor(inserts, found) + [slot.doc]], slots + [slot], list, c)
  {
    hide Selected, RouteOf;
    var after := if found == 0 then inserts else inserts[found := ScdFor(inserts, found) + [slot.doc]];
    forall t: nat | t != 0 ensures Selected(slots + [slot], list, c, t) == ScdFor(after, t) {
      SelectedStep(slots, slot, list, c, t, found);
    }
  }

  lemma ScanStart(slots: seq<Slot>, list: VNodeList, c: Setup)
    requires c.before != []
    ensures ScdsAre(map[], slots[..0], list, c) && Leaving(slots[..0], list, c) == []
  {
  }

  method GenerateMigrateScd(slots: seq<Slot>, list: VNodeList, c: Setup)
    returns (inserts: map<nat, seq<Doc>>, deletes: seq<Doc>)
    requires c.before != []
    ensures ScdsAre(inserts, slots, list, c)
    ensures deletes == Leaving(slots, list, c)
  {
    inserts, deletes := map[], [];
    ScanStart(slots, list, c);
    hide ScdsAre, Selected, Leaving, Route, VNode, ScdFor;
    for i := 0 to |slots|
      invariant ScdsAre(inserts, slots[..i], list, c)
      invariant deletes == Leaving(slots[..i], list, c)
    {
      var found := 0;
      if slots[i].Live? {
        found := FindShard(list, VNode(c, slots[i].doc));
      }
      ScanStep(inserts, slots[..i], slots[i], list, c, found);
      LeavingStep(slots[..i], slots[i], list, c, found);
      assert slots[..i + 1] == slots[..i] + [slots[i]];
      if found != 0 {
        inserts := inserts[found := ScdFor(inserts, found) + [slots[i].doc]];
        deletes := deletes + [slots[i].doc];
      }
    }
    assert slots[..|slots|] == slots;
  }

  // ---------------------------------------------------------------- what the scan hands to the protocol

  lemma {:induction false} SelectedIs(slots: seq<Slot>, list: VNodeList, c: Setup, t: nat, d: Doc)
    requires c.before != []
    ensures d in Selected(slots, list, c, t) <==> Live(d) in slots && RouteOf(list, c, d) == t
    decreases |slots|
  {
    if slots != [] { SelectedIs(slots[..|slots| - 1], list, c, t, d); }
  }

  lemma {:induction false} LeavingIs(slots: seq<Slot>, list: VNodeList, c: Setup, d: Doc)
    requires c.before != []
    ensures d in Leaving(slots, list, c) <==> Live(d) in slots && RouteOf(list, c, d) != 0
    decreases |slots|
  {
    if slots != [] { LeavingIs(slots[..|slots| - 1], list, c, d); }
  }

  lemma {:induction false} RouteIs(list: VNodeList, targets: seq<nat>, v: nat)
    ensures var t := Route(list, targets, v);
            if exists k :: 0 <= k < |targets| && v in Listed(list, targets[k])
            then t in targets && v in Listed(list, t) else t == 0
    decreases |targets|
  {
    if targets != [] {
      RouteIs(list, targets[1..], v);
      if k :| 0 <= k < |targets| && v in Listed(list, targets[k]) && k > 0 {
        assert targets[k] == targets[1..][k - 1];
      }
    }
  }

  /** With the lists of the plan, a document is routed to the target its vnode moves to. */
  lemma RouteIsMove(list: VNodeList, c: Setup, src: nat, d: Doc)
    requires c.before != [] && Lists(list, c.moves, src) && 0 !in list
    ensures var v := VNode(c, d);
            RouteOf(list, c, d) == if v in c.moves && c.moves[v].src == src then c.moves[v].dst else 0
  {
    var v, targets := VNode(c, d), Ascending(list.Keys);
    RouteIs(list, targets, v);
    if v in c.moves && c.moves[v].src == src {
      assert c.moves[v].dst in targets;
      var k :| 0 <= k < |targets| && targets[k] == c.moves[v].dst;
      assert v in Listed(list, targets[k]);
    }
  }

  /** The generated SCDs of one source are exactly its share of what the protocol starts from. */
  lemma ScanIsProtocol(slots: seq<Slot>, list: VNodeList, c: Setup, src: nat, stored: set<Copy>, d: Doc, t: nat)
    requires c.before != [] && Lists(list, c.moves, src) && 0 !in list && t != 0
    requires Copy(src, d) in stored <==> Live(d) in slots
    ensures d in Selected(slots, list, c, t) <==>
      Copy(src, d) in stored && VNode(c, d) in c.moves && c.moves[VNode(c, d)] == Move(src, t)
    ensures d in Leaving(slots, list, c) <==> Copy(src, d) in DeleteScds(c, stored)
    ensures d in Selected(slots, list, c, t) ==> Copy(t, d) in InsertScds(c, stored)
  {
    SelectedIs(slots, list, c, t, d);
    LeavingIs(slots, list, c, d);
    RouteIsMove(list, c, src, d);
  }
}
