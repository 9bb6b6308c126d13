/** Turning an API value into an SCD document (`value2SCDDoc`): the DOCID goes first, because the
    properties behind it are written over the values it brings along from the old version. */
module ScdDocument {
  import opened Orders

  datatype Property = Property(name: string, text: string)

  const BLANK := Property("", "")

  /** `boost::iequals(name, DOCID)` */
  predicate IsDocid(name: string) {
    && |name| == 5
    && ToLower(name[0]) == 'd' && ToLower(name[1]) == 'o' && ToLower(name[2]) == 'c'
    && ToLower(name[3]) == 'i' && ToLower(name[4]) == 'd'
  }

  /** Letter by letter, in either case. */
  lemma IsDocidIff(name: string)
    ensures IsDocid(name) <==> |name| == 5 && forall k | 0 <= k < 5 :: name[k] == "DOCID"[k] || name[k] == "docid"[k]
  {
  }

  function Others(value: seq<Property>): (r: seq<Property>)
    ensures |r| <= |value|
    decreases |value|
  {
    if value == [] then [] else
      var p := value[|value| - 1];
      Others(value[..|value| - 1]) + if IsDocid(p.name) then [] else [p]
  }

  function LastDocid(value: seq<Property>): Property
    decreases |value|
  {
    if value == [] then BLANK else
      var p := value[|value| - 1];
      if IsDocid(p.name) then p else LastDocid(value[..|value| - 1])
  }

  predicate HasDocid(value: seq<Property>) {
    exists i | 0 <= i < |value| :: IsDocid(value[i].name)
  }

  predicate OneDocid(value: seq<Property>) {
    && HasDocid(value)
    && forall i, j | 0 <= i < j < |value| :: !(IsDocid(value[i].name) && IsDocid(value[j].name))
  }

  predicate DistinctNames(value: seq<Property>) {
    forall i, j | 0 <= i < j < |value| :: value[i].name != value[j].name
  }

  /** The slot entry `i` is written to: 0 for a DOCID, else one more than the others before it. */
  function Slot(value: seq<Property>, i: nat): nat
    requires i < |value|
  {
    if IsDocid(value[i].name) then 0 else 1 + |Others(value[..i])|
  }

  function Blanks(n: nat): seq<Property> { seq(n, _ => BLANK) }

  /** The document that results: the last DOCID, the other properties in order, then the slots that
      surplus DOCIDs left empty. */
  function Arranged(value: seq<Property>): (r: seq<Property>)
    requires value != [] ==> |Others(value)| < |value|
    ensures |r| == |value|
  {
    if value == [] then [] else
      [LastDocid(value)] + Others(value) + Blanks(|value| - 1 - |Others(value)|)
  }

  lemma {:induction false} OthersGrow(value: seq<Property>, i: nat)
    requires i <= |value|
    ensures |Others(value[..i])| <= |Others(value)| <= |Others(value[..i])| + |value| - i
    decreases |value| - i
  {
    if i < |value| {
      OthersGrow(value, i + 1);
      assert value[..i + 1][..i] == value[..i];
    } else {
      assert value[..i] == value;
    }
  }

  lemma {:induction false} FewerOthers(value: seq<Property>)
    ensures |Others(value)| < |value| <==> HasDocid(value)
    ensures !HasDocid(value) ==> Others(value) == value
    decreases |value|
  {
    if value != [] {
      var n := |value| - 1;
      FewerOthers(value[..n]);
      if HasDocid(value) && !IsDocid(value[n].name) {
        var i :| 0 <= i < |value| && IsDocid(value[i].name);
        assert value[..n][i] == value[i];
      }
    }
  }

  /** Taken by itself (its callers in the API see to the key DOCID): every write stays inside the document
      exactly if there is a DOCID (or nothing at all). */
  lemma InBoundsIff(value: seq<Property>)
    ensures (forall i | 0 <= i < |value| :: Slot(value, i) < |value|) <==> value == [] || HasDocid(value)
  {
    FewerOthers(value);
    if value != [] {
      if HasDocid(value) {
        forall i | 0 <= i < |value| ensures Slot(value, i) < |value| {
          if !IsDocid(value[i].name) {
            OthersGrow(value, i + 1);
            assert value[..i + 1][..i] == value[..i];
          }
        }
      } else {
        var n := |value| - 1;
        assert Slot(value, n) == |value| by { FewerOthers(value[..n]); }
      }
    }
  }

  /** The document while the first `i` entries are written. */
  ghost predicate Written(value: seq<Property>, i: nat, scddoc: seq<Property>) {
    && i <= |value| && 1 + |Others(value[..i])| <= |value|
    && scddoc == [LastDocid(value[..i])] + Others(value[..i]) + Blanks(|value| - 1 - |Others(value[..i])|)
  }

  lemma WrittenStep(value: seq<Property>, i: nat, scddoc: seq<Property>)
    requires |Others(value)| < |value| && i < |value| && Written(value, i, scddoc)
    ensures |scddoc| == |value| && Slot(value, i) < |scddoc|
    ensures Written(value, i + 1, scddoc[Slot(value, i) := value[i]])
    ensures |Others(value[..i + 1])| == |Others(value[..i])| + if IsDocid(value[i].name) then 0 else 1
  {
    assert value[..i + 1][..i] == value[..i];
    OthersGrow(value, i + 1);
    var others, p := Others(value[..i]), value[i];
    var left := |value| - 1 - |others|;
    if IsDocid(p.name) {
      assert scddoc[0 := p] == [p] + others + Blanks(left);
    } else {
      assert scddoc[1 + |others| := p] == [LastDocid(value[..i])] + (others + [p]) + Blanks(left - 1);
    }
  }

  method Value2SCDDoc(value: seq<Property>) returns (scddoc: seq<Property>)
    requires value == [] || HasDocid(value)
    ensures value != [] ==> |Others(value)| < |value|
    ensures scddoc == Arranged(value)
  {
    FewerOthers(value);
    scddoc := Blanks(|value|);
    if value == [] { return; }
    assert value[..0] == [] && Written(value, 0, scddoc);
    var propertyId := 1;
    var i := 0;
    while i < |value|
      invariant Written(value, i, scddoc)
      invariant propertyId == 1 + |Others(value[..i])|
      decreases |value| - i
    {
      WrittenStep(value, i, scddoc);
      var insertto := propertyId;
      if IsDocid(value[i].name) {
        insertto := 0;
        propertyId := propertyId - 1;
      }
      scddoc := scddoc[insertto := value[i]];
      propertyId := propertyId + 1;
      i := i + 1;
    }
    assert value[..i] == value;
  }

  /** Who is in the result. */
  lemma {:induction false} OthersAre(value: seq<Property>, p: Property)
    ensures p in Others(value) <==> p in value && !IsDocid(p.name)
    decreases |value|
  {
    if value != [] {
      var n := |value| - 1;
      OthersAre(value[..n], p);
      assert value == value[..n] + [value[n]];
    }
  }

  lemma {:induction false} LastDocidIs(value: seq<Property>)
    requires HasDocid(value)
    ensures exists i :: 0 <= i < |value| && LastDocid(value) == value[i] && IsDocid(value[i].name)
                        && forall j | i < j < |value| :: !IsDocid(value[j].name)
    decreases |value|
  {
    var n := |value| - 1;
    if !IsDocid(value[n].name) {
      var k :| 0 <= k < |value| && IsDocid(value[k].name);
      assert value[..n][k] == value[k];
      LastDocidIs(value[..n]);
      var i :| 0 <= i < n && LastDocid(value[..n]) == value[..n][i] && IsDocid(value[i].name)
               && forall j | i < j < n :: !IsDocid(value[..n][j].name);
      forall j | i < j < |value| ensures !IsDocid(value[j].name) {
        if j < n { assert value[..n][j] == value[j]; }
      }
    }
  }

  lemma {:induction false} OthersCount(value: seq<Property>)
    ensures |Others(value)| == |set k: nat | k < |value| && !IsDocid(value[k].name)|
    decreases |value|
  {
    hide IsDocid;
    if value != [] {
      var n := |value| - 1;
      OthersCount(value[..n]);
      var less := set k: nat | k < n && !IsDocid(value[..n][k].name);
      var all := set k: nat | k < |value| && !IsDocid(value[k].name);
      if IsDocid(value[n].name) { assert all == less; } else { assert all == less + {n}; }
    }
  }

  /** The document by places: first the last DOCID, then every other property behind as many as precede it
      in the value, then blanks. */
  lemma ArrangedAt(value: seq<Property>)
    requires HasDocid(value)
    ensures |Others(value)| < |value|
    ensures exists i :: 0 <= i < |value| && Arranged(value)[0] == value[i] && IsDocid(value[i].name)
                        && forall j | i < j < |value| :: !IsDocid(value[j].name)
    ensures forall i: nat | i < |value| && !IsDocid(value[i].name) ::
      var at := 1 + |set k: nat | k < i && !IsDocid(value[k].name)|;
      at < |value| && Arranged(value)[at] == value[i]
    ensures forall p | |set k: nat | k < |value| && !IsDocid(value[k].name)| < p < |value| ::
      Arranged(value)[p] == Property("", "")
  {
    FewerOthers(value);
    LastDocidIs(value);
    OthersCount(value);
    assert Arranged(value)[0] == LastDocid(value);
    forall i: nat | i < |value| && !IsDocid(value[i].name)
      ensures var at := 1 + |set k: nat | k < i && !IsDocid(value[k].name)|;
              at < |value| && Arranged(value)[at] == value[i]
    {
      OtherAt(value, i);
    }
  }

  lemma {:induction false} OtherAt(value: seq<Property>, i: nat)
    requires i < |value| && !IsDocid(value[i].name)
    ensures |set k: nat | k < i && !IsDocid(value[k].name)| < |Others(value)|
    ensures Others(value)[|set k: nat | k < i && !IsDocid(value[k].name)|] == value[i]
    decreases |value|
  {
    hide IsDocid;
    var n := |value| - 1;
    if i == n {
      OthersCount(value[..n]);
      assert (set k: nat | k < n && !IsDocid(value[..n][k].name)) == set k: nat | k < n && !IsDocid(value[k].name);
    } else {
      OtherAt(value[..n], i);
      assert (set k: nat | k < i && !IsDocid(value[..n][k].name)) == set k: nat | k < i && !IsDocid(value[k].name);
    }
  }

  /** With one DOCID among distinct names nothing is lost: the result is that DOCID followed by the
      other properties in order. */
  lemma {:induction false} OneDocidSplit(value: seq<Property>)
    requires OneDocid(value)
    ensures |Others(value)| == |value| - 1
    ensures multiset(Others(value) + [LastDocid(value)]) == multiset(value)
    decreases |value|
  {
    var n := |value| - 1;
    var rest, p := value[..n], value[n];
    assert value == rest + [p];
    if IsDocid(p.name) {
      assert !HasDocid(rest) by {
        forall i | 0 <= i < n ensures !IsDocid(rest[i].name) { assert rest[i] == value[i]; }
      }
      FewerOthers(rest);
    } else {
      assert HasDocid(rest) by {
        var k :| 0 <= k < |value| && IsDocid(value[k].name);
        assert rest[k] == value[k];
      }
      assert OneDocid(rest) by {
        forall i, j | 0 <= i < j < n ensures !(IsDocid(rest[i].name) && IsDocid(rest[j].name)) {
          assert rest[i] == value[i] && rest[j] == value[j];
        }
      }
      OneDocidSplit(rest);
      assert multiset(Others(value) + [LastDocid(value)]) == multiset(Others(rest) + [LastDocid(rest)]) + multiset{p};
    }
  }

  /** The conversion keeps every property exactly if one name alone reads DOCID. */
  lemma LosslessIff(value: seq<Property>)
    requires HasDocid(value) && DistinctNames(value)
    ensures |Others(value)| < |value|
    ensures multiset(Arranged(value)) == multiset(value) <==> OneDocid(value)
    ensures OneDocid(value) ==> Arranged(value) == [LastDocid(value)] + Others(value)
  {
    FewerOthers(value);
    var r := Arranged(value);
    if OneDocid(value) {
      OneDocidSplit(value);
      assert Blanks(0) == [];
      assert r == [LastDocid(value)] + Others(value);
      assert multiset(r) == multiset(Others(value) + [LastDocid(value)]);
    } else {
      Surplus(value);
    }
  }

  lemma Surplus(value: seq<Property>)
    requires HasDocid(value) && DistinctNames(value) && !OneDocid(value) && |Others(value)| < |value|
    ensures multiset(Arranged(value)) != multiset(value)
  {
    var i, j :| 0 <= i < j < |value| && IsDocid(value[i].name) && IsDocid(value[j].name);
    LastDocidIs(value);
    var k :| 0 <= k < |value| && LastDocid(value) == value[k] && IsDocid(value[k].name)
            && forall j | k < j < |value| :: !IsDocid(value[j].name);
    var lost := value[i];
    assert i != k;
    assert lost.name != value[k].name;
    OthersAre(value, lost);
    assert lost !in Arranged(value);
    assert lost in multiset(value);
  }

  /** A DOCID and another spelling of it, which the API lets through: the other spelling takes the first
      slot, the DOCID itself is lost and a blank property follows. */
  lemma TwoSpellings(a: string, b: string)
    ensures DistinctNames([Property("DOCID", a), Property("docid", b)])
    ensures |Others([Property("DOCID", a), Property("docid", b)])| < 2
    ensures Arranged([Property("DOCID", a), Property("docid", b)]) == [Property("docid", b), BLANK]
  {
    var value := [Property("DOCID", a), Property("docid", b)];
    assert value[..1][..0] == [] && value[..1] == [Property("DOCID", a)];
    assert Others(value[..1][..0]) == [];
    assert Others(value[..1]) == [] && Others(value) == [];
    assert Blanks(1) == [BLANK];
  }
}
