/** The delete filter of the document manager: up to 32 lazily allocated bit segments that stand for a
    set of 32-bit document ids. */
module DeleteFilter {
  import opened Orders

  const SEGMENT_SIZE: nat := 0x800_0000
  const SEGMENTS: nat := 32
  const BLOCK_BITS: nat := 32
  const BLOCKS_PER_SEGMENT: nat := 0x40_0000
  const MAX_DOCID: nat := 0xFFFF_FFFF

  type Segment = seq<bool>

  function SegmentOf(id: nat): nat
    requires id > 0
  {
    (id - 1) / SEGMENT_SIZE
  }

  function OffsetOf(id: nat): nat
    requires id > 0
  {
    (id - 1) % SEGMENT_SIZE
  }

  function IdOf(segment: nat, offset: nat): nat {
    segment * SEGMENT_SIZE + 1 + offset
  }

  /** The segment of a 32-bit id exists, and id and (segment, offset) determine each other. */
  lemma Address(id: nat)
    requires 0 < id <= MAX_DOCID
    ensures SegmentOf(id) < SEGMENTS && OffsetOf(id) < SEGMENT_SIZE
    ensures IdOf(SegmentOf(id), OffsetOf(id)) == id
  {
  }

  lemma AddressOf(segment: nat, offset: nat)
    requires segment < SEGMENTS && offset < SEGMENT_SIZE
    ensures SegmentOf(IdOf(segment, offset)) == segment && OffsetOf(IdOf(segment, offset)) == offset
    ensures IdOf(segment, offset) <= MAX_DOCID + 1
    ensures IdOf(segment, offset) == MAX_DOCID + 1 <==> segment == SEGMENTS - 1 && offset == SEGMENT_SIZE - 1
  {
  }

  /** Segments are absent or full size, the allocated ones come first, and the one bit beyond the
      32-bit ids is never set. */
  ghost predicate Sound(segs: seq<Segment>) {
    && |segs| == SEGMENTS
    && (forall i | 0 <= i < SEGMENTS :: segs[i] == [] || |segs[i]| == SEGMENT_SIZE)
    && (forall i, j | 0 <= i < j < SEGMENTS && segs[j] != [] :: segs[i] != [])
    && !Bit(segs, SEGMENTS - 1, SEGMENT_SIZE - 1)
  }

  predicate Bit(segs: seq<Segment>, segment: nat, offset: nat) {
    segment < |segs| && offset < |segs[segment]| && segs[segment][offset]
  }

  /** The id is in the set. */
  predicate Marked(segs: seq<Segment>, id: nat) {
    id > 0 && Bit(segs, SegmentOf(id), OffsetOf(id))
  }

  ghost function Ids(segs: seq<Segment>): set<nat> {
    set id: nat | 0 < id <= MAX_DOCID && Marked(segs, id)
  }

  /** Where an id's bit is: number (id - 1) mod 2^27 of segment (id - 1) / 2^27. */
  lemma MarkedAt(segs: seq<Segment>, id: nat)
    requires Sound(segs)
    ensures id in Ids(segs) <==>
      && 0 < id < 0x1_0000_0000
      && (id - 1) / 0x800_0000 < |segs| && (id - 1) % 0x800_0000 < |segs[(id - 1) / 0x800_0000]|
      && segs[(id - 1) / 0x800_0000][(id - 1) % 0x800_0000]
  {
  }

  function Blank(): (s: Segment)
    ensures |s| == SEGMENT_SIZE && forall k | 0 <= k < |s| :: !s[k]
  {
    seq(SEGMENT_SIZE, _ => false)
  }

  lemma SameIds(a: seq<Segment>, b: seq<Segment>)
    requires forall s: nat, o: nat :: Bit(a, s, o) == Bit(b, s, o)
    ensures Ids(a) == Ids(b)
  {
    forall id: nat | 0 < id ensures Marked(a, id) == Marked(b, id) {
      assert Bit(a, SegmentOf(id), OffsetOf(id)) == Bit(b, SegmentOf(id), OffsetOf(id));
    }
  }

  /** Segments `i` and below as before, those up to `top` blank where they were absent. */
  ghost predicate Allocating(before: seq<Segment>, segs: seq<Segment>, top: nat, i: int) {
    && |before| == |segs| == SEGMENTS && top < SEGMENTS && -1 <= i <= top
    && (forall k | 0 <= k < SEGMENTS :: segs[k] == if i < k <= top && before[k] == [] then Blank() else before[k])
    && (forall k | i < k <= top :: before[k] == [])
  }

  method Allocate(before: seq<Segment>, top: nat) returns (segs: seq<Segment>)
    requires Sound(before) && top < SEGMENTS
    ensures Sound(segs) && segs[top] != []
    ensures forall s: nat, o: nat :: Bit(segs, s, o) == Bit(before, s, o)
  {
    segs := before;
    var i: int := top;
    while i >= 0 && segs[i] == []
      invariant Allocating(before, segs, top, i)
      decreases i
    {
      segs := segs[i := Blank()];
      i := i - 1;
    }
    AllocatedSound(before, segs, top, i);
  }

  lemma AllocatedSound(before: seq<Segment>, segs: seq<Segment>, top: nat, i: int)
    requires Sound(before) && Allocating(before, segs, top, i) && (i >= 0 ==> segs[i] != [])
    ensures Sound(segs) && segs[top] != []
    ensures forall s: nat, o: nat :: Bit(segs, s, o) == Bit(before, s, o)
  {
    forall s: nat, o: nat ensures Bit(segs, s, o) == Bit(before, s, o) {}
    forall k | 0 <= k <= top ensures segs[k] != [] {
      if k <= i { assert before[i] != []; }
    }
    assert Bit(segs, SEGMENTS - 1, SEGMENT_SIZE - 1) == Bit(before, SEGMENTS - 1, SEGMENT_SIZE - 1);
  }

  lemma SetBit(segs: seq<Segment>, id: nat)
    requires Sound(segs) && 0 < id <= MAX_DOCID && segs[SegmentOf(id)] != []
    requires SegmentOf(id) < SEGMENTS && OffsetOf(id) < SEGMENT_SIZE
    ensures var s, o := SegmentOf(id), OffsetOf(id);
            var after := segs[s := segs[s][o := true]];
            Sound(after) && Ids(after) == Ids(segs) + {id}
  {
    var s, o := SegmentOf(id), OffsetOf(id);
    var after := segs[s := segs[s][o := true]];
    AddressOf(SEGMENTS - 1, SEGMENT_SIZE - 1);
    Address(id);
    forall x: nat | 0 < x <= MAX_DOCID ensures Marked(after, x) <==> Marked(segs, x) || x == id {
      Address(x);
    }
  }

  // ---------------------------------------------------------------- listing

  /** `list` is the ascending enumeration of the marked ids below `bound`. */
  ghost predicate Listed(segs: seq<Segment>, list: seq<nat>, bound: nat) {
    Ascends(list) && forall x: nat :: x in list <==> Marked(segs, x) && x < bound
  }

  /** The next set bit from `from` on; the segment size if there is none (`find_next`). */
  method FindFrom(s: Segment, from: nat) returns (find: nat)
    requires from <= |s|
    ensures from <= find <= |s| && (find < |s| ==> s[find]) && forall k | from <= k < find :: !s[k]
  {
    find := from;
    while find < |s| && !s[find]
      invariant from <= find <= |s| && forall k | from <= k < find :: !s[k]
    {
      find := find + 1;
    }
  }

  /** No bit is set between two places of a segment. */
  lemma SkipClear(segs: seq<Segment>, list: seq<nat>, segment: nat, from: nat, to: nat)
    requires Sound(segs) && segment < SEGMENTS && segs[segment] != [] && from <= to <= SEGMENT_SIZE
    requires Listed(segs, list, IdOf(segment, from)) && forall k | from <= k < to :: !segs[segment][k]
    ensures Listed(segs, list, IdOf(segment, to))
  {
    forall x: nat | IdOf(segment, from) <= x < IdOf(segment, to) ensures !Marked(segs, x) {
      AddressOf(segment, x - IdOf(segment, 0));
    }
  }

  lemma TakeBit(segs: seq<Segment>, list: seq<nat>, segment: nat, find: nat)
    requires Sound(segs) && segment < SEGMENTS && find < |segs[segment]| && segs[segment][find]
    requires Listed(segs, list, IdOf(segment, find))
    ensures Listed(segs, list + [IdOf(segment, find)], IdOf(segment, find + 1))
    ensures IdOf(segment, find) <= MAX_DOCID
  {
    AddressOf(segment, find);
    var id, more := IdOf(segment, find), list + [IdOf(segment, find)];
    assert forall i | 0 <= i < |list| :: list[i] in list;
    forall x: nat ensures x in more <==> Marked(segs, x) && x < IdOf(segment, find + 1) {
      assert x in more <==> x in list || x == id;
    }
  }

  /** Behind the last allocated segment nothing is marked. */
  lemma NothingBeyond(segs: seq<Segment>, list: seq<nat>, segment: nat)
    requires Sound(segs) && segment <= SEGMENTS && (segment < SEGMENTS ==> segs[segment] == [])
    requires Listed(segs, list, IdOf(segment, 0))
    ensures Ascends(list) && forall x: nat :: x in list <==> x in Ids(segs)
  {
    forall x: nat | Marked(segs, x) ensures x < IdOf(segment, 0) && x <= MAX_DOCID {
      AddressOf(SegmentOf(x), OffsetOf(x));
    }
  }

  /** `getDeletedDocIdList`: the whole set in ascending order; no listed id exceeds 32 bits. */
  method ListDeleted(segs: seq<Segment>) returns (list: seq<nat>)
    requires Sound(segs)
    ensures Ascends(list) && forall x: nat :: x in list <==> x in Ids(segs)
  {
    list := [];
    var segment := 0;
    ListedStart(segs);
    while segment < SEGMENTS && segs[segment] != []
      invariant segment <= SEGMENTS && Listed(segs, list, IdOf(segment, 0))
    {
      list := ListSegment(segs, segment, list);
      segment := segment + 1;
    }
    NothingBeyond(segs, list, segment);
  }

  lemma ListedStart(segs: seq<Segment>)
    ensures Listed(segs, [], IdOf(0, 0))
  {
  }

  method ListSegment(segs: seq<Segment>, segment: nat, list0: seq<nat>) returns (list: seq<nat>)
    requires Sound(segs) && segment < SEGMENTS && segs[segment] != []
    requires Listed(segs, list0, IdOf(segment, 0))
    ensures Listed(segs, list, IdOf(segment + 1, 0))
  {
    list := list0;
    assert |segs[segment]| == SEGMENT_SIZE;
    var base := segment * SEGMENT_SIZE + 1;
    assert forall o: nat :: IdOf(segment, o) == base + o;
    assert IdOf(segment + 1, 0) == IdOf(segment, SEGMENT_SIZE);
    hide Sound, Listed, Marked;
    var find := FindFrom(segs[segment], 0);
    SkipClear(segs, list, segment, 0, find);
    while find < |segs[segment]|
      invariant find <= SEGMENT_SIZE && (find < SEGMENT_SIZE ==> segs[segment][find])
      invariant Listed(segs, list, IdOf(segment, find))
      decreases SEGMENT_SIZE - find
    {
      TakeBit(segs, list, segment, find);
      list := list + [base + find];
      var next := FindFrom(segs[segment], find + 1);
      SkipClear(segs, list, segment, find + 1, next);
      find := next;
    }
  }

  // ---------------------------------------------------------------- saving and loading

  /** A block of bits, lowest first, as a number. */
  function Pack(bits: seq<bool>): nat {
    if bits == [] then 0 else (if bits[0] then 1 else 0) + 2 * Pack(bits[1..])
  }

  function Unpack(block: nat, n: nat): seq<bool> {
    if n == 0 then [] else [block % 2 == 1] + Unpack(block / 2, n - 1)
  }

  function Power(n: nat): nat {
    if n == 0 then 1 else 2 * Power(n - 1)
  }

  lemma {:induction false} UnpackPack(bits: seq<bool>)
    ensures Unpack(Pack(bits), |bits|) == bits
    ensures Pack(bits) < Power(|bits|)
    decreases |bits|
  {
    if bits != [] {
      UnpackPack(bits[1..]);
      assert bits == [bits[0]] + bits[1..];
    }
  }

  /** Bit `i` of the number is bit `i` of the block. */
  lemma {:induction false} PackBit(bits: seq<bool>, i: nat)
    requires i < |bits|
    ensures Power(i) > 0 && (Pack(bits) / Power(i) % 2 == 1 <==> bits[i])
    decreases i
  {
    if i > 0 {
      PackBit(bits[1..], i - 1);
      Halved(Pack(bits), Pack(bits[1..]), if bits[0] then 1 else 0, Power(i - 1));
    }
  }

  lemma Halved(p: nat, q: nat, b: nat, d: nat)
    requires p == b + 2 * q && b < 2 && d > 0
    ensures p / (2 * d) == q / d
  {
    var r := q / d;
    assert q == d * r + q % d;
    assert p == 2 * d * r + (b + 2 * (q % d));
    Quotient(p, 2 * d, r, b + 2 * (q % d));
  }

  lemma Quotient(p: nat, d: nat, r: nat, rest: nat)
    requires d > 0 && p == d * r + rest && rest < d
    ensures p / d == r
  {
    var s := p / d;
    assert p == d * s + p % d;
    if s < r { Scaled(d, s + 1, r); } else if s > r { Scaled(d, r + 1, s); }
  }

  lemma Scaled(t: nat, a: nat, b: nat)
    requires a <= b
    ensures t * a <= t * b
  {
  }

  /** Block `b` packs the 32 bits from number 32 * b on. */
  lemma {:induction false} BlockAt(bits: seq<bool>, n: nat, b: nat)
    requires |bits| == n * BLOCK_BITS && b < n
    ensures b < |Blocks(bits, n)| && Blocks(bits, n)[b] == Pack(bits[32 * b..32 * b + 32])
    decreases n
  {
    if b > 0 {
      BlockAt(bits[BLOCK_BITS..], n - 1, b - 1);
      assert bits[BLOCK_BITS..][32 * (b - 1)..32 * (b - 1) + 32] == bits[32 * b..32 * b + 32];
    }
  }

  /** The blocks of a segment (`to_block_range`), and the bits of blocks (`append`). */
  function Blocks(bits: seq<bool>, n: nat): seq<nat>
    requires |bits| == n * BLOCK_BITS
  {
    if n == 0 then [] else [Pack(bits[..BLOCK_BITS])] + Blocks(bits[BLOCK_BITS..], n - 1)
  }

  function Bits(blocks: seq<nat>): seq<bool> {
    if blocks == [] then [] else Unpack(blocks[0], BLOCK_BITS) + Bits(blocks[1..])
  }

  lemma {:induction false} BitsOfBlocks(bits: seq<bool>, n: nat)
    requires |bits| == n * BLOCK_BITS
    ensures |Blocks(bits, n)| == n && Bits(Blocks(bits, n)) == bits
    ensures forall i | 0 <= i < n :: Blocks(bits, n)[i] < Power(BLOCK_BITS)
    decreases n
  {
    if n > 0 {
      BitsOfBlocks(bits[BLOCK_BITS..], n - 1);
      UnpackPack(bits[..BLOCK_BITS]);
      assert bits == bits[..BLOCK_BITS] + bits[BLOCK_BITS..];
    }
  }

  /** The first `n` segments, all allocated, block by block. */
  function Image(segs: seq<Segment>, n: nat): seq<nat>
    requires n <= |segs| && forall i | 0 <= i < n :: |segs[i]| == SEGMENT_SIZE
  {
    if n == 0 then [] else Image(segs, n - 1) + Blocks(segs[n - 1], BLOCKS_PER_SEGMENT)
  }

  /** The number of allocated segments. */
  ghost predicate Used(segs: seq<Segment>, n: nat) {
    && n <= |segs| && (forall i | 0 <= i < n :: |segs[i]| == SEGMENT_SIZE)
      && (forall i | n <= i < |segs| :: segs[i] == [])
  }

  method SaveDelFilter(segs: seq<Segment>) returns (data: seq<nat>)
    requires Sound(segs)
    ensures exists n :: Used(segs, n) && data == Image(segs, n)
  {
    var segment := 0;
    while segment < SEGMENTS && segs[segment] != []
      invariant segment <= SEGMENTS && forall i | 0 <= i < segment :: |segs[i]| == SEGMENT_SIZE
    {
      segment := segment + 1;
    }
    assert Used(segs, segment);
    data := [];
    for i := 0 to segment
      invariant data == Image(segs, i)
    {
      data := data + Blocks(segs[i], BLOCKS_PER_SEGMENT);
    }
  }

  /** Saved data cut back into segments. */
  lemma {:induction false} ImageSlice(segs: seq<Segment>, n: nat, i: nat)
    requires i < n <= |segs| && forall k | 0 <= k < n :: |segs[k]| == SEGMENT_SIZE
    ensures |Image(segs, n)| == n * BLOCKS_PER_SEGMENT
    ensures Image(segs, n)[i * BLOCKS_PER_SEGMENT..(i + 1) * BLOCKS_PER_SEGMENT] == Blocks(segs[i], BLOCKS_PER_SEGMENT)
    decreases n
  {
    BitsOfBlocks(segs[n - 1], BLOCKS_PER_SEGMENT);
    ImageSize(segs, n - 1);
    if i < n - 1 { ImageSlice(segs, n - 1, i); }
  }

  lemma {:induction false} ImageSize(segs: seq<Segment>, n: nat)
    requires n <= |segs| && forall k | 0 <= k < n :: |segs[k]| == SEGMENT_SIZE
    ensures |Image(segs, n)| == n * BLOCKS_PER_SEGMENT
    decreases n
  {
    if n > 0 {
      ImageSize(segs, n - 1);
      BitsOfBlocks(segs[n - 1], BLOCKS_PER_SEGMENT);
    }
  }

  /** Loading what was saved into an empty filter restores every segment. */
  method LoadDelFilter(data: seq<nat>, ghost saved: seq<Segment>, ghost n: nat) returns (segs: seq<Segment>)
    requires Sound(saved) && Used(saved, n) && data == Image(saved, n)
    ensures segs == saved
  {
    segs := seq(SEGMENTS, _ => []);
    ImageSize(saved, n);
    var segment := |data| / BLOCKS_PER_SEGMENT;
    assert segment == n;
    for i := 0 to segment
      invariant |segs| == SEGMENTS
      invariant forall k | 0 <= k < i :: segs[k] == saved[k]
      invariant forall k | i <= k < SEGMENTS :: segs[k] == []
    {
      ImageSlice(saved, n, i);
      BitsOfBlocks(saved[i], BLOCKS_PER_SEGMENT);
      segs := segs[i := Bits(data[i * BLOCKS_PER_SEGMENT..(i + 1) * BLOCKS_PER_SEGMENT])];
    }
  }

  class DelFilter {
    var segs: seq<Segment>
    var count: nat

    ghost predicate Valid()
      reads this
    {
      Sound(segs)
    }

    ghost function Deleted(): set<nat>
      reads this
    {
      Ids(segs)
    }

    constructor ()
      ensures Valid() && Deleted() == {} && count == |Deleted()|
    {
      segs := seq(SEGMENTS, _ => []);
      count := 0;
      new;
      assert forall id | id in Ids(segs) :: Marked(segs, id);
      assert Ids(segs) == {};
    }

    method IsDeleted(id: nat) returns (r: bool)
      requires Valid() && id <= MAX_DOCID
      ensures r <==> id in Deleted()
    {
      if id == 0 {
        return false;
      }
      Address(id);
      var segment := SegmentOf(id);
      if segs[segment] == [] {
        return false;
      }
      r := segs[segment][OffsetOf(id)];
    }

    /** True exactly if the id is not 0 and was not yet deleted. */
    method RemoveDocument(id: nat) returns (r: bool)
      requires Valid() && id <= MAX_DOCID
      modifies this
      ensures Valid()
      ensures r <==> id != 0 && id !in old(Deleted())
      ensures Deleted() == if id == 0 then old(Deleted()) else old(Deleted()) + {id}
      ensures old(count == |Deleted()|) ==> count == |Deleted()|
    {
      if id == 0 {
        return false;
      }
      Address(id);
      var segment, offset := SegmentOf(id), OffsetOf(id);
      var grown := Allocate(segs, segment);
      SameIds(grown, segs);
      segs := grown;
      SetBit(segs, id);
      if segs[segment][offset] {
        return false;
      }
      segs := segs[segment := segs[segment][offset := true]];
      count := count + 1;
      r := true;
    }

    method GetDeletedDocIdList() returns (list: seq<nat>)
      requires Valid()
      ensures Ascends(list) && forall x: nat :: x in list <==> x in Deleted()
    {
      list := ListDeleted(segs);
    }

    /** A restart: the set survives, the count does not. */
    method Restart()
      requires Valid()
      modifies this
      ensures Valid() && Deleted() == old(Deleted()) && count == 0
    {
      var data := SaveDelFilter(segs);
      ghost var n :| Used(segs, n) && data == Image(segs, n);
      segs := LoadDelFilter(data, segs, n);
      count := 0;
    }
  }
}
