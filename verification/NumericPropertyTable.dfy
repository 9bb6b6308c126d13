/** The column of one numeric filter property: a vector indexed by docid, where a reserved value says
    that a document has none. */
module NumericPropertyTable {
  datatype Option<T> = None | Some(value: T)

  /** What a cell says. */
  function Cell(invalid: int, x: int): (r: Option<int>)
    ensures r.None? <==> x == invalid
    ensures r.Some? ==> r.value == x
  {
    if x == invalid then None else Some(x)
  }

  /** The value of document `pos`. */
  function Read(data: seq<int>, invalid: int, pos: nat): Option<int> {
    if pos < |data| then Cell(invalid, data[pos]) else None
  }

  /** `InvalidGreat`: cells without a value come last. */
  predicate InvalidGreat(invalid: int, x: int, y: int) {
    if x == invalid then false else if y == invalid then true else x < y
  }

  /** `InvalidLess`: cells without a value come first. */
  predicate InvalidLess(invalid: int, x: int, y: int) {
    if y == invalid then false else if x == invalid then true else x < y
  }

  class NumericPropertyTable {
    const invalid: int
    var data: seq<int>

    function Value(pos: nat): Option<int> reads this { Read(data, invalid, pos) }

    constructor (invalidValue: int)
      ensures invalid == invalidValue
      ensures forall p: nat :: Value(p) == None
    {
      invalid := invalidValue;
      data := [invalidValue];
    }

    /** Growing the column gives no document a value. */
    method Resize(size: nat)
      requires size >= |data|
      modifies this
      ensures |data| == size && old(data) <= data
      ensures forall p: nat :: Value(p) == old(Value(p))
    {
      var fill := seq(size - |data|, _ => invalid);
      data := data + fill;
    }

    method SetValue(pos: nat, value: int)
      modifies this
      ensures forall p: nat :: Value(p) == if p == pos then Cell(invalid, value) else old(Value(p))
    {
      if pos >= |data| { Resize(pos + 1); }
      data := data[pos := value];
    }

    /** A text that is no number leaves every value alone, although the column may have grown. */
    method SetStringValue(pos: nat, text: string, parse: string -> Option<int>) returns (ok: bool)
      modifies this
      ensures ok <==> parse(text).Some?
      ensures ok ==> forall p: nat :: Value(p) == if p == pos then Cell(invalid, parse(text).value) else old(Value(p))
      ensures !ok ==> forall p: nat :: Value(p) == old(Value(p))
      ensures |data| == if pos < |old(data)| then |old(data)| else pos + 1
    {
      if pos >= |data| { Resize(pos + 1); }
      match parse(text)
      case Some(value) => data := data[pos := value]; ok := true;
      case None => ok := false;
    }

    /** Document `to` gets the value of `from`, if there is one, and otherwise keeps its own. */
    method CopyValue(from: nat, to: nat)
      modifies this
      ensures forall p: nat ::
                Value(p) == if p == to && old(Value(from)).Some? then old(Value(from)) else old(Value(p))
    {
      if from >= |data| || data[from] == invalid { return; }
      var value := data[from];
      if to >= |data| { Resize(to + 1); }
      data := data[to := value];
    }

    method ClearValue(pos: nat)
      modifies this
      ensures forall p: nat :: Value(p) == if p == pos then None else old(Value(p))
    {
      if pos < |data| { data := data[pos := invalid]; }
    }

    /** The least value any document has. */
    method GetMinValue() returns (min: Option<int>)
      ensures min.None? <==> forall p: nat :: Value(p) == None
      ensures min.Some? ==> exists p: nat :: Value(p) == min
      ensures min.Some? ==> forall p: nat :: Value(p).Some? ==> min.value <= Value(p).value
    {
      if data == [] { return None; }
      var at, i := 0, 1;
      while i < |data|
        invariant 0 <= at < i <= |data|
        invariant forall j | 0 <= j < i :: !InvalidGreat(invalid, data[j], data[at])
        decreases |data| - i
      {
        if InvalidGreat(invalid, data[i], data[at]) { at := i; }
        i := i + 1;
      }
      min := Cell(invalid, data[at]);
      assert Value(at) == min;
    }

    /** The greatest value any document has. */
    method GetMaxValue() returns (max: Option<int>)
      ensures max.None? <==> forall p: nat :: Value(p) == None
      ensures max.Some? ==> exists p: nat :: Value(p) == max
      ensures max.Some? ==> forall p: nat :: Value(p).Some? ==> Value(p).value <= max.value
    {
      if data == [] { return None; }
      var at, i := 0, 1;
      while i < |data|
        invariant 0 <= at < i <= |data|
        invariant forall j | 0 <= j < i :: !InvalidLess(invalid, data[at], data[j])
        decreases |data| - i
      {
        if InvalidLess(invalid, data[at], data[i]) { at := i; }
        i := i + 1;
      }
      max := Cell(invalid, data[at]);
      assert Value(at) == max;
    }
  }
}
