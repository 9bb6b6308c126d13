/** The filter values of a collection: one column per numeric filter property and one table per string
    property that is only filtered by. A new version of a document takes over the values of the old one. */
module RTypeColumns {
  import opened NumericPropertyTable

  /** The values of one string filter property; an empty text is no value. */
  class RTypeStringPropTable {
    var data: map<nat, string>

    function Value(pos: nat): Option<string>
      reads this
    {
      if pos in data && data[pos] != "" then Some(data[pos]) else None
    }

    constructor ()
      ensures forall p: nat :: Value(p) == None
    {
      data := map[];
    }

    /** An empty text is refused and changes nothing. */
    method UpdateRTypeString(pos: nat, text: string) returns (ok: bool)
      modifies this
      ensures ok <==> text != ""
      ensures forall p: nat :: Value(p) == if p == pos && text != "" then Some(text) else old(Value(p))
    {
      if text == "" { return false; }
      data := data[pos := text];
      ok := true;
    }

    method CopyValue(from: nat, to: nat)
      modifies this
      ensures forall p: nat ::
                Value(p) == if p == to && old(Value(from)).Some? then old(Value(from)) else old(Value(p))
    {
      var text := Value(from);
      if text.Some? { var _ := UpdateRTypeString(to, text.value); }
    }
  }

  // ---------------------------------------------------------------- all filter values of a document

  datatype Value = Number(number: int) | Chars(text: string)

  /** The values of one document: one per filter property. */
  type Row = map<string, Option<Value>>

  function OfNumber(x: Option<int>): (r: Option<Value>)
    ensures r.Some? <==> x.Some?
  {
    match x
    case None => None
    case Some(i) => Some(Number(i))
  }

  function OfText(x: Option<string>): (r: Option<Value>)
    ensures r.Some? <==> x.Some?
  {
    match x
    case None => None
    case Some(s) => Some(Chars(s))
  }

  /** What a text stands for in a numeric column, and in a string table, if it can be read. */
  function ReadNumber(invalid: int, parsed: Option<int>): Option<Option<Value>> {
    if parsed.Some? then Some(OfNumber(Cell(invalid, parsed.value))) else None
  }

  function ReadText(text: string): Option<Option<Value>> {
    if text == "" then None else Some(Some(Chars(text)))
  }

  /** The values of `top`, where it has them. */
  function Over<T>(base: map<string, Option<T>>, top: map<string, Option<T>>): map<string, Option<T>> {
    map n | n in base :: if n in top && top[n].Some? then top[n] else base[n]
  }

  /** `name` gets the value its text stands for; a text that cannot be read changes nothing. */
  function Supplied(row: Row, name: string, reading: Option<Option<Value>>): Row {
    if reading.Some? then row[name := reading.value] else row
  }

  function Joined(numbers: map<string, Option<int>>, texts: map<string, Option<string>>): Row {
    map n | n in numbers.Keys + texts.Keys :: if n in numbers then OfNumber(numbers[n]) else OfText(texts[n])
  }

  lemma JoinedOver(a: map<string, Option<int>>, b: map<string, Option<int>>,
                   s: map<string, Option<string>>, t: map<string, Option<string>>)
    requires a.Keys == b.Keys && s.Keys == t.Keys
    ensures Joined(Over(a, b), Over(s, t)) == Over(Joined(a, s), Joined(b, t))
  {
    hide OfNumber, OfText;
  }

  lemma JoinedNumber(a: map<string, Option<int>>, s: map<string, Option<string>>, n: string, x: Option<int>)
    requires n in a
    ensures Joined(a[n := x], s) == Joined(a, s)[n := OfNumber(x)]
  {
    hide OfNumber, OfText;
  }

  lemma JoinedText(a: map<string, Option<int>>, s: map<string, Option<string>>, n: string, x: Option<string>)
    requires n in s && n !in a
    ensures Joined(a, s[n := x]) == Joined(a, s)[n := OfText(x)]
  {
    hide OfNumber, OfText;
  }

  /** The columns and string tables of the document manager. */
  class RTypeTables {
    const order: seq<string>
    const tables: map<string, NumericPropertyTable>
    const stringOrder: seq<string>
    const strings: map<string, RTypeStringPropTable>

    ghost predicate Valid() {
      && (forall n :: n in order <==> n in tables)
      && (forall n :: n in stringOrder <==> n in strings)
      && (forall i, j | 0 <= i < j < |order| :: order[i] != order[j])
      && (forall i, j | 0 <= i < j < |stringOrder| :: stringOrder[i] != stringOrder[j])
      && (forall a, b | a in tables && b in tables && a != b :: tables[a] != tables[b])
      && (forall a, b | a in strings && b in strings && a != b :: strings[a] != strings[b])
      && tables.Keys !! strings.Keys
    }

    ghost function Numbers(id: nat): map<string, Option<int>>
      reads tables.Values
    {
      map n | n in tables :: tables[n].Value(id)
    }

    ghost function Texts(id: nat): map<string, Option<string>>
      reads strings.Values
    {
      map n | n in strings :: strings[n].Value(id)
    }

    ghost function Row(id: nat): Row
      reads tables.Values, strings.Values
    {
      Joined(Numbers(id), Texts(id))
    }

    method SetStringValue(name: string, id: nat, text: string, parse: string -> Option<int>)
      requires Valid() && name in tables
      modifies tables.Values
      ensures Row(id) == Supplied(old(Row(id)), name, ReadNumber(tables[name].invalid, parse(text)))
      ensures forall k: nat | k != id :: Row(k) == old(Row(k))
    {
      hide Read, Cell, Joined, OfNumber, NumericPropertyTable.Value, RTypeStringPropTable.Value;
      var t := tables[name];
      var _ := t.SetStringValue(id, text, parse);
      if parse(text).Some? {
        assert Numbers(id) == old(Numbers(id))[name := Cell(t.invalid, parse(text).value)];
        JoinedNumber(old(Numbers(id)), Texts(id), name, Cell(t.invalid, parse(text).value));
      } else {
        assert Numbers(id) == old(Numbers(id));
      }
      forall k: nat | k != id ensures Numbers(k) == old(Numbers(k)) {}
    }

    method UpdateRTypeString(name: string, id: nat, text: string)
      requires Valid() && name in strings
      modifies strings.Values
      ensures Row(id) == Supplied(old(Row(id)), name, ReadText(text))
      ensures forall k: nat | k != id :: Row(k) == old(Row(k))
    {
      hide Joined, NumericPropertyTable.Value, RTypeStringPropTable.Value;
      var t := strings[name];
      var _ := t.UpdateRTypeString(id, text);
      if text != "" {
        assert Texts(id) == old(Texts(id))[name := Some(text)];
        JoinedText(Numbers(id), old(Texts(id)), name, Some(text));
      } else {
        assert Texts(id) == old(Texts(id));
      }
      forall k: nat | k != id ensures Texts(k) == old(Texts(k)) {}
    }

    method MoveNumbers(from: nat, to: nat)
      requires Valid() && from != to
      modifies tables.Values
      ensures Numbers(to) == Over(old(Numbers(to)), old(Numbers(from)))
      ensures forall k: nat | k != to :: Numbers(k) == old(Numbers(k))
      ensures forall k: nat :: Texts(k) == old(Texts(k))
    {
      hide Read, Cell;
      var i := 0;
      while i < |order|
        invariant 0 <= i <= |order|
        invariant forall j | i <= j < |order| :: tables[order[j]].data == old(tables[order[j]].data)
        invariant forall j, k: nat | 0 <= j < i ::
                    tables[order[j]].Value(k) == if k == to && old(tables[order[j]].Value(from)).Some?
                                                 then old(tables[order[j]].Value(from))
                                                 else old(tables[order[j]].Value(k))
        decreases |order| - i
      {
        tables[order[i]].CopyValue(from, to);
        i := i + 1;
      }
      forall n, k: nat | n in tables
        ensures tables[n].Value(k) == if k == to && old(tables[n].Value(from)).Some?
                                      then old(tables[n].Value(from)) else old(tables[n].Value(k))
      {
        var j :| 0 <= j < |order| && order[j] == n;
      }
    }

    method MoveTexts(from: nat, to: nat)
      requires Valid() && from != to
      modifies strings.Values
      ensures Texts(to) == Over(old(Texts(to)), old(Texts(from)))
      ensures forall k: nat | k != to :: Texts(k) == old(Texts(k))
      ensures forall k: nat :: Numbers(k) == old(Numbers(k))
    {
      var i := 0;
      while i < |stringOrder|
        invariant 0 <= i <= |stringOrder|
        invariant forall j | i <= j < |stringOrder| :: strings[stringOrder[j]].data == old(strings[stringOrder[j]].data)
        invariant forall j, k: nat | 0 <= j < i ::
                    strings[stringOrder[j]].Value(k)
                    == if k == to && old(strings[stringOrder[j]].Value(from)).Some?
                       then old(strings[stringOrder[j]].Value(from))
                       else old(strings[stringOrder[j]].Value(k))
        decreases |stringOrder| - i
      {
        strings[stringOrder[i]].CopyValue(from, to);
        i := i + 1;
      }
      forall n, k: nat | n in strings
        ensures strings[n].Value(k) == if k == to && old(strings[n].Value(from)).Some?
                                       then old(strings[n].Value(from)) else old(strings[n].Value(k))
      {
        var j :| 0 <= j < |stringOrder| && stringOrder[j] == n;
      }
    }

    /** The new version `to` of document `from` takes over every value of the old one. */
    method MoveRTypeValues(from: nat, to: nat)
      requires Valid() && from != to
      modifies tables.Values, strings.Values
      ensures Row(to) == Over(old(Row(to)), old(Row(from)))
      ensures forall k: nat | k != to :: Row(k) == old(Row(k))
    {
      assert Numbers(to).Keys == Numbers(from).Keys && Texts(to).Keys == Texts(from).Keys;
      hide Over, Joined, Numbers, Texts, NumericPropertyTable.Value, RTypeStringPropTable.Value;
      JoinedOver(Numbers(to), Numbers(from), Texts(to), Texts(from));
      MoveNumbers(from, to);
      MoveTexts(from, to);
    }
  }
}
