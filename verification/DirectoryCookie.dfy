/** The cookie file of a directory: four lines of text, read back line by line. What a crash in the
    middle of writing leaves behind never reads as anything but the cookie being written. */
module DirectoryCookie {
  import opened Orders

  const MAGIC := "DCMG"
  const MIN_LONG: int := -0x8000_0000_0000_0000
  const MAX_LONG: int := 0x7FFF_FFFF_FFFF_FFFF

  datatype Cookie = Cookie(time: int, parent: string, valid: bool)

  predicate Writable(c: Cookie) {
    MIN_LONG <= c.time <= MAX_LONG && '\n' !in c.parent
  }

  // ---------------------------------------------------------------- numbers

  function Digit(d: nat): char
    requires d < 10
  {
    (d + '0' as int) as char
  }

  predicate IsDigit(c: char) {
    '0' <= c <= '9'
  }

  function Digits(n: nat): string {
    if n < 10 then [Digit(n)] else Digits(n / 10) + [Digit(n % 10)]
  }

  function Decimal(n: int): string {
    if n < 0 then "-" + Digits(-n) else Digits(n)
  }

  datatype Number = NotANumber | Number(n: int)

  function DigitsValue(s: string): Number {
    if s == [] then Number(0) else
      var head, c := DigitsValue(s[..|s| - 1]), s[|s| - 1];
      if head.Number? && IsDigit(c) then Number(10 * head.n + (c as int - '0' as int)) else NotANumber
  }

  /** `boost::lexical_cast<long>`. */
  function ParseLong(s: string): Number {
    if s == [] then NotANumber else
      var signed := s[0] == '-' || s[0] == '+';
      var digits := if signed then s[1..] else s;
      if digits == [] || DigitsValue(digits) == NotANumber then NotANumber else
        var n := if s[0] == '-' then -DigitsValue(digits).n else DigitsValue(digits).n;
        if MIN_LONG <= n <= MAX_LONG then Number(n) else NotANumber
  }

  lemma {:induction false} DigitsParse(n: nat)
    ensures Digits(n) != [] && DigitsValue(Digits(n)) == Number(n)
    ensures IsDigit(Digits(n)[0]) && '\n' !in Digits(n)
    decreases n
  {
    if n >= 10 {
      DigitsParse(n / 10);
      assert Digits(n)[..|Digits(n)| - 1] == Digits(n / 10);
    } else {
      assert Digits(n)[..0] == [];
    }
  }

  lemma DecimalParse(n: int)
    requires MIN_LONG <= n <= MAX_LONG
    ensures ParseLong(Decimal(n)) == Number(n) && '\n' !in Decimal(n)
    ensures Decimal(n) != "" && (Decimal(n)[0] == '-' <==> n < 0)
  {
    DigitsParse(if n < 0 then -n else n);
    if n < 0 { assert Decimal(n)[1..] == Digits(-n); }
  }

  // ---------------------------------------------------------------- lines

  datatype Line = NoLine | Line(text: string, rest: string)

  /** `std::getline`: up to the next newline, or what is left; nothing left is a failure. */
  function GetLine(s: string): Line {
    if s == [] then NoLine
    else if s[0] == '\n' then Line([], s[1..])
    else
      var more := GetLine(s[1..]);
      if more.NoLine? then Line(s, []) else Line([s[0]] + more.text, more.rest)
  }

  lemma {:induction false} GetLineWhole(a: string, rest: string)
    requires '\n' !in a
    ensures GetLine(a + "\n" + rest) == Line(a, rest)
    decreases |a|
  {
    var s := a + "\n" + rest;
    if a == [] {
      assert s[1..] == rest;
    } else {
      GetLineWhole(a[1..], rest);
      assert s[1..] == a[1..] + "\n" + rest;
      assert a == [a[0]] + a[1..];
    }
  }

  lemma {:induction false} GetLineLast(a: string)
    requires '\n' !in a && a != []
    ensures GetLine(a) == Line(a, [])
    decreases |a|
  {
    if |a| > 1 {
      GetLineLast(a[1..]);
      assert a == [a[0]] + a[1..];
    } else {
      assert a[1..] == [];
    }
  }

  // ---------------------------------------------------------------- reading and writing

  function Flag(valid: bool): string {
    if valid then "true" else "false"
  }

  function Render(c: Cookie): string {
    MAGIC + "\n" + (Decimal(c.time) + "\n" + (c.parent + "\n" + (Flag(c.valid) + "\n")))
  }

  datatype Reading = Reading(ok: bool, cookie: Cookie)

  /** The first `n` lines, if there are as many. */
  function Lines(text: string, n: nat): seq<string>
    decreases n
  {
    if n == 0 then [] else
      var l := GetLine(text);
      if l.NoLine? then [] else [l.text] + Lines(l.rest, n - 1)
  }

  /** What reading does to the cookie in memory. Only an unreadable flag also clears `valid`. */
  function ReadInto(text: string, memory: Cookie): Reading {
    var l := Lines(text, 4);
    if |l| < 4 || l[0] != MAGIC || ParseLong(l[1]).NotANumber? then Reading(false, memory)
    else if l[3] != "true" && l[3] != "false" then Reading(false, memory.(valid := false))
    else Reading(true, Cookie(ParseLong(l[1]).n, l[2], l[3] == "true"))
  }

  lemma Cut(a: string, rest: string, n: nat)
    requires n <= |a| + 1 + |rest|
    ensures n <= |a| ==> (a + "\n" + rest)[..n] == a[..n]
    ensures n > |a| ==> (a + "\n" + rest)[..n] == a + "\n" + rest[..n - |a| - 1]
  {
  }

  /** A cut line is lost or is the last one; an uncut line leaves a cut of what follows. */
  lemma CutLine(a: string, rest: string, n: nat)
    requires '\n' !in a && n <= |a| + 1 + |rest|
    ensures var p := (a + "\n" + rest)[..n];
            GetLine(p) == if n == 0 then NoLine else if n <= |a| then Line(a[..n], []) else Line(a, rest[..n - |a| - 1])
  {
    Cut(a, rest, n);
    if n <= |a| {
      if n > 0 { GetLineLast(a[..n]); }
    } else {
      GetLineWhole(a, rest[..n - |a| - 1]);
    }
  }

  /** The part of the cookie before its flag. */
  function HeadSize(c: Cookie): nat {
    |MAGIC| + 1 + |Decimal(c.time)| + 1 + |c.parent| + 1
  }

  lemma RenderShape(c: Cookie)
    ensures Render(c) == MAGIC + "\n" + (Decimal(c.time) + "\n" + (c.parent + "\n" + (Flag(c.valid) + "\n")))
    ensures |Render(c)| == HeadSize(c) + |Flag(c.valid)| + 1
  {
    hide Decimal, Flag;
    var r2 := c.parent + "\n" + (Flag(c.valid) + "\n");
    var r1 := Decimal(c.time) + "\n" + r2;
    assert MAGIC + "\n" + r1 == Render(c);
  }

  /** The whole file. */
  lemma CookieText(c: Cookie)
    ensures Render(c)
            == "DCMG" + "\n" + Decimal(c.time) + "\n" + c.parent + "\n" + (if c.valid then "true" else "false") + "\n"
  {
    hide Decimal;
  }

  /** The lines of a cut cookie: there are four only if the cut falls into the flag. */
  lemma CutLines(c: Cookie, n: nat)
    requires Writable(c) && n <= |Render(c)|
    ensures n <= HeadSize(c) ==> |Lines(Render(c)[..n], 4)| < 4
    ensures n > HeadSize(c) ==>
      Lines(Render(c)[..n], 4) == [MAGIC, Decimal(c.time), c.parent,
        Flag(c.valid)[..Least(n - HeadSize(c), |Flag(c.valid)|)]]
  {
    DecimalParse(c.time);
    RenderShape(c);
    hide Decimal, GetLine, Flag, Render, Least;
    var r1 := Decimal(c.time) + "\n" + (c.parent + "\n" + (Flag(c.valid) + "\n"));
    CutLine(MAGIC, r1, n);
    assert Render(c)[..n] == (MAGIC + "\n" + r1)[..n];
    if n > |MAGIC| { CutThree(Decimal(c.time), c.parent, c.valid, n - |MAGIC| - 1); } else { NoLines(3); }
  }

  lemma CutThree(time: string, parent: string, valid: bool, n: nat)
    requires '\n' !in time && '\n' !in parent && n <= |time| + 1 + (|parent| + 1 + |Flag(valid)| + 1)
    ensures var lines := Lines((time + "\n" + (parent + "\n" + (Flag(valid) + "\n")))[..n], 3);
            if n <= |time| + |parent| + 2 then |lines| < 3
            else lines == [time, parent, Flag(valid)[..Least(n - |time| - |parent| - 2, |Flag(valid)|)]]
  {
    hide GetLine, Flag, Least;
    CutLine(time, parent + "\n" + (Flag(valid) + "\n"), n);
    if n > |time| { CutTwo(parent, valid, n - |time| - 1); } else { NoLines(2); }
  }

  lemma CutTwo(parent: string, valid: bool, n: nat)
    requires '\n' !in parent && n <= |parent| + 1 + |Flag(valid)| + 1
    ensures var lines := Lines((parent + "\n" + (Flag(valid) + "\n"))[..n], 2);
            if n <= |parent| + 1 then |lines| < 2
            else lines == [parent, Flag(valid)[..Least(n - |parent| - 1, |Flag(valid)|)]]
  {
    hide GetLine, Flag, Least;
    CutLine(parent, Flag(valid) + "\n", n);
    if n > |parent| { CutFlag(valid, n - |parent| - 1); } else { NoLines(1); }
  }

  lemma NoLines(n: nat)
    ensures Lines([], n) == []
  {
  }

  lemma CutFlag(valid: bool, n: nat)
    requires n <= |Flag(valid)| + 1
    ensures var lines := Lines((Flag(valid) + "\n")[..n], 1);
            lines == if n == 0 then [] else [Flag(valid)[..Least(n, |Flag(valid)|)]]
  {
    assert Flag(valid) + "\n" + [] == Flag(valid) + "\n";
    CutLine(Flag(valid), [], n);
    assert Flag(valid)[..|Flag(valid)|] == Flag(valid);
  }

  /** A written cookie reads back. */
  lemma RoundTrip(c: Cookie, memory: Cookie)
    requires Writable(c)
    ensures ReadInto(Render(c), memory) == Reading(true, c)
  {
    TornCookie(c, |Render(c)|, memory);
    assert Render(c)[..|Render(c)|] == Render(c);
  }

  /** Whatever has been written of a cookie when a crash comes, reading it fails or gives the whole
      cookie. */
  lemma TornCookie(c: Cookie, n: nat, memory: Cookie)
    requires Writable(c) && n <= |Render(c)|
    ensures ReadInto(Render(c)[..n], memory).ok <==> n >= |Render(c)| - 1
    ensures ReadInto(Render(c)[..n], memory).ok ==> ReadInto(Render(c)[..n], memory).cookie == c
    ensures !ReadInto(Render(c)[..n], memory).ok ==>
      ReadInto(Render(c)[..n], memory).cookie == if n <= HeadSize(c) then memory else memory.(valid := false)
  {
    CutLines(c, n);
    DecimalParse(c.time);
    hide Decimal, Render, Lines;
    if n > HeadSize(c) {
      FlagCut(c.valid, Least(n - HeadSize(c), |Flag(c.valid)|));
    }
  }

  lemma FlagCut(valid: bool, n: nat)
    requires n <= |Flag(valid)|
    ensures n < |Flag(valid)| ==> Flag(valid)[..n] != "true" && Flag(valid)[..n] != "false"
    ensures n == |Flag(valid)| ==> Flag(valid)[..n] == Flag(valid)
  {
    assert "false"[..4][0] != "true"[0];
  }
}
