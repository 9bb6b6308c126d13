/** The normal form of queries (`QueryNormalizer`): lower-case tokens in byte order, one space apart. */
module QueryNormalizer {
  import opened Orders

  /** `std::isspace` in the C locale. */
  predicate IsSpace(c: char) {
    c == ' ' || c == '\t' || c == '\n' || c == '\r' || c == 11 as char || c == 12 as char
  }

  /** The blank and the five control characters from tabulator to carriage return. */
  lemma IsSpaceIff(c: char)
    ensures IsSpace(c) <==> c as int == 32 || 9 <= c as int <= 13
  {
  }

  /** The tokens of a query, and the token being read at its end. */
  function Split(query: string): (seq<string>, string) {
    if query == [] then ([], [])
    else
      var (tokens, current) := Split(query[..|query| - 1]);
      var c := query[|query| - 1];
      if !IsSpace(c) then (tokens, current + [ToLower(c)])
      else if current != [] then (tokens + [current], [])
      else (tokens, [])
  }

  function Tokens(query: string): seq<string> {
    var (tokens, current) := Split(query);
    if current != [] then tokens + [current] else tokens
  }

  // ---------------------------------------------------------------- what the tokens are

  /** A stretch of the query. */
  datatype Run = Run(from: nat, to: nat)

  /** The stretch is a longest one without spaces. */
  ghost predicate IsRun(query: string, r: Run) {
    && r.from < r.to <= |query|
    && (forall i | r.from <= i < r.to :: !IsSpace(query[i]))
    && (r.from == 0 || IsSpace(query[r.from - 1]))
    && (r.to == |query| || IsSpace(query[r.to]))
  }

  /** The token is the stretch, lowered. */
  ghost predicate Reads(query: string, r: Run, token: string) {
    r.from <= r.to <= |query| && |token| == r.to - r.from
    && forall i | 0 <= i < |token| :: token[i] == ToLower(query[r.from + i])
  }

  ghost predicate Inside(runs: seq<Run>, i: nat) {
    exists k :: 0 <= k < |runs| && runs[k].from <= i < runs[k].to
  }

  /** `runs` are stretches of the first `n` characters, in order, and hold all of these that are no spaces. */
  ghost predicate RunsUpTo(query: string, runs: seq<Run>, tokens: seq<string>, n: nat) {
    && n <= |query| && |runs| == |tokens|
    && (forall k | 0 <= k < |runs| :: IsRun(query, runs[k]) && runs[k].to <= n && Reads(query, runs[k], tokens[k]))
    && (forall j, k | 0 <= j < k < |runs| :: runs[j].to < runs[k].from)
    && (forall i: nat | i < n && !IsSpace(query[i]) :: Inside(runs, i))
  }

  lemma RunsOneMore(query: string, c: char, runs: seq<Run>, tokens: seq<string>, n: nat)
    requires RunsUpTo(query, runs, tokens, n) && forall k | 0 <= k < |runs| :: runs[k].to < |query|
    ensures RunsUpTo(query + [c], runs, tokens, n)
  {
    forall k | 0 <= k < |runs| ensures IsRun(query + [c], runs[k]) && Reads(query + [c], runs[k], tokens[k]) {
      assert IsRun(query, runs[k]) && Reads(query, runs[k], tokens[k]);
    }
  }

  /** A stretch that follows all others, behind a space. */
  lemma RunsAppend(query: string, runs: seq<Run>, tokens: seq<string>, r: Run, token: string, n: nat)
    requires RunsUpTo(query, runs, tokens, r.from) && IsRun(query, r) && Reads(query, r, token)
    requires r.to <= n <= |query| && forall i | r.to <= i < n :: IsSpace(query[i])
    requires forall k | 0 <= k < |runs| :: runs[k].to < r.from
    ensures RunsUpTo(query, runs + [r], tokens + [token], n)
  {
    forall i: nat | i < n && !IsSpace(query[i]) ensures Inside(runs + [r], i) {
      if i < r.from {
        assert Inside(runs, i);
        var k :| 0 <= k < |runs| && runs[k].from <= i < runs[k].to;
        assert (runs + [r])[k] == runs[k];
      } else {
        assert (runs + [r])[|runs|] == r;
      }
    }
  }

  /** The finished tokens are the stretches before the token being read, which starts behind a space. */
  ghost predicate Reading(query: string, runs: seq<Run>, tokens: seq<string>, current: string) {
    && |current| <= |query| && RunsUpTo(query, runs, tokens, |query| - |current|)
    && Reads(query, Run(|query| - |current|, |query|), current)
    && (forall i | |query| - |current| <= i < |query| :: !IsSpace(query[i]))
    && (|query| == |current| || IsSpace(query[|query| - |current| - 1]))
    && (forall k | 0 <= k < |runs| :: runs[k].to < |query| - |current|)
  }

  lemma {:induction false} SplitReads(query: string) returns (runs: seq<Run>)
    ensures Reading(query, runs, Split(query).0, Split(query).1)
    decreases |query|
  {
    if query == [] {
      runs := [];
    } else {
      var short, c := query[..|query| - 1], query[|query| - 1];
      var before := SplitReads(short);
      var (tokens, current) := Split(short);
      assert query == short + [c];
      runs := ReadOne(short, c, before, tokens, current);
    }
  }

  lemma ReadOne(short: string, c: char, before: seq<Run>, tokens: seq<string>, current: string) returns (runs: seq<Run>)
    requires Reading(short, before, tokens, current)
    ensures !IsSpace(c) ==> Reading(short + [c], runs, tokens, current + [ToLower(c)])
    ensures IsSpace(c) ==> Reading(short + [c], runs, if current != [] then tokens + [current] else tokens, [])
  {
    hide *;
    runs := before;
    if !IsSpace(c) {
      ReadLetter(short, c, before, tokens, current);
    } else if current != [] {
      ReadEnd(short, c, before, tokens, current);
      runs := before + [Run(|short| - |current|, |short|)];
    } else {
      ReadOn(short, c, before, tokens);
    }
  }

  lemma ReadLetter(short: string, c: char, runs: seq<Run>, tokens: seq<string>, current: string)
    requires Reading(short, runs, tokens, current) && !IsSpace(c)
    ensures Reading(short + [c], runs, tokens, current + [ToLower(c)])
  {
    hide RunsUpTo, IsSpace, ToLower;
    RunsOneMore(short, c, runs, tokens, |short| - |current|);
  }

  lemma ReadEnd(short: string, c: char, runs: seq<Run>, tokens: seq<string>, current: string)
    requires Reading(short, runs, tokens, current) && IsSpace(c) && current != []
    ensures |current| <= |short|
    ensures Reading(short + [c], runs + [Run(|short| - |current|, |short|)], tokens + [current], [])
  {
    var query, start := short + [c], |short| - |current|;
    hide RunsUpTo, IsSpace, ToLower;
    RunsOneMore(short, c, runs, tokens, start);
    var r := Run(start, |short|);
    assert IsRun(query, r) && Reads(query, r, current);
    RunsAppend(query, runs, tokens, r, current, |query|);
  }

  lemma ReadOn(short: string, c: char, runs: seq<Run>, tokens: seq<string>)
    requires Reading(short, runs, tokens, []) && IsSpace(c)
    ensures Reading(short + [c], runs, tokens, [])
  {
    hide RunsUpTo, IsSpace, ToLower, Reads;
    var query := short + [c];
    assert query[|short|] == c;
    RunsOneMore(short, c, runs, tokens, |short|);
    RunsPastSpace(query, runs, tokens, |short|);
    ReadsNothing(query);
  }

  lemma ReadsNothing(query: string)
    ensures Reads(query, Run(|query|, |query|), [])
  {
  }

  lemma RunsPastSpace(query: string, runs: seq<Run>, tokens: seq<string>, n: nat)
    requires n < |query| && IsSpace(query[n]) && RunsUpTo(query, runs, tokens, n)
    ensures RunsUpTo(query, runs, tokens, n + 1)
  {
    hide IsSpace, IsRun, Reads, Inside;
  }

  /** Tokenizing cuts a query exactly at its spaces: the tokens are its longest stretches without spaces,
      lowered, all of them and in order. */
  lemma TokensAreRuns(query: string)
    ensures exists runs :: RunsUpTo(query, runs, Tokens(query), |query|)
  {
    var runs := SplitReads(query);
    var (tokens, current) := Split(query);
    if current != [] {
      RunsAppend(query, runs, tokens, Run(|query| - |current|, |query|), current, |query|);
      assert RunsUpTo(query, runs + [Run(|query| - |current|, |query|)], Tokens(query), |query|);
    } else {
      assert RunsUpTo(query, runs, Tokens(query), |query|);
    }
  }

  method TokenizeQuery(query: string) returns (tokens: seq<string>)
    ensures tokens == Tokens(query)
  {
    var current := "";
    tokens := [];
    for i := 0 to |query|
      invariant (tokens, current) == Split(query[..i])
    {
      assert query[..i + 1][..i] == query[..i];
      var c := query[i];
      if !IsSpace(c) {
        current := current + [ToLower(c)];
      } else if current != "" {
        tokens := tokens + [current];
        current := "";
      }
    }
    assert query[..|query|] == query;
    if current != "" {
      tokens := tokens + [current];
    }
  }

  function Joined(tokens: seq<string>): string {
    if tokens == [] then ""
    else if |tokens| == 1 then tokens[0]
    else Joined(tokens[..|tokens| - 1]) + " " + tokens[|tokens| - 1]
  }

  /** The first token begins the text; every other one follows what is before it after exactly one space. */
  lemma {:induction false} JoinedAt(tokens: seq<string>, k: nat)
    requires k < |tokens|
    ensures k == 0 ==> Joined(tokens[..1]) == tokens[0] && Joined(tokens[..1]) <= Joined(tokens)
    ensures k > 0 ==>
      Joined(tokens[..k + 1]) == Joined(tokens[..k]) + " " + tokens[k] && Joined(tokens[..k + 1]) <= Joined(tokens)
    decreases |tokens|
  {
    var n := |tokens| - 1;
    if k < n {
      JoinedAt(tokens[..n], k);
      assert tokens[..n][..k + 1] == tokens[..k + 1] && tokens[..n][..k] == tokens[..k];
      assert tokens[..n][..1] == tokens[..1];
    } else {
      assert tokens[..k + 1] == tokens;
    }
  }

  /** Altogether there is one space between each two tokens and nothing else. */
  lemma {:induction false} JoinedSize(tokens: seq<string>)
    ensures |Joined(tokens)| == TotalSize(tokens) + if tokens == [] then 0 else |tokens| - 1
    decreases |tokens|
  {
    if |tokens| > 1 { JoinedSize(tokens[..|tokens| - 1]); }
    else if |tokens| == 1 { assert TotalSize(tokens[..0]) == 0; }
  }

  function TotalSize(tokens: seq<string>): nat {
    if tokens == [] then 0 else TotalSize(tokens[..|tokens| - 1]) + |tokens[|tokens| - 1]|
  }

  method MergeTokens(tokens: seq<string>) returns (output: string)
    ensures output == Joined(tokens)
  {
    output := "";
    var lastPos := |tokens| - 1;
    var i := 0;
    while i < lastPos
      invariant 0 <= i <= |tokens| && (lastPos >= 0 ==> i <= lastPos)
      invariant output == if i == 0 then "" else Joined(tokens[..i]) + " "
    {
      assert tokens[..i + 1][..i] == tokens[..i] && tokens[..i + 1][i] == tokens[i];
      assert (if i == 0 then "" else Joined(tokens[..i]) + " ") + tokens[i] == Joined(tokens[..i + 1]);
      output := output + tokens[i];
      output := output + " ";
      i := i + 1;
    }
    if lastPos >= 0 {
      assert tokens[..lastPos + 1] == tokens;
      output := output + tokens[lastPos];
    }
  }

  /** What a token can look like: not empty, no space, nothing left to lower. */
  predicate IsToken(t: string) {
    t != [] && forall i | 0 <= i < |t| :: !IsSpace(t[i]) && ToLower(t[i]) == t[i]
  }

  predicate AreTokens(ts: seq<string>) {
    forall i | 0 <= i < |ts| :: IsToken(ts[i])
  }

  /** Lowering never makes a space and lowers once and for all. */
  lemma LowerOnce(c: char)
    ensures ToLower(ToLower(c)) == ToLower(c) && (IsSpace(ToLower(c)) ==> IsSpace(c))
  {
  }

  lemma {:induction false} SplitTokens(query: string)
    ensures AreTokens(Split(query).0) && (Split(query).1 != [] ==> IsToken(Split(query).1))
    decreases |query|
  {
    if query != [] {
      SplitTokens(query[..|query| - 1]);
      LowerOnce(query[|query| - 1]);
    }
  }

  lemma TokensAreTokens(query: string)
    ensures AreTokens(Tokens(query))
  {
    SplitTokens(query);
  }

  /** Reading a token after a space or at the start. */
  lemma {:induction false} SplitToken(prefix: string, t: string, n: nat)
    requires n <= |t| && (forall i | 0 <= i < |t| :: !IsSpace(t[i]) && ToLower(t[i]) == t[i]) && Split(prefix).1 == []
    ensures Split(prefix + t[..n]) == (Split(prefix).0, t[..n])
    decreases n
  {
    if n == 0 {
      assert prefix + t[..0] == prefix;
    } else {
      SplitToken(prefix, t, n - 1);
      var q := prefix + t[..n];
      assert q[..|q| - 1] == prefix + t[..n - 1];
      assert t[..n] == t[..n - 1] + [t[n - 1]];
    }
  }

  lemma SplitSpace(query: string)
    requires Split(query).1 != []
    ensures Split(query + " ") == (Split(query).0 + [Split(query).1], [])
  {
    assert (query + " ")[..|query|] == query;
  }

  /** Tokenizing undoes merging. */
  lemma {:induction false} SplitJoined(ts: seq<string>)
    requires AreTokens(ts) && ts != []
    ensures Split(Joined(ts)) == (ts[..|ts| - 1], ts[|ts| - 1])
    decreases |ts|
  {
    var n := |ts| - 1;
    var last := ts[n];
    assert IsToken(last) && last[..|last|] == last;
    if n == 0 {
      SplitToken([], last, |last|);
      assert [] + last == last;
    } else {
      SplitJoined(ts[..n]);
      assert IsToken(ts[n - 1]);
      var head := Joined(ts[..n]);
      SplitSpace(head);
      assert ts[..n][..n - 1] + [ts[n - 1]] == ts[..n];
      SplitToken(head + " ", last, |last|);
    }
  }

  lemma TokensOfJoined(ts: seq<string>)
    requires AreTokens(ts)
    ensures Tokens(Joined(ts)) == ts
  {
    if ts != [] {
      SplitJoined(ts);
      assert IsToken(ts[|ts| - 1]);
      assert ts == ts[..|ts| - 1] + [ts[|ts| - 1]];
    }
  }

  // ---------------------------------------------------------------- sorting

  ghost predicate Sorted(s: seq<string>) {
    forall i, j | 0 <= i < j < |s| :: !TextLess(s[j], s[i])
  }

  lemma InsertSorted(s: seq<string>, t: string, k: nat)
    requires Sorted(s) && k <= |s|
    requires forall i | 0 <= i < k :: !TextLess(t, s[i])
    requires k < |s| ==> TextLess(t, s[k])
    ensures Sorted(s[..k] + [t] + s[k..])
  {
    forall i | k <= i < |s| ensures !TextLess(s[i], t) {
      TextTotal(s[k], t);
      if i > k && TextLess(s[i], t) { TextTrans(s[i], t, s[k]); }
    }
  }

  /** `std::sort` on strings. */
  method Sort(ts: seq<string>) returns (s: seq<string>)
    ensures Sorted(s) && multiset(s) == multiset(ts)
  {
    s := [];
    for i := 0 to |ts|
      invariant Sorted(s) && multiset(s) == multiset(ts[..i])
    {
      var k := 0;
      while k < |s| && !TextLess(ts[i], s[k])
        invariant k <= |s| && forall j | 0 <= j < k :: !TextLess(ts[i], s[j])
      {
        k := k + 1;
      }
      InsertSorted(s, ts[i], k);
      assert s == s[..k] + s[k..];
      assert ts[..i + 1] == ts[..i] + [ts[i]];
      s := s[..k] + [ts[i]] + s[k..];
    }
    assert ts[..|ts|] == ts;
  }

  /** Sorting leaves no choice: equal multisets sort to the same sequence. */
  lemma {:induction false} SortUnique(a: seq<string>, b: seq<string>)
    requires Sorted(a) && Sorted(b) && multiset(a) == multiset(b)
    ensures a == b
    decreases |a|
  {
    assert |a| == |multiset(a)| == |multiset(b)| == |b|;
    if a != [] {
      SameHead(a, b);
      assert a == [a[0]] + a[1..] && b == [b[0]] + b[1..];
      assert multiset(a[1..]) == multiset(a) - multiset{a[0]};
      assert multiset(b[1..]) == multiset(b) - multiset{b[0]};
      SortUnique(a[1..], b[1..]);
    }
  }

  lemma SameHead(a: seq<string>, b: seq<string>)
    requires Sorted(a) && Sorted(b) && multiset(a) == multiset(b) && a != [] && b != []
    ensures a[0] == b[0]
  {
    assert a[0] in multiset(a) && b[0] in multiset(b);
    assert a[0] in b && b[0] in a;
    HeadLeast(a, b[0]);
    HeadLeast(b, a[0]);
    TextTotal(a[0], b[0]);
  }

  lemma HeadLeast(s: seq<string>, x: string)
    requires Sorted(s) && x in s
    ensures !TextLess(x, s[0])
  {
    TextTotal(x, x);
  }

  /** `s` is the normal form of a query. */
  ghost predicate NormalOf(query: string, s: string) {
    exists ts :: Sorted(ts) && multiset(ts) == multiset(Tokens(query)) && s == Joined(ts)
  }

  method Normalize(from: string) returns (to: string)
    ensures NormalOf(from, to)
    ensures exists ts ::
      && multiset(ts) == multiset(Tokens(from)) && to == Joined(ts)
      && forall i, j | 0 <= i < j < |ts| :: ts[i] == ts[j] || TextLess(ts[i], ts[j])
  {
    var tokens := TokenizeQuery(from);
    var sorted := Sort(tokens);
    to := MergeTokens(sorted);
    forall i, j | 0 <= i < j < |sorted| ensures sorted[i] == sorted[j] || TextLess(sorted[i], sorted[j]) {
      TextTotal(sorted[i], sorted[j]);
    }
  }

  lemma SameTokens(a: seq<string>, b: seq<string>)
    requires AreTokens(a) && multiset(a) == multiset(b)
    ensures AreTokens(b)
  {
    forall i | 0 <= i < |b| ensures IsToken(b[i]) {
      assert b[i] in multiset(b);
      assert b[i] in a;
    }
  }

  /** Two queries have the same normal form exactly if they have the same tokens, counted. */
  lemma Canonical(p: string, q: string, s: string, t: string)
    requires NormalOf(p, s) && NormalOf(q, t)
    ensures s == t <==> multiset(Tokens(p)) == multiset(Tokens(q))
  {
    var a :| Sorted(a) && multiset(a) == multiset(Tokens(p)) && s == Joined(a);
    var b :| Sorted(b) && multiset(b) == multiset(Tokens(q)) && t == Joined(b);
    TokensAreTokens(p);
    TokensAreTokens(q);
    SameTokens(Tokens(p), a);
    SameTokens(Tokens(q), b);
    TokensOfJoined(a);
    TokensOfJoined(b);
    if multiset(a) == multiset(b) { SortUnique(a, b); }
  }

  /** Normalizing a normal form changes nothing. */
  lemma Idempotent(q: string, s: string, t: string)
    requires NormalOf(q, s) && NormalOf(s, t)
    ensures t == s
  {
    var a :| Sorted(a) && multiset(a) == multiset(Tokens(q)) && s == Joined(a);
    var b :| Sorted(b) && multiset(b) == multiset(Tokens(s)) && t == Joined(b);
    TokensAreTokens(q);
    SameTokens(Tokens(q), a);
    TokensOfJoined(a);
    SortUnique(a, b);
  }
}