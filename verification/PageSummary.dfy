/** Filling a result page from the workers: the page is split by worker, every worker answers for its
    share, and the answers are merged back into page order
    (`splitSearchResultByWorkerid`, `getSummaryResult`). */
module PageSummary {
  import opened Orders

  /** The request to one worker: its documents in page order and their places on the page. */
  datatype Share = Share(docs: seq<nat>, offsets: seq<nat>, count: nat)

  /** The answer of one worker: per displayed property, the texts of its documents. */
  datatype Answer = Answer(offsets: seq<nat>, texts: seq<seq<string>>, error: string)

  datatype Total = Total(docs: seq<nat>, workers: seq<nat>, start: nat, count: nat, topKNum: nat)

  /** `share` lists, in order, exactly the first `n` page places that belong to `worker`. */
  ghost predicate ShareOf(share: Share, docs: seq<nat>, workers: seq<nat>, worker: nat, n: nat)
    requires n <= |docs| == |workers|
  {
    && Ascends(share.offsets)
    && |share.docs| == |share.offsets| == share.count
    && (forall k | 0 <= k < |share.offsets| ::
          share.offsets[k] < n && workers[share.offsets[k]] == worker && share.docs[k] == docs[share.offsets[k]])
    && (forall i: nat | i < n && workers[i] == worker :: i in share.offsets)
  }

  /** The shares partition the first `n` places of the page. */
  ghost predicate SplitOf(shares: map<nat, Share>, docs: seq<nat>, workers: seq<nat>, n: nat)
    requires n <= |docs| == |workers|
  {
    && (forall w | w in shares :: ShareOf(shares[w], docs, workers, w, n) && shares[w].offsets != [])
    && (forall i | 0 <= i < n :: workers[i] in shares)
  }

  function ShareFor(shares: map<nat, Share>, w: nat): Share {
    if w in shares then shares[w] else Share([], [], 0)
  }

  lemma ShareStep(share: Share, docs: seq<nat>, workers: seq<nat>, w: nat, n: nat)
    requires n < |docs| == |workers| && ShareOf(share, docs, workers, w, n)
    ensures workers[n] != w ==> ShareOf(share, docs, workers, w, n + 1)
    ensures workers[n] == w ==>
      ShareOf(Share(share.docs + [docs[n]], share.offsets + [n], share.count + 1), docs, workers, w, n + 1)
  {
    var more := share.offsets + [n];
    assert more[|share.offsets|] == n;
    forall i: nat | i < n && workers[i] == w ensures i in more { assert i in share.offsets; }
  }

  lemma SplitStep(shares: map<nat, Share>, docs: seq<nat>, workers: seq<nat>, n: nat)
    requires n < |docs| == |workers| && SplitOf(shares, docs, workers, n)
    ensures var w, s := workers[n], ShareFor(shares, workers[n]);
            SplitOf(shares[w := Share(s.docs + [docs[n]], s.offsets + [n], s.count + 1)], docs, workers, n + 1)
  {
    var w := workers[n];
    assert ShareOf(ShareFor(shares, w), docs, workers, w, n);
    ShareStep(ShareFor(shares, w), docs, workers, w, n);
    forall v | v in shares ensures v != w ==> ShareOf(shares[v], docs, workers, v, n + 1) {
      ShareStep(shares[v], docs, workers, v, n);
    }
  }

  /** The page inside the top list: from the start within the list, as far as count and list reach. */
  function PageStart(t: Total): nat
    requires t.topKNum > 0
  {
    t.start % t.topKNum
  }

  function PageLength(t: Total): nat
    requires t.topKNum > 0
  {
    var s := PageStart(t);
    if |t.docs| <= s then 0 else if |t.docs| - s < t.count then |t.docs| - s else t.count
  }

  function Page(t: Total, list: seq<nat>): seq<nat>
    requires |list| == |t.docs|
  {
    if t.topKNum == 0 || PageLength(t) == 0 then [] else list[PageStart(t)..PageStart(t) + PageLength(t)]
  }

  lemma PageAt(t: Total, list: seq<nat>, i: nat)
    requires |list| == |t.docs| && t.topKNum > 0
    ensures |Page(t, list)| == PageLength(t)
    ensures PageStart(t) + i < |list| && i < t.count ==> i < PageLength(t) && Page(t, list)[i] == list[PageStart(t) + i]
    ensures PageStart(t) + i >= |list| || i >= t.count ==> i >= PageLength(t)
  {
  }

  function AddDoc(shares: map<nat, Share>, w: nat, doc: nat, i: nat): map<nat, Share> {
    var s := ShareFor(shares, w);
    shares[w := Share(s.docs + [doc], s.offsets + [i], s.count + 1)]
  }

  /** The first `i` documents of the page have been handed out. */
  ghost predicate SplitTo(t: Total, shares: map<nat, Share>, i: nat) {
    && |t.docs| == |t.workers| && t.topKNum > 0
    && i <= |Page(t, t.docs)| == |Page(t, t.workers)|
    && SplitOf(shares, Page(t, t.docs), Page(t, t.workers), i)
  }

  lemma SplitStart(t: Total)
    requires |t.docs| == |t.workers|
    ensures if t.topKNum == 0 || |t.docs| == 0 then Page(t, t.docs) == Page(t, t.workers) == []
            else SplitTo(t, map[], 0)
    ensures SplitOf(map[], [], [], 0)
  {
  }

  lemma SplitNext(t: Total, shares: map<nat, Share>, i: nat)
    requires SplitTo(t, shares, i)
    ensures PageStart(t) + i < |t.docs| && i < t.count ==>
      PageStart(t) + i < |t.workers|
        && SplitTo(t, AddDoc(shares, t.workers[PageStart(t) + i], t.docs[PageStart(t) + i], i), i + 1)
    ensures PageStart(t) + i >= |t.docs| || i >= t.count ==> i == |Page(t, t.docs)|
  {
    hide SplitOf;
    PageAt(t, t.docs, i);
    PageAt(t, t.workers, i);
    if PageStart(t) + i < |t.docs| && i < t.count {
      SplitStep(shares, Page(t, t.docs), Page(t, t.workers), i);
    }
  }

  lemma SplitEnd(t: Total, shares: map<nat, Share>, i: nat)
    requires SplitTo(t, shares, i) && i == |Page(t, t.docs)|
    ensures |t.docs| == |t.workers| && |Page(t, t.docs)| == |Page(t, t.workers)|
    ensures SplitOf(shares, Page(t, t.docs), Page(t, t.workers), |Page(t, t.docs)|)
  {
  }

  /** The split in terms of the whole result: every worker gets, in order, the documents of its own that stand
      on the page, with their places; every place on the page is handed out. */
  ghost predicate IsSplit(t: Total, shares: map<nat, Share>)
    requires |t.docs| == |t.workers|
  {
    && (t.topKNum == 0 ==> shares == map[])
    && (forall w | w in shares ::
          && shares[w].offsets != [] && |shares[w].docs| == |shares[w].offsets| == shares[w].count
          && (forall k, l | 0 <= k < l < |shares[w].offsets| :: shares[w].offsets[k] < shares[w].offsets[l]))
    && (t.topKNum > 0 ==> PlacesSplit(t, shares, t.start % t.topKNum))
  }

  /** ... where the page begins at `start`. */
  ghost predicate PlacesSplit(t: Total, shares: map<nat, Share>, start: nat)
    requires |t.docs| == |t.workers|
  {
    && (forall w, k | w in shares && 0 <= k < |shares[w].offsets| ::
          && start + shares[w].offsets[k] < |t.docs| && shares[w].offsets[k] < t.count
          && t.workers[start + shares[w].offsets[k]] == w
          && k < |shares[w].docs| && shares[w].docs[k] == t.docs[start + shares[w].offsets[k]])
    && (forall j | start <= j < |t.docs| && j - start < t.count ::
          t.workers[j] in shares && j - start in shares[t.workers[j]].offsets)
  }

  lemma SplitMeans(t: Total, shares: map<nat, Share>)
    requires |t.docs| == |t.workers|
    requires SplitOf(shares, Page(t, t.docs), Page(t, t.workers), |Page(t, t.docs)|)
    ensures IsSplit(t, shares)
  {
    forall w | w in shares
      ensures shares[w].offsets != [] && |shares[w].docs| == |shares[w].offsets| == shares[w].count
      ensures forall k, l | 0 <= k < l < |shares[w].offsets| :: shares[w].offsets[k] < shares[w].offsets[l]
      ensures t.topKNum > 0
    {
      ShareShape(t, shares, w);
    }
    if t.topKNum > 0 {
      PlacesMean(t, shares, t.start % t.topKNum);
    }
    hide SplitOf, PageStart, PageLength, Page, PlacesSplit;
  }

  lemma ShareShape(t: Total, shares: map<nat, Share>, w: nat)
    requires |t.docs| == |t.workers| && w in shares
    requires SplitOf(shares, Page(t, t.docs), Page(t, t.workers), |Page(t, t.docs)|)
    ensures shares[w].offsets != [] && |shares[w].docs| == |shares[w].offsets| == shares[w].count
    ensures forall k, l | 0 <= k < l < |shares[w].offsets| :: shares[w].offsets[k] < shares[w].offsets[l]
    ensures t.topKNum > 0
  {
    assert ShareOf(shares[w], Page(t, t.docs), Page(t, t.workers), w, |Page(t, t.docs)|);
    assert shares[w].offsets[0] < |Page(t, t.docs)|;
  }

  lemma PlacesMean(t: Total, shares: map<nat, Share>, start: nat)
    requires |t.docs| == |t.workers| && t.topKNum > 0 && start == PageStart(t)
    requires SplitOf(shares, Page(t, t.docs), Page(t, t.workers), |Page(t, t.docs)|)
    ensures PlacesSplit(t, shares, start)
  {
    hide SplitOf, PageStart, PageLength, Page, ShareOf, Ascends;
    forall w, k | w in shares && 0 <= k < |shares[w].offsets|
      ensures start + shares[w].offsets[k] < |t.docs| && shares[w].offsets[k] < t.count
      ensures t.workers[start + shares[w].offsets[k]] == w
      ensures k < |shares[w].docs| && shares[w].docs[k] == t.docs[start + shares[w].offsets[k]]
    {
      ShareMeans(t, shares, w, k);
    }
    forall j | start <= j < |t.docs| && j - start < t.count
      ensures t.workers[j] in shares && j - start in shares[t.workers[j]].offsets
    {
      PlaceMeans(t, shares, j - start);
    }
  }

  lemma ShareMeans(t: Total, shares: map<nat, Share>, w: nat, k: nat)
    requires |t.docs| == |t.workers| && t.topKNum > 0
    requires SplitOf(shares, Page(t, t.docs), Page(t, t.workers), |Page(t, t.docs)|)
    requires w in shares && k < |shares[w].offsets|
    ensures PageStart(t) + shares[w].offsets[k] < |t.docs| && shares[w].offsets[k] < t.count
    ensures t.workers[PageStart(t) + shares[w].offsets[k]] == w
    ensures |shares[w].docs| == |shares[w].offsets|
    ensures shares[w].docs[k] == t.docs[PageStart(t) + shares[w].offsets[k]]
  {
    assert ShareOf(shares[w], Page(t, t.docs), Page(t, t.workers), w, |Page(t, t.docs)|);
    hide PageStart, PageLength, Page, SplitOf, Ascends;
    PageAt(t, t.docs, shares[w].offsets[k]);
    PageAt(t, t.workers, shares[w].offsets[k]);
  }

  lemma PlaceMeans(t: Total, shares: map<nat, Share>, i: nat)
    requires |t.docs| == |t.workers| && t.topKNum > 0
    requires SplitOf(shares, Page(t, t.docs), Page(t, t.workers), |Page(t, t.docs)|)
    requires i < t.count && PageStart(t) + i < |t.docs|
    ensures t.workers[PageStart(t) + i] in shares && i in shares[t.workers[PageStart(t) + i]].offsets
  {
    hide PageStart, PageLength, Page, Ascends;
    PageAt(t, t.docs, i);
    PageAt(t, t.workers, i);
    var w := Page(t, t.workers)[i];
    assert w in shares && ShareOf(shares[w], Page(t, t.docs), Page(t, t.workers), w, |Page(t, t.docs)|);
  }

  method SplitSearchResult(t: Total) returns (shares: map<nat, Share>)
    requires |t.docs| == |t.workers|
    ensures SplitOf(shares, Page(t, t.docs), Page(t, t.workers), |Page(t, t.docs)|)
    ensures IsSplit(t, shares)
  {
    shares := map[];
    SplitStart(t);
    if t.topKNum == 0 || |t.docs| == 0 {
      SplitMeans(t, shares);
      return;
    }
    hide *;
    var startInPage := PageStart(t);
    var i, top := 0, startInPage;
    while top < |t.docs|
      invariant top == startInPage + i && SplitTo(t, shares, i)
    {
      SplitNext(t, shares, i);
      if top >= startInPage + t.count {
        break;
      }
      shares := AddDoc(shares, t.workers[top], t.docs[top], i);
      i := i + 1;
      top := top + 1;
    }
    SplitNext(t, shares, i);
    SplitEnd(t, shares, i);
    SplitMeans(t, shares);
  }

  // ---------------------------------------------------------------- merging the answers

  /** `answers` come from the workers `from`, each answering `f` for its share, in any order. */
  ghost predicate AnswersTo(answers: seq<Answer>, from: seq<nat>, shares: map<nat, Share>,
                            f: (nat, nat, nat) -> string, props: nat) {
    && |from| == |answers| && Distinct(from)
    && (forall w :: w in from <==> w in shares)
    && (forall a | 0 <= a < |answers| :: from[a] in shares && AnswerTo(answers[a], from[a], shares[from[a]], f, props))
  }

  ghost predicate AnswerTo(a: Answer, w: nat, share: Share, f: (nat, nat, nat) -> string, props: nat) {
    && a.error == "" && a.offsets == share.offsets && |a.texts| == props
    && |share.docs| == |share.offsets|
    && (forall d | 0 <= d < props :: |a.texts[d]| == |share.docs|)
    && (forall d, k | 0 <= d < props && 0 <= k < |share.docs| :: a.texts[d][k] == f(d, w, share.docs[k]))
  }

  /** Every worker's cursor stands at its first place not before `i`. */
  ghost predicate CursorsAt(answers: seq<Answer>, cursors: seq<nat>, i: nat) {
    && |cursors| == |answers|
    && (forall a | 0 <= a < |answers| :: CursorAt(answers[a].offsets, cursors[a], i))
  }

  ghost predicate CursorAt(offsets: seq<nat>, cursor: nat, i: nat) {
    && cursor <= |offsets|
    && (forall k | 0 <= k < cursor :: offsets[k] < i)
    && (forall k | cursor <= k < |offsets| :: i <= offsets[k])
  }

  /** The answer whose cursor stands at place `i`, if any. */
  method FindWorker(answers: seq<Answer>, cursors: seq<nat>, i: nat) returns (cur: nat)
    requires |cursors| == |answers|
    ensures cur <= |answers|
    ensures cur < |answers| ==> cursors[cur] < |answers[cur].offsets| && answers[cur].offsets[cursors[cur]] == i
    ensures forall a | 0 <= a < cur :: cursors[a] >= |answers[a].offsets| || answers[a].offsets[cursors[a]] != i
  {
    cur := 0;
    while cur < |answers|
      invariant cur <= |answers|
      invariant forall a | 0 <= a < cur :: cursors[a] >= |answers[a].offsets| || answers[a].offsets[cursors[a]] != i
    {
      if cursors[cur] < |answers[cur].offsets| && answers[cur].offsets[cursors[cur]] == i {
        break;
      }
      cur := cur + 1;
    }
  }

  /** For a place on the page there is a worker, and it is the one of the page document. */
  lemma WorkerFound(answers: seq<Answer>, from: seq<nat>, shares: map<nat, Share>, f: (nat, nat, nat) -> string,
                    props: nat, docs: seq<nat>, workers: seq<nat>, cursors: seq<nat>, i: nat, cur: nat)
    requires |docs| == |workers| && SplitOf(shares, docs, workers, |docs|) && AnswersTo(answers, from, shares, f, props)
    requires CursorsAt(answers, cursors, i) && cur <= |answers|
    requires cur < |answers| ==> cursors[cur] < |answers[cur].offsets| && answers[cur].offsets[cursors[cur]] == i
    requires forall a | 0 <= a < cur :: cursors[a] >= |answers[a].offsets| || answers[a].offsets[cursors[a]] != i
    ensures i < |docs| <==> cur < |answers|
    ensures cur < |answers| ==>
      && |answers[cur].texts| == props
      && forall d | 0 <= d < props ::
           cursors[cur] < |answers[cur].texts[d]| && answers[cur].texts[d][cursors[cur]] == f(d, workers[i], docs[i])
  {
    if cur < |answers| {
      assert ShareOf(shares[from[cur]], docs, workers, from[cur], |docs|);
      assert AnswerTo(answers[cur], from[cur], shares[from[cur]], f, props);
    } else if i < |docs| {
      var a :| 0 <= a < |from| && from[a] == workers[i];
      assert ShareOf(shares[from[a]], docs, workers, from[a], |docs|);
      assert i in shares[from[a]].offsets;
      CursorHits(answers[a].offsets, cursors[a], i);
    }
  }

  lemma CursorHits(offsets: seq<nat>, cursor: nat, i: nat)
    requires Ascends(offsets) && CursorAt(offsets, cursor, i) && i in offsets
    ensures cursor < |offsets| && offsets[cursor] == i
  {
  }

  lemma CursorsStep(answers: seq<Answer>, cursors: seq<nat>, i: nat, cur: nat)
    requires CursorsAt(answers, cursors, i) && cur < |answers|
    requires cursors[cur] < |answers[cur].offsets| && answers[cur].offsets[cursors[cur]] == i
    requires forall a | 0 <= a < |answers| :: Ascends(answers[a].offsets)
    requires forall a | 0 <= a < |answers| && a != cur :: i !in answers[a].offsets
    ensures CursorsAt(answers, cursors[cur := cursors[cur] + 1], i + 1)
  {
    forall a | 0 <= a < |answers| ensures CursorAt(answers[a].offsets, cursors[cur := cursors[cur] + 1][a], i + 1) {
      assert CursorAt(answers[a].offsets, cursors[a], i) && Ascends(answers[a].offsets);
      if a != cur {
        assert forall k | cursors[a] <= k < |answers[a].offsets| :: answers[a].offsets[k] in answers[a].offsets;
      }
    }
  }

  /** The first `n` slots hold the right texts, the others are empty. */
  ghost predicate Filled(texts: seq<seq<string>>, docs: seq<nat>, workers: seq<nat>, f: (nat, nat, nat) -> string,
                         props: nat, pageCount: nat, n: nat)
    requires n <= |docs| == |workers|
  {
    && |texts| == props && (forall d | 0 <= d < props :: |texts[d]| == pageCount)
    && (forall d, i | 0 <= d < props && 0 <= i < pageCount :: texts[d][i] == Slot(docs, workers, f, n, d, i))
  }

  ghost function Slot(docs: seq<nat>, workers: seq<nat>, f: (nat, nat, nat) -> string, n: nat, d: nat, i: nat): string
    requires n <= |docs| == |workers|
  {
    if i < n then f(d, workers[i], docs[i]) else ""
  }

  /** The answer's document `k` goes to slot `i` of every displayed property it has a text for. */
  method CopyTexts(texts0: seq<seq<string>>, answer: Answer, k: nat, i: nat) returns (texts: seq<seq<string>>)
    requires forall d | 0 <= d < |texts0| :: i < |texts0[d]|
    ensures |texts| == |texts0|
    ensures forall d | 0 <= d < |texts| ::
      texts[d] == if d < |answer.texts| && k < |answer.texts[d]| then texts0[d][i := answer.texts[d][k]] else texts0[d]
  {
    texts := texts0;
    for d := 0 to |texts0|
      invariant |texts| == |texts0|
      invariant forall e | d <= e < |texts| :: texts[e] == texts0[e]
      invariant forall e | 0 <= e < d ::
        texts[e] == if e < |answer.texts| && k < |answer.texts[e]| then texts0[e][i := answer.texts[e][k]]
          else texts0[e]
    {
      if |answer.texts| > d && |answer.texts[d]| > k {
        texts := texts[d := texts[d][i := answer.texts[d][k]]];
      }
    }
  }

  lemma FilledStep(texts0: seq<seq<string>>, texts: seq<seq<string>>, answer: Answer, k: nat, i: nat,
                   docs: seq<nat>, workers: seq<nat>, f: (nat, nat, nat) -> string, props: nat, pageCount: nat)
    requires i < |docs| == |workers| && i < pageCount && Filled(texts0, docs, workers, f, props, pageCount, i)
    requires |answer.texts| == props
    requires forall d | 0 <= d < props :: k < |answer.texts[d]| && answer.texts[d][k] == f(d, workers[i], docs[i])
    requires |texts| == props && forall d | 0 <= d < props :: texts[d] == texts0[d][i := answer.texts[d][k]]
    ensures Filled(texts, docs, workers, f, props, pageCount, i + 1)
  {
    forall d, j | 0 <= d < props && 0 <= j < pageCount
      ensures texts[d][j] == Slot(docs, workers, f, i + 1, d, j)
    {
      assert texts0[d][j] == Slot(docs, workers, f, i, d, j);
    }
  }

  /** Nobody else has the place. */
  lemma OnlyOne(answers: seq<Answer>, from: seq<nat>, shares: map<nat, Share>, f: (nat, nat, nat) -> string, props: nat,
                docs: seq<nat>, workers: seq<nat>, i: nat, cur: nat)
    requires |docs| == |workers| && SplitOf(shares, docs, workers, |docs|) && AnswersTo(answers, from, shares, f, props)
    requires cur < |answers| && i in answers[cur].offsets
    ensures forall a | 0 <= a < |answers| :: Ascends(answers[a].offsets)
    ensures forall a | 0 <= a < |answers| && a != cur :: i !in answers[a].offsets
  {
    forall a | 0 <= a < |answers| ensures Ascends(answers[a].offsets) && (a != cur ==> i !in answers[a].offsets) {
      assert ShareOf(shares[from[a]], docs, workers, from[a], |docs|);
      assert ShareOf(shares[from[cur]], docs, workers, from[cur], |docs|);
      if i in answers[a].offsets {
        assert from[a] == workers[i] == from[cur];
      }
    }
  }

  datatype Summary = Summary(texts: seq<seq<string>>) | Unanswered

  method GetSummaryResult(answers: seq<Answer>, pageCount: nat, ghost from: seq<nat>, ghost shares: map<nat, Share>,
                          ghost f: (nat, nat, nat) -> string, ghost props: nat, ghost docs: seq<nat>,
                            ghost workers: seq<nat>)
    returns (r: Summary)
    requires |docs| == |workers| && |docs| <= pageCount && SplitOf(shares, docs, workers, |docs|)
    requires (forall a | 0 <= a < |answers| :: answers[a].error == "") ==> AnswersTo(answers, from, shares, f, props)
    ensures r.Summary? <==> answers != [] && forall a | 0 <= a < |answers| :: answers[a].error == ""
    ensures r.Summary? ==> Filled(r.texts, docs, workers, f, props, pageCount, |docs|)
    ensures r.Summary? ==>
      && |r.texts| == props
      && forall d | 0 <= d < props ::
           && |r.texts[d]| == pageCount
           && forall i | 0 <= i < pageCount :: r.texts[d][i] == if i < |docs| then f(d, workers[i], docs[i]) else ""
  {
    for a := 0 to |answers|
      invariant forall b | 0 <= b < a :: answers[b].error == ""
    {
      if answers[a].error != "" {
        return Unanswered;
      }
    }
    if |answers| == 0 {
      return Unanswered;
    }
    var texts := FillPage(answers, pageCount, from, shares, f, props, docs, workers);
    r := Summary(texts);
  }

  lemma FillStart(answers: seq<Answer>, from: seq<nat>, shares: map<nat, Share>, f: (nat, nat, nat) -> string,
                  props: nat, docs: seq<nat>, workers: seq<nat>, pageCount: nat)
    requires |docs| == |workers| && answers != [] && AnswersTo(answers, from, shares, f, props)
    ensures |answers[0].texts| == props
    ensures CursorsAt(answers, seq(|answers|, _ => 0), 0)
    ensures Filled(Blank(props, pageCount), docs, workers, f, props, pageCount, 0)
  {
    assert AnswerTo(answers[0], from[0], shares[from[0]], f, props);
  }

  function Blank(props: nat, pageCount: nat): seq<seq<string>> {
    seq(props, _ => seq(pageCount, _ => ""))
  }

  method FillPage(answers: seq<Answer>, pageCount: nat, ghost from: seq<nat>, ghost shares: map<nat, Share>,
                  ghost f: (nat, nat, nat) -> string, ghost props: nat, ghost docs: seq<nat>, ghost workers: seq<nat>)
    returns (texts: seq<seq<string>>)
    requires |docs| == |workers| && |docs| <= pageCount && SplitOf(shares, docs, workers, |docs|)
    requires answers != [] && AnswersTo(answers, from, shares, f, props)
    ensures Filled(texts, docs, workers, f, props, pageCount, |docs|)
  {
    FillStart(answers, from, shares, f, props, docs, workers, pageCount);
    hide SplitOf, AnswersTo, CursorsAt, Filled, Blank;
    texts := Blank(|answers[0].texts|, pageCount);
    var cursors: seq<nat> := seq(|answers|, _ => 0);
    var i := 0;
    while i < pageCount
      invariant i <= |docs| && |cursors| == |answers|
      invariant CursorsAt(answers, cursors, i) && Filled(texts, docs, workers, f, props, pageCount, i)
    {
      var cur := FindWorker(answers, cursors, i);
      WorkerFound(answers, from, shares, f, props, docs, workers, cursors, i, cur);
      if cur == |answers| {
        break;
      }
      FilledShape(texts, docs, workers, f, props, pageCount, i);
      OnlyOne(answers, from, shares, f, props, docs, workers, i, cur);
      CursorsStep(answers, cursors, i, cur);
      ghost var before := texts;
      texts := CopyTexts(texts, answers[cur], cursors[cur], i);
      FilledStep(before, texts, answers[cur], cursors[cur], i, docs, workers, f, props, pageCount);
      cursors := cursors[cur := cursors[cur] + 1];
      i := i + 1;
    }
  }

  lemma FilledShape(texts: seq<seq<string>>, docs: seq<nat>, workers: seq<nat>, f: (nat, nat, nat) -> string,
                    props: nat, pageCount: nat, n: nat)
    requires n <= |docs| == |workers| && Filled(texts, docs, workers, f, props, pageCount, n)
    ensures |texts| == props && forall d | 0 <= d < props :: |texts[d]| == pageCount
  {
  }
}