/** Search results made into contexts: filtered, one per path, ranked, cut to a token budget and cached. */
module ContextBudget {

  datatype SearchResult = SearchResult(path: string, content: string, references: seq<string>, gitHistory: bool,
                                       score: real)

  datatype Context = Context(content: string, source: string, score: real, tokens: int, truncated: bool)

  // ------------------------------------------------------------------- tokens

  /** One token for every four characters, and at least one. */
  function CountTokens(text: string): (n: nat)
    ensures if |text| < 4 then n == 1 else 4 * n <= |text| < 4 * n + 4
  {
    if |text| < 4 then 1 else |text| / 4
  }

  /** text[:n] */
  function Slice(text: string, n: nat): (r: string)
    ensures r <= text && |r| == if n < |text| then n else |text|
  {
    if n >= |text| then text else text[..n]
  }

  ghost predicate Counted(cs: seq<Context>) {
    forall i | 0 <= i < |cs| :: cs[i].tokens == CountTokens(cs[i].content)
  }

  ghost function Total(cs: seq<Context>): int {
    if cs == [] then 0 else cs[0].tokens + Total(cs[1..])
  }

  ghost predicate NonNegative(cs: seq<Context>) {
    forall i | 0 <= i < |cs| :: cs[i].tokens >= 0
  }

  // ------------------------------------------------------------------ ranking

  ghost predicate Descending(cs: seq<Context>) {
    forall i, j | 0 <= i < j < |cs| :: cs[i].score >= cs[j].score
  }

  /** The items of one score, in order. */
  ghost function OfScore(cs: seq<Context>, v: real): seq<Context> {
    if cs == [] then []
    else OfScore(cs[..|cs| - 1], v) + if cs[|cs| - 1].score == v then [cs[|cs| - 1]] else []
  }

  /** A new item goes after those that score at least as much. */
  function Insert(cs: seq<Context>, c: Context): seq<Context> {
    if cs == [] || cs[|cs| - 1].score >= c.score then cs + [c]
    else Insert(cs[..|cs| - 1], c) + [cs[|cs| - 1]]
  }

  /** contexts.sort(key=relevance_score, reverse=True), a stable sort. */
  function Ranked(cs: seq<Context>): seq<Context> {
    if cs == [] then [] else Insert(Ranked(cs[..|cs| - 1]), cs[|cs| - 1])
  }

  lemma OfScoreAppend(cs: seq<Context>, c: Context, v: real)
    ensures OfScore(cs + [c], v) == OfScore(cs, v) + if c.score == v then [c] else []
  {
    assert (cs + [c])[..|cs|] == cs;
  }

  ghost predicate AllAtLeast(cs: seq<Context>, w: real) {
    forall i | 0 <= i < |cs| :: cs[i].score >= w
  }

  lemma DescendingAppend(cs: seq<Context>, c: Context)
    ensures Descending(cs + [c]) <==> Descending(cs) && AllAtLeast(cs, c.score)
  {
    var more := cs + [c];
    assert forall i | 0 <= i < |cs| :: more[i] == cs[i] && more[|cs|] == c;
    if Descending(more) {
      forall i | 0 <= i < |cs| ensures cs[i].score >= c.score {
        assert more[i].score >= more[|cs|].score;
      }
      forall i, j | 0 <= i < j < |cs| ensures cs[i].score >= cs[j].score {
        assert more[i].score >= more[j].score;
      }
    }
  }

  lemma AtLeastAfterInsert(cs: seq<Context>, more: seq<Context>, c: Context, w: real)
    requires AllAtLeast(cs, w) && c.score >= w && multiset(more) == multiset(cs) + multiset{c}
    ensures AllAtLeast(more, w)
  {
    forall i | 0 <= i < |more| ensures more[i].score >= w {
      assert more[i] in multiset(cs) + multiset{c};
    }
  }

  lemma Lower(cs: seq<Context>, w: real, u: real)
    requires AllAtLeast(cs, w) && u <= w
    ensures AllAtLeast(cs, u)
  {
  }

  lemma {:induction false} InsertSorts(cs: seq<Context>, c: Context)
    requires Descending(cs)
    ensures Descending(Insert(cs, c)) && multiset(Insert(cs, c)) == multiset(cs) + multiset{c}
  {
    hide Descending, AllAtLeast;
    if cs == [] {
      DescendingAppend([], c);
      assert [] + [c] == [c];
      Singleton(c);
    } else {
      var front, last := cs[..|cs| - 1], cs[|cs| - 1];
      assert cs == front + [last];
      DescendingAppend(front, last);
      if last.score >= c.score {
        Lower(front, last.score, c.score);
        AtLeastAfterInsert(front, cs, last, c.score);
        DescendingAppend(cs, c);
      } else {
        InsertSorts(front, c);
        AtLeastAfterInsert(front, Insert(front, c), c, last.score);
        DescendingAppend(Insert(front, c), last);
      }
    }
  }

  lemma Singleton(c: Context)
    ensures Descending([c])
  {
  }

  lemma {:induction false} InsertIsStable(cs: seq<Context>, c: Context, v: real)
    ensures OfScore(Insert(cs, c), v) == OfScore(cs, v) + if c.score == v then [c] else []
  {
    if cs == [] || cs[|cs| - 1].score >= c.score {
      OfScoreAppend(cs, c, v);
    } else {
      var front, last := cs[..|cs| - 1], cs[|cs| - 1];
      assert cs == front + [last] && Insert(cs, c) == Insert(front, c) + [last];
      hide Insert, OfScore;
      InsertIsStable(front, c, v);
      OfScoreAppend(Insert(front, c), last, v);
      OfScoreAppend(front, last, v);
      var same := OfScore(front, v);
      if c.score == v {
        assert same + [c] + [] == same + [c] && same + [] == same;
      } else {
        assert same + [] == same;
        assert OfScore(cs, v) + [] == OfScore(cs, v);
      }
    }
  }

  /** The ranking is a descending permutation that keeps equal scores in their order. */
  lemma {:induction false} RankedIsStableSort(cs: seq<Context>)
    ensures Descending(Ranked(cs)) && multiset(Ranked(cs)) == multiset(cs)
    ensures forall v :: OfScore(Ranked(cs), v) == OfScore(cs, v)
  {
    if cs != [] {
      var front, last := cs[..|cs| - 1], cs[|cs| - 1];
      RankedIsStableSort(front);
      assert cs == front + [last];
      InsertSorts(Ranked(front), last);
      forall v ensures OfScore(Ranked(cs), v) == OfScore(cs, v) {
        InsertIsStable(Ranked(front), last, v);
      }
    }
  }

  lemma {:induction false} OfScoreIn(cs: seq<Context>, c: Context)
    ensures c in cs <==> c in OfScore(cs, c.score)
  {
    if cs != [] {
      OfScoreIn(cs[..|cs| - 1], c);
      assert cs == cs[..|cs| - 1] + [cs[|cs| - 1]];
    }
  }

  lemma SameMembers(a: seq<Context>, b: seq<Context>, c: Context)
    requires c in a && OfScore(a, c.score) == OfScore(b, c.score)
    ensures c in b
  {
    OfScoreIn(a, c);
    OfScoreIn(b, c);
  }

  /** Two descending sequences with the same items of each score end alike. */
  lemma SameLast(a: seq<Context>, b: seq<Context>)
    requires Descending(a) && Descending(b) && a != [] && b != []
    requires forall v :: OfScore(a, v) == OfScore(b, v)
    ensures a[|a| - 1] == b[|b| - 1]
  {
    hide OfScore, Descending;
    var x, y := a[|a| - 1], b[|b| - 1];
    SameMembers(a, b, x);
    SameMembers(b, a, y);
    LowestIsLast(a, y);
    LowestIsLast(b, x);
    LastOfScore(a);
    LastOfScore(b);
    assert OfScore(a, x.score) == OfScore(b, y.score);
  }

  lemma LowestIsLast(cs: seq<Context>, c: Context)
    requires Descending(cs) && c in cs
    ensures c.score >= cs[|cs| - 1].score
  {
  }

  lemma LastOfScore(cs: seq<Context>)
    requires cs != []
    ensures var x, same := cs[|cs| - 1], OfScore(cs, cs[|cs| - 1].score); same != [] && same[|same| - 1] == x
  {
  }

  lemma Cancel(a: seq<Context>, b: seq<Context>, x: Context)
    requires a + [x] == b + [x]
    ensures a == b
  {
    assert a == (a + [x])[..|a + [x]| - 1] && b == (b + [x])[..|b + [x]| - 1];
  }

  /** ... and the only one: order and stability determine it. */
  lemma {:induction false} StableSortIsUnique(a: seq<Context>, b: seq<Context>)
    requires Descending(a) && Descending(b)
    requires forall v :: OfScore(a, v) == OfScore(b, v)
    ensures a == b
  {
    hide OfScore, Descending;
    if a != [] {
      SameMembers(a, b, a[0]);
    }
    if b != [] {
      SameMembers(b, a, b[0]);
      SameLast(a, b);
      var x, fa, fb := a[|a| - 1], a[..|a| - 1], b[..|b| - 1];
      assert a == fa + [x] && b == fb + [x];
      forall v ensures OfScore(fa, v) == OfScore(fb, v) {
        OfScoreAppend(fa, x, v);
        OfScoreAppend(fb, x, v);
        assert OfScore(a, v) == OfScore(b, v);
        if x.score == v {
          Cancel(OfScore(fa, v), OfScore(fb, v), x);
        } else {
          assert OfScore(fa, v) + [] == OfScore(fa, v) && OfScore(fb, v) + [] == OfScore(fb, v);
        }
      }
      DescendingAppend(fa, x);
      DescendingAppend(fb, x);
      StableSortIsUnique(fa, fb);
    }
  }

  // --------------------------------------------------------------- processing

  /** "\n".join(parts) */
  function Join(parts: seq<string>): string {
    if parts == [] then "" else if |parts| == 1 then parts[0] else parts[0] + "\n" + Join(parts[1..])
  }

  lemma {:induction false} JoinAppend(parts: seq<string>, last: string)
    ensures Join(parts + [last]) == if parts == [] then last else Join(parts) + "\n" + last
  {
    if |parts| == 0 {
      assert parts + [last] == [last];
    } else {
      var rest := parts[1..];
      assert (parts + [last])[1..] == rest + [last];
      JoinAppend(rest, last);
      if rest == [] {
        assert Join(parts + [last]) == parts[0] + "\n" + last;
      } else {
        assert parts[0] + "\n" + (Join(rest) + "\n" + last) == parts[0] + "\n" + Join(rest) + "\n" + last;
      }
    }
  }

  function Content(r: SearchResult): string {
    if r.gitHistory then "Git history for " + r.path + ":\n" + r.content
    else if r.references != [] then Join(if |r.references| <= 5 then r.references else r.references[..5])
    else Slice(r.content, 5000)
  }

  function AsContext(r: SearchResult): Context {
    Context(Content(r), r.path, r.score, CountTokens(Content(r)), false)
  }

  /** The context shows this result: its history, its first five references, or its first 5000 characters. */
  ghost predicate Shows(c: Context, r: SearchResult) {
    && c.source == r.path && c.score == r.score && !c.truncated
    && (if |c.content| < 4 then c.tokens == 1 else 4 * c.tokens <= |c.content| < 4 * c.tokens + 4)
    && if r.gitHistory then c.content == "Git history for " + r.path + ":\n" + r.content
       else if r.references == [] then
         c.content == if |r.content| <= 5000 then r.content else r.content[..5000]
       else c.content == if |r.references| <= 5 then Join(r.references) else Join(r.references[..5])
  }

  lemma OnlyItsContext(c: Context, r: SearchResult)
    ensures Shows(c, r) <==> c == AsContext(r)
  {
    var text := Content(r);
    hide Join;
    assert c.content == text && Shows(c, r) ==> c.tokens == CountTokens(text);
  }

  /** Result i is the first relevant one for its path. */
  ghost predicate First(results: seq<SearchResult>, threshold: real, i: nat) {
    && i < |results| && results[i].score >= threshold
    && forall j | 0 <= j < i :: !(results[j].path == results[i].path && results[j].score >= threshold)
  }

  ghost function Relevant(results: seq<SearchResult>, threshold: real): seq<Context> {
    if results == [] then []
    else
      Relevant(results[..|results| - 1], threshold)
      + if First(results, threshold, |results| - 1) then [AsContext(results[|results| - 1])] else []
  }

  lemma FirstInPrefix(results: seq<SearchResult>, threshold: real, n: nat, i: nat)
    requires i < n <= |results|
    ensures First(results[..n], threshold, i) <==> First(results, threshold, i)
  {
    assert forall j | 0 <= j < n :: results[..n][j] == results[j];
  }

  /** The context is made from the first relevant result for its path. */
  ghost predicate Selected(results: seq<SearchResult>, threshold: real, c: Context) {
    exists i: nat :: First(results, threshold, i) && c == AsContext(results[i])
  }

  lemma SelectedFromFront(results: seq<SearchResult>, threshold: real, c: Context)
    requires results != []
    ensures var n := |results| - 1;
            Selected(results, threshold, c) <==>
            Selected(results[..n], threshold, c) || (First(results, threshold, n) && c == AsContext(results[n]))
  {
    var n := |results| - 1;
    var front := results[..n];
    forall i: nat | i < n ensures First(front, threshold, i) <==> First(results, threshold, i) {
      FirstInPrefix(results, threshold, n, i);
    }
    hide AsContext;
    assert forall i: nat | First(front, threshold, i) || First(results, threshold, i) :: i < |results|;
    if Selected(front, threshold, c) {
      var i: nat :| First(front, threshold, i) && c == AsContext(front[i]);
      assert i < n && First(results, threshold, i);
    }
    if Selected(results, threshold, c) {
      var i: nat :| First(results, threshold, i) && c == AsContext(results[i]);
      assert i < n ==> First(front, threshold, i) && front[i] == results[i];
    }
  }

  /** What processing selects: one context for each path with a relevant result, made from the first such result. */
  lemma {:induction false} RelevantIff(results: seq<SearchResult>, threshold: real, c: Context)
    ensures c in Relevant(results, threshold) <==> Selected(results, threshold, c)
  {
    hide Selected, First, AsContext;
    if results == [] {
      NoneSelected(threshold, c);
    } else {
      RelevantIff(results[..|results| - 1], threshold, c);
      SelectedFromFront(results, threshold, c);
    }
  }

  lemma NoneSelected(threshold: real, c: Context)
    ensures !Selected([], threshold, c)
  {
  }

  ghost predicate OnePerSource(cs: seq<Context>) {
    forall i, j | 0 <= i < j < |cs| :: cs[i].source != cs[j].source
  }

  lemma {:induction false} RelevantOnePerSource(results: seq<SearchResult>, threshold: real)
    ensures OnePerSource(Relevant(results, threshold))
  {
    if results != [] {
      var n := |results| - 1;
      var front := results[..n];
      RelevantOnePerSource(front, threshold);
      if First(results, threshold, n) {
        forall c | c in Relevant(front, threshold) ensures c.source != results[n].path {
          RelevantIff(front, threshold, c);
          assert Selected(front, threshold, c);
          var i: nat :| First(front, threshold, i) && c == AsContext(front[i]);
          assert front[i] == results[i];
        }
      }
    }
  }

  lemma {:induction false} AtMostOnce(cs: seq<Context>, c: Context)
    requires OnePerSource(cs)
    ensures multiset(cs)[c] <= 1
  {
    if cs != [] {
      var front, last := cs[..|cs| - 1], cs[|cs| - 1];
      AtMostOnce(front, c);
      assert cs == front + [last];
      assert forall i | 0 <= i < |front| :: front[i] == cs[i] && cs[i].source != cs[|front|].source;
      assert last !in front;
    }
  }

  /** Reordering does not bring a source in twice. */
  lemma OnePerSourceInAnyOrder(a: seq<Context>, b: seq<Context>)
    requires OnePerSource(a) && multiset(a) == multiset(b)
    ensures OnePerSource(b)
  {
    forall i, j | 0 <= i < j < |b| ensures b[i].source != b[j].source {
      AtMostOnce(a, b[j]);
      assert b == b[..j] + b[j..] && b[i] in b[..j] && b[j] in b[j..];
      assert multiset(b)[b[j]] == multiset(b[..j])[b[j]] + multiset(b[j..])[b[j]];
      assert b[i] in multiset(a) && b[j] in multiset(a);
    }
  }

  /** The contexts come from the results at these places, by falling score and, among equals, as they were found. */
  ghost predicate Laid(results: seq<SearchResult>, threshold: real, cs: seq<Context>, at: seq<nat>) {
    && |at| == |cs|
    && (forall k | 0 <= k < |cs| :: First(results, threshold, at[k]) && Shows(cs[k], results[at[k]]))
    && InOrder(cs, at)
  }

  ghost predicate InOrder(cs: seq<Context>, at: seq<nat>)
    requires |at| == |cs|
  {
    forall j, k | 0 <= j < k < |cs| :: cs[j].score > cs[k].score || (cs[j].score == cs[k].score && at[j] < at[k])
  }

  lemma InOrderLast(cs: seq<Context>, at: seq<nat>, c: Context, i: nat)
    requires |at| == |cs|
    ensures InOrder(cs + [c], at + [i]) <==>
              InOrder(cs, at)
              && forall j | 0 <= j < |cs| :: cs[j].score > c.score || (cs[j].score == c.score && at[j] < i)
  {
    var ds, bt := cs + [c], at + [i];
    if InOrder(ds, bt) {
      forall j, k | 0 <= j < k < |cs|
        ensures cs[j].score > cs[k].score || (cs[j].score == cs[k].score && at[j] < at[k])
      {
        assert ds[j] == cs[j] && ds[k] == cs[k] && bt[j] == at[j] && bt[k] == at[k];
      }
      forall j | 0 <= j < |cs| ensures cs[j].score > c.score || (cs[j].score == c.score && at[j] < i) {
        assert ds[j] == cs[j] && ds[|cs|] == c && bt[j] == at[j] && bt[|cs|] == i;
      }
    }
  }

  /** Where a new item, found last of all, comes to lie. */
  lemma {:induction false} InsertLaid(cs: seq<Context>, at: seq<nat>, c: Context, i: nat) returns (bt: seq<nat>)
    requires |at| == |cs| && InOrder(cs, at) && forall k | 0 <= k < |at| :: at[k] < i
    ensures |bt| == |Insert(cs, c)| == |cs| + 1 && InOrder(Insert(cs, c), bt)
    ensures forall k | 0 <= k < |bt| ::
              || (bt[k] == i && Insert(cs, c)[k] == c)
              || exists j | 0 <= j < |cs| :: bt[k] == at[j] && Insert(cs, c)[k] == cs[j]
  {
    hide InOrder;
    if cs == [] || cs[|cs| - 1].score >= c.score {
      bt := at + [i];
      NoneLower(cs, at, c);
      InOrderLast(cs, at, c, i);
    } else {
      var front, last, ft, lt := cs[..|cs| - 1], cs[|cs| - 1], at[..|at| - 1], at[|at| - 1];
      assert cs == front + [last] && at == ft + [lt];
      InOrderLast(front, ft, last, lt);
      bt := InsertLaid(front, ft, c, i);
      InOrderLast(Insert(front, c), bt, last, lt);
      bt := bt + [lt];
    }
  }

  lemma NoneLower(cs: seq<Context>, at: seq<nat>, c: Context)
    requires |at| == |cs| && InOrder(cs, at) && (cs == [] || cs[|cs| - 1].score >= c.score)
    ensures forall j | 0 <= j < |cs| :: cs[j].score >= c.score
  {
  }

  lemma {:induction false} RankedLaid(results: seq<SearchResult>, threshold: real) returns (at: seq<nat>)
    ensures Laid(results, threshold, Ranked(Relevant(results, threshold)), at)
  {
    at := [];
    if results != [] {
      var n := |results| - 1;
      var front := results[..n];
      at := RankedLaid(front, threshold);
      var found, c := Relevant(front, threshold), AsContext(results[n]);
      hide AsContext, Laid, First;
      StillLaid(results, threshold, Ranked(found), at);
      if First(results, threshold, n) {
        assert (found + [c])[..|found|] == found;
        at := NextLaid(results, threshold, Ranked(found), at);
      } else {
        assert found + [] == found;
      }
    }
  }

  lemma NextLaid(results: seq<SearchResult>, threshold: real, cs: seq<Context>, at: seq<nat>) returns (bt: seq<nat>)
    requires Laid(results, threshold, cs, at) && results != [] && First(results, threshold, |results| - 1)
    requires forall k | 0 <= k < |at| :: at[k] < |results| - 1
    ensures Laid(results, threshold, Insert(cs, AsContext(results[|results| - 1])), bt)
  {
    var c := AsContext(results[|results| - 1]);
    OnlyItsContext(c, results[|results| - 1]);
    hide AsContext, Shows, InOrder, First, Insert;
    bt := InsertLaid(cs, at, c, |results| - 1);
  }

  lemma StillLaid(results: seq<SearchResult>, threshold: real, cs: seq<Context>, at: seq<nat>)
    requires results != [] && Laid(results[..|results| - 1], threshold, cs, at)
    ensures Laid(results, threshold, cs, at) && forall k | 0 <= k < |at| :: at[k] < |results| - 1
  {
    var n := |results| - 1;
    hide Shows, InOrder;
    forall k | 0 <= k < |cs| ensures First(results, threshold, at[k]) && results[at[k]] == results[..n][at[k]] {
      assert First(results[..n], threshold, at[k]);
      FirstInPrefix(results, threshold, n, at[k]);
    }
  }

  lemma SelectedShown(results: seq<SearchResult>, threshold: real)
    ensures forall c :: Selected(results, threshold, c) <==>
              exists i: nat ::
                && i < |results| && results[i].score >= threshold
                && (forall j | 0 <= j < i && results[j].path == results[i].path :: results[j].score < threshold)
                && Shows(c, results[i])
  {
    forall c, i: nat | i < |results| ensures Shows(c, results[i]) <==> c == AsContext(results[i]) {
      OnlyItsContext(c, results[i]);
    }
    hide Shows, AsContext;
  }

  /** _process_results */
  method ProcessResults(results: seq<SearchResult>, threshold: real) returns (contexts: seq<Context>)
    ensures contexts == Ranked(Relevant(results, threshold))
    ensures exists at :: Laid(results, threshold, contexts, at)
    ensures forall c :: c in contexts <==>
              exists i: nat ::
                && i < |results| && results[i].score >= threshold
                && (forall j | 0 <= j < i && results[j].path == results[i].path :: results[j].score < threshold)
                && Shows(c, results[i])
  {
    contexts := [];
    var seen: set<string> := {};
    for n := 0 to |results|
      invariant contexts == Relevant(results[..n], threshold)
      invariant forall p :: p in seen <==>
                  exists j :: 0 <= j < n && results[j].path == p && results[j].score >= threshold
    {
      var r := results[n];
      assert results[..n + 1][..n] == results[..n];
      FirstInPrefix(results, threshold, n + 1, n);
      if r.score < threshold {
        continue;
      }
      if r.path in seen {
        continue;
      }
      seen := seen + {r.path};
      var content;
      if r.gitHistory {
        content := "Git history for " + r.path + ":\n" + r.content;
      } else if r.references != [] {
        content := Join(if |r.references| <= 5 then r.references else r.references[..5]);
      } else {
        content := Slice(r.content, 5000);
      }
      contexts := contexts + [Context(content, r.path, r.score, CountTokens(content), false)];
    }
    assert results[..|results|] == results;
    contexts := Ranked(contexts);
    RankedSources(results, threshold);
    SelectedShown(results, threshold);
    ghost var at := RankedLaid(results, threshold);
  }

  // ---------------------------------------------------------------- budgeting

  /** A context cut down to what is left of the budget. */
  function Cut(c: Context, remaining: nat): Context {
    c.(content := Slice(c.content, remaining * 4), score := c.score * 0.8, tokens := remaining, truncated := true)
  }

  /** Whole contexts while they fit, then the next one cut, if more than 100 tokens are left for it. */
  function Greedy(cs: seq<Context>, budget: int): seq<Context> {
    if cs == [] then []
    else if cs[0].tokens <= budget then [cs[0]] + Greedy(cs[1..], budget - cs[0].tokens)
    else if budget > 100 then [Cut(cs[0], budget)]
    else []
  }

  ghost function Budgeted(cs: seq<Context>, budget: int): seq<Context> {
    if cs == [] || Total(cs) <= budget then cs else Greedy(cs, budget)
  }

  lemma GreedyStep(cs: seq<Context>, i: nat, budget: int)
    requires i < |cs|
    ensures Greedy(cs[i..], budget) ==
            if cs[i].tokens <= budget then [cs[i]] + Greedy(cs[i + 1..], budget - cs[i].tokens)
            else if budget > 100 then [Cut(cs[i], budget)]
            else []
  {
    assert cs[i..][1..] == cs[i + 1..];
  }

  /** _apply_token_budget */
  method ApplyTokenBudget(cs: seq<Context>, budget: int) returns (selected: seq<Context>)
    ensures selected == Budgeted(cs, budget)
  {
    if cs == [] {
      return [];
    }
    var total := 0;
    for i := 0 to |cs|
      invariant total + Total(cs[i..]) == Total(cs)
    {
      total := total + cs[i].tokens;
      assert cs[i..][1..] == cs[i + 1..];
    }
    if total <= budget {
      return cs;
    }
    selected := [];
    var used := 0;
    for i := 0 to |cs|
      invariant selected + Greedy(cs[i..], budget - used) == Greedy(cs, budget)
    {
      GreedyStep(cs, i, budget - used);
      hide Greedy, Cut;
      if used + cs[i].tokens <= budget {
        selected := selected + [cs[i]];
        used := used + cs[i].tokens;
      } else {
        var remaining := budget - used;
        if remaining > 100 {
          selected := selected + [Cut(cs[i], remaining)];
        }
        return;
      }
    }
  }

  /** How many contexts are kept whole. */
  ghost function Whole(cs: seq<Context>, budget: int): (k: nat)
    ensures k <= |cs|
  {
    if cs == [] || cs[0].tokens > budget then 0 else 1 + Whole(cs[1..], budget - cs[0].tokens)
  }

  lemma {:induction false} TotalNonNegative(cs: seq<Context>)
    requires NonNegative(cs)
    ensures Total(cs) >= 0
  {
    if cs != [] {
      TotalNonNegative(cs[1..]);
    }
  }

  lemma TotalStep(cs: seq<Context>, k: nat)
    requires 0 < k <= |cs|
    ensures Total(cs[..k]) == cs[0].tokens + Total(cs[1..][..k - 1])
  {
    assert cs[..k][1..] == cs[1..][..k - 1];
  }

  /** When everything fits, the greedy pass would keep everything too. */
  lemma {:induction false} GreedyKeepsAll(cs: seq<Context>, budget: int)
    requires NonNegative(cs) && Total(cs) <= budget
    ensures Greedy(cs, budget) == cs && Whole(cs, budget) == |cs|
  {
    if cs != [] {
      TotalNonNegative(cs[1..]);
      GreedyKeepsAll(cs[1..], budget - cs[0].tokens);
    }
  }

  lemma GreedyIsBudgeted(cs: seq<Context>, budget: int)
    requires NonNegative(cs)
    ensures Budgeted(cs, budget) == Greedy(cs, budget)
  {
    if Total(cs) <= budget {
      GreedyKeepsAll(cs, budget);
    }
  }

  /** The whole contexts are the longest prefix that fits. */
  lemma {:induction false} WholeIsLongest(cs: seq<Context>, budget: int)
    requires NonNegative(cs)
    ensures var k := Whole(cs, budget);
            (k > 0 ==> Total(cs[..k]) <= budget) && (k < |cs| ==> Total(cs[..k + 1]) > budget)
  {
    if cs != [] && cs[0].tokens <= budget {
      WholeIsLongest(cs[1..], budget - cs[0].tokens);
      var k := Whole(cs, budget);
      TotalStep(cs, k);
      if k < |cs| {
        TotalStep(cs, k + 1);
      }
    } else if cs != [] {
      TotalStep(cs, 1);
    }
  }

  /** The last context of the result, if it had to be cut. */
  function Remainder(cs: seq<Context>, k: nat, left: int): seq<Context> {
    if k < |cs| && left > 100 then [Cut(cs[k], left)] else []
  }

  lemma Glue(cs: seq<Context>, p: seq<Context>, q: seq<Context>, r: seq<Context>)
    requires cs != [] && |p| < |cs| && p == cs[1..][..|p|] && q == cs[..|p| + 1]
    ensures [cs[0]] + (p + r) == q + r
  {
    assert q == [cs[0]] + p;
  }

  lemma {:induction false} GreedyShape(cs: seq<Context>, budget: int)
    ensures var k := Whole(cs, budget);
            Greedy(cs, budget) == cs[..k] + Remainder(cs, k, budget - Total(cs[..k]))
  {
    if cs != [] && cs[0].tokens <= budget {
      var rest, left, k := cs[1..], budget - cs[0].tokens, Whole(cs, budget);
      GreedyShape(rest, left);
      TotalStep(cs, k);
      var cut := Remainder(rest, k - 1, left - Total(rest[..k - 1]));
      assert cut == Remainder(cs, k, budget - Total(cs[..k]));
      hide Remainder, Cut, Total;
      assert Greedy(cs, budget) == [cs[0]] + Greedy(rest, left);
      hide Greedy;
      Glue(cs, rest[..k - 1], cs[..k], cut);
    }
  }

  lemma {:induction false} TotalAppend(cs: seq<Context>, c: Context)
    ensures Total(cs + [c]) == Total(cs) + c.tokens
  {
    if cs != [] {
      assert (cs + [c])[1..] == cs[1..] + [c];
      TotalAppend(cs[1..], c);
    } else {
      assert [c][1..] == [];
    }
  }

  /**
   The result is the longest prefix that fits, and then at most one more context, cut to exactly
   what is left. The budget is never exceeded, and either everything is kept or at most 100 tokens
   go unused: none at all when a context was cut.
   */
  lemma BudgetTheorem(cs: seq<Context>, budget: int)
    requires NonNegative(cs)
    ensures var k, r := Whole(cs, budget), Budgeted(cs, budget);
            && cs[..k] <= r && |r| <= k + 1
            && (k < |cs| ==> Total(cs[..k + 1]) > budget)
            && (|r| > k <==> k < |cs| && budget - Total(cs[..k]) > 100)
            && (|r| > k ==>
                  && k < |cs| && Total(r) == budget > Total(cs[..k]) + 100
                  && var left := budget - Total(cs[..k]);
                     r[k] == Context(if 4 * left < |cs[k].content| then cs[k].content[..4 * left] else cs[k].content,
                                     cs[k].source, cs[k].score * 0.8, left, true))
            && Total(r) <= (if budget < 0 then 0 else budget)
            && (budget >= 0 ==> r == cs || budget - Total(r) <= 100)
  {
    BudgetedShape(cs, budget);
    WholeIsLongest(cs, budget);
    var k := Whole(cs, budget);
    var left := budget - Total(cs[..k]);
    hide Budgeted, Whole, Cut, NonNegative;
    if k < |cs| && left > 100 {
      CutShows(cs[k], left);
      TotalAppend(cs[..k], Cut(cs[k], left));
    }
    assert cs[..|cs|] == cs;
    if k == 0 {
      assert Total(cs[..0]) == 0;
    }
  }

  lemma CutShows(c: Context, left: nat)
    ensures Cut(c, left) == Context(if 4 * left < |c.content| then c.content[..4 * left] else c.content, c.source,
                                    c.score * 0.8, left, true)
  {
  }

  /** Applying a budget twice is applying it once. */
  lemma BudgetIsIdempotent(cs: seq<Context>, budget: int)
    requires NonNegative(cs)
    ensures Budgeted(Budgeted(cs, budget), budget) == Budgeted(cs, budget)
  {
    BudgetTheorem(cs, budget);
    if budget < 0 {
      GreedyIsBudgeted(cs, budget);
    }
  }

  /** A larger budget keeps at least as many contexts whole and at least as many tokens. */
  lemma {:induction false} MoreBudgetKeepsMore(cs: seq<Context>, small: int, large: int)
    requires NonNegative(cs) && small <= large
    ensures Whole(cs, small) <= Whole(cs, large)
    ensures Total(Budgeted(cs, small)) <= Total(Budgeted(cs, large))
  {
    GreedyIsBudgeted(cs, small);
    GreedyIsBudgeted(cs, large);
    if cs != [] && cs[0].tokens <= small {
      var rest := cs[1..];
      MoreBudgetKeepsMore(rest, small - cs[0].tokens, large - cs[0].tokens);
      GreedyIsBudgeted(rest, small - cs[0].tokens);
      GreedyIsBudgeted(rest, large - cs[0].tokens);
      assert ([cs[0]] + Greedy(rest, small - cs[0].tokens))[1..] == Greedy(rest, small - cs[0].tokens);
      assert ([cs[0]] + Greedy(rest, large - cs[0].tokens))[1..] == Greedy(rest, large - cs[0].tokens);
    } else if cs != [] && cs[0].tokens <= large {
      BudgetTheorem(cs, small);
      var rest := Greedy(cs[1..], large - cs[0].tokens);
      BudgetTheorem(cs[1..], large - cs[0].tokens);
      GreedyIsBudgeted(cs[1..], large - cs[0].tokens);
      TokensOfGreedy(cs[1..], large - cs[0].tokens);
      TotalNonNegative(rest);
      assert ([cs[0]] + rest)[1..] == rest;
    } else {
      BudgetTheorem(cs, small);
      BudgetTheorem(cs, large);
    }
  }

  lemma {:induction false} TokensOfGreedy(cs: seq<Context>, budget: int)
    requires NonNegative(cs)
    ensures NonNegative(Greedy(cs, budget))
  {
    if cs != [] && cs[0].tokens <= budget {
      TokensOfGreedy(cs[1..], budget - cs[0].tokens);
    }
  }

  /** Cutting keeps the books: the tokens recorded are still the tokens counted. */
  lemma {:induction false} CutIsCounted(c: Context, remaining: nat)
    requires remaining > 100 && c.tokens == CountTokens(c.content) && c.tokens > remaining
    ensures CountTokens(Cut(c, remaining).content) == remaining
    ensures Cut(c, remaining).content == c.content[..remaining * 4]
  {
    assert |c.content| / 4 > remaining;
    assert |c.content| >= 4 * remaining;
    assert (remaining * 4) / 4 == remaining;
  }

  lemma BudgetKeepsCount(cs: seq<Context>, budget: int)
    requires Counted(cs)
    ensures Counted(Budgeted(cs, budget))
  {
    assert NonNegative(cs);
    GreedyIsBudgeted(cs, budget);
    WholeIsLongest(cs, budget);
    GreedyShape(cs, budget);
    var k := Whole(cs, budget);
    var left := budget - Total(cs[..k]);
    if k < |cs| && left > 100 {
      assert cs[..k + 1] == cs[..k] + [cs[k]];
      TotalAppend(cs[..k], cs[k]);
      CutIsCounted(cs[k], left);
    }
  }

  /** Still ranked exactly when the penalty on a context that must be cut does not raise it above its neighbour. */
  lemma StillRankedIff(cs: seq<Context>, budget: int)
    requires NonNegative(cs) && Descending(cs)
    ensures var k, r := Whole(cs, budget), Budgeted(cs, budget);
            Descending(r) <==> (0 < k < |cs| && budget - Total(cs[..k]) > 100 ==> cs[k].score * 0.8 <= cs[k - 1].score)
  {
    hide *;
    BudgetedShape(cs, budget);
    var k := Whole(cs, budget);
    var front, left := cs[..k], budget - Total(cs[..k]);
    DescendingPrefix(cs, k);
    if k < |cs| && left > 100 {
      RankedWithCut(front, cs[k], left);
    }
  }

  lemma BudgetedShape(cs: seq<Context>, budget: int)
    requires NonNegative(cs)
    ensures var k := Whole(cs, budget);
            var left := budget - Total(cs[..k]);
            Budgeted(cs, budget) == if k < |cs| && left > 100 then cs[..k] + [Cut(cs[k], left)] else cs[..k]
  {
    hide Budgeted, Greedy, Whole, Total, NonNegative, Cut;
    GreedyIsBudgeted(cs, budget);
    GreedyShape(cs, budget);
    assert cs[..Whole(cs, budget)] + [] == cs[..Whole(cs, budget)];
  }

  lemma DescendingPrefix(cs: seq<Context>, k: nat)
    requires Descending(cs) && k <= |cs|
    ensures Descending(cs[..k])
  {
  }

  lemma RankedWithCut(front: seq<Context>, c: Context, left: nat)
    requires Descending(front)
    ensures Descending(front + [Cut(c, left)]) <==> (front != [] ==> c.score * 0.8 <= front[|front| - 1].score)
  {
    CutScore(c, left);
    var cut := Cut(c, left);
    hide Descending, AllAtLeast, Cut;
    DescendingAppend(front, cut);
    if front != [] {
      AtLeastByLast(front, cut.score);
    } else {
      NothingBelow(cut.score);
    }
  }

  lemma NothingBelow(w: real)
    ensures AllAtLeast([], w)
  {
  }

  lemma CutScore(c: Context, remaining: nat)
    ensures Cut(c, remaining).score == c.score * 0.8
  {
  }

  lemma AtLeastByLast(cs: seq<Context>, w: real)
    requires Descending(cs) && cs != []
    ensures AllAtLeast(cs, w) <==> cs[|cs| - 1].score >= w
  {
  }

  /** ... which it always is for non-negative scores, but not for negative ones. */
  lemma StillRanked(cs: seq<Context>, budget: int)
    requires NonNegative(cs) && Descending(cs)
    requires forall i | 0 <= i < |cs| :: cs[i].score >= 0.0
    ensures Descending(Budgeted(cs, budget))
  {
    StillRankedIff(cs, budget);
    BudgetTheorem(cs, budget);
  }

  // --------------------------------------------------------- the whole pipeline

  ghost function Retrieved(results: seq<SearchResult>, threshold: real, budget: int): seq<Context> {
    Budgeted(Ranked(Relevant(results, threshold)), budget)
  }

  lemma RankedSources(results: seq<SearchResult>, threshold: real)
    ensures var cs := Ranked(Relevant(results, threshold));
            && Counted(cs) && Descending(cs)
            && (forall i | 0 <= i < |cs| :: cs[i].score >= threshold)
            && OnePerSource(cs)
            && (forall c :: c in cs <==> Selected(results, threshold, c))
  {
    var found := Relevant(results, threshold);
    RankedIsStableSort(found);
    RelevantOnePerSource(results, threshold);
    hide Ranked, Relevant, OfScore, OnePerSource, Descending;
    OnePerSourceInAnyOrder(found, Ranked(found));
    forall c ensures c in Ranked(found) <==> Selected(results, threshold, c) {
      assert c in multiset(Ranked(found)) <==> c in multiset(found);
      RelevantIff(results, threshold, c);
    }
    forall i | 0 <= i < |Ranked(found)|
      ensures Ranked(found)[i].tokens == CountTokens(Ranked(found)[i].content) && Ranked(found)[i].score >= threshold
    {
      assert Ranked(found)[i] in Ranked(found);
    }
  }

  /**
   From raw results to a bundle: within budget, nothing wasted beyond 100 tokens, every token accounted for,
   and ranked whenever the relevance threshold is not negative.
   */
  lemma RetrievedFits(results: seq<SearchResult>, threshold: real, budget: int)
    ensures var cs, r := Ranked(Relevant(results, threshold)), Retrieved(results, threshold, budget);
            && Total(r) <= (if budget < 0 then 0 else budget) && Counted(r)
            && (budget >= 0 ==> r == cs || budget - Total(r) <= 100)
            && (threshold >= 0.0 ==> Descending(r))
  {
    RankedSources(results, threshold);
    var cs := Ranked(Relevant(results, threshold));
    hide Ranked, Relevant, First;
    assert NonNegative(cs);
    BudgetTheorem(cs, budget);
    BudgetKeepsCount(cs, budget);
    if threshold >= 0.0 {
      StillRanked(cs, budget);
    }
  }

  /** n characters */
  function Text(n: nat): string {
    seq(n, i => 'x')
  }

  /** Two files of 800 characters, found with the same score. */
  function TwoFiles(score: real): seq<SearchResult> {
    [SearchResult("a", Text(800), [], false, score), SearchResult("b", Text(800), [], false, score)]
  }

  lemma RankedPair(a: Context, b: Context)
    requires a.score >= b.score
    ensures Ranked([a, b]) == [a, b]
  {
    assert [a, b][..1] == [a] && [a][..0] == [];
    assert Ranked([a]) == [a];
  }

  lemma FileAsContext(path: string, score: real)
    ensures AsContext(SearchResult(path, Text(800), [], false, score)) == Context(Text(800), path, score, 200, false)
  {
  }

  lemma {:induction false} TwoFilesFound(score: real)
    ensures Relevant(TwoFiles(score), score) ==
            [Context(Text(800), "a", score, 200, false), Context(Text(800), "b", score, 200, false)]
  {
    var results := TwoFiles(score);
    FileAsContext("a", score);
    FileAsContext("b", score);
    assert results[0].path != results[1].path;
    hide AsContext, Text;
    assert results[..1] == [results[0]] && [results[0]][..0] == [];
    assert First([results[0]], score, 0) && First(results, score, 1);
    hide First;
    assert Relevant([results[0]], score) == [AsContext(results[0])];
  }

  /** With a negative threshold even two files of one score come back in the wrong order. */
  lemma {:induction false} NegativeScoresLoseTheRanking(threshold: real)
    requires threshold < 0.0
    ensures !Descending(Retrieved(TwoFiles(threshold), threshold, 301))
  {
    var a, b := Context(Text(800), "a", threshold, 200, false), Context(Text(800), "b", threshold, 200, false);
    TwoFilesFound(threshold);
    RankedPair(a, b);
    var cs := [a, b];
    hide Ranked, Relevant, TwoFiles, Text, Budgeted, Cut;
    assert cs[1..] == [b] && cs[..1] == [a] && [a][1..] == [];
    assert Whole(cs, 301) == 1 && Total(cs[..1]) == 200;
    StillRankedIff(cs, 301);
  }

  /** Whatever is found and whatever the budget, bundles come back ranked exactly when the threshold is not negative. */
  lemma {:induction false} AlwaysRankedIff(threshold: real)
    ensures (forall results, budget :: Descending(Retrieved(results, threshold, budget))) <==> threshold >= 0.0
  {
    if threshold >= 0.0 {
      forall results, budget ensures Descending(Retrieved(results, threshold, budget)) {
        RetrievedFits(results, threshold, budget);
      }
    } else {
      NegativeScoresLoseTheRanking(threshold);
    }
  }
}
