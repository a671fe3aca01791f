/**
 The retrieval service in front of the budget: its cache, whose key leaves the budget out, and whose
 time-to-live test compares two clock readings of one and the same call.
 */
module ContextCache {
  import opened ContextBudget
  import opened Wrappers

  /** A query, and what the clock says when the call starts and when it tests a stored entry, in seconds. */
  datatype Query = Query(mission: string, task: Option<string>, text: string, strategies: seq<string>, budget: int,
                         started: int, checked: int)

  const CACHE_TTL := 300

  /** The test that is meant to tell whether an entry is still fresh enough. */
  predicate Prompt(q: Query) {
    q.checked - q.started < CACHE_TTL
  }

  // ---------------------------------------------------------------------- the key

  /** Strings in the order of their characters. */
  predicate Precedes(a: string, b: string) {
    a == [] || (b != [] && (a[0] < b[0] || (a[0] == b[0] && Precedes(a[1..], b[1..]))))
  }

  function InsertString(ss: seq<string>, x: string): seq<string> {
    if ss == [] || Precedes(x, ss[0]) then [x] + ss else [ss[0]] + InsertString(ss[1..], x)
  }

  /** sorted(strings) */
  function SortedStrings(ss: seq<string>): seq<string> {
    if ss == [] then [] else InsertString(SortedStrings(ss[1..]), ss[0])
  }

  /** ",".join(parts) */
  function JoinWithCommas(parts: seq<string>): string {
    if parts == [] then "" else if |parts| == 1 then parts[0] else parts[0] + "," + JoinWithCommas(parts[1..])
  }

  /** _cache_key before hashing: everything but the budget, and only the first 100 characters of the text. */
  function CacheKey(q: Query): string {
    q.mission + "|" + (if q.task.Some? then q.task.value else "") + "|" + Slice(q.text, 100)
    + "|" + JoinWithCommas(SortedStrings(q.strategies))
  }

  /** The separators are not escaped, so different queries can share a key. */
  lemma KeysCollide(q: Query)
    ensures CacheKey(q.(text := "a|b", strategies := ["c"])) == CacheKey(q.(text := "a", strategies := ["b|c"]))
  {
    var front := q.mission + "|" + (if q.task.Some? then q.task.value else "") + "|";
    assert SortedStrings(["c"]) == ["c"] && SortedStrings(["b|c"]) == ["b|c"];
    assert front + "a|b" + "|" + "c" == front + "a|b|c";
    assert front + "a" + "|" + "b|c" == front + "a|b|c";
  }

  lemma {:induction false} PrecedesTotal(a: string, b: string)
    ensures Precedes(a, b) || Precedes(b, a)
    ensures Precedes(a, b) && Precedes(b, a) ==> a == b
  {
    if a != [] && b != [] && a[0] == b[0] {
      PrecedesTotal(a[1..], b[1..]);
      assert a == [a[0]] + a[1..] && b == [b[0]] + b[1..];
    }
  }

  lemma {:induction false} PrecedesOn(a: string, b: string, c: string)
    requires Precedes(a, b) && Precedes(b, c)
    ensures Precedes(a, c)
  {
    if a != [] && a[0] == b[0] && b[0] == c[0] {
      PrecedesOn(a[1..], b[1..], c[1..]);
    }
  }

  ghost predicate InOrder(ss: seq<string>) {
    forall i, j | 0 <= i < j < |ss| :: Precedes(ss[i], ss[j])
  }

  lemma OrderedFront(ss: seq<string>, x: string)
    requires InOrder(ss) && forall y | y in ss :: Precedes(x, y)
    ensures InOrder([x] + ss)
  {
  }

  lemma {:induction false} InsertAdds(ss: seq<string>, x: string)
    ensures multiset(InsertString(ss, x)) == multiset(ss) + multiset{x}
    ensures forall y :: y in InsertString(ss, x) <==> y in ss || y == x
  {
    if ss != [] && !Precedes(x, ss[0]) {
      InsertAdds(ss[1..], x);
      assert ss == [ss[0]] + ss[1..];
    }
  }

  lemma {:induction false} InsertKeepsOrder(ss: seq<string>, x: string)
    requires InOrder(ss)
    ensures InOrder(InsertString(ss, x))
  {
    if ss != [] && !Precedes(x, ss[0]) {
      InsertKeepsOrder(ss[1..], x);
      InsertAdds(ss[1..], x);
      PrecedesTotal(x, ss[0]);
      hide Precedes;
      OrderedFront(InsertString(ss[1..], x), ss[0]);
    } else if ss != [] {
      forall y | y in ss ensures Precedes(x, y) {
        if y != ss[0] { PrecedesOn(x, ss[0], y); }
      }
      OrderedFront(ss, x);
    }
  }

  /** sorted() gives the same strings, in order. */
  lemma {:induction false} SortedSorts(ss: seq<string>)
    ensures InOrder(SortedStrings(ss)) && multiset(SortedStrings(ss)) == multiset(ss)
  {
    if ss != [] {
      SortedSorts(ss[1..]);
      InsertKeepsOrder(SortedStrings(ss[1..]), ss[0]);
      InsertAdds(SortedStrings(ss[1..]), ss[0]);
      assert ss == [ss[0]] + ss[1..];
    }
  }

  /** What comes first in one order of the strings comes first in the other. */
  lemma SameFirst(a: seq<string>, b: seq<string>)
    requires InOrder(a) && InOrder(b) && multiset(a) == multiset(b) && a != [] && b != []
    ensures a[0] == b[0]
  {
    PrecedesTotal(a[0], b[0]);
    assert a[0] in multiset(b) && b[0] in multiset(a);
    hide Precedes;
  }

  lemma RestInOrder(ss: seq<string>)
    requires InOrder(ss) && ss != []
    ensures InOrder(ss[1..])
  {
  }

  lemma {:induction false} OneOrder(a: seq<string>, b: seq<string>)
    requires InOrder(a) && InOrder(b) && multiset(a) == multiset(b)
    ensures a == b
  {
    assert |a| == |multiset(a)| == |b|;
    if a != [] {
      SameFirst(a, b);
      RestInOrder(a);
      RestInOrder(b);
      hide InOrder;
      assert a == [a[0]] + a[1..] && b == [b[0]] + b[1..];
      assert multiset(a[1..]) == multiset(a) - multiset{a[0]} && multiset(b[1..]) == multiset(b) - multiset{b[0]};
      OneOrder(a[1..], b[1..]);
    }
  }

  lemma NoShorter(sep: char, a: string, b: string, x: string, y: string)
    requires sep !in b && a + [sep] + x == b + [sep] + y
    ensures |a| >= |b|
  {
    assert (a + [sep] + x)[|a|] == sep;
    assert forall i | 0 <= i < |b| :: (b + [sep] + y)[i] == b[i] && b[i] != sep;
  }

  /** Text before the first separator, and after it, can be told from the joined text. */
  lemma SplitAt(sep: char, a: string, b: string, x: string, y: string)
    requires sep !in a && sep !in b && a + [sep] + x == b + [sep] + y
    ensures a == b && x == y
  {
    NoShorter(sep, a, b, x, y);
    NoShorter(sep, b, a, y, x);
    assert (a + [sep] + x)[..|a|] == a && (b + [sep] + y)[..|b|] == b;
    assert (a + [sep] + x)[|a| + 1..] == x && (b + [sep] + y)[|b| + 1..] == y;
  }

  /** Names that joining keeps apart. */
  ghost predicate Plain(ss: seq<string>) {
    forall s | s in ss :: s != [] && ',' !in s
  }

  lemma JoinSays(ss: seq<string>)
    requires Plain(ss)
    ensures ',' in JoinWithCommas(ss) <==> |ss| > 1
    ensures JoinWithCommas(ss) == "" <==> ss == []
    ensures |ss| == 1 ==> ss == [JoinWithCommas(ss)]
  {
    if |ss| > 1 {
      assert JoinWithCommas(ss)[|ss[0]|] == ',';
    }
  }

  lemma PlainRest(ss: seq<string>)
    requires Plain(ss) && ss != []
    ensures Plain(ss[1..])
  {
    forall s | s in ss[1..] ensures s in ss {
    }
  }

  lemma {:induction false} JoinTellsApart(a: seq<string>, b: seq<string>)
    requires Plain(a) && Plain(b) && JoinWithCommas(a) == JoinWithCommas(b)
    ensures a == b
  {
    JoinSays(a);
    JoinSays(b);
    if |a| > 1 {
      SplitAt(',', a[0], b[0], JoinWithCommas(a[1..]), JoinWithCommas(b[1..]));
      assert a == [a[0]] + a[1..] && b == [b[0]] + b[1..];
      PlainRest(a);
      PlainRest(b);
      JoinTellsApart(a[1..], b[1..]);
    }
  }

  /** Mission, task and text as the code joins them: free of separators where they must be told apart. */
  ghost predicate Separable(q: Query) {
    && '|' !in q.mission && (q.task.Some? ==> '|' !in q.task.value)
    && '|' !in (if |q.text| <= 100 then q.text else q.text[..100])
    && Plain(q.strategies)
  }

  /**
   Without separators inside them, two queries share a key exactly when mission, task and the first 100 characters
   of the text agree, and the strategies up to their order; no task counts as an empty one.
   */
  lemma {:induction false} SameKeyIff(p: Query, q: Query)
    requires Separable(p) && Separable(q)
    ensures CacheKey(p) == CacheKey(q) <==>
              && p.mission == q.mission
              && (if p.task.Some? then p.task.value else "") == (if q.task.Some? then q.task.value else "")
              && (if |p.text| <= 100 then p.text else p.text[..100])
                 == (if |q.text| <= 100 then q.text else q.text[..100])
              && multiset(p.strategies) == multiset(q.strategies)
  {
    KeyParts(p);
    KeyParts(q);
    var a, b := SortedStrings(p.strategies), SortedStrings(q.strategies);
    SortedSorts(p.strategies);
    SortedSorts(q.strategies);
    StillPlain(p.strategies);
    StillPlain(q.strategies);
    var s, t := Slice(p.text, 100) + ("|" + JoinWithCommas(a)), Slice(q.text, 100) + ("|" + JoinWithCommas(b));
    var u, v := TaskOf(p) + ("|" + s), TaskOf(q) + ("|" + t);
    hide CacheKey, SortedStrings, JoinWithCommas, Plain, InOrder;
    if CacheKey(p) == CacheKey(q) {
      SplitAt('|', p.mission, q.mission, u, v);
      SplitAt('|', TaskOf(p), TaskOf(q), s, t);
      SplitAt('|', Slice(p.text, 100), Slice(q.text, 100), JoinWithCommas(a), JoinWithCommas(b));
      JoinTellsApart(a, b);
    } else if multiset(p.strategies) == multiset(q.strategies) {
      OneOrder(a, b);
    }
  }

  ghost function TaskOf(q: Query): string {
    if q.task.Some? then q.task.value else ""
  }

  lemma StillPlain(ss: seq<string>)
    requires Plain(ss)
    ensures Plain(SortedStrings(ss))
  {
    SortedSorts(ss);
    forall s | s in SortedStrings(ss) ensures s in ss {
      assert s in multiset(SortedStrings(ss));
    }
  }

  lemma KeyParts(q: Query)
    ensures var s := Slice(q.text, 100) + ("|" + JoinWithCommas(SortedStrings(q.strategies)));
            CacheKey(q) == q.mission + "|" + (TaskOf(q) + ("|" + s))
            && TaskOf(q) + ("|" + s) == TaskOf(q) + "|" + s
            && s == Slice(q.text, 100) + "|" + JoinWithCommas(SortedStrings(q.strategies))
  {
    hide SortedStrings, JoinWithCommas;
  }

  // ------------------------------------------------------------------ the service

  /** A query together with what the searches would return for it when it is asked. */
  datatype Ask = Ask(query: Query, results: seq<SearchResult>)

  class ContextRetrievalService {
    const threshold: real
    var cache: map<string, seq<Context>>

    constructor (threshold: real)
      ensures this.threshold == threshold && cache == map[]
    {
      this.threshold, cache := threshold, map[];
    }

    /** retrieve_context */
    method RetrieveContext(q: Query, results: seq<SearchResult>) returns (contexts: seq<Context>)
      modifies this`cache
      ensures contexts == if CacheKey(q) in old(cache) && q.checked - q.started < 300 then old(cache)[CacheKey(q)]
                          else Budgeted(Ranked(Relevant(results, threshold)), q.budget)
      ensures contexts == Served(old(cache), threshold, Ask(q, results))
      ensures cache == old(cache)[CacheKey(q) := contexts]
    {
      var key := CacheKey(q);
      if key in cache {
        var cached := cache[key];
        if q.checked - q.started < CACHE_TTL {
          return cached;
        }
      }
      contexts := ProcessResults(results, threshold);
      contexts := ApplyTokenBudget(contexts, q.budget);
      cache := cache[key := contexts];
    }
  }

  ghost function Fresh(threshold: real, a: Ask): seq<Context> {
    Retrieved(a.results, threshold, a.query.budget)
  }

  ghost function Served(cache: map<string, seq<Context>>, threshold: real, a: Ask): seq<Context> {
    if CacheKey(a.query) in cache && Prompt(a.query) then cache[CacheKey(a.query)] else Fresh(threshold, a)
  }

  /** The cache after a whole history of queries. */
  ghost function CacheAfter(threshold: real, history: seq<Ask>): map<string, seq<Context>> {
    if history == [] then map[]
    else
      var cache, a := CacheAfter(threshold, history[..|history| - 1]), history[|history| - 1];
      cache[CacheKey(a.query) := Served(cache, threshold, a)]
  }

  ghost function QueriesOf(history: seq<Ask>): seq<Query> {
    seq(|history|, i requires 0 <= i < |history| => history[i].query)
  }

  /**
   The query whose answer the cache holds under this key: the first one with the key, unless a later one was
   slow between its clock readings and was answered afresh.  Their number if no query had the key.
   */
  ghost function Decider(queries: seq<Query>, k: string): (i: nat)
    ensures i <= |queries| && (i < |queries| ==> CacheKey(queries[i]) == k)
    ensures i == |queries| ==> forall j | 0 <= j < |queries| :: CacheKey(queries[j]) != k
    ensures forall j | i < j < |queries| && CacheKey(queries[j]) == k :: Prompt(queries[j])
    ensures i < |queries| && Prompt(queries[i]) ==> forall j | 0 <= j < i :: CacheKey(queries[j]) != k
  {
    if queries == [] then 0
    else
      var n := |queries| - 1;
      var front := queries[..n];
      var i := Decider(front, k);
      assert forall j | 0 <= j < n :: front[j] == queries[j];
      if CacheKey(queries[n]) == k && (i == n || !Prompt(queries[n])) then n
      else if i < n then i
      else |queries|
  }

  lemma DeciderStep(queries: seq<Query>, k: string)
    requires queries != []
    ensures var n := |queries| - 1;
            var i := Decider(queries[..n], k);
            && i <= n
            && Decider(queries, k) == if CacheKey(queries[n]) == k && (i == n || !Prompt(queries[n])) then n
                                      else if i < n then i else |queries|
  {
  }

  /** Whatever was asked before, the cache answers as the deciding query was answered, however long ago. */
  lemma {:induction false} CacheHoldsDecidingAnswers(threshold: real, history: seq<Ask>, k: string)
    ensures var i := Decider(QueriesOf(history), k);
            && i <= |history|
            && (k in CacheAfter(threshold, history) <==> i < |history|)
            && (k in CacheAfter(threshold, history) ==>
                  CacheAfter(threshold, history)[k] == Fresh(threshold, history[i]))
  {
    if history != [] {
      var front := history[..|history| - 1];
      assert QueriesOf(history)[..|history| - 1] == QueriesOf(front);
      DeciderStep(QueriesOf(history), k);
      hide Fresh, CacheKey, Prompt, Decider;
      CacheHoldsDecidingAnswers(threshold, front, k);
    }
  }

  // ------------------------------------------------------------------- the budget

  ghost predicate Fits(contexts: seq<Context>, budget: int) {
    Total(contexts) <= if budget < 0 then 0 else budget
  }

  /** The query that decides the answer to q: the one behind the cached entry, or q itself. */
  ghost function DecidingBudget(queries: seq<Query>, q: Query): int {
    var i := Decider(queries, CacheKey(q));
    if i < |queries| && Prompt(q) then queries[i].budget else q.budget
  }

  lemma ServedByDecider(threshold: real, history: seq<Ask>, a: Ask)
    ensures var i := Decider(QueriesOf(history), CacheKey(a.query));
            Served(CacheAfter(threshold, history), threshold, a) ==
            Fresh(threshold, if i < |history| && Prompt(a.query) then history[i] else a)
  {
    CacheHoldsDecidingAnswers(threshold, history, CacheKey(a.query));
  }

  /** An answer respects its query's budget unless the deciding budget was larger. */
  lemma FitsUnlessBudgetShrinks(threshold: real, history: seq<Ask>, a: Ask)
    requires var budget := DecidingBudget(QueriesOf(history), a.query); budget <= 0 || budget <= a.query.budget
    ensures Fits(Served(CacheAfter(threshold, history), threshold, a), a.query.budget)
  {
    ServedByDecider(threshold, history, a);
    var i := Decider(QueriesOf(history), CacheKey(a.query));
    var decided := if i < |history| && Prompt(a.query) then history[i] else a;
    RetrievedFits(decided.results, threshold, decided.query.budget);
  }

  lemma OneResult(threshold: real, n: nat) returns (r: SearchResult)
    requires n >= 1
    ensures forall budget | budget >= n :: Total(Retrieved([r], threshold, budget)) == n
  {
    r := SearchResult("a", "", [Text(4 * n)], false, threshold);
    var c := AsContext(r);
    assert Join([Text(4 * n)]) == Text(4 * n);
    assert c.tokens == n by {
      assert (4 * n) / 4 == n;
    }
    assert First([r], threshold, 0);
    assert [r][..0] == [];
    assert Relevant([r], threshold) == [c];
    assert [c][..0] == [];
    assert Ranked([c]) == [c];
    assert Total([c]) == n by {
      assert [c][1..] == [];
    }
  }

  /** The same queries, with what the searches return for each. */
  ghost function Answering(queries: seq<Query>, found: seq<seq<SearchResult>>): seq<Ask>
    requires |found| == |queries|
    ensures QueriesOf(Answering(queries, found)) == queries
  {
    var history := seq(|queries|, i requires 0 <= i < |queries| => Ask(queries[i], found[i]));
    assert QueriesOf(history) == queries;
    history
  }

  /** The answer to q fits its budget, whatever the searches return for it and for the queries before it. */
  ghost predicate AlwaysFits(threshold: real, queries: seq<Query>, q: Query) {
    forall found: seq<seq<SearchResult>>, results | |found| == |queries| ::
      Fits(Served(CacheAfter(threshold, Answering(queries, found)), threshold, Ask(q, results)), q.budget)
  }

  /**
   After any queries, the next answer fits its budget whatever the searches return exactly when the query that
   decides it asked for no tokens or for no more than the present one.
   */
  lemma {:induction false} CachedAnswerFitsIff(threshold: real, queries: seq<Query>, q: Query)
    ensures AlwaysFits(threshold, queries, q) <==>
              DecidingBudget(queries, q) <= 0 || DecidingBudget(queries, q) <= q.budget
  {
    if DecidingBudget(queries, q) <= 0 || DecidingBudget(queries, q) <= q.budget {
      hide Served, CacheAfter, DecidingBudget, CacheKey, Decider, Fits;
      forall found: seq<seq<SearchResult>>, results | |found| == |queries|
        ensures Fits(Served(CacheAfter(threshold, Answering(queries, found)), threshold, Ask(q, results)), q.budget)
      {
        AnsweringKeeps(queries, found);
        FitsUnlessBudgetShrinks(threshold, Answering(queries, found), Ask(q, results));
      }
    } else {
      hide Served, CacheAfter, CacheKey, Fits;
      TooLarge(threshold, queries, q);
    }
  }

  lemma AnsweringKeeps(queries: seq<Query>, found: seq<seq<SearchResult>>)
    requires |found| == |queries|
    ensures QueriesOf(Answering(queries, found)) == queries
  {
  }

  lemma {:induction false} TooLarge(threshold: real, queries: seq<Query>, q: Query)
    requires DecidingBudget(queries, q) > 0 && DecidingBudget(queries, q) > q.budget
    ensures !AlwaysFits(threshold, queries, q)
  {
    var i := Decider(queries, CacheKey(q));
    var r := OneResult(threshold, queries[i].budget);
    var found: seq<seq<SearchResult>> := seq(|queries|, _ => [r]);
    var history := Answering(queries, found);
    ServedByDecider(threshold, history, Ask(q, [r]));
    assert history[i] == Ask(queries[i], [r]);
    hide Served, CacheAfter, CacheKey, Decider, Retrieved;
    assert Total(Retrieved([r], threshold, queries[i].budget)) == queries[i].budget;
    assert !Fits(Served(CacheAfter(threshold, Answering(queries, found)), threshold, Ask(q, [r])), q.budget);
  }

  // ---------------------------------------------------------------- the time to live

  lemma {:induction false} CountedTotal(cs: seq<Context>)
    requires Counted(cs)
    ensures Total(cs) >= |cs|
  {
    if cs != [] {
      CountedTotal(cs[1..]);
    }
  }

  /** What a query asked afresh comes to: nothing without a budget, and anything the searches find with one. */
  lemma FreshAnswers(threshold: real, q: Query, cached: seq<Context>)
    ensures (forall results :: Fresh(threshold, Ask(q, results)) == cached) <==> q.budget <= 0 && cached == []
  {
    assert Relevant([], threshold) == [] && Ranked([]) == [];
    assert Fresh(threshold, Ask(q, [])) == [];
    if q.budget <= 0 {
      forall results ensures Fresh(threshold, Ask(q, results)) == [] {
        RetrievedFits(results, threshold, q.budget);
        CountedTotal(Retrieved(results, threshold, q.budget));
      }
    } else {
      var r := OneResult(threshold, q.budget);
      assert Total(Fresh(threshold, Ask(q, [r]))) == q.budget;
    }
  }

  /**
   A stored entry answers a query exactly when that query's own two clock readings are less than the time to
   live apart, or it has no budget to ask for anything.  When the entry was stored plays no part.
   */
  lemma {:induction false} EntryAnswersIff(threshold: real, history: seq<Ask>, q: Query)
    requires CacheKey(q) in CacheAfter(threshold, history)
    ensures var cached := CacheAfter(threshold, history)[CacheKey(q)];
            (forall results :: Served(CacheAfter(threshold, history), threshold, Ask(q, results)) == cached) <==>
            Prompt(q) || (q.budget <= 0 && cached == [])
  {
    var cache := CacheAfter(threshold, history);
    hide CacheAfter, CacheKey;
    FreshAnswers(threshold, q, cache[CacheKey(q)]);
    hide Fresh, Prompt;
    forall results
      ensures Served(cache, threshold, Ask(q, results)) ==
              if Prompt(q) then cache[CacheKey(q)] else Fresh(threshold, Ask(q, results))
    {
    }
    hide Served;
  }

  /** For every age there is such a run: an entry stored that long before the call still answers it. */
  lemma {:induction false} EntriesNeverExpire(threshold: real, a: Ask, q: Query, age: nat)
    requires CacheKey(q) == CacheKey(a.query) && q.started == a.query.checked + age && Prompt(q)
    ensures forall results :: Served(CacheAfter(threshold, [a]), threshold, Ask(q, results)) == Fresh(threshold, a)
  {
    CacheHoldsDecidingAnswers(threshold, [a], CacheKey(q));
    assert QueriesOf([a])[..0] == [];
    hide CacheAfter, Fresh, CacheKey;
  }
}
