/** Freshness, eligibility and the two greedy token budgets that cut a ranking to a context. */
module ContextBudget {
  import opened Prelude
  import opened Domain

  // Times are in microseconds, ages in seconds.
  const SECOND: int := 1_000_000

  function EstimateTokens(text: string): nat {
    if (|text| + 3) / 4 < 1 then 1 else (|text| + 3) / 4
  }

  // Four characters to a token, and never none: n tokens are enough for exactly this much text.
  lemma TokensExactly(text: string, n: int)
    ensures EstimateTokens(text) <= n <==> 1 <= n && |text| <= 4 * n
  {
  }

  // ---------------------------------------------------------------- the greedy cut

  // Walk the ranking and keep whatever still fits.
  function Fit(ranked: seq<ContextDocument>, budget: int): seq<ContextDocument> {
    if ranked == [] then []
    else
      var tokens := EstimateTokens(ranked[0].content);
      if tokens > budget then Fit(ranked[1..], budget)
      else [ranked[0]] + Fit(ranked[1..], budget - tokens)
  }

  function TotalTokens(documents: seq<ContextDocument>): nat {
    if documents == [] then 0 else EstimateTokens(documents[0].content) + TotalTokens(documents[1..])
  }

  function TotalLength(documents: seq<ContextDocument>): nat {
    if documents == [] then 0 else |documents[0].content| + TotalLength(documents[1..])
  }

  // The elements a mask keeps, in order.
  function Select(ranked: seq<ContextDocument>, kept: seq<bool>): seq<ContextDocument>
    requires |kept| == |ranked|
  {
    if ranked == [] then []
    else (if kept[0] then [ranked[0]] else []) + Select(ranked[1..], kept[1..])
  }

  // An item is kept exactly when it fits what the kept items before it left of the budget.
  predicate Greedy(ranked: seq<ContextDocument>, budget: int, kept: seq<bool>) {
    && |kept| == |ranked|
    && forall i :: 0 <= i < |ranked| ==>
         (kept[i] <==> TotalTokens(Select(ranked[..i], kept[..i])) + EstimateTokens(ranked[i].content) <= budget)
  }

  function Mask(ranked: seq<ContextDocument>, budget: int): (kept: seq<bool>)
    ensures |kept| == |ranked|
  {
    if ranked == [] then []
    else
      var tokens := EstimateTokens(ranked[0].content);
      [tokens <= budget] + Mask(ranked[1..], if tokens <= budget then budget - tokens else budget)
  }

  lemma SelectStep(ranked: seq<ContextDocument>, kept: seq<bool>, i: nat)
    requires |kept| == |ranked| && 0 < i <= |ranked|
    ensures TotalTokens(Select(ranked[..i], kept[..i]))
         == (if kept[0] then EstimateTokens(ranked[0].content) else 0)
            + TotalTokens(Select(ranked[1..][..i - 1], kept[1..][..i - 1]))
  {
    assert ranked[..i][1..] == ranked[1..][..i - 1] && kept[..i][1..] == kept[1..][..i - 1];
    var rest := Select(ranked[1..][..i - 1], kept[1..][..i - 1]);
    assert ([ranked[0]] + rest)[1..] == rest;
    assert [] + rest == rest;
  }

  lemma GreedyTail(ranked: seq<ContextDocument>, budget: int, kept: seq<bool>)
    requires |kept| == |ranked| && ranked != []
    requires kept[0] <==> EstimateTokens(ranked[0].content) <= budget
    ensures Greedy(ranked, budget, kept) <==>
      Greedy(ranked[1..], if kept[0] then budget - EstimateTokens(ranked[0].content) else budget, kept[1..])
  {
    var left := if kept[0] then budget - EstimateTokens(ranked[0].content) else budget;
    assert ranked[..0] == [] && kept[..0] == [];
    forall i | 0 < i < |ranked|
      ensures TotalTokens(Select(ranked[..i], kept[..i])) + EstimateTokens(ranked[i].content) <= budget
        <==> TotalTokens(Select(ranked[1..][..i - 1], kept[1..][..i - 1]))
             + EstimateTokens(ranked[1..][i - 1].content) <= left
    {
      SelectStep(ranked, kept, i);
    }
    if Greedy(ranked, budget, kept) {
      forall j | 0 <= j < |ranked[1..]| ensures kept[1..][j] <==>
        TotalTokens(Select(ranked[1..][..j], kept[1..][..j])) + EstimateTokens(ranked[1..][j].content) <= left
      {
        assert kept[1..][j] == kept[j + 1];
      }
    }
    if Greedy(ranked[1..], left, kept[1..]) {
      forall i | 0 <= i < |ranked| ensures kept[i] <==>
        TotalTokens(Select(ranked[..i], kept[..i])) + EstimateTokens(ranked[i].content) <= budget
      {
        if i > 0 {
          assert kept[1..][i - 1] == kept[i];
        }
      }
    }
  }

  function After(ranked: seq<ContextDocument>, budget: int): int
    requires ranked != []
  {
    var tokens := EstimateTokens(ranked[0].content);
    if tokens <= budget then budget - tokens else budget
  }

  lemma {:induction false} MaskIsGreedy(ranked: seq<ContextDocument>, budget: int)
    ensures Greedy(ranked, budget, Mask(ranked, budget))
  {
    if ranked != [] {
      MaskIsGreedy(ranked[1..], After(ranked, budget));
      assert Mask(ranked, budget)[1..] == Mask(ranked[1..], After(ranked, budget));
      GreedyTail(ranked, budget, Mask(ranked, budget));
    }
  }

  lemma GreedyHead(ranked: seq<ContextDocument>, budget: int, kept: seq<bool>)
    requires Greedy(ranked, budget, kept) && ranked != []
    ensures kept[0] <==> EstimateTokens(ranked[0].content) <= budget
  {
    assert ranked[..0] == [] && kept[..0] == [];
  }

  lemma {:induction false} GreedyIsMask(ranked: seq<ContextDocument>, budget: int, kept: seq<bool>)
    requires Greedy(ranked, budget, kept)
    ensures kept == Mask(ranked, budget)
  {
    if ranked != [] {
      GreedyHead(ranked, budget, kept);
      GreedyTail(ranked, budget, kept);
      GreedyIsMask(ranked[1..], After(ranked, budget), kept[1..]);
      assert kept == [kept[0]] + kept[1..];
    }
  }

  lemma {:induction false} FitSelects(ranked: seq<ContextDocument>, budget: int)
    ensures Fit(ranked, budget) == Select(ranked, Mask(ranked, budget))
  {
    if ranked != [] {
      FitSelects(ranked[1..], After(ranked, budget));
      var mask := Mask(ranked, budget);
      assert mask[1..] == Mask(ranked[1..], After(ranked, budget));
      var rest := Select(ranked[1..], mask[1..]);
      assert [] + rest == rest;
    }
  }

  // The cut keeps what the one greedy mask keeps: an item is skipped only when it does not fit.
  lemma FitIsGreedy(ranked: seq<ContextDocument>, budget: int)
    ensures exists kept :: Greedy(ranked, budget, kept) && Fit(ranked, budget) == Select(ranked, kept)
    ensures forall kept :: Greedy(ranked, budget, kept) ==> Fit(ranked, budget) == Select(ranked, kept)
  {
    MaskIsGreedy(ranked, budget);
    FitSelects(ranked, budget);
    forall kept | Greedy(ranked, budget, kept) ensures kept == Mask(ranked, budget) {
      GreedyIsMask(ranked, budget, kept);
    }
  }

  // In characters: an item is kept exactly when the kept items before it left at least one token, and
  // at least one for every four characters of it.
  lemma FitCutsOnLength(ranked: seq<ContextDocument>, budget: int) returns (kept: seq<bool>)
    ensures |kept| == |ranked| && Fit(ranked, budget) == Select(ranked, kept)
    ensures forall i :: 0 <= i < |ranked| ==>
      var left := budget - TotalTokens(Select(ranked[..i], kept[..i]));
      kept[i] <==> 1 <= left && |ranked[i].content| <= 4 * left
  {
    FitIsGreedy(ranked, budget);
    kept :| Greedy(ranked, budget, kept) && Fit(ranked, budget) == Select(ranked, kept);
    forall i | 0 <= i < |ranked|
      ensures var left := budget - TotalTokens(Select(ranked[..i], kept[..i]));
        kept[i] <==> 1 <= left && |ranked[i].content| <= 4 * left
    {
      TokensExactly(ranked[i].content, budget - TotalTokens(Select(ranked[..i], kept[..i])));
    }
  }

  // One hit: kept exactly when there is a token at all and the text fits four times the budget.
  lemma OneHitFits(d: ContextDocument, budget: int)
    ensures Fit([d], budget) == if 1 <= budget && |d.content| <= 4 * budget then [d] else []
  {
    TokensExactly(d.content, budget);
    FitCons(d, [], budget);
    assert [d] + [] == [d];
  }

  lemma {:induction false} FitStaysInBudget(ranked: seq<ContextDocument>, budget: nat)
    ensures TotalTokens(Fit(ranked, budget)) <= budget
    ensures TotalLength(Fit(ranked, budget)) <= 4 * budget
    ensures |Fit(ranked, budget)| <= |ranked| && |Fit(ranked, budget)| <= budget
  {
    if ranked != [] {
      var tokens := EstimateTokens(ranked[0].content);
      if tokens > budget {
        FitStaysInBudget(ranked[1..], budget);
      } else {
        FitStaysInBudget(ranked[1..], budget - tokens);
        var rest := Fit(ranked[1..], budget - tokens);
        assert ([ranked[0]] + rest)[1..] == rest;
      }
    }
  }

  lemma FitCons(d: ContextDocument, rest: seq<ContextDocument>, budget: int)
    ensures var tokens := EstimateTokens(d.content);
      Fit([d] + rest, budget) == if tokens > budget then Fit(rest, budget) else [d] + Fit(rest, budget - tokens)
    ensures TotalTokens([d] + rest) == EstimateTokens(d.content) + TotalTokens(rest)
  {
    assert ([d] + rest)[1..] == rest;
  }

  lemma Associate<T>(a: seq<T>, b: seq<T>, c: seq<T>)
    ensures (a + b) + c == a + (b + c)
  {
  }

  lemma FitConcatCons(d: ContextDocument, rest: seq<ContextDocument>, b: seq<ContextDocument>, budget: int)
    requires var left := if EstimateTokens(d.content) > budget then budget else budget - EstimateTokens(d.content);
      Fit(rest + b, left) == Fit(rest, left) + Fit(b, left - TotalTokens(Fit(rest, left)))
    ensures Fit([d] + (rest + b), budget)
         == Fit([d] + rest, budget) + Fit(b, budget - TotalTokens(Fit([d] + rest, budget)))
  {
    var tokens := EstimateTokens(d.content);
    FitCons(d, rest, budget);
    FitCons(d, rest + b, budget);
    if tokens <= budget {
      var kept := Fit(rest, budget - tokens);
      FitCons(d, kept, budget);
      Associate([d], kept, Fit(b, budget - tokens - TotalTokens(kept)));
    }
  }

  lemma Uncons<T>(a: seq<T>, b: seq<T>)
    requires a != []
    ensures a == [a[0]] + a[1..] && a + b == [a[0]] + (a[1..] + b)
  {
  }

  lemma {:induction false} FitConcat(a: seq<ContextDocument>, b: seq<ContextDocument>, budget: int)
    ensures Fit(a + b, budget) == Fit(a, budget) + Fit(b, budget - TotalTokens(Fit(a, budget)))
  {
    if a == [] {
      assert a + b == b && Fit(a, budget) == [];
      assert [] + Fit(b, budget) == Fit(b, budget);
    } else {
      var d, rest := a[0], a[1..];
      var tokens := EstimateTokens(d.content);
      FitConcat(rest, b, if tokens > budget then budget else budget - tokens);
      FitConcatCons(d, rest, b, budget);
      Uncons(a, b);
    }
  }

  // One more item is kept exactly when it fits what is left.
  lemma FitSnoc(a: seq<ContextDocument>, d: ContextDocument, budget: int)
    ensures var kept, tokens := Fit(a, budget), EstimateTokens(d.content);
      && Fit(a + [d], budget) == (if TotalTokens(kept) + tokens > budget then kept else kept + [d])
      && TotalTokens(kept + [d]) == TotalTokens(kept) + tokens
  {
    FitConcat(a, [d], budget);
    var kept := Fit(a, budget);
    FitCons(d, [], budget - TotalTokens(kept));
    assert [d] + [] == [d] && kept + [] == kept;
    TotalTokensConcat(kept, [d]);
  }

  // ---------------------------------------------------------------- the retriever

  datatype FilterField = DomainField | EntityTypeField | SourceSystemField | ClassificationField | PolicyTagField
                       | RegionField

  datatype ContextFilter = ContextFilter(field: FilterField, value: string)

  datatype RetrievalQuery = RetrievalQuery(
    tenantId: string, corpora: seq<string>, filters: seq<ContextFilter>, candidateLimit: int, resultLimit: int,
    maxContextTokens: int, maxAgeSeconds: Option<int>, purpose: string)

  // The limits RetrievalQuery's constructor accepts.
  predicate ValidLimits(q: RetrievalQuery) {
    && q.candidateLimit > 0 && 0 < q.resultLimit <= q.candidateLimit && q.maxContextTokens > 0
    && (q.maxAgeSeconds.Some? ==> q.maxAgeSeconds.value >= 0)
  }

  predicate MatchesFilter(d: ContextDocument, f: ContextFilter) {
    match f.field
    case PolicyTagField => f.value in d.governance.policyTags
    case DomainField => d.domain == f.value
    case EntityTypeField => d.entityType == f.value
    case SourceSystemField => d.source.system == f.value
    case ClassificationField => d.governance.classification == f.value
    case RegionField => d.governance.region == f.value
  }

  predicate MatchesScope(d: ContextDocument, q: RetrievalQuery) {
    && !d.validity.isDeleted
    && d.tenantId == q.tenantId
    && (q.corpora == [] || d.domain in q.corpora)
    && (d.governance.allowedPurposes == [] || q.purpose in d.governance.allowedPurposes)
  }

  // max(0, int(seconds)): int() truncates, so a partial second does not count.
  function AgeSeconds(d: ContextDocument, now: int): nat {
    var delta := now - d.validity.sourceUpdatedAt;
    if delta < 0 then 0 else delta / SECOND
  }

  predicate TooOld(d: ContextDocument, maxAge: Option<int>, now: int) {
    maxAge.Some? && AgeSeconds(d, now) > maxAge.value
  }

  predicate Eligible(d: ContextDocument, q: RetrievalQuery, now: int) {
    && MatchesScope(d, q)
    && !TooOld(d, q.maxAgeSeconds, now)
    && forall i :: 0 <= i < |q.filters| ==> MatchesFilter(d, q.filters[i])
  }

  function EligibleOf(ranked: seq<ContextDocument>, q: RetrievalQuery, now: int): seq<ContextDocument> {
    if ranked == [] then []
    else EligibleOf(ranked[..|ranked| - 1], q, now)
         + if Eligible(ranked[|ranked| - 1], q, now) then [ranked[|ranked| - 1]] else []
  }

  function Capped<T>(s: seq<T>, limit: nat): seq<T> {
    if |s| <= limit then s else s[..limit]
  }

  function Retrieved(ranked: seq<ContextDocument>, q: RetrievalQuery, now: int): seq<ContextDocument>
    requires ValidLimits(q)
  {
    Capped(Fit(EligibleOf(ranked, q, now), q.maxContextTokens), q.resultLimit)
  }

  datatype ContextResult = ContextResult(contextId: string, text: string, trust: Trust, ageSeconds: nat, isStale: bool)

  function ToResult(d: ContextDocument, now: int, maxAge: Option<int>): ContextResult {
    var age := AgeSeconds(d, now);
    ContextResult(d.chunkId, d.content, d.trust, age, maxAge.Some? && age > maxAge.value)
  }

  method Retrieve(ranked: seq<ContextDocument>, q: RetrievalQuery, now: int) returns (results: seq<ContextResult>)
    requires ValidLimits(q)
    ensures |results| == |Retrieved(ranked, q, now)|
    ensures forall i :: 0 <= i < |results| ==>
      results[i] == ToResult(Retrieved(ranked, q, now)[i], now, q.maxAgeSeconds)
  {
    var remaining := q.maxContextTokens;
    results := [];
    ghost var kept: seq<ContextDocument> := [];
    var i := 0;
    while i < |ranked|
      invariant 0 <= i <= |ranked|
      invariant kept == Fit(EligibleOf(ranked[..i], q, now), q.maxContextTokens)
      invariant remaining == q.maxContextTokens - TotalTokens(kept)
      invariant |kept| < q.resultLimit
      invariant |results| == |kept|
      invariant forall j :: 0 <= j < |kept| ==> results[j] == ToResult(kept[j], now, q.maxAgeSeconds)
    {
      var document := ranked[i];
      FitNext(ranked, q, now, i);
      i := i + 1;
      if !Eligible(document, q, now) {
        continue;
      }
      var tokens := EstimateTokens(document.content);
      if tokens > remaining {
        continue;
      }
      results := results + [ToResult(document, now, q.maxAgeSeconds)];
      kept := kept + [document];
      remaining := remaining - tokens;
      if |results| == q.resultLimit {
        FullIsRetrieved(ranked, q, now, i);
        assert kept == Retrieved(ranked, q, now);
        return;
      }
    }
    assert ranked[..i] == ranked;
    assert kept == Retrieved(ranked, q, now);
  }

  lemma EligibleSnoc(ranked: seq<ContextDocument>, q: RetrievalQuery, now: int, i: nat)
    requires i < |ranked|
    ensures EligibleOf(ranked[..i + 1], q, now)
         == if Eligible(ranked[i], q, now) then EligibleOf(ranked[..i], q, now) + [ranked[i]]
            else EligibleOf(ranked[..i], q, now)
  {
    assert ranked[..i + 1][..i] == ranked[..i];
  }

  lemma FitNext(ranked: seq<ContextDocument>, q: RetrievalQuery, now: int, i: nat)
    requires i < |ranked|
    ensures var kept, d := Fit(EligibleOf(ranked[..i], q, now), q.maxContextTokens), ranked[i];
      && TotalTokens(kept + [d]) == TotalTokens(kept) + EstimateTokens(d.content)
      && Fit(EligibleOf(ranked[..i + 1], q, now), q.maxContextTokens)
      == if Eligible(d, q, now) && TotalTokens(kept + [d]) <= q.maxContextTokens then kept + [d] else kept
  {
    EligibleSnoc(ranked, q, now, i);
    FitSnoc(EligibleOf(ranked[..i], q, now), ranked[i], q.maxContextTokens);
  }

  // Once the limit is reached, nothing further down the ranking matters.
  lemma FullIsRetrieved(ranked: seq<ContextDocument>, q: RetrievalQuery, now: int, i: nat)
    requires ValidLimits(q) && i <= |ranked|
    requires |Fit(EligibleOf(ranked[..i], q, now), q.maxContextTokens)| == q.resultLimit
    ensures Retrieved(ranked, q, now) == Fit(EligibleOf(ranked[..i], q, now), q.maxContextTokens)
  {
    EligiblePrefix(ranked, q, now, i);
    var seen, all := EligibleOf(ranked[..i], q, now), EligibleOf(ranked, q, now);
    assert all == seen + all[|seen|..];
    FitConcat(seen, all[|seen|..], q.maxContextTokens);
  }

  lemma {:induction false} TotalTokensConcat(a: seq<ContextDocument>, b: seq<ContextDocument>)
    ensures TotalTokens(a + b) == TotalTokens(a) + TotalTokens(b)
  {
    if a == [] {
      assert a + b == b;
    } else {
      TotalTokensConcat(a[1..], b);
      assert (a + b)[1..] == a[1..] + b;
    }
  }

  lemma {:induction false} EligiblePrefix(ranked: seq<ContextDocument>, q: RetrievalQuery, now: int, i: nat)
    requires i <= |ranked|
    ensures EligibleOf(ranked[..i], q, now) <= EligibleOf(ranked, q, now)
  {
    var n := |ranked|;
    if i == n {
      assert ranked[..i] == ranked;
    } else {
      EligiblePrefix(ranked[..n - 1], q, now, i);
      assert ranked[..n - 1][..i] == ranked[..i];
    }
  }

  lemma {:induction false} EligibleMembers(ranked: seq<ContextDocument>, q: RetrievalQuery, now: int)
    ensures forall d :: d in EligibleOf(ranked, q, now) <==> d in ranked && Eligible(d, q, now)
  {
    if ranked != [] {
      var n := |ranked|;
      EligibleMembers(ranked[..n - 1], q, now);
      assert ranked == ranked[..n - 1] + [ranked[n - 1]];
    }
  }

  lemma {:induction false} FitMembers(ranked: seq<ContextDocument>, budget: int)
    ensures forall d :: d in Fit(ranked, budget) ==> d in ranked
  {
    if ranked != [] {
      var tokens := EstimateTokens(ranked[0].content);
      FitMembers(ranked[1..], if tokens > budget then budget else budget - tokens);
      assert ranked == [ranked[0]] + ranked[1..];
    }
  }

  lemma {:induction false} PrefixTotals(s: seq<ContextDocument>, n: nat)
    requires n <= |s|
    ensures TotalTokens(s[..n]) <= TotalTokens(s) && TotalLength(s[..n]) <= TotalLength(s)
  {
    if n > 0 {
      assert s[..n][1..] == s[1..][..n - 1];
      PrefixTotals(s[1..], n - 1);
    }
  }

  // Which hits the retriever considers, in the fields of the document: live, of the tenant, of a
  // requested corpus, for the purpose, less than one second over the maximum age, and meeting every
  // filter in the field it names.
  lemma EligibleExactly(ranked: seq<ContextDocument>, q: RetrievalQuery, now: int, d: ContextDocument)
    requires ValidLimits(q)
    ensures d in EligibleOf(ranked, q, now) <==>
      && d in ranked && !d.validity.isDeleted && d.tenantId == q.tenantId
      && (q.corpora != [] ==> d.domain in q.corpora)
      && (d.governance.allowedPurposes != [] ==> q.purpose in d.governance.allowedPurposes)
      && (q.maxAgeSeconds.Some? ==>
            now - d.validity.sourceUpdatedAt < (q.maxAgeSeconds.value + 1) * 1_000_000)
      && forall f :: f in q.filters ==>
           match f.field
           case DomainField => f.value == d.domain
           case EntityTypeField => f.value == d.entityType
           case SourceSystemField => f.value == d.source.system
           case ClassificationField => f.value == d.governance.classification
           case RegionField => f.value == d.governance.region
           case PolicyTagField => f.value in d.governance.policyTags
  {
    EligibleMembers(ranked, q, now);
    AgeExactly(d, now, q.maxAgeSeconds);
    assert (forall i :: 0 <= i < |q.filters| ==> MatchesFilter(d, q.filters[i]))
      <==> forall f :: f in q.filters ==> MatchesFilter(d, f);
  }

  // Whole seconds: too old means at least one full second over.
  lemma AgeExactly(d: ContextDocument, now: int, maxAge: Option<int>)
    requires maxAge.Some? ==> maxAge.value >= 0
    ensures TooOld(d, maxAge, now) <==>
      maxAge.Some? && now - d.validity.sourceUpdatedAt >= (maxAge.value + 1) * 1_000_000
  {
    var delta := now - d.validity.sourceUpdatedAt;
    if delta >= 0 {
      assert SECOND * (delta / SECOND) <= delta < SECOND * (delta / SECOND) + SECOND;
    }
  }

  // What a caller of retrieve may rely on: bounded count, tokens and text, every result in scope,
  // none marked stale.
  lemma RetrievedIsBounded(ranked: seq<ContextDocument>, q: RetrievalQuery, now: int)
    requires ValidLimits(q)
    ensures var kept := Retrieved(ranked, q, now);
      && |kept| <= q.resultLimit
      && TotalTokens(kept) <= q.maxContextTokens
      && TotalLength(kept) <= 4 * q.maxContextTokens
      && (forall d :: d in kept ==> d in ranked && Eligible(d, q, now)
                                    && !ToResult(d, now, q.maxAgeSeconds).isStale)
  {
    var eligible := EligibleOf(ranked, q, now);
    var fitted := Fit(eligible, q.maxContextTokens);
    FitStaysInBudget(eligible, q.maxContextTokens);
    PrefixTotals(fitted, |Retrieved(ranked, q, now)|);
    EligibleMembers(ranked, q, now);
    FitMembers(eligible, q.maxContextTokens);
  }

  // What a result says of its document: its chunk, text and trust, its age in full seconds, and that
  // it is not stale.
  lemma ResultsSayTheirDocument(ranked: seq<ContextDocument>, q: RetrievalQuery, now: int, d: ContextDocument)
    requires ValidLimits(q) && d in Retrieved(ranked, q, now)
    ensures
      var r, age := ToResult(d, now, q.maxAgeSeconds), now - d.validity.sourceUpdatedAt;
      && r.contextId == d.chunkId && r.text == d.content && r.trust == d.trust && !r.isStale
      && (if age < 0 then r.ageSeconds == 0 else r.ageSeconds * 1_000_000 <= age < (r.ageSeconds + 1) * 1_000_000)
  {
    RetrievedIsBounded(ranked, q, now);
    var delta := now - d.validity.sourceUpdatedAt;
    if delta >= 0 {
      assert SECOND * (delta / SECOND) <= delta < SECOND * (delta / SECOND) + SECOND;
    }
  }

  // ---------------------------------------------------------------- the governed service

  datatype StaleBehavior = Omit | Fail

  // Here a partial second does count.
  predicate IsFresh(d: ContextDocument, now: int, maxAge: int) {
    now - d.validity.sourceUpdatedAt <= maxAge * SECOND
  }

  function FreshOf(hits: seq<ContextDocument>, now: int, maxAge: int): seq<ContextDocument> {
    if hits == [] then []
    else FreshOf(hits[..|hits| - 1], now, maxAge)
         + if IsFresh(hits[|hits| - 1], now, maxAge) then [hits[|hits| - 1]] else []
  }

  // Any stale hit, even one the limit would have cut, fails the whole request under Fail.
  function ApplyFreshness(hits: seq<ContextDocument>, now: int, maxAge: Option<int>, behavior: StaleBehavior)
    : Result<seq<ContextDocument>>
  {
    match maxAge
    case None => Ok(hits)
    case Some(age) =>
      var kept := FreshOf(hits, now, age);
      if |kept| != |hits| && behavior.Fail? then Raise(RuntimeError) else Ok(kept)
  }

  predicate AllFresh(hits: seq<ContextDocument>, now: int, maxAge: int) {
    forall i :: 0 <= i < |hits| ==> IsFresh(hits[i], now, maxAge)
  }

  lemma FreshSnoc(init: seq<ContextDocument>, last: ContextDocument, now: int, maxAge: int)
    ensures AllFresh(init + [last], now, maxAge) <==> AllFresh(init, now, maxAge) && IsFresh(last, now, maxAge)
    ensures FreshOf(init + [last], now, maxAge)
         == FreshOf(init, now, maxAge) + if IsFresh(last, now, maxAge) then [last] else []
  {
    var all := init + [last];
    assert all[..|init|] == init && all[|init|] == last;
    assert forall i :: 0 <= i < |init| ==> all[i] == init[i];
  }

  lemma {:induction false} FreshKeepsAll(hits: seq<ContextDocument>, now: int, maxAge: int)
    ensures |FreshOf(hits, now, maxAge)| <= |hits|
    ensures if AllFresh(hits, now, maxAge) then FreshOf(hits, now, maxAge) == hits
            else |FreshOf(hits, now, maxAge)| < |hits|
  {
    if hits != [] {
      var init, last := hits[..|hits| - 1], hits[|hits| - 1];
      FreshKeepsAll(init, now, maxAge);
      FreshSnoc(init, last, now, maxAge);
      assert hits == init + [last];
    }
  }

  // Under Fail a request either keeps every hit or is refused, and is refused iff some hit is stale.
  lemma FailsExactlyOnStale(hits: seq<ContextDocument>, now: int, maxAge: int)
    ensures ApplyFreshness(hits, now, Some(maxAge), Fail)
         == if exists d :: d in hits && !IsFresh(d, now, maxAge) then Raise(RuntimeError) else Ok(hits)
  {
    FreshKeepsAll(hits, now, maxAge);
    if d :| d in hits && !IsFresh(d, now, maxAge) {
      var i :| 0 <= i < |hits| && hits[i] == d;
      assert !AllFresh(hits, now, maxAge);
    } else {
      assert AllFresh(hits, now, maxAge);
    }
  }

  // Otherwise exactly the hits not older than the maximum age are kept, to the microsecond.
  lemma {:induction false} OmitKeepsExactlyFresh(hits: seq<ContextDocument>, now: int, maxAge: int, d: ContextDocument)
    ensures ApplyFreshness(hits, now, Some(maxAge), Omit).Ok?
    ensures d in ApplyFreshness(hits, now, Some(maxAge), Omit).value
       <==> d in hits && now - d.validity.sourceUpdatedAt <= maxAge * 1_000_000
  {
    if hits != [] {
      var n := |hits| - 1;
      OmitKeepsExactlyFresh(hits[..n], now, maxAge, d);
      assert hits == hits[..n] + [hits[n]];
    }
  }

  method FitBudget(hits: seq<ContextDocument>, maxContextTokens: int) returns (fitted: seq<ContextDocument>)
    ensures fitted == Fit(hits, maxContextTokens)
  {
    fitted := [];
    var used := 0;
    for i := 0 to |hits|
      invariant fitted == Fit(hits[..i], maxContextTokens) && used == TotalTokens(fitted)
    {
      var tokens := EstimateTokens(hits[i].content);
      assert hits[..i + 1] == hits[..i] + [hits[i]];
      FitSnoc(hits[..i], hits[i], maxContextTokens);
      if used + tokens > maxContextTokens {
        continue;
      }
      fitted := fitted + [hits[i]];
      used := used + tokens;
    }
    assert hits[..|hits|] == hits;
  }

  // ---------------------------------------------------------------- the two compared

  // The tests part ways only inside the last, partial second.
  lemma FreshnessTestsDiffer(d: ContextDocument, now: int, maxAge: nat)
    ensures var delta := now - d.validity.sourceUpdatedAt;
      (IsFresh(d, now, maxAge) != !TooOld(d, Some(maxAge), now))
      <==> maxAge * SECOND < delta < (maxAge + 1) * SECOND
  {
    var delta := now - d.validity.sourceUpdatedAt;
    if delta >= 0 {
      assert SECOND * (delta / SECOND) <= delta < SECOND * (delta / SECOND) + SECOND;
    }
  }

  // The service limits first and fits after, the retriever fits first and limits after: on one
  // list of hits the service returns a prefix of what the retriever returns.
  lemma ServiceIsPrefix(hits: seq<ContextDocument>, limit: nat, budget: int)
    ensures Fit(Capped(hits, limit), budget) <= Capped(Fit(hits, budget), limit)
  {
    var head := Capped(hits, limit);
    var tail := hits[|head|..];
    assert hits == head + tail;
    FitConcat(head, tail, budget);
    FitLength(head, budget);
  }

  // They return the same list exactly when the first limit hits all fit or nothing after them
  // fits what those left.
  lemma SameListExactly(hits: seq<ContextDocument>, limit: nat, budget: int)
    ensures
      var head := Capped(hits, limit);
      Fit(head, budget) == Capped(Fit(hits, budget), limit) <==>
        || |Fit(head, budget)| == |head|
        || Fit(hits[|head|..], budget - TotalTokens(Fit(head, budget))) == []
  {
    var head := Capped(hits, limit);
    var tail := hits[|head|..];
    assert hits == head + tail;
    FitConcat(head, tail, budget);
    FitLength(head, budget);
  }

  lemma {:induction false} FitLength(ranked: seq<ContextDocument>, budget: int)
    ensures |Fit(ranked, budget)| <= |ranked|
  {
    if ranked != [] {
      var tokens := EstimateTokens(ranked[0].content);
      FitLength(ranked[1..], if tokens > budget then budget else budget - tokens);
    }
  }

  // In scope, past every filter, and not in the second on which the freshness tests differ.
  predicate Comparable(d: ContextDocument, q: RetrievalQuery, now: int) {
    && MatchesScope(d, q)
    && (forall i :: 0 <= i < |q.filters| ==> MatchesFilter(d, q.filters[i]))
    && (q.maxAgeSeconds.Some? ==>
          var delta, maxAge := now - d.validity.sourceUpdatedAt, q.maxAgeSeconds.value;
          !(maxAge * SECOND < delta < (maxAge + 1) * SECOND))
  }

  lemma {:induction false} EligibleIsFresh(ranked: seq<ContextDocument>, q: RetrievalQuery, now: int)
    requires ValidLimits(q) && forall d :: d in ranked ==> Comparable(d, q, now)
    ensures ApplyFreshness(ranked, now, q.maxAgeSeconds, Omit) == Ok(EligibleOf(ranked, q, now))
  {
    if ranked != [] {
      var n := |ranked| - 1;
      EligibleIsFresh(ranked[..n], q, now);
      assert ranked[n] in ranked && ranked == ranked[..n] + [ranked[n]];
      if q.maxAgeSeconds.Some? {
        FreshnessTestsDiffer(ranked[n], now, q.maxAgeSeconds.value);
      }
    }
  }

  // End to end: on the same permitted ranking, off the boundary second, what the service puts in
  // the context is a prefix of what the retriever puts there.
  lemma ServiceAgreesWithRetriever(ranked: seq<ContextDocument>, q: RetrievalQuery, now: int)
    requires ValidLimits(q) && forall d :: d in ranked ==> Comparable(d, q, now)
    ensures var left := ApplyFreshness(ranked, now, q.maxAgeSeconds, Omit);
      && left.Ok?
      && Fit(Capped(left.value, q.resultLimit), q.maxContextTokens) <= Retrieved(ranked, q, now)
  {
    EligibleIsFresh(ranked, q, now);
    ServiceIsPrefix(EligibleOf(ranked, q, now), q.resultLimit, q.maxContextTokens);
  }
}
