/** Reciprocal rank fusion, twice implemented: over any rankings, and over two lists of ranked hits. */
module RankFusion {
  import opened Prelude

  // ---------------------------------------------------------------- a dict in insertion order

  datatype Item<+V> = Item(key: string, value: V)

  function Get<V>(d: seq<Item<V>>, key: string): Option<V> {
    if d == [] then None
    else if d[0].key == key then Some(d[0].value)
    else Get(d[1..], key)
  }

  function Put<V>(d: seq<Item<V>>, key: string, value: V): seq<Item<V>> {
    if d == [] then [Item(key, value)]
    else if d[0].key == key then [Item(key, value)] + d[1..]
    else [d[0]] + Put(d[1..], key, value)
  }

  predicate Unique<V>(d: seq<Item<V>>) {
    d == [] || (Get(d[1..], d[0].key).None? && Unique(d[1..]))
  }

  lemma {:induction false} PutEffect<V>(d: seq<Item<V>>, key: string, value: V)
    ensures forall other :: Get(Put(d, key, value), other) == if other == key then Some(value) else Get(d, other)
    ensures Unique(d) ==> Unique(Put(d, key, value))
  {
    if d != [] && d[0].key != key {
      PutEffect(d[1..], key, value);
    }
  }

  lemma {:induction false} UniqueItems<V(!new)>(d: seq<Item<V>>)
    requires Unique(d)
    ensures forall e :: e in d <==> Get(d, e.key) == Some(e.value)
    ensures Distinct(d)
    ensures forall i, j :: 0 <= i < j < |d| ==> d[i].key != d[j].key
  {
    if d != [] {
      UniqueItems(d[1..]);
      assert d == [d[0]] + d[1..];
      forall e ensures e in d <==> Get(d, e.key) == Some(e.value) {
        assert e in d <==> e == d[0] || e in d[1..];
      }
      forall j | 0 < j < |d| ensures d[0].key != d[j].key {
        assert d[j] in d[1..];
      }
    }
  }

  // ---------------------------------------------------------------- the general implementation

  datatype Tactic = Lexical | Semantic | Hybrid

  // body stands for everything in the document but its chunk id.
  datatype Candidate = Candidate(chunk: string, body: string, score: real, tactic: Tactic)

  const RRF_K: nat := 60

  function Weight(k: nat, rank: nat): real
    requires k + rank > 0
  {
    1.0 / (k + rank) as real
  }

  // By descending score, then by chunk id.
  predicate Before(a: Item<real>, b: Item<real>) {
    a.value > b.value || (a.value == b.value && TextLess(a.key, b.key))
  }

  lemma BeforeIsStrictTotal()
    ensures StrictTotal(Before)
  {
    forall x: Item<real> ensures !Before(x, x) {
      TextLessTotal(x.key, x.key);
    }
    forall x: Item<real>, y: Item<real> ensures Before(x, y) || Before(y, x) || x == y {
      TextLessTotal(x.key, y.key);
    }
    forall x: Item<real>, y: Item<real>, z: Item<real> | Before(x, y) && Before(y, z) ensures Before(x, z) {
      if TextLess(x.key, y.key) && TextLess(y.key, z.key) {
        TextLessTransitive(x.key, y.key, z.key);
      }
    }
  }

  function Score(totals: seq<Item<real>>, chunk: string): real {
    match Get(totals, chunk)
    case None => 0.0
    case Some(score) => score
  }

  function Accumulate(k: nat, totals: seq<Item<real>>, ranking: seq<string>): seq<Item<real>> {
    if ranking == [] then totals
    else
      var n := |ranking|;
      var before := Accumulate(k, totals, ranking[..n - 1]);
      Put(before, ranking[n - 1], Score(before, ranking[n - 1]) + Weight(k, n))
  }

  function Totals(k: nat, rankings: seq<seq<string>>): seq<Item<real>> {
    if rankings == [] then []
    else Accumulate(k, Totals(k, rankings[..|rankings| - 1]), rankings[|rankings| - 1])
  }

  function Fused(k: nat, rankings: seq<seq<string>>): seq<Item<real>> {
    Sorted(Before, Totals(k, rankings))
  }

  function Chunks(ranking: seq<Candidate>): seq<string> {
    seq(|ranking|, i requires 0 <= i < |ranking| => ranking[i].chunk)
  }

  function AllChunks(rankings: seq<seq<Candidate>>): seq<seq<string>> {
    seq(|rankings|, i requires 0 <= i < |rankings| => Chunks(rankings[i]))
  }

  function Flat(rankings: seq<seq<Candidate>>): seq<Candidate> {
    if rankings == [] then [] else Flat(rankings[..|rankings| - 1]) + rankings[|rankings| - 1]
  }

  // The two dicts beside the totals, after the candidates seen.
  function Documents(seen: seq<Candidate>): map<string, string> {
    if seen == [] then map[]
    else
      var last := seen[|seen| - 1];
      Documents(seen[..|seen| - 1])[last.chunk := last.body]
  }

  // tactics.setdefault(key, set()).add(tactic)
  function AddTactic(tactics: map<string, set<Tactic>>, c: Candidate): map<string, set<Tactic>> {
    tactics[c.chunk := (if c.chunk in tactics then tactics[c.chunk] else {}) + {c.tactic}]
  }

  function Tactics(seen: seq<Candidate>): map<string, set<Tactic>> {
    if seen == [] then map[] else AddTactic(Tactics(seen[..|seen| - 1]), seen[|seen| - 1])
  }

  ghost predicate LastBody(seen: seq<Candidate>, chunk: string, body: string) {
    exists i :: 0 <= i < |seen| && seen[i].chunk == chunk && seen[i].body == body
      && forall j :: i < j < |seen| ==> seen[j].chunk != chunk
  }

  ghost predicate FoundBy(seen: seq<Candidate>, chunk: string, tactic: Tactic) {
    exists i :: 0 <= i < |seen| && seen[i].chunk == chunk && seen[i].tactic == tactic
  }

  predicate Seen(seen: seq<Candidate>, chunk: string) {
    exists i :: 0 <= i < |seen| && seen[i].chunk == chunk
  }

  lemma LastBodySnoc(init: seq<Candidate>, last: Candidate, chunk: string, body: string)
    ensures Seen(init + [last], chunk) <==> Seen(init, chunk) || last.chunk == chunk
    ensures last.chunk == chunk ==> LastBody(init + [last], chunk, last.body)
    ensures last.chunk != chunk && LastBody(init, chunk, body) ==> LastBody(init + [last], chunk, body)
  {
    var all, n := init + [last], |init|;
    assert all[n] == last && forall i :: 0 <= i < n ==> all[i] == init[i];
    if last.chunk != chunk && LastBody(init, chunk, body) {
      var i :| 0 <= i < n && init[i].chunk == chunk && init[i].body == body
               && forall j :: i < j < n ==> init[j].chunk != chunk;
      assert all[i].chunk == chunk && all[i].body == body;
    }
  }

  // The document kept for a chunk is that of its last candidate.
  lemma {:induction false} DocumentsKeepTheLast(seen: seq<Candidate>, chunk: string)
    ensures chunk in Documents(seen) <==> Seen(seen, chunk)
    ensures chunk in Documents(seen) ==> LastBody(seen, chunk, Documents(seen)[chunk])
  {
    if seen != [] {
      var init, last := seen[..|seen| - 1], seen[|seen| - 1];
      DocumentsKeepTheLast(init, chunk);
      assert seen == init + [last];
      LastBodySnoc(init, last, chunk, if chunk in Documents(init) then Documents(init)[chunk] else "");
    }
  }

  lemma {:induction false} TacticsCollectAll(seen: seq<Candidate>, chunk: string)
    ensures chunk in Tactics(seen) <==> chunk in Documents(seen)
    ensures chunk in Tactics(seen) ==>
      Tactics(seen)[chunk] != {} && forall tactic :: tactic in Tactics(seen)[chunk] <==> FoundBy(seen, chunk, tactic)
  {
    if seen != [] {
      var n := |seen|;
      TacticsCollectAll(seen[..n - 1], chunk);
      DocumentsKeepTheLast(seen[..n - 1], chunk);
      forall tactic ensures FoundBy(seen, chunk, tactic) <==>
        FoundBy(seen[..n - 1], chunk, tactic) || (seen[n - 1].chunk == chunk && seen[n - 1].tactic == tactic)
      {
        FoundByLast(seen, chunk, tactic);
      }
    }
  }

  lemma FoundByLast(seen: seq<Candidate>, chunk: string, tactic: Tactic)
    requires seen != []
    ensures var n := |seen|;
      FoundBy(seen, chunk, tactic) <==>
        FoundBy(seen[..n - 1], chunk, tactic) || (seen[n - 1].chunk == chunk && seen[n - 1].tactic == tactic)
  {
    var n := |seen|;
    if i :| 0 <= i < n && seen[i].chunk == chunk && seen[i].tactic == tactic {
      assert i < n - 1 ==> seen[..n - 1][i] == seen[i];
    }
    var init := seen[..n - 1];
    if i :| 0 <= i < |init| && init[i].chunk == chunk && init[i].tactic == tactic {
      assert seen[i] == init[i];
    }
  }

  lemma SeenStep(seen: seq<Candidate>, c: Candidate)
    ensures Documents(seen + [c]) == Documents(seen)[c.chunk := c.body]
    ensures Tactics(seen + [c]) == AddTactic(Tactics(seen), c)
  {
    assert (seen + [c])[..|seen|] == seen;
  }

  // The three dicts that are filled together.
  datatype Fusing = Fusing(totals: seq<Item<real>>, documents: map<string, string>, tactics: map<string, set<Tactic>>)

  function FuseOne(k: nat, f: Fusing, c: Candidate, rank: nat): Fusing
    requires k + rank > 0
  {
    Fusing(Put(f.totals, c.chunk, Score(f.totals, c.chunk) + Weight(k, rank)),
           f.documents[c.chunk := c.body],
           AddTactic(f.tactics, c))
  }

  function FuseAll(k: nat, f: Fusing, ranking: seq<Candidate>): Fusing {
    if ranking == [] then f
    else FuseOne(k, FuseAll(k, f, ranking[..|ranking| - 1]), ranking[|ranking| - 1], |ranking|)
  }

  lemma AccumulateSnoc(k: nat, totals: seq<Item<real>>, ranking: seq<string>, chunk: string)
    ensures var before := Accumulate(k, totals, ranking);
      Accumulate(k, totals, ranking + [chunk]) == Put(before, chunk, Score(before, chunk) + Weight(k, |ranking| + 1))
  {
    assert (ranking + [chunk])[..|ranking|] == ranking;
  }

  lemma {:induction false} FuseAllTotals(k: nat, f: Fusing, ranking: seq<Candidate>)
    ensures FuseAll(k, f, ranking).totals == Accumulate(k, f.totals, Chunks(ranking))
  {
    if ranking != [] {
      var n := |ranking| - 1;
      var chunks, init := Chunks(ranking), Chunks(ranking[..n]);
      assert chunks == init + [ranking[n].chunk];
      AccumulateSnoc(k, f.totals, init, ranking[n].chunk);
      FuseAllTotals(k, f, ranking[..n]);
    }
  }

  lemma {:induction false} FuseAllDocuments(k: nat, f: Fusing, seen: seq<Candidate>, ranking: seq<Candidate>)
    requires f.documents == Documents(seen)
    ensures FuseAll(k, f, ranking).documents == Documents(seen + ranking)
  {
    if ranking == [] {
      assert seen + ranking == seen;
    } else {
      var n := |ranking| - 1;
      FuseAllDocuments(k, f, seen, ranking[..n]);
      assert seen + ranking == seen + ranking[..n] + [ranking[n]];
      SeenStep(seen + ranking[..n], ranking[n]);
    }
  }

  lemma {:induction false} FuseAllTactics(k: nat, f: Fusing, seen: seq<Candidate>, ranking: seq<Candidate>)
    requires f.tactics == Tactics(seen)
    ensures FuseAll(k, f, ranking).tactics == Tactics(seen + ranking)
  {
    if ranking == [] {
      assert seen + ranking == seen;
    } else {
      var n := |ranking| - 1;
      FuseAllTactics(k, f, seen, ranking[..n]);
      assert seen + ranking == seen + ranking[..n] + [ranking[n]];
      SeenStep(seen + ranking[..n], ranking[n]);
    }
  }

  method AccumulateRanking(ranking: seq<Candidate>, k: nat, totals: seq<Item<real>>,
                           documents: map<string, string>, tactics: map<string, set<Tactic>>,
                           ghost seen: seq<Candidate>)
    returns (sums: seq<Item<real>>, bodies: map<string, string>, ways: map<string, set<Tactic>>)
    requires documents == Documents(seen) && tactics == Tactics(seen)
    ensures sums == Accumulate(k, totals, Chunks(ranking))
    ensures bodies == Documents(seen + ranking) && ways == Tactics(seen + ranking)
  {
    sums, bodies, ways := totals, documents, tactics;
    for i := 0 to |ranking|
      invariant Fusing(sums, bodies, ways) == FuseAll(k, Fusing(totals, documents, tactics), ranking[..i])
    {
      var candidate, rank := ranking[i], i + 1;
      var key := candidate.chunk;
      sums := Put(sums, key, Score(sums, key) + Weight(k, rank));
      bodies := bodies[key := candidate.body];
      ways := AddTactic(ways, candidate);
      assert ranking[..i + 1][..i] == ranking[..i];
    }
    assert ranking[..|ranking|] == ranking;
    var f := Fusing(totals, documents, tactics);
    FuseAllTotals(k, f, ranking);
    FuseAllDocuments(k, f, seen, ranking);
    FuseAllTactics(k, f, seen, ranking);
  }

  // The fused candidate of a chunk: its last document, and HYBRID when more than one tactic found it.
  ghost predicate FusedCandidate(seen: seq<Candidate>, fused: Item<real>, c: Candidate) {
    && c.chunk == fused.key && c.score == fused.value
    && LastBody(seen, c.chunk, c.body)
    && (if exists a, b :: a != b && FoundBy(seen, c.chunk, a) && FoundBy(seen, c.chunk, b)
        then c.tactic == Hybrid else FoundBy(seen, c.chunk, c.tactic))
  }

  lemma MoreThanOne<T>(s: set<T>)
    ensures |s| > 1 <==> exists a, b :: a in s && b in s && a != b
  {
    if |s| > 1 {
      var a :| a in s;
      assert |s - {a}| > 0;
      var b :| b in s - {a};
    }
    if a, b :| a in s && b in s && a != b {
      assert |s - {a} - {b}| == |s| - 2;
    }
  }

  method FuseCandidate(ghost seen: seq<Candidate>, item: Item<real>, body: string, ways: set<Tactic>)
    returns (c: Candidate)
    requires item.key in Documents(seen) && body == Documents(seen)[item.key]
    requires item.key in Tactics(seen) && ways == Tactics(seen)[item.key]
    ensures FusedCandidate(seen, item, c)
  {
    DocumentsKeepTheLast(seen, item.key);
    TacticsCollectAll(seen, item.key);
    MoreThanOne(ways);
    var some :| some in ways;
    c := Candidate(item.key, body, item.value, if |ways| > 1 then Hybrid else some);
  }

  method FuseCandidates(ghost seen: seq<Candidate>, order: seq<Item<real>>, documents: map<string, string>,
                        tactics: map<string, set<Tactic>>)
    returns (fused: seq<Candidate>)
    requires documents == Documents(seen) && tactics == Tactics(seen)
    requires forall i :: 0 <= i < |order| ==> order[i].key in documents && order[i].key in tactics
    ensures |fused| == |order| && forall i :: 0 <= i < |fused| ==> FusedCandidate(seen, order[i], fused[i])
  {
    fused := [];
    for i := 0 to |order|
      invariant |fused| == i
      invariant forall j :: 0 <= j < i ==> FusedCandidate(seen, order[j], fused[j])
    {
      var c := FuseCandidate(seen, order[i], documents[order[i].key], tactics[order[i].key]);
      fused := fused + [c];
    }
  }

  method ReciprocalRankFusion(rankings: seq<seq<Candidate>>, rankConstant: int) returns (r: Result<seq<Candidate>>)
    ensures rankConstant <= 0 ==> r == Raise(ValueError)
    ensures rankConstant > 0 ==> r.Ok? && |r.value| == |Fused(rankConstant, AllChunks(rankings))|
    ensures rankConstant > 0 ==>
      forall i :: 0 <= i < |r.value| ==>
        FusedCandidate(Flat(rankings), Fused(rankConstant, AllChunks(rankings))[i], r.value[i])
  {
    if rankConstant <= 0 {
      return Raise(ValueError);
    }
    var totals: seq<Item<real>> := [];
    var documents: map<string, string> := map[];
    var tactics: map<string, set<Tactic>> := map[];
    var all := AllChunks(rankings);
    for i := 0 to |rankings|
      invariant totals == Totals(rankConstant, all[..i])
      invariant documents == Documents(Flat(rankings[..i])) && tactics == Tactics(Flat(rankings[..i]))
    {
      totals, documents, tactics :=
        AccumulateRanking(rankings[i], rankConstant, totals, documents, tactics, Flat(rankings[..i]));
      assert all[..i + 1][..i] == all[..i] && rankings[..i + 1][..i] == rankings[..i];
    }
    assert all[..|rankings|] == all && rankings[..|rankings|] == rankings;
    var order := Sorted(Before, totals);
    forall i | 0 <= i < |order| ensures order[i].key in documents && order[i].key in tactics {
      FusedChunksAreSeen(rankConstant, rankings, order[i]);
    }
    var fused := FuseCandidates(Flat(rankings), order, documents, tactics);
    return Ok(fused);
  }

  // ---------------------------------------------------------------- what a fused score is

  // The credit one ranking gives a chunk, over all its positions.
  function Credit(k: nat, ranking: seq<string>, chunk: string): (credit: real)
    ensures credit >= 0.0 && (credit > 0.0 <==> chunk in ranking)
  {
    if ranking == [] then 0.0
    else
      var n := |ranking|;
      assert ranking == ranking[..n - 1] + [ranking[n - 1]];
      Credit(k, ranking[..n - 1], chunk) + if ranking[n - 1] == chunk then Weight(k, n) else 0.0
  }

  function TotalCredit(k: nat, rankings: seq<seq<string>>, chunk: string): real {
    if rankings == [] then 0.0
    else TotalCredit(k, rankings[..|rankings| - 1], chunk) + Credit(k, rankings[|rankings| - 1], chunk)
  }

  predicate Mentioned(rankings: seq<seq<string>>, chunk: string) {
    exists i :: 0 <= i < |rankings| && chunk in rankings[i]
  }

  lemma PutEarns(d: seq<Item<real>>, key: string, x: real)
    ensures var d' := Put(d, key, Score(d, key) + x);
      && (Unique(d) ==> Unique(d'))
      && (forall c :: Get(d', c).Some? <==> Get(d, c).Some? || c == key)
      && (forall c :: Score(d', c) == Score(d, c) + if c == key then x else 0.0)
  {
    PutEffect(d, key, Score(d, key) + x);
  }

  lemma {:induction false} AccumulateUnique(k: nat, totals: seq<Item<real>>, ranking: seq<string>)
    requires Unique(totals)
    ensures Unique(Accumulate(k, totals, ranking))
  {
    if ranking != [] {
      var n := |ranking|;
      AccumulateUnique(k, totals, ranking[..n - 1]);
      PutEarns(Accumulate(k, totals, ranking[..n - 1]), ranking[n - 1], Weight(k, n));
    }
  }

  lemma {:induction false} AccumulateOne(k: nat, totals: seq<Item<real>>, ranking: seq<string>, c: string)
    ensures var sums := Accumulate(k, totals, ranking);
      && (Get(sums, c).Some? <==> Get(totals, c).Some? || c in ranking)
      && Score(sums, c) == Score(totals, c) + Credit(k, ranking, c)
  {
    if ranking != [] {
      var n := |ranking|;
      AccumulateOne(k, totals, ranking[..n - 1], c);
      PutEarns(Accumulate(k, totals, ranking[..n - 1]), ranking[n - 1], Weight(k, n));
      assert ranking == ranking[..n - 1] + [ranking[n - 1]];
    }
  }

  lemma AccumulateEffect(k: nat, totals: seq<Item<real>>, ranking: seq<string>)
    requires Unique(totals)
    ensures var sums := Accumulate(k, totals, ranking);
      && Unique(sums)
      && (forall c :: Get(sums, c).Some? <==> Get(totals, c).Some? || c in ranking)
      && (forall c :: Score(sums, c) == Score(totals, c) + Credit(k, ranking, c))
  {
    AccumulateUnique(k, totals, ranking);
    var sums := Accumulate(k, totals, ranking);
    forall c
      ensures Get(sums, c).Some? <==> Get(totals, c).Some? || c in ranking
      ensures Score(sums, c) == Score(totals, c) + Credit(k, ranking, c)
    {
      AccumulateOne(k, totals, ranking, c);
    }
  }

  lemma {:induction false} TotalsEffect(k: nat, rankings: seq<seq<string>>)
    ensures var totals := Totals(k, rankings);
      && Unique(totals)
      && (forall c :: Get(totals, c).Some? <==> Mentioned(rankings, c))
      && (forall c :: Score(totals, c) == TotalCredit(k, rankings, c))
  {
    if rankings != [] {
      var n := |rankings|;
      TotalsEffect(k, rankings[..n - 1]);
      AccumulateEffect(k, Totals(k, rankings[..n - 1]), rankings[n - 1]);
      forall c ensures Mentioned(rankings, c) <==> Mentioned(rankings[..n - 1], c) || c in rankings[n - 1] {
        if Mentioned(rankings[..n - 1], c) {
          var i :| 0 <= i < n - 1 && c in rankings[..n - 1][i];
          assert c in rankings[i];
        }
        if i :| 0 <= i < n && c in rankings[i] {
          assert i < n - 1 ==> c in rankings[..n - 1][i];
        }
      }
    }
  }

  // The fused list holds exactly the chunks some ranking mentions, once each, with their whole
  // credit, in strictly descending order of score with ties by id.
  lemma {:induction false} FusedIsTheRanking(k: nat, rankings: seq<seq<string>>)
    ensures Ascending(Before, Fused(k, rankings))
    ensures forall e ::
      e in Fused(k, rankings) <==> Mentioned(rankings, e.key) && e.value == TotalCredit(k, rankings, e.key)
    ensures forall i, j :: 0 <= i < j < |Fused(k, rankings)| ==> Fused(k, rankings)[i].key != Fused(k, rankings)[j].key
  {
    var totals, fused := Totals(k, rankings), Fused(k, rankings);
    TotalsEffect(k, rankings);
    UniqueItems(totals);
    BeforeIsStrictTotal();
    SortedAscending(Before, totals);
    SortedMembers(Before, totals);
    forall e ensures e in fused <==> Mentioned(rankings, e.key) && e.value == TotalCredit(k, rankings, e.key) {
      assert e in fused <==> Get(totals, e.key) == Some(e.value);
    }
    forall i, j | 0 <= i < j < |fused| ensures fused[i].key != fused[j].key {
      assert fused[i] in fused && fused[j] in fused;
      assert Before(fused[i], fused[j]);
    }
  }

  lemma {:induction false} FlatMembers(rankings: seq<seq<Candidate>>, chunk: string)
    requires Mentioned(AllChunks(rankings), chunk)
    ensures exists c :: c in Flat(rankings) && c.chunk == chunk
  {
    var n := |rankings|;
    var all := AllChunks(rankings);
    var i :| 0 <= i < n && chunk in all[i];
    if i == n - 1 {
      var j :| 0 <= j < |all[i]| && all[i][j] == chunk;
      assert rankings[i][j] in Flat(rankings);
    } else {
      assert AllChunks(rankings[..n - 1])[i] == all[i];
      FlatMembers(rankings[..n - 1], chunk);
    }
  }

  lemma FusedChunksAreSeen(k: nat, rankings: seq<seq<Candidate>>, e: Item<real>)
    requires e in Fused(k, AllChunks(rankings))
    ensures e.key in Documents(Flat(rankings)) && e.key in Tactics(Flat(rankings))
  {
    FusedIsTheRanking(k, AllChunks(rankings));
    FlatMembers(rankings, e.key);
    DocumentsKeepTheLast(Flat(rankings), e.key);
    TacticsCollectAll(Flat(rankings), e.key);
  }

  // ---------------------------------------------------------------- conservation

  function Sum(d: seq<Item<real>>): real {
    if d == [] then 0.0 else d[0].value + Sum(d[1..])
  }

  // 1/(k+1) + ... + 1/(k+n)
  function WeightSum(k: nat, n: nat): real {
    if n == 0 then 0.0 else WeightSum(k, n - 1) + Weight(k, n)
  }

  function AllWeights(k: nat, rankings: seq<seq<string>>): real {
    if rankings == [] then 0.0
    else AllWeights(k, rankings[..|rankings| - 1]) + WeightSum(k, |rankings[|rankings| - 1]|)
  }

  lemma {:induction false} PutSum(d: seq<Item<real>>, key: string, value: real)
    ensures Sum(Put(d, key, value)) == Sum(d) - Score(d, key) + value
  {
    if d != [] && d[0].key != key {
      PutSum(d[1..], key, value);
    }
  }

  lemma {:induction false} AccumulateSum(k: nat, totals: seq<Item<real>>, ranking: seq<string>)
    ensures Sum(Accumulate(k, totals, ranking)) == Sum(totals) + WeightSum(k, |ranking|)
  {
    if ranking != [] {
      var n := |ranking|;
      AccumulateSum(k, totals, ranking[..n - 1]);
      var before := Accumulate(k, totals, ranking[..n - 1]);
      PutSum(before, ranking[n - 1], Score(before, ranking[n - 1]) + Weight(k, n));
    }
  }

  lemma {:induction false} InsertSum(x: Item<real>, s: seq<Item<real>>)
    ensures Sum(Insert(Before, x, s)) == x.value + Sum(s)
  {
    if s != [] && !Before(x, s[0]) {
      InsertSum(x, s[1..]);
    }
  }

  lemma {:induction false} SortedSum(s: seq<Item<real>>)
    ensures Sum(Sorted(Before, s)) == Sum(s)
  {
    if s != [] {
      SortedSum(s[1..]);
      InsertSum(s[0], Sorted(Before, s[1..]));
    }
  }

  // Every position of every ranking pays 1/(k+r) to exactly one fused entry.
  lemma {:induction false} ScoresAreConserved(k: nat, rankings: seq<seq<string>>)
    ensures Sum(Fused(k, rankings)) == AllWeights(k, rankings)
    ensures Sum(Totals(k, rankings)) == AllWeights(k, rankings)
  {
    SortedSum(Totals(k, rankings));
    if rankings != [] {
      var n := |rankings|;
      ScoresAreConserved(k, rankings[..n - 1]);
      AccumulateSum(k, Totals(k, rankings[..n - 1]), rankings[n - 1]);
    }
  }

  // ---------------------------------------------------------------- dominance

  ghost predicate Above(ranking: seq<string>, a: string, b: string) {
    exists i, j :: 0 <= i < j < |ranking| && ranking[i] == a && ranking[j] == b
  }

  ghost predicate Precedes(fused: seq<Item<real>>, a: string, b: string) {
    exists i, j :: 0 <= i < j < |fused| && fused[i].key == a && fused[j].key == b
  }

  lemma WeightDecreases(k: nat, low: nat, high: nat)
    requires 0 < low < high
    ensures Weight(k, low) > Weight(k, high)
  {
    var x, y := (k + low) as real, (k + high) as real;
    assert 1.0 / x - 1.0 / y == (y - x) / (x * y);
    assert x * y > 0.0;
  }

  lemma HigherScorePrecedes(k: nat, rankings: seq<seq<string>>, a: string, b: string)
    requires Mentioned(rankings, a) && Mentioned(rankings, b)
    requires TotalCredit(k, rankings, a) > TotalCredit(k, rankings, b)
    ensures Precedes(Fused(k, rankings), a, b)
    ensures !Precedes(Fused(k, rankings), b, a)
  {
    var fused := Fused(k, rankings);
    FusedIsTheRanking(k, rankings);
    var x, y := Item(a, TotalCredit(k, rankings, a)), Item(b, TotalCredit(k, rankings, b));
    assert x in fused && y in fused;
    var i :| 0 <= i < |fused| && fused[i] == x;
    var j :| 0 <= j < |fused| && fused[j] == y;
  }

  predicate AtMostOnce(ranking: seq<string>, chunk: string) {
    forall i, j :: 0 <= i < j < |ranking| ==> !(ranking[i] == chunk && ranking[j] == chunk)
  }

  lemma {:induction false} CreditAtLeast(k: nat, ranking: seq<string>, i: nat)
    requires i < |ranking|
    ensures Credit(k, ranking, ranking[i]) >= Weight(k, i + 1)
  {
    var n := |ranking|;
    if i < n - 1 {
      CreditAtLeast(k, ranking[..n - 1], i);
    }
  }

  lemma {:induction false} CreditOnce(k: nat, ranking: seq<string>, i: nat)
    requires i < |ranking| && AtMostOnce(ranking, ranking[i])
    ensures Credit(k, ranking, ranking[i]) == Weight(k, i + 1)
  {
    var n := |ranking|;
    if i < n - 1 {
      CreditOnce(k, ranking[..n - 1], i);
    } else {
      assert ranking[i] !in ranking[..n - 1];
    }
  }

  lemma {:induction false} AboveEarnsMore(k: nat, rankings: seq<seq<string>>, a: string, b: string)
    requires forall i :: 0 <= i < |rankings| ==> AtMostOnce(rankings[i], b)
    requires forall i :: 0 <= i < |rankings| && b in rankings[i] ==> Above(rankings[i], a, b)
    ensures TotalCredit(k, rankings, a) >= TotalCredit(k, rankings, b)
    ensures Mentioned(rankings, b) ==> TotalCredit(k, rankings, a) > TotalCredit(k, rankings, b)
  {
    if rankings != [] {
      var n := |rankings|;
      var init, last := rankings[..n - 1], rankings[n - 1];
      AboveEarnsMore(k, init, a, b);
      if b in last {
        var i, j :| 0 <= i < j < |last| && last[i] == a && last[j] == b;
        CreditAtLeast(k, last, i);
        CreditOnce(k, last, j);
        WeightDecreases(k, i + 1, j + 1);
      } else if m :| 0 <= m < n && b in rankings[m] {
        assert b in init[m];
      }
    }
  }

  // Ranked above another in every list where the other appears means fused above it, as long as no
  // list names the other twice.
  lemma DominanceIsKept(k: nat, rankings: seq<seq<string>>, a: string, b: string)
    requires Mentioned(rankings, b) && forall i :: 0 <= i < |rankings| ==> AtMostOnce(rankings[i], b)
    requires forall i :: 0 <= i < |rankings| && b in rankings[i] ==> Above(rankings[i], a, b)
    ensures Precedes(Fused(k, rankings), a, b) && !Precedes(Fused(k, rankings), b, a)
  {
    AboveEarnsMore(k, rankings, a, b);
    var m :| 0 <= m < |rankings| && b in rankings[m];
    assert a in rankings[m];
    HigherScorePrecedes(k, rankings, a, b);
  }

  // Repetition can break that: listed twice, the lower one earns more.
  lemma RepeatsBreakDominance()
    ensures Above(["a", "b", "b"], "a", "b") && Precedes(Fused(RRF_K, [["a", "b", "b"]]), "b", "a")
  {
    var r := ["a", "b", "b"];
    assert r[0] == "a" && r[1] == "b";
    assert r[..2] == ["a", "b"] && ["a", "b"][..1] == ["a"] && ["a"][..0] == [];
    assert Credit(RRF_K, ["a"], "a") == 1.0 / 61.0 && Credit(RRF_K, ["a"], "b") == 0.0;
    assert Credit(RRF_K, ["a", "b"], "a") == 1.0 / 61.0 && Credit(RRF_K, ["a", "b"], "b") == 1.0 / 62.0;
    assert Credit(RRF_K, r, "a") == 1.0 / 61.0 && Credit(RRF_K, r, "b") == 1.0 / 62.0 + 1.0 / 63.0;
    var one: seq<seq<string>> := [r];
    assert one[..0] == [] && one[0] == r && r[2] == "b";
    HigherScorePrecedes(RRF_K, one, "b", "a");
  }

  // ---------------------------------------------------------------- found by both, found by one

  ghost predicate BothBeatOne(k: nat, limit: nat) {
    forall lexical: seq<string>, semantic: seq<string>, both: string, one: string ::
      Distinct(lexical) && Distinct(semantic) && |lexical| <= limit && |semantic| <= limit
      && both in lexical && both in semantic && (one in lexical) != (one in semantic)
      ==> Precedes(Fused(k, [lexical, semantic]), both, one)
  }

  lemma TwoCredits(k: nat, lexical: seq<string>, semantic: seq<string>, chunk: string)
    ensures TotalCredit(k, [lexical, semantic], chunk) == Credit(k, lexical, chunk) + Credit(k, semantic, chunk)
    ensures Mentioned([lexical, semantic], chunk) <==> chunk in lexical || chunk in semantic
  {
    var two := [lexical, semantic];
    assert two[..1] == [lexical] && [lexical][..0] == [];
    assert two[0] == lexical && two[1] == semantic;
    assert TotalCredit(k, [lexical], chunk) == Credit(k, lexical, chunk);
  }

  lemma CreditAt(k: nat, ranking: seq<string>, i: nat)
    requires Distinct(ranking) && i < |ranking|
    ensures Credit(k, ranking, ranking[i]) == Weight(k, i + 1)
  {
    CreditOnce(k, ranking, i);
  }

  lemma CreditBounds(k: nat, ranking: seq<string>, chunk: string)
    requires Distinct(ranking) && chunk in ranking
    ensures Weight(k, |ranking|) <= Credit(k, ranking, chunk) <= Weight(k, 1)
  {
    var i :| 0 <= i < |ranking| && ranking[i] == chunk;
    CreditAt(k, ranking, i);
    if i > 0 {
      WeightDecreases(k, 1, i + 1);
    }
    if i < |ranking| - 1 {
      WeightDecreases(k, i + 1, |ranking|);
    }
  }

  lemma HalfWeight(k: nat, rank: nat)
    requires 0 < rank
    ensures rank <= k + 1 ==> Weight(k, rank) + Weight(k, rank) > Weight(k, 1)
    ensures rank == k + 2 ==> Weight(k, rank) + Weight(k, rank) == Weight(k, 1)
  {
    var x, y := (k + 1) as real, (k + rank) as real;
    assert x * y > 0.0;
    assert 2.0 / y - 1.0 / x == (2.0 * x - y) / (x * y);
    assert 2.0 / y == 1.0 / y + 1.0 / y;
    if rank <= k + 1 {
      assert 2.0 * x - y > 0.0;
      assert (2.0 * x - y) / (x * y) > 0.0;
    }
  }

  lemma ShortListsFavourBoth(k: nat, lexical: seq<string>, semantic: seq<string>, both: string, one: string)
    requires Distinct(lexical) && Distinct(semantic) && |lexical| <= k + 1 && |semantic| <= k + 1
    requires both in lexical && both in semantic && (one in lexical) != (one in semantic)
    ensures Precedes(Fused(k, [lexical, semantic]), both, one)
  {
    TwoCredits(k, lexical, semantic, both);
    TwoCredits(k, lexical, semantic, one);
    CreditBounds(k, lexical, both);
    CreditBounds(k, semantic, both);
    CreditBounds(k, if one in lexical then lexical else semantic, one);
    HalfWeight(k, |lexical|);
    HalfWeight(k, |semantic|);
    HigherScorePrecedes(k, [lexical, semantic], both, one);
  }

  // n copies of one letter
  function Run(c: char, n: nat): (s: string)
    ensures |s| == n
    ensures forall i :: 0 <= i < n ==> s[i] == c
  {
    seq(n, _ => c)
  }

  lemma {:induction false} PrefixIsLess(c: char, m: nat, n: nat)
    requires m < n
    ensures TextLess(Run(c, m), Run(c, n))
  {
    if m > 0 {
      assert Run(c, m)[1..] == Run(c, m - 1) && Run(c, n)[1..] == Run(c, n - 1);
      PrefixIsLess(c, m - 1, n - 1);
    }
  }

  // c, cc, ccc, ...
  function Ladder(c: char, n: nat): (s: seq<string>)
    ensures |s| == n
    ensures forall i :: 0 <= i < n ==> s[i] == Run(c, i + 1)
  {
    seq(n, i requires 0 <= i < n => Run(c, i + 1))
  }

  lemma LadderRungs(c: char, n: nat, x: string)
    ensures Distinct(Ladder(c, n))
    ensures |x| > n ==> x !in Ladder(c, n)
    ensures x != "" && x[0] != c ==> x !in Ladder(c, n)
  {
    var s := Ladder(c, n);
    forall i | 0 <= i < n ensures |s[i]| == i + 1 && s[i][0] == c {
    }
  }

  lemma DistinctAppend(s: seq<string>, x: string)
    requires Distinct(s) && x !in s
    ensures Distinct(s + [x])
  {
  }

  // Last in both lists of k + 2 against first in one.
  lemma LongLists(k: nat) returns (lexical: seq<string>, semantic: seq<string>, both: string, one: string)
    ensures Distinct(lexical) && Distinct(semantic) && |lexical| == |semantic| == k + 2
    ensures lexical[k + 1] == semantic[k + 1] == both && lexical[0] == one && one !in semantic
    ensures TextLess(one, both)
  {
    both, one := Run('a', k + 2), Run('a', 1);
    lexical, semantic := Ladder('a', k + 1) + [both], Ladder('b', k + 1) + [both];
    LadderRungs('a', k + 1, both);
    LadderRungs('b', k + 1, both);
    LadderRungs('b', k + 1, one);
    DistinctAppend(Ladder('a', k + 1), both);
    DistinctAppend(Ladder('b', k + 1), both);
    assert |one| != |both|;
    PrefixIsLess('a', 1, k + 2);
  }

  // The scores tie and the id decides.
  lemma LongListsCanTie(k: nat)
    ensures exists lexical: seq<string>, semantic: seq<string>, both: string, one: string ::
      && Distinct(lexical) && Distinct(semantic) && |lexical| == k + 2 && |semantic| == k + 2
      && both in lexical && both in semantic && (one in lexical) != (one in semantic)
      && !Precedes(Fused(k, [lexical, semantic]), both, one)
  {
    var lexical, semantic, both, one := LongLists(k);
    LastInBothTies(k, lexical, semantic, both, one);
    TiePrecedes(k, [lexical, semantic], one, both);
  }

  lemma LastInBothTies(k: nat, lexical: seq<string>, semantic: seq<string>, both: string, one: string)
    requires Distinct(lexical) && Distinct(semantic) && |lexical| == |semantic| == k + 2
    requires lexical[k + 1] == semantic[k + 1] == both && lexical[0] == one && one !in semantic
    ensures Mentioned([lexical, semantic], one) && Mentioned([lexical, semantic], both)
    ensures TotalCredit(k, [lexical, semantic], one) == TotalCredit(k, [lexical, semantic], both)
  {
    TwoCredits(k, lexical, semantic, both);
    TwoCredits(k, lexical, semantic, one);
    CreditAt(k, lexical, k + 1);
    CreditAt(k, semantic, k + 1);
    CreditAt(k, lexical, 0);
    HalfWeight(k, k + 2);
  }

  lemma TiePrecedes(k: nat, rankings: seq<seq<string>>, a: string, b: string)
    requires Mentioned(rankings, a) && Mentioned(rankings, b)
    requires TotalCredit(k, rankings, a) == TotalCredit(k, rankings, b) && TextLess(a, b)
    ensures !Precedes(Fused(k, rankings), b, a)
  {
    FusedIsTheRanking(k, rankings);
    var fused := Fused(k, rankings);
    if i, j :| 0 <= i < j < |fused| && fused[i].key == b && fused[j].key == a {
      assert fused[i] in fused && fused[j] in fused;
      assert Before(fused[i], fused[j]);
      TextLessTotal(a, b);
    }
  }

  // The bound is exact: with k = 60, lists of up to 61 (the default candidate limit is 50).
  lemma BothBeatOneExactly(k: nat, limit: nat)
    ensures BothBeatOne(k, limit) <==> limit <= k + 1
  {
    if limit <= k + 1 {
      forall lexical: seq<string>, semantic: seq<string>, both: string, one: string |
        Distinct(lexical) && Distinct(semantic) && |lexical| <= limit && |semantic| <= limit
        && both in lexical && both in semantic && (one in lexical) != (one in semantic)
        ensures Precedes(Fused(k, [lexical, semantic]), both, one)
      {
        ShortListsFavourBoth(k, lexical, semantic, both, one);
      }
    } else {
      LongListsCanTie(k);
    }
  }

  // ---------------------------------------------------------------- the two-list implementation

  datatype Hit = Hit(body: string, score: Option<real>, lexicalRank: Option<nat>, semanticRank: Option<nat>,
                     degraded: bool)

  function RankOrCurrent(rank: Option<nat>, current: Option<nat>): Option<nat> {
    if rank.Some? then rank else current
  }

  function MergeHit(current: Option<Hit>, incoming: Hit): Hit {
    match current
    case None => incoming.(score := None)
    case Some(was) => Hit(incoming.body, None,
                          RankOrCurrent(incoming.lexicalRank, was.lexicalRank),
                          RankOrCurrent(incoming.semanticRank, was.semanticRank),
                          incoming.degraded || was.degraded)
  }

  function RankScore(rank: Option<nat>): real {
    match rank
    case None => 0.0
    case Some(r) => Weight(RRF_K, r)
  }

  function RrfScore(hit: Hit): real {
    RankScore(hit.lexicalRank) + RankScore(hit.semanticRank)
  }

  function Combine(hits: seq<Item<Hit>>): seq<Item<Hit>> {
    if hits == [] then []
    else
      var n := |hits|;
      var before := Combine(hits[..n - 1]);
      Put(before, hits[n - 1].key, MergeHit(Get(before, hits[n - 1].key), hits[n - 1].value))
  }

  function Scores(combined: seq<Item<Hit>>): seq<Item<real>> {
    seq(|combined|, i requires 0 <= i < |combined| => Item(combined[i].key, RrfScore(combined[i].value)))
  }

  // What _fuse ranks, before it cuts the list at the limit.
  function FuseOrder(hits: seq<Item<Hit>>): seq<Item<real>> {
    Sorted(Before, Scores(Combine(hits)))
  }

  lemma {:induction false} CombineUnique(hits: seq<Item<Hit>>)
    ensures Unique(Combine(hits))
  {
    if hits != [] {
      var n := |hits|;
      CombineUnique(hits[..n - 1]);
      var before := Combine(hits[..n - 1]);
      PutEffect(before, hits[n - 1].key, MergeHit(Get(before, hits[n - 1].key), hits[n - 1].value));
    }
  }

  lemma ScoresMembers(combined: seq<Item<Hit>>)
    requires Unique(combined)
    ensures Distinct(Scores(combined))
    ensures forall e :: e in Scores(combined) <==>
      Get(combined, e.key).Some? && e.value == RrfScore(Get(combined, e.key).value)
  {
    UniqueItems(combined);
    var scores := Scores(combined);
    forall e ensures e in scores <==> Get(combined, e.key).Some? && e.value == RrfScore(Get(combined, e.key).value) {
      if e in scores {
        var i :| 0 <= i < |scores| && scores[i] == e;
        assert combined[i] in combined;
      }
      if Get(combined, e.key).Some? && e.value == RrfScore(Get(combined, e.key).value) {
        var it := Item(e.key, Get(combined, e.key).value);
        assert it in combined;
        var i :| 0 <= i < |combined| && combined[i] == it;
        assert scores[i] == e;
      }
    }
  }

  method Fuse(lexical: seq<Item<Hit>>, semantic: seq<Item<Hit>>, limit: nat) returns (fused: seq<Item<Hit>>)
    ensures |fused| == if limit <= |FuseOrder(lexical + semantic)| then limit else |FuseOrder(lexical + semantic)|
    ensures forall i :: 0 <= i < |fused| ==>
      var order, combined := FuseOrder(lexical + semantic), Combine(lexical + semantic);
      && fused[i].key == order[i].key
      && Get(combined, fused[i].key).Some?
      && fused[i].value == Get(combined, fused[i].key).value.(score := Some(order[i].value))
  {
    var all := lexical + semantic;
    var combined: seq<Item<Hit>> := [];
    for i := 0 to |all|
      invariant combined == Combine(all[..i])
    {
      combined := Put(combined, all[i].key, MergeHit(Get(combined, all[i].key), all[i].value));
      assert all[..i + 1][..i] == all[..i];
    }
    assert all[..|all|] == all;
    RankedAreCombined(all);
    fused := TopHits(Sorted(Before, Scores(combined)), combined, limit);
  }

  lemma RankedAreCombined(hits: seq<Item<Hit>>)
    ensures forall e :: e in FuseOrder(hits) ==> Get(Combine(hits), e.key).Some?
  {
    CombineUnique(hits);
    ScoresMembers(Combine(hits));
    SortedMembers(Before, Scores(Combine(hits)));
  }

  method TopHits(ranked: seq<Item<real>>, combined: seq<Item<Hit>>, limit: nat) returns (fused: seq<Item<Hit>>)
    requires forall e :: e in ranked ==> Get(combined, e.key).Some?
    ensures |fused| == if limit <= |ranked| then limit else |ranked|
    ensures forall i :: 0 <= i < |fused| ==>
      && fused[i].key == ranked[i].key && Get(combined, fused[i].key).Some?
      && fused[i].value == Get(combined, fused[i].key).value.(score := Some(ranked[i].value))
  {
    var top := if limit <= |ranked| then limit else |ranked|;
    fused := [];
    for i := 0 to top
      invariant |fused| == i
      invariant forall j :: 0 <= j < i ==>
        && fused[j].key == ranked[j].key && Get(combined, fused[j].key).Some?
        && fused[j].value == Get(combined, fused[j].key).value.(score := Some(ranked[j].value))
    {
      assert ranked[i] in ranked;
      fused := fused + [Item(ranked[i].key, Get(combined, ranked[i].key).value.(score := Some(ranked[i].value)))];
    }
  }

  // ---------------------------------------------------------------- the two implementations compared

  // The hits of one search, numbered from 1.
  predicate RankedLexical(hits: seq<Item<Hit>>) {
    forall i :: 0 <= i < |hits| ==> hits[i].value.lexicalRank == Some(i + 1) && hits[i].value.semanticRank == None
  }

  predicate RankedSemantic(hits: seq<Item<Hit>>) {
    forall i :: 0 <= i < |hits| ==> hits[i].value.semanticRank == Some(i + 1) && hits[i].value.lexicalRank == None
  }

  function Keys(hits: seq<Item<Hit>>): (keys: seq<string>)
    ensures |keys| == |hits|
    ensures forall i :: 0 <= i < |keys| ==> keys[i] == hits[i].key
  {
    seq(|hits|, i requires 0 <= i < |hits| => hits[i].key)
  }

  function LastRank(ranking: seq<string>, chunk: string): Option<nat> {
    if ranking == [] then None
    else if ranking[|ranking| - 1] == chunk then Some(|ranking|)
    else LastRank(ranking[..|ranking| - 1], chunk)
  }

  lemma {:induction false} LexicalRanks(hits: seq<Item<Hit>>)
    requires RankedLexical(hits)
    ensures forall c ::
      match Get(Combine(hits), c)
      case None => LastRank(Keys(hits), c) == None
      case Some(hit) => hit.lexicalRank == LastRank(Keys(hits), c) && hit.lexicalRank.Some? && hit.semanticRank == None
  {
    if hits != [] {
      var n := |hits|;
      LexicalRanks(hits[..n - 1]);
      assert Keys(hits)[..n - 1] == Keys(hits[..n - 1]);
      var before := Combine(hits[..n - 1]);
      PutEffect(before, hits[n - 1].key, MergeHit(Get(before, hits[n - 1].key), hits[n - 1].value));
    }
  }

  // A merged hit holds the chunk's last rank in each list.
  predicate RanksMerged(hit: Option<Hit>, lexical: Option<nat>, semantic: Option<nat>) {
    match hit
    case None => lexical == None && semantic == None
    case Some(h) => h.lexicalRank == lexical && h.semanticRank == semantic && (lexical.Some? || semantic.Some?)
  }

  lemma CombineSnoc(hits: seq<Item<Hit>>, last: Item<Hit>, c: string)
    ensures Get(Combine(hits + [last]), c)
         == if c == last.key then Some(MergeHit(Get(Combine(hits), c), last.value)) else Get(Combine(hits), c)
  {
    assert (hits + [last])[..|hits|] == hits;
    PutEffect(Combine(hits), last.key, MergeHit(Get(Combine(hits), last.key), last.value));
  }

  lemma LastRankSnoc(hits: seq<Item<Hit>>, last: Item<Hit>, c: string)
    ensures LastRank(Keys(hits + [last]), c) == if c == last.key then Some(|hits| + 1) else LastRank(Keys(hits), c)
  {
    assert Keys(hits + [last])[..|hits|] == Keys(hits);
  }

  lemma {:induction false} BothRanks(lexical: seq<Item<Hit>>, semantic: seq<Item<Hit>>, c: string)
    requires RankedLexical(lexical) && RankedSemantic(semantic)
    ensures RanksMerged(Get(Combine(lexical + semantic), c), LastRank(Keys(lexical), c), LastRank(Keys(semantic), c))
    decreases |semantic|
  {
    if semantic == [] {
      assert lexical + semantic == lexical;
      LexicalRanks(lexical);
    } else {
      var init, last := semantic[..|semantic| - 1], semantic[|semantic| - 1];
      BothRanks(lexical, init, c);
      assert semantic == init + [last] && lexical + semantic == lexical + init + [last];
      CombineSnoc(lexical + init, last, c);
      LastRankSnoc(init, last, c);
    }
  }

  lemma {:induction false} LastRankCredit(ranking: seq<string>, chunk: string)
    ensures LastRank(ranking, chunk).Some? <==> chunk in ranking
    ensures RankScore(LastRank(ranking, chunk)) <= Credit(RRF_K, ranking, chunk)
    ensures Distinct(ranking) ==> RankScore(LastRank(ranking, chunk)) == Credit(RRF_K, ranking, chunk)
  {
    if ranking != [] {
      var n := |ranking|;
      LastRankCredit(ranking[..n - 1], chunk);
      assert ranking == ranking[..n - 1] + [ranking[n - 1]];
      if Distinct(ranking) && ranking[n - 1] == chunk {
        assert chunk !in ranking[..n - 1];
      }
    }
  }

  // A chunk listed twice earns more than its last position.
  lemma {:induction false} RepeatEarnsMore(ranking: seq<string>, i: nat, j: nat)
    requires i < j < |ranking| && ranking[i] == ranking[j]
    ensures RankScore(LastRank(ranking, ranking[j])) < Credit(RRF_K, ranking, ranking[j])
  {
    var n := |ranking|;
    if ranking[n - 1] == ranking[j] {
      assert ranking[..n - 1][i] == ranking[j];
    } else {
      RepeatEarnsMore(ranking[..n - 1], i, j);
    }
  }

  lemma FuseOrderMembers(lexical: seq<Item<Hit>>, semantic: seq<Item<Hit>>)
    requires RankedLexical(lexical) && RankedSemantic(semantic)
    ensures Ascending(Before, FuseOrder(lexical + semantic))
    ensures forall e :: e in FuseOrder(lexical + semantic) <==>
      && (e.key in Keys(lexical) || e.key in Keys(semantic))
      && e.value == RankScore(LastRank(Keys(lexical), e.key)) + RankScore(LastRank(Keys(semantic), e.key))
  {
    var combined := Combine(lexical + semantic);
    CombineUnique(lexical + semantic);
    ScoresMembers(combined);
    SortedMembers(Before, Scores(combined));
    BeforeIsStrictTotal();
    SortedAscending(Before, Scores(combined));
    forall e ensures e in FuseOrder(lexical + semantic) <==>
      && (e.key in Keys(lexical) || e.key in Keys(semantic))
      && e.value == RankScore(LastRank(Keys(lexical), e.key)) + RankScore(LastRank(Keys(semantic), e.key))
    {
      BothRanks(lexical, semantic, e.key);
      LastRankCredit(Keys(lexical), e.key);
      LastRankCredit(Keys(semantic), e.key);
      assert e in FuseOrder(lexical + semantic) <==> e in Scores(combined);
    }
  }

  // The two fusions give the same list exactly when neither ranking repeats a chunk; so on such
  // rankings the limited one is the first entries of the other.
  lemma FusionsAgreeExactly(lexical: seq<Item<Hit>>, semantic: seq<Item<Hit>>)
    requires RankedLexical(lexical) && RankedSemantic(semantic)
    ensures FuseOrder(lexical + semantic) == Fused(RRF_K, [Keys(lexical), Keys(semantic)])
       <==> Distinct(Keys(lexical)) && Distinct(Keys(semantic))
  {
    var lex, sem := Keys(lexical), Keys(semantic);
    var left, right := FuseOrder(lexical + semantic), Fused(RRF_K, [lex, sem]);
    FuseOrderMembers(lexical, semantic);
    FusedIsTheRanking(RRF_K, [lex, sem]);
    if Distinct(lex) && Distinct(sem) {
      forall e ensures e in left <==> e in right {
        TwoCredits(RRF_K, lex, sem, e.key);
        LastRankCredit(lex, e.key);
        LastRankCredit(sem, e.key);
      }
      BeforeIsStrictTotal();
      AscendingUnique(Before, left, right);
    } else {
      var twice := if Distinct(lex) then sem else lex;
      var i, j :| 0 <= i < j < |twice| && twice[i] == twice[j];
      var c := twice[j];
      RepeatEarnsMore(twice, i, j);
      LastRankCredit(lex, c);
      LastRankCredit(sem, c);
      TwoCredits(RRF_K, lex, sem, c);
      var e := Item(c, TotalCredit(RRF_K, [lex, sem], c));
      assert e in right && e !in left;
    }
  }

  // A repeat does make them differ.
  lemma FusionsCanDiffer()
    ensures
      var a, b := Hit("x", None, Some(1), None, false), Hit("x", None, Some(2), None, false);
      var lexical := [Item("c", a), Item("c", b)];
      RankedLexical(lexical) && FuseOrder(lexical + []) != Fused(RRF_K, [Keys(lexical), Keys([])])
  {
    var a, b := Hit("x", None, Some(1), None, false), Hit("x", None, Some(2), None, false);
    var lexical := [Item("c", a), Item("c", b)];
    assert Keys(lexical)[0] == Keys(lexical)[1];
    FusionsAgreeExactly(lexical, []);
  }

  // ---------------------------------------------------------------- what a merged hit carries

  predicate LastHit(hits: seq<Item<Hit>>, chunk: string, i: int) {
    0 <= i < |hits| && hits[i].key == chunk && forall j :: i < j < |hits| ==> hits[j].key != chunk
  }

  predicate DegradedHit(hits: seq<Item<Hit>>, chunk: string, i: int) {
    0 <= i < |hits| && hits[i].key == chunk && hits[i].value.degraded
  }

  // The document of a merged hit is that of the chunk's last hit, and it is degraded exactly when one
  // of the chunk's hits is.
  ghost predicate MergedSays(hits: seq<Item<Hit>>, chunk: string, merged: Option<Hit>) {
    match merged
    case None => forall i :: 0 <= i < |hits| ==> hits[i].key != chunk
    case Some(h) =>
      && h.score == None
      && (exists i :: LastHit(hits, chunk, i) && hits[i].value.body == h.body)
      && (h.degraded <==> exists i :: DegradedHit(hits, chunk, i))
  }

  lemma MergedSnoc(init: seq<Item<Hit>>, last: Item<Hit>, chunk: string, before: Option<Hit>)
    requires MergedSays(init, chunk, before)
    ensures MergedSays(init + [last], chunk, if chunk == last.key then Some(MergeHit(before, last.value)) else before)
  {
    var all, n := init + [last], |init|;
    if chunk == last.key {
      assert LastHit(all, chunk, n);
      if i :| DegradedHit(init, chunk, i) {
        assert DegradedHit(all, chunk, i);
      }
      if last.value.degraded {
        assert DegradedHit(all, chunk, n);
      }
      if i :| DegradedHit(all, chunk, i) {
        assert i < n ==> DegradedHit(init, chunk, i);
      }
    } else if before.Some? {
      var i :| LastHit(init, chunk, i) && init[i].value.body == before.value.body;
      assert LastHit(all, chunk, i);
      if j :| DegradedHit(init, chunk, j) {
        assert DegradedHit(all, chunk, j);
      }
      if j :| DegradedHit(all, chunk, j) {
        assert DegradedHit(init, chunk, j);
      }
    }
  }

  lemma {:induction false} MergedHits(hits: seq<Item<Hit>>, chunk: string)
    ensures MergedSays(hits, chunk, Get(Combine(hits), chunk))
  {
    if hits != [] {
      var init, last := hits[..|hits| - 1], hits[|hits| - 1];
      assert init + [last] == hits;
      MergedHits(init, chunk);
      CombineSnoc(init, last, chunk);
      MergedSnoc(init, last, chunk, Get(Combine(init), chunk));
    }
  }

  // ---------------------------------------------------------------- the service's own bound

  // With the service's constant the bound is 61: on two duplicate-free searches no longer than that,
  // a chunk both found precedes every chunk only one found, and 62 is already too long.
  lemma ServiceFusionFavoursBoth(lexical: seq<Item<Hit>>, semantic: seq<Item<Hit>>, both: string, one: string)
    requires RankedLexical(lexical) && RankedSemantic(semantic)
    requires Distinct(Keys(lexical)) && Distinct(Keys(semantic)) && |lexical| <= 61 && |semantic| <= 61
    requires both in Keys(lexical) && both in Keys(semantic) && (one in Keys(lexical)) != (one in Keys(semantic))
    ensures Precedes(FuseOrder(lexical + semantic), both, one)
  {
    FusionsAgreeExactly(lexical, semantic);
    ShortListsFavourBoth(RRF_K, Keys(lexical), Keys(semantic), both, one);
  }

  lemma ServiceBoundExactly(limit: nat)
    ensures BothBeatOne(RRF_K, limit) <==> limit <= 61
  {
    BothBeatOneExactly(RRF_K, limit);
  }
}
