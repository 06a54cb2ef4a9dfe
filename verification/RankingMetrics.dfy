/** Recall and normalised discounted cumulative gain of one evaluated query. */
module RankingMetrics {
  import opened Prelude

  // Ids as the corpus records them: the expected ones and the returned ones in rank order.
  datatype QueryCase = QueryCase(expected: seq<string>, returned: seq<string>)

  // The two facts about 1/log2(rank + 2) that the metrics rest on.
  ghost predicate IsDiscount(discount: nat -> real) {
    && (forall r: nat :: discount(r) > 0.0)
    && (forall r: nat, s: nat :: r < s ==> discount(r) > discount(s))
  }

  function Min(a: nat, b: nat): nat {
    if a < b then a else b
  }

  function Top(c: QueryCase, k: nat): seq<string> {
    c.returned[..Min(k, |c.returned|)]
  }

  function Gain(discount: nat -> real, expected: seq<string>, ranked: seq<string>): real {
    if ranked == [] then 0.0
    else
      var n := |ranked| - 1;
      Gain(discount, expected, ranked[..n]) + if ranked[n] in expected then discount(n) else 0.0
  }

  function Ideal(discount: nat -> real, n: nat): real {
    if n == 0 then 0.0 else Ideal(discount, n - 1) + discount(n - 1)
  }

  function Dcg(discount: nat -> real, c: QueryCase, k: nat): real {
    Gain(discount, c.expected, Top(c, k))
  }

  function Ndcg(discount: nat -> real, c: QueryCase, k: nat): Result<real> {
    var ideal := Ideal(discount, Min(|c.expected|, k));
    if ideal == 0.0 then Raise(ZeroDivisionError) else Ok(Dcg(discount, c, k) / ideal)
  }

  function Hits(expected: seq<string>, ranked: seq<string>): set<string> {
    set id | id in ranked && id in expected
  }

  function Recall(c: QueryCase, k: nat): Result<real> {
    if c.expected == [] then Raise(ZeroDivisionError)
    else Ok(|Found(c, k)| as real / |c.expected| as real)
  }

  function Found(c: QueryCase, k: nat): set<string> {
    Hits(c.expected, Top(c, k))
  }

  // ---------------------------------------------------------------- rearrangement

  function HitCount(expected: seq<string>, ranked: seq<string>): nat {
    if ranked == [] then 0
    else
      var n := |ranked| - 1;
      HitCount(expected, ranked[..n]) + if ranked[n] in expected then 1 else 0
  }

  // The first n positions exist and are all relevant.
  predicate LeadsWith(expected: seq<string>, ranked: seq<string>, n: nat) {
    n <= |ranked| && forall i :: 0 <= i < n ==> ranked[i] in expected
  }

  lemma {:induction false} HitsAtMostLength(expected: seq<string>, ranked: seq<string>)
    ensures HitCount(expected, ranked) <= |ranked|
  {
    if ranked != [] {
      HitsAtMostLength(expected, ranked[..|ranked| - 1]);
    }
  }

  lemma {:induction false} IdealGrows(discount: nat -> real, m: nat, n: nat)
    requires IsDiscount(discount) && m <= n
    ensures Ideal(discount, m) <= Ideal(discount, n)
    ensures m < n ==> Ideal(discount, m) < Ideal(discount, n)
  {
    if m < n {
      IdealGrows(discount, m, n - 1);
      assert discount(n - 1) > 0.0;
    }
  }

  lemma LeadsSnoc(expected: seq<string>, init: seq<string>, last: string, n: nat)
    requires n <= |init|
    ensures LeadsWith(expected, init + [last], n) <==> LeadsWith(expected, init, n)
  {
    assert forall i :: 0 <= i < |init| ==> (init + [last])[i] == init[i];
  }

  // One more hit leads only if nothing before it missed.
  lemma HitLeads(expected: seq<string>, init: seq<string>, last: string)
    requires last in expected
    ensures var h := HitCount(expected, init);
      LeadsWith(expected, init + [last], h + 1) <==> h == |init| && LeadsWith(expected, init, h)
  {
    var h, all := HitCount(expected, init), init + [last];
    HitsAtMostLength(expected, init);
    LeadsSnoc(expected, init, last, h);
    if LeadsWith(expected, all, h + 1) && h < |init| {
      LeadsSnoc(expected, init, last, h + 1);
      LeadingHits(expected, init, h + 1);
    }
    assert all[|init|] == last;
  }

  // Moving the hits to the front never lowers the gain, and keeps it only when they are there.
  lemma {:induction false} Rearrangement(discount: nat -> real, expected: seq<string>, ranked: seq<string>)
    requires IsDiscount(discount)
    ensures var h := HitCount(expected, ranked);
      && Gain(discount, expected, ranked) <= Ideal(discount, h)
      && (Gain(discount, expected, ranked) == Ideal(discount, h) <==> LeadsWith(expected, ranked, h))
  {
    if ranked != [] {
      var n := |ranked| - 1;
      var init, last := ranked[..n], ranked[n];
      var h := HitCount(expected, init);
      Rearrangement(discount, expected, init);
      HitsAtMostLength(expected, init);
      assert ranked == init + [last];
      if last in expected {
        HitLeads(expected, init, last);
        assert h < n ==> discount(h) > discount(n);
      } else {
        LeadsSnoc(expected, init, last, h);
      }
    }
  }

  lemma {:induction false} LeadingHits(expected: seq<string>, ranked: seq<string>, n: nat)
    requires LeadsWith(expected, ranked, n)
    ensures HitCount(expected, ranked) >= n
  {
    if n > 0 {
      var last := |ranked| - 1;
      if n <= last {
        LeadingHits(expected, ranked[..last], n);
      } else {
        LeadingHits(expected, ranked[..last], n - 1);
      }
    }
  }

  lemma HitsSnoc(expected: seq<string>, init: seq<string>, last: string)
    requires last !in init
    ensures |Hits(expected, init + [last])| == |Hits(expected, init)| + if last in expected then 1 else 0
  {
    var before := Hits(expected, init);
    assert Hits(expected, init + [last]) == if last in expected then before + {last} else before;
  }

  // The hits of a duplicate-free list are distinct expected ids.
  lemma {:induction false} HitsAreDistinct(expected: seq<string>, ranked: seq<string>)
    requires Distinct(ranked)
    ensures HitCount(expected, ranked) == |Hits(expected, ranked)|
  {
    if ranked == [] {
      assert Hits(expected, ranked) == {};
    } else {
      var n := |ranked| - 1;
      HitsAreDistinct(expected, ranked[..n]);
      assert ranked == ranked[..n] + [ranked[n]];
      HitsSnoc(expected, ranked[..n], ranked[n]);
    }
  }

  lemma HitsAtMostExpected(expected: seq<string>, ranked: seq<string>)
    requires Distinct(ranked)
    ensures HitCount(expected, ranked) == |Hits(expected, ranked)| <= |expected|
  {
    HitsAreDistinct(expected, ranked);
    SubsetOfSequence(Hits(expected, ranked), expected);
  }

  lemma {:induction false} SubsetOfSequence(s: set<string>, list: seq<string>)
    requires forall x :: x in s ==> x in list
    ensures |s| <= |list|
    ensures |s| == |list| ==> Distinct(list) && forall x :: x in list ==> x in s
  {
    if list != [] {
      var head, rest := list[0], list[1..];
      assert list == [head] + rest;
      SubsetOfSequence(s - {head}, rest);
      if head in rest {
        assert forall x :: x in s ==> x in rest;
        SubsetOfSequence(s, rest);
      }
    }
  }

  // ---------------------------------------------------------------- the metrics

  // With no more hits than positions of the ideal, counting repetitions, nDCG is at most 1, and 1
  // exactly when the first min(|expected|, k) positions are there and all relevant.
  lemma NdcgWithHits(discount: nat -> real, c: QueryCase, k: nat)
    requires IsDiscount(discount) && HitCount(c.expected, Top(c, k)) <= Min(|c.expected|, k)
    ensures Ndcg(discount, c, k).Raise? <==> c.expected == [] || k == 0
    ensures Ndcg(discount, c, k).Ok? ==> 0.0 <= Ndcg(discount, c, k).value <= 1.0
    ensures Ndcg(discount, c, k).Ok? ==>
      (Ndcg(discount, c, k).value == 1.0 <==> LeadsWith(c.expected, c.returned, Min(|c.expected|, k)))
  {
    var top, m := Top(c, k), Min(|c.expected|, k);
    var h := HitCount(c.expected, top);
    IdealGrows(discount, 0, m);
    if m > 0 {
      Rearrangement(discount, c.expected, top);
      IdealGrows(discount, h, m);
      GainIsNonNegative(discount, c.expected, top);
      var ideal, dcg := Ideal(discount, m), Dcg(discount, c, k);
      assert 0.0 <= dcg <= ideal;
      QuotientAtMostOne(dcg, ideal);
      if LeadsWith(c.expected, c.returned, m) {
        assert LeadsWith(c.expected, top, m);
        LeadingHits(c.expected, top, m);
      }
      if dcg == ideal {
        assert h == m;
        assert LeadsWith(c.expected, top, m);
      }
    }
  }

  // That is the case for every ranking without repeated ids, any k and any expected list.
  lemma NdcgIsNormalised(discount: nat -> real, c: QueryCase, k: nat)
    requires IsDiscount(discount) && Distinct(c.returned)
    ensures Ndcg(discount, c, k).Raise? <==> c.expected == [] || k == 0
    ensures Ndcg(discount, c, k).Ok? ==> 0.0 <= Ndcg(discount, c, k).value <= 1.0
    ensures Ndcg(discount, c, k).Ok? ==>
      (Ndcg(discount, c, k).value == 1.0 <==> LeadsWith(c.expected, c.returned, Min(|c.expected|, k)))
  {
    HitsAtMostLength(c.expected, Top(c, k));
    HitsAtMostExpected(c.expected, Top(c, k));
    NdcgWithHits(discount, c, k);
  }

  // And without such a limit on the hits some discount does take the score above 1: the limit is
  // exactly what the bound needs, if it is to hold for every discount.
  lemma BoundedForEveryDiscountExactly(c: QueryCase, k: nat)
    ensures (forall discount: nat -> real :: IsDiscount(discount) ==>
               Dcg(discount, c, k) <= Ideal(discount, Min(|c.expected|, k)))
       <==> HitCount(c.expected, Top(c, k)) <= Min(|c.expected|, k)
  {
    var top, m := Top(c, k), Min(|c.expected|, k);
    var h := HitCount(c.expected, top);
    if h <= m {
      forall discount: nat -> real | IsDiscount(discount) ensures Dcg(discount, c, k) <= Ideal(discount, m) {
        Rearrangement(discount, c.expected, top);
        IdealGrows(discount, h, m);
      }
    } else {
      var flat := NearlyFlat(m);
      GainAtLeastHits(m, c.expected, top);
      IdealBelowNext(m, m);
      assert IsDiscount(flat) && Dcg(flat, c, k) > Ideal(flat, m);
    }
  }

  // 1 + 1/((m+1)(r+1)): m of them still sum to less than m + 1.
  function NearlyFlat(m: nat): (discount: nat -> real)
    ensures IsDiscount(discount)
    ensures forall r: nat :: 1.0 < discount(r) <= 1.0 + 1.0 / (m + 1) as real
  {
    var discount := (r: nat) => 1.0 + 1.0 / ((m + 1) * (r + 1)) as real;
    assert forall r: nat, s: nat :: r < s ==> discount(r) > discount(s) by {
      forall r: nat, s: nat | r < s ensures discount(r) > discount(s) {
        FractionsFall(m + 1, r + 1, s + 1);
      }
    }
    assert forall r: nat :: 1.0 < discount(r) <= 1.0 + 1.0 / (m + 1) as real by {
      forall r: nat ensures 1.0 < discount(r) <= 1.0 + 1.0 / (m + 1) as real {
        if r > 0 {
          FractionsFall(m + 1, 1, r + 1);
        }
      }
    }
    discount
  }

  lemma FractionsFall(a: nat, x: nat, y: nat)
    requires a > 0 && 0 < x < y
    ensures 0.0 < 1.0 / (a * y) as real < 1.0 / (a * x) as real
  {
    assert 0 < a * x < a * y;
    var p, q := (a * x) as real, (a * y) as real;
    assert p * q > 0.0;
    assert 1.0 / p - 1.0 / q == (q - p) / (p * q);
  }

  lemma {:induction false} GainAtLeastHits(m: nat, expected: seq<string>, ranked: seq<string>)
    ensures Gain(NearlyFlat(m), expected, ranked) >= HitCount(expected, ranked) as real
  {
    if ranked != [] {
      GainAtLeastHits(m, expected, ranked[..|ranked| - 1]);
    }
  }

  lemma QuotientStep(x: real, w: real)
    requires w > 0.0
    ensures x / w + 1.0 / w == (x + 1.0) / w
  {
  }

  lemma QuotientBelowOne(x: real, w: real)
    requires 0.0 <= x < w
    ensures x / w < 1.0
  {
  }

  lemma {:induction false} IdealBelowNext(m: nat, n: nat)
    requires n <= m
    ensures Ideal(NearlyFlat(m), n) <= n as real + n as real / (m + 1) as real
    ensures Ideal(NearlyFlat(m), n) < m as real + 1.0
  {
    var w := (m + 1) as real;
    if n > 0 {
      IdealBelowNext(m, n - 1);
      QuotientStep((n - 1) as real, w);
    }
    QuotientBelowOne(n as real, w);
  }

  lemma QuotientAtMostOne(x: real, y: real)
    requires 0.0 <= x <= y && y > 0.0
    ensures 0.0 <= x / y <= 1.0
    ensures x / y == 1.0 <==> x == y
  {
    assert x / y * y == x;
  }

  lemma {:induction false} NoHitEarnsNothing(discount: nat -> real, expected: seq<string>, ranked: seq<string>)
    requires forall i :: 0 <= i < |ranked| ==> ranked[i] !in expected
    ensures Gain(discount, expected, ranked) == 0.0
  {
    if ranked != [] {
      NoHitEarnsNothing(discount, expected, ranked[..|ranked| - 1]);
    }
  }

  // A single hit earns the discount of its position, wherever it stands.
  lemma {:induction false} OneHitEarnsItsDiscount(
    discount: nat -> real, expected: seq<string>, ranked: seq<string>, i: nat)
    requires i < |ranked| && forall j :: 0 <= j < |ranked| ==> (ranked[j] in expected <==> j == i)
    ensures Gain(discount, expected, ranked) == discount(i)
  {
    var n := |ranked| - 1;
    if i == n {
      NoHitEarnsNothing(discount, expected, ranked[..n]);
    } else {
      OneHitEarnsItsDiscount(discount, expected, ranked[..n], i);
    }
  }

  lemma {:induction false} GainIsNonNegative(discount: nat -> real, expected: seq<string>, ranked: seq<string>)
    requires IsDiscount(discount)
    ensures Gain(discount, expected, ranked) >= 0.0
  {
    if ranked != [] {
      GainIsNonNegative(discount, expected, ranked[..|ranked| - 1]);
      assert discount(|ranked| - 1) > 0.0;
    }
  }

  lemma AboveOne(x: real, y: real)
    requires x > y > 0.0
    ensures x / y > 1.0
  {
    assert x / y * y == x;
  }

  // A repeated id is paid twice: the bound does need distinct ids.
  lemma RepeatedIdsExceedOne(discount: nat -> real)
    requires IsDiscount(discount)
    ensures var c := QueryCase(["a"], ["a", "a"]);
      Ndcg(discount, c, 2).Ok? && Ndcg(discount, c, 2).value > 1.0
  {
    var c := QueryCase(["a"], ["a", "a"]);
    var top := Top(c, 2);
    assert top == ["a", "a"] && top[..1] == ["a"] && ["a"][..0] == [];
    assert Gain(discount, c.expected, ["a"]) == discount(0);
    assert Dcg(discount, c, 2) == discount(0) + discount(1);
    assert Ideal(discount, 1) == discount(0);
    AboveOne(Dcg(discount, c, 2), discount(0));
  }

  // Recall is at most 1, and 1 exactly when the expected ids are distinct and all in the top k.
  lemma RecallIsNormalised(c: QueryCase, k: nat)
    requires c.expected != []
    ensures Recall(c, k).Ok? && 0.0 <= Recall(c, k).value <= 1.0
    ensures Recall(c, k).value == 1.0 <==> Distinct(c.expected) && forall id :: id in c.expected ==> id in Top(c, k)
  {
    var found := Found(c, k);
    SubsetOfSequence(found, c.expected);
    QuotientAtMostOne(|found| as real, |c.expected| as real);
    if Distinct(c.expected) && forall id :: id in c.expected ==> id in Top(c, k) {
      assert forall id :: id in found <==> id in c.expected;
      DistinctCount(found, c.expected);
    }
  }

  // In numbers: recall is the share of the expected list that the distinct expected ids among the
  // first k returned ones make up.
  lemma RecallCounts(c: QueryCase, k: nat)
    requires c.expected != []
    ensures Recall(c, k).Ok?
    ensures var found := set id | id in c.expected && id in c.returned[..if k < |c.returned| then k else |c.returned|];
      Recall(c, k).value * |c.expected| as real == |found| as real
  {
    var found := set id | id in c.expected && id in c.returned[..if k < |c.returned| then k else |c.returned|];
    assert Found(c, k) == found;
  }

  lemma {:induction false} DistinctCount(s: set<string>, list: seq<string>)
    requires Distinct(list) && forall x :: x in s <==> x in list
    ensures |s| == |list|
  {
    if list != [] {
      assert list == [list[0]] + list[1..];
      DistinctCount(s - {list[0]}, list[1..]);
    } else {
      assert s == {};
    }
  }

  // A perfect nDCG at a cutoff that has room for every expected id means full recall there.
  lemma PerfectNdcgHasFullRecall(discount: nat -> real, c: QueryCase, k: nat)
    requires IsDiscount(discount) && Distinct(c.returned) && |c.expected| <= k
    requires Ndcg(discount, c, k) == Ok(1.0)
    ensures Recall(c, k) == Ok(1.0)
  {
    NdcgIsNormalised(discount, c, k);
    RecallIsNormalised(c, k);
    var top := Top(c, k);
    LeadingHits(c.expected, top, |c.expected|);
    HitsAtMostExpected(c.expected, top);
    SubsetOfSequence(Found(c, k), c.expected);
  }
}
