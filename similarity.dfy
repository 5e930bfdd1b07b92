/**
 * Disease-level similarity: how much of each disease's table weight a selection of
 * symptoms covers, measured against the fixed denominators.
 */
module Similarity {
  import opened JsSet
  import opened JsObject
  import opened DomainTable

  /** One comparison: the weight matched, the total it is measured against, and their ratio. */
  datatype Sim = Sim(matched: int, total: int, ratio: real)

  /** The per-disease result `{ P1: …, P2: …, P3: … }`. */
  datatype DiseaseSims = DiseaseSims(p1: Sim, p2: Sim, p3: Sim) {
    function Of(d: Disease): Sim {
      match d
      case P1 => p1
      case P2 => p2
      case P3 => p3
    }
  }

  /** `total === 0 ? 0 : matched / total`, as an exact quotient. */
  function Ratio(matched: int, total: int): real {
    if total == 0 then 0.0 else matched as real / total as real
  }

  /** A matched weight between 0 and a positive total gives a ratio between 0 and 1. */
  lemma RatioBounded(matched: int, total: int)
    requires 0 <= matched <= total && total > 0
    ensures 0.0 <= Ratio(matched, total) <= 1.0
    ensures Ratio(matched, total) == 1.0 <==> matched == total
  {
    var m, t := matched as real, total as real;
    var r := Ratio(matched, total);
    assert r == m / t;
    assert r * t == m;
    ScaleByPositive(r, t);
  }

  /** Multiplying by a positive number keeps the sign and the side of 1. */
  lemma ScaleByPositive(r: real, t: real)
    requires t > 0.0
    ensures r < 0.0 ==> r * t < 0.0
    ensures r > 1.0 ==> r * t > t
    ensures r < 1.0 ==> r * t < t
  {
  }

  /** The numerator for disease `d`: the table weights of the selected codes, unknown codes adding 0. */
  function Matched(sel: seq<string>, d: Disease): int {
    if sel == [] then 0
    else Matched(sel[..|sel| - 1], d) + TableWeight(sel[|sel| - 1], d)
  }

  /** Selecting one more code adds its table weight to every numerator. */
  lemma MatchedSnoc(sel: seq<string>, g: string)
    ensures forall d: Disease :: Matched(sel + [g], d) == Matched(sel, d) + TableWeight(g, d)
  {
    assert (sel + [g])[..|sel|] == sel;
  }

  function DiseaseSim(sel: seq<string>, d: Disease): Sim {
    var m := Matched(sel, d);
    Sim(m, Denom(d), Ratio(m, Denom(d)))
  }

  /** `computeSimilarityPerDisease(selected)`. */
  function SimilarityPerDisease(sel: seq<string>): DiseaseSims {
    DiseaseSims(DiseaseSim(sel, P1), DiseaseSim(sel, P2), DiseaseSim(sel, P3))
  }

  /**
   * `computeSimilarityPerDisease(selected)` as the source runs it: one pass over the
   * selection accumulating the three numerators, skipping codes `getSymptom` does not
   * know, then dividing each by its fixed denominator.
   */
  method ComputeSimilarityPerDisease(sel: seq<string>) returns (sim: DiseaseSims)
    ensures sim == SimilarityPerDisease(sel)
  {
    var n1, n2, n3 := 0, 0, 0;
    for i := 0 to |sel|
      invariant n1 == Matched(sel[..i], P1)
      invariant n2 == Matched(sel[..i], P2)
      invariant n3 == Matched(sel[..i], P3)
    {
      assert sel[..i + 1] == sel[..i] + [sel[i]];
      MatchedSnoc(sel[..i], sel[i]);
      var s := GetSymptom(sel[i]);
      if s.None? {
        assert TableWeight(sel[i], P1) == 0 && TableWeight(sel[i], P2) == 0 && TableWeight(sel[i], P3) == 0;
        continue;
      }
      assert TableWeight(sel[i], P1) == s.value.w1;
      assert TableWeight(sel[i], P2) == s.value.w2;
      assert TableWeight(sel[i], P3) == s.value.w3;
      n1 := n1 + s.value.w1;
      n2 := n2 + s.value.w2;
      n3 := n3 + s.value.w3;
    }
    assert sel[..|sel|] == sel;
    sim := DiseaseSims(
      Sim(n1, Denom(P1), if Denom(P1) == 0 then 0.0 else n1 as real / Denom(P1) as real),
      Sim(n2, Denom(P2), if Denom(P2) == 0 then 0.0 else n2 as real / Denom(P2) as real),
      Sim(n3, Denom(P3), if Denom(P3) == 0 then 0.0 else n3 as real / Denom(P3) as real));
  }

  lemma {:induction false} MatchedIsLookup(sel: seq<string>, d: Disease)
    ensures Matched(sel, d) == SumLookup(sel, Column(d))
  {
    if sel != [] {
      MatchedIsLookup(sel[..|sel| - 1], d);
      ColumnFacts(d);
    }
  }

  /**
   * For a duplicate-free selection (every `Set`), the numerator of disease `d` is
   * the sum of the table weights of exactly those symptoms that are selected.
   */
  lemma MatchedIsSelectedColumnSum(sel: seq<string>, d: Disease)
    requires NoDup(sel)
    ensures Matched(sel, d) == SumWhere(Column(d), Members(sel))
  {
    MatchedIsLookup(sel, d);
    ColumnFacts(d);
    SumLookupIsSumWhere(sel, Column(d));
  }

  /**
   * Because each denominator is the column sum of the table, a duplicate-free
   * selection never matches more than the denominator: every ratio lies in [0, 1].
   */
  lemma DiseaseRatioBounded(sel: seq<string>, d: Disease)
    requires NoDup(sel)
    ensures 0 <= SimilarityPerDisease(sel).Of(d).matched <= SimilarityPerDisease(sel).Of(d).total
    ensures 0.0 <= SimilarityPerDisease(sel).Of(d).ratio <= 1.0
  {
    MatchedIsSelectedColumnSum(sel, d);
    ColumnFacts(d);
    SumWhereBounded(Column(d), Members(sel));
    RatioBounded(Matched(sel, d), Denom(d));
  }

  /** The bound is reached: selecting every symptom of the table scores 1 for every disease. */
  lemma WholeTableScoresOne(d: Disease)
    ensures SimilarityPerDisease(Keys(Column(P1))).Of(d).ratio == 1.0
  {
    var codes := Keys(Column(P1));
    ColumnFacts(P1);
    ColumnFacts(d);
    ColumnLength(SYMPTOMS, P1);
    ColumnLength(SYMPTOMS, d);
    forall k | k in Keys(Column(d))
      ensures k in Members(codes)
    {
      var i :| 0 <= i < |Column(d)| && Keys(Column(d))[i] == k;
      ColumnOfAt(SYMPTOMS, d, i);
      ColumnOfAt(SYMPTOMS, P1, i);
      assert codes[i] == k;
    }
    MatchedIsSelectedColumnSum(codes, d);
    SumWhereCovering(Column(d), Members(codes));
    RatioBounded(Matched(codes, d), Denom(d));
  }
}
