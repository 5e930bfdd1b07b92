/**
 * Worked examples: the seed records scored against the table, the labels they are
 * shown under, and a selection on which two diseases tie.
 */
module SeedExamples {
  import opened Wrappers
  import opened JsSet
  import opened JsObject
  import opened DomainTable
  import opened Similarity
  import opened CaseRecord
  import opened Ranking
  import opened CaseBase

  /** Positions in the table. */
  predicate InTable(rows: seq<nat>) {
    forall k :: 0 <= k < |rows| ==> rows[k] < |SYMPTOMS|
  }

  /** The codes of the given table rows, in order. */
  function Codes(rows: seq<nat>): (codes: seq<string>)
    requires InTable(rows)
    ensures |codes| == |rows|
  {
    seq(|rows|, k requires 0 <= k < |rows| => SYMPTOMS[rows[k]].code)
  }

  /** The sum of one disease's weights over the given table rows. */
  function RowWeight(rows: seq<nat>, d: Disease): int
    requires InTable(rows)
  {
    if rows == [] then 0 else SYMPTOMS[rows[0]].Weight(d) + RowWeight(rows[1..], d)
  }

  lemma {:induction false} RowWeightSnoc(rows: seq<nat>, i: nat, d: Disease)
    requires InTable(rows) && i < |SYMPTOMS|
    ensures InTable(rows + [i])
    ensures RowWeight(rows + [i], d) == RowWeight(rows, d) + SYMPTOMS[i].Weight(d)
  {
    if rows != [] {
      assert (rows + [i])[1..] == rows[1..] + [i];
      RowWeightSnoc(rows[1..], i, d);
    }
  }

  lemma CodesSnoc(rows: seq<nat>, i: nat)
    requires InTable(rows) && i < |SYMPTOMS|
    ensures InTable(rows + [i])
    ensures Codes(rows + [i]) == Codes(rows) + [SYMPTOMS[i].code]
  {
  }

  /** Selecting the codes of some table rows scores, for each disease, the sum of those rows' weights. */
  lemma {:induction false} MatchedOfRows(rows: seq<nat>, d: Disease)
    requires InTable(rows)
    ensures Matched(Codes(rows), d) == RowWeight(rows, d)
  {
    if rows != [] {
      var init, i := rows[..|rows| - 1], rows[|rows| - 1];
      assert rows == init + [i];
      MatchedOfRows(init, d);
      CodesSnoc(init, i);
      MatchedSnoc(Codes(init), SYMPTOMS[i].code);
      TableWeightAt(i, d);
      RowWeightSnoc(init, i, d);
    }
  }

  lemma {:induction false} RowWeightAppend(a: seq<nat>, b: seq<nat>, d: Disease)
    requires InTable(a) && InTable(b)
    ensures InTable(a + b)
    ensures RowWeight(a + b, d) == RowWeight(a, d) + RowWeight(b, d)
  {
    if a == [] {
      assert a + b == b;
    } else {
      assert (a + b)[1..] == a[1..] + b;
      RowWeightAppend(a[1..], b, d);
    }
  }

  /** The similarity of a selection made of table rows, disease by disease. */
  lemma RowsSimilarity(rows: seq<nat>)
    requires InTable(rows)
    ensures SimilarityPerDisease(Codes(rows)) == DiseaseSims(
      Sim(RowWeight(rows, P1), Denom(P1), Ratio(RowWeight(rows, P1), Denom(P1))),
      Sim(RowWeight(rows, P2), Denom(P2), Ratio(RowWeight(rows, P2), Denom(P2))),
      Sim(RowWeight(rows, P3), Denom(P3), Ratio(RowWeight(rows, P3), Denom(P3))))
  {
    MatchedOfRows(rows, P1);
    MatchedOfRows(rows, P2);
    MatchedOfRows(rows, P3);
  }

  /** The same, once each disease's row sum is known. */
  lemma RowsSimilarityOf(rows: seq<nat>, m1: int, m2: int, m3: int)
    requires InTable(rows)
    requires RowWeight(rows, P1) == m1 && RowWeight(rows, P2) == m2 && RowWeight(rows, P3) == m3
    ensures SimilarityPerDisease(Codes(rows))
         == DiseaseSims(Sim(m1, 14, Ratio(m1, 14)), Sim(m2, 26, Ratio(m2, 26)), Sim(m3, 20, Ratio(m3, 20)))
  {
    RowsSimilarity(rows);
  }

  lemma SumsOfHalves(a: seq<nat>, b: seq<nat>, x1: int, x2: int, x3: int, y1: int, y2: int, y3: int)
    requires InTable(a) && InTable(b)
    requires RowWeight(a, P1) == x1 && RowWeight(a, P2) == x2 && RowWeight(a, P3) == x3
    requires RowWeight(b, P1) == y1 && RowWeight(b, P2) == y2 && RowWeight(b, P3) == y3
    ensures InTable(a + b)
    ensures RowWeight(a + b, P1) == x1 + y1 && RowWeight(a + b, P2) == x2 + y2 && RowWeight(a + b, P3) == x3 + y3
  {
    RowWeightAppend(a, b, P1);
    RowWeightAppend(a, b, P2);
    RowWeightAppend(a, b, P3);
  }

  /* ---------- CASE-001 ---------- */

  const ROWS_001_FRONT: seq<nat> := [4, 25, 7, 13, 19]
  const ROWS_001_BACK: seq<nat> := [6, 16, 24, 3, 26]
  const ROWS_001: seq<nat> := ROWS_001_FRONT + ROWS_001_BACK

  lemma Rows001()
    ensures InTable(ROWS_001) && CASE_001.symptoms.value == Codes(ROWS_001)
  {
    CodesAreNumbered();
  }

  lemma Rows001Front()
    ensures InTable(ROWS_001_FRONT)
    ensures RowWeight(ROWS_001_FRONT, P1) == 3
    ensures RowWeight(ROWS_001_FRONT, P2) == 6
    ensures RowWeight(ROWS_001_FRONT, P3) == 6
  {
  }

  lemma Rows001Back()
    ensures InTable(ROWS_001_BACK)
    ensures RowWeight(ROWS_001_BACK, P1) == 2
    ensures RowWeight(ROWS_001_BACK, P2) == 2
    ensures RowWeight(ROWS_001_BACK, P3) == 7
  {
  }

  lemma Rows001Similarity()
    ensures InTable(ROWS_001)
    ensures SimilarityPerDisease(Codes(ROWS_001))
         == DiseaseSims(Sim(5, 14, 5.0 / 14.0), Sim(8, 26, 8.0 / 26.0), Sim(13, 20, 13.0 / 20.0))
  {
    Rows001Front();
    Rows001Back();
    SumsOfHalves(ROWS_001_FRONT, ROWS_001_BACK, 3, 6, 6, 2, 2, 7);
    RowsSimilarityOf(ROWS_001, 5, 8, 13);
    assert Ratio(5, 14) == 5.0 / 14.0;
    assert Ratio(8, 26) == 8.0 / 26.0;
    assert Ratio(13, 20) == 13.0 / 20.0;
  }

  /** CASE-001's symptoms score 5/14, 8/26 and 13/20 against the table. */
  lemma Case001Similarity()
    ensures SimilarityPerDisease(CASE_001.symptoms.value)
         == DiseaseSims(Sim(5, 14, 5.0 / 14.0), Sim(8, 26, 8.0 / 26.0), Sim(13, 20, 13.0 / 20.0))
  {
    Rows001();
    Rows001Similarity();
  }

  /** CASE-001's stored snapshot agrees with what the table gives to within 10^-9. */
  lemma Case001Scores()
    ensures var sim := SimilarityPerDisease(CASE_001.symptoms.value);
      && -0.000000001 < CASE_001.scores[0].1 - sim.p1.ratio < 0.000000001
      && -0.000000001 < CASE_001.scores[1].1 - sim.p2.ratio < 0.000000001
      && CASE_001.scores[2].1 == sim.p3.ratio
  {
    Case001Similarity();
  }

  /** With no stored cases, CASE-001's symptoms predict P3, the disease scoring 13/20. */
  lemma Case001PredictsP3()
    ensures Predict(CASE_001.symptoms.value, []).code == Some("P3")
    ensures Predict(CASE_001.symptoms.value, []).ratio == 13.0 / 20.0
  {
    Case001Similarity();
    P3AheadPredicted(CASE_001.symptoms.value);
  }

  /** With no stored cases, a selection scoring P3 strictly above P1 and P2 predicts P3. */
  lemma P3AheadPredicted(sel: seq<string>)
    requires SimilarityPerDisease(sel).p1.ratio < SimilarityPerDisease(sel).p3.ratio
    requires SimilarityPerDisease(sel).p2.ratio < SimilarityPerDisease(sel).p3.ratio
    ensures Predict(sel, []) == LiveCandidate(SimilarityPerDisease(sel), P3)
  {
    var cs := LiveCandidates(SimilarityPerDisease(sel));
    PredictWithoutCases(sel);
    var i := PickIndex(cs);
    assert Outranks(cs[2], cs[0]) && Outranks(cs[2], cs[1]);
    assert !Outranks(cs[2], cs[i]);
  }

  /**
   * Against the seed case base, CASE-001's symptoms match CASE-001 itself at 100%,
   * above every disease and above CASE-002, so that case is predicted, under its
   * stored result P3.
   */
  lemma Case001AgainstSeedsPredictsItself()
    ensures Predict(CASE_001.symptoms.value, PREPOPULATED).srcId == Some("CASE-001")
    ensures Predict(CASE_001.symptoms.value, PREPOPULATED).code == Some("P3")
    ensures Predict(CASE_001.symptoms.value, PREPOPULATED).ratio == 1.0
  {
    Case001BelowOne();
    SeedSelfMatch();
    OtherSeedBelow();
    FirstOfTwoPredicted(CASE_001.symptoms.value, CASE_001, CASE_002);
  }

  lemma Case001BelowOne()
    ensures forall d: Disease :: SimilarityPerDisease(CASE_001.symptoms.value).Of(d).ratio < 1.0
  {
    Case001Similarity();
  }

  /** Of two stored cases, one matched fully above every disease and with more weight than the other is predicted. */
  lemma FirstOfTwoPredicted(sel: seq<string>, a: Case, b: Case)
    requires forall d: Disease :: SimilarityPerDisease(sel).Of(d).ratio < 1.0
    requires CaseSimilarity(sel, a).ratio == 1.0
    requires CaseSimilarity(sel, b).ratio <= 1.0 && CaseSimilarity(sel, b).matched < CaseSimilarity(sel, a).matched
    ensures Predict(sel, [a, b]) == CaseCandidate(sel, a)
  {
    BestCaseIsPredicted(sel, [a, b], 0);
  }

  /** CASE-001 matches its own symptoms fully: all 20 of its weight. */
  lemma SeedSelfMatch()
    ensures CaseSimilarity(CASE_001.symptoms.value, CASE_001).ratio == 1.0
    ensures CaseSimilarity(CASE_001.symptoms.value, CASE_001).matched == 20
  {
    SeedOneNoDup();
    SeedOneDistinct();
    SeedOneKeys();
    SeedOneSum();
    FullMatch(CASE_001.symptoms.value, CASE_001);
  }

  /** CASE-002 matches CASE-001's symptoms with at most its 19 units of weight. */
  lemma OtherSeedBelow()
    ensures CaseSimilarity(CASE_001.symptoms.value, CASE_002).ratio <= 1.0
    ensures CaseSimilarity(CASE_001.symptoms.value, CASE_002).matched <= 19
  {
    SeedOneNoDup();
    SeedTwoDistinct();
    SeedTwoNonNegative();
    SeedTwoSum();
    BoundedMatch(CASE_001.symptoms.value, CASE_002);
  }

  lemma SeedOneNoDup()
    ensures NoDup(CASE_001.symptoms.value)
  {
  }

  lemma SeedOneDistinct()
    ensures DistinctKeys(CASE_001.weights.value)
  {
  }

  lemma SeedOneKeys()
    ensures Keys(CASE_001.weights.value) == CASE_001.symptoms.value
  {
  }

  lemma SeedOneSum()
    ensures Sum(CASE_001.weights.value) == CASE_001.denom == 20
  {
  }

  lemma SeedTwoDistinct()
    ensures DistinctKeys(CASE_002.weights.value)
  {
  }

  lemma SeedTwoNonNegative()
    ensures NonNegative(CASE_002.weights.value)
  {
  }

  lemma SeedTwoSum()
    ensures Sum(CASE_002.weights.value) == CASE_002.denom == 19
  {
  }

  /** A case whose weight keys are the whole selection and whose denominator is their positive sum matches it fully. */
  lemma FullMatch(sel: seq<string>, c: Case)
    requires c.weights.Some? && NoDup(sel) && DistinctKeys(c.weights.value)
    requires Keys(c.weights.value) == sel
    requires c.denom == Sum(c.weights.value) > 0
    ensures CaseSimilarity(sel, c).ratio == 1.0 && CaseSimilarity(sel, c).matched == c.denom
  {
    SelfSimilarity(sel, c);
    CaseMatchedIsSelectedWeightSum(sel, c);
    SumWhereCovering(c.weights.value, Members(sel));
  }

  /** A case with non-negative weights summing to its denominator matches at most that sum. */
  lemma BoundedMatch(sel: seq<string>, c: Case)
    requires c.weights.Some? && NoDup(sel) && DistinctKeys(c.weights.value) && NonNegative(c.weights.value)
    requires c.denom == Sum(c.weights.value)
    ensures CaseSimilarity(sel, c).ratio <= 1.0 && CaseSimilarity(sel, c).matched <= c.denom
  {
    CaseRatioBounded(sel, c);
    CaseMatchedIsSelectedWeightSum(sel, c);
    SumWhereBounded(c.weights.value, Members(sel));
  }

  /* ---------- CASE-002 ---------- */

  const ROWS_002_FRONT: seq<nat> := [4, 5, 6, 13, 16]
  const ROWS_002_BACK: seq<nat> := [17, 19, 22, 24, 26]
  const ROWS_002: seq<nat> := ROWS_002_FRONT + ROWS_002_BACK

  lemma Rows002()
    ensures InTable(ROWS_002) && CASE_002.symptoms.value == Codes(ROWS_002)
  {
    CodesAreNumbered();
  }

  lemma Rows002Front()
    ensures InTable(ROWS_002_FRONT)
    ensures RowWeight(ROWS_002_FRONT, P1) == 3
    ensures RowWeight(ROWS_002_FRONT, P2) == 4
    ensures RowWeight(ROWS_002_FRONT, P3) == 3
  {
  }

  lemma Rows002Back()
    ensures InTable(ROWS_002_BACK)
    ensures RowWeight(ROWS_002_BACK, P1) == 0
    ensures RowWeight(ROWS_002_BACK, P2) == 6
    ensures RowWeight(ROWS_002_BACK, P3) == 8
  {
  }

  lemma Rows002Similarity()
    ensures InTable(ROWS_002)
    ensures SimilarityPerDisease(Codes(ROWS_002))
         == DiseaseSims(Sim(3, 14, 3.0 / 14.0), Sim(10, 26, 10.0 / 26.0), Sim(11, 20, 11.0 / 20.0))
  {
    Rows002Front();
    Rows002Back();
    SumsOfHalves(ROWS_002_FRONT, ROWS_002_BACK, 3, 4, 3, 0, 6, 8);
    RowsSimilarityOf(ROWS_002, 3, 10, 11);
    assert Ratio(3, 14) == 3.0 / 14.0;
    assert Ratio(10, 26) == 10.0 / 26.0;
    assert Ratio(11, 20) == 11.0 / 20.0;
  }

  /** CASE-002's symptoms score 3/14, 10/26 and 11/20 against the table. */
  lemma Case002Similarity()
    ensures SimilarityPerDisease(CASE_002.symptoms.value)
         == DiseaseSims(Sim(3, 14, 3.0 / 14.0), Sim(10, 26, 10.0 / 26.0), Sim(11, 20, 11.0 / 20.0))
  {
    Rows002();
    Rows002Similarity();
  }

  /**
   * CASE-002's stored snapshot agrees with the table for P1 (to within 10^-7) and P3, but
   * its P2 entry is 9/26 rounded, more than 0.03 below the table's 10/26.
   */
  lemma Case002Scores()
    ensures var sim := SimilarityPerDisease(CASE_002.symptoms.value);
      && -0.0000001 < CASE_002.scores[0].1 - sim.p1.ratio < 0.0000001
      && CASE_002.scores[1].1 < sim.p2.ratio - 0.03
      && -0.0000001 < CASE_002.scores[1].1 - 9.0 / 26.0 < 0.0000001
      && CASE_002.scores[2].1 == sim.p3.ratio
  {
    Case002Similarity();
  }

  /* ---------- A tie between P1 and P2 ---------- */

  /** G01, G02, G03, G08, G09 (all P1 weight, 7 in total) and G19 to G22 (all P2 weight, 13 in total). */
  const TIE_FRONT: seq<nat> := [0, 1, 2, 7, 8]
  const TIE_BACK: seq<nat> := [18, 19, 20, 21]
  const TIE_ROWS: seq<nat> := TIE_FRONT + TIE_BACK

  lemma TieFront()
    ensures InTable(TIE_FRONT)
    ensures RowWeight(TIE_FRONT, P1) == 7
    ensures RowWeight(TIE_FRONT, P2) == 0
    ensures RowWeight(TIE_FRONT, P3) == 0
  {
  }

  lemma TieBack()
    ensures InTable(TIE_BACK)
    ensures RowWeight(TIE_BACK, P1) == 0
    ensures RowWeight(TIE_BACK, P2) == 13
    ensures RowWeight(TIE_BACK, P3) == 0
  {
  }

  /** P1 and P2 both score one half: 7 of 14 and 13 of 26. */
  lemma TieSimilarity()
    ensures InTable(TIE_ROWS)
    ensures SimilarityPerDisease(Codes(TIE_ROWS)) == DiseaseSims(Sim(7, 14, 0.5), Sim(13, 26, 0.5), Sim(0, 20, 0.0))
  {
    TieFront();
    TieBack();
    SumsOfHalves(TIE_FRONT, TIE_BACK, 7, 0, 0, 0, 13, 0);
    RowsSimilarityOf(TIE_ROWS, 7, 13, 0);
    assert Ratio(7, 14) == 0.5;
    assert Ratio(13, 26) == 0.5;
  }

  /** On an equal ratio the larger matched weight wins: with no stored cases the prediction is P2. */
  lemma TiePredictsP2()
    ensures InTable(TIE_ROWS)
    ensures Predict(Codes(TIE_ROWS), []) == Candidate(Live, Some("P2"), 0.5, 13, 26, None)
  {
    TieSimilarity();
    PredictWithoutCases(Codes(TIE_ROWS));
    var cs := [Candidate(Live, Some("P1"), 0.5, 7, 14, None),
               Candidate(Live, Some("P2"), 0.5, 13, 26, None),
               Candidate(Live, Some("P3"), 0.0, 0, 20, None)];
    assert LiveCandidates(SimilarityPerDisease(Codes(TIE_ROWS))) == cs;
    assert PickIndex(cs[..2]) == 1;
  }

  /** With no stored cases only the three diseases compete. */
  lemma PredictWithoutCases(sel: seq<string>)
    ensures Predict(sel, []) == LiveCandidates(SimilarityPerDisease(sel))[PickIndex(LiveCandidates(SimilarityPerDisease(sel)))]
  {
    assert Candidates(sel, []) == LiveCandidates(SimilarityPerDisease(sel));
  }

  /**
   * Retaining that selection into an empty case base stores P2 as the record's result,
   * yet the record is shown under P1: its snapshot holds P1 and P2 at one half each, and
   * the label is the first of the highest snapshot entries.
   */
  lemma TieRetainedUnderOtherLabel()
    ensures InTable(TIE_ROWS)
    ensures NewRecord(Codes(TIE_ROWS), []).result == Some("P2")
    ensures AssignedForCase(NewRecord(Codes(TIE_ROWS), [])) == Assigned("P1", 0.5)
  {
    var sel := Codes(TIE_ROWS);
    TieSimilarity();
    TiePredictsP2();
    NewRecordParts(sel, []);
    HalfAndHalfShownAsP1(NewRecord(sel, []));
  }

  /** A snapshot with P1 and P2 both at one half is shown under P1. */
  lemma HalfAndHalfShownAsP1(c: Case)
    requires c.scores == [("P1", 0.5), ("P2", 0.5), ("P3", 0.0)]
    ensures AssignedForCase(c) == Assigned("P1", 0.5)
  {
    assert FirstMaxIndex(c.scores[..2]) == 0;
  }
}
