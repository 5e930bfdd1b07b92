/**
 * The ranking policy behind the prediction: one candidate per disease and one per
 * stored case, ordered by ratio, then matched weight, then case before disease, with
 * remaining ties left in enumeration order by the stable sort.
 */
module Ranking {
  import opened Wrappers
  import opened DomainTable
  import opened Similarity
  import opened CaseRecord

  /** `type: "live"` (a disease of the table) or `type: "case"` (a stored case). */
  datatype Kind = Live | FromCase

  datatype Candidate = Candidate(kind: Kind, code: Option<string>, ratio: real, matched: int, total: int, srcId: Option<string>)

  /** The sort comparator returns a negative number: `a` is placed before `b`. */
  predicate Outranks(a: Candidate, b: Candidate) {
    || a.ratio > b.ratio
    || (a.ratio == b.ratio && a.matched > b.matched)
    || (a.ratio == b.ratio && a.matched == b.matched && a.kind == FromCase && b.kind == Live)
  }

  /**
   * The index of the candidate a stable sort with this comparator puts first: no
   * candidate outranks it, and it outranks every candidate before it.
   */
  function PickIndex(cs: seq<Candidate>): (i: nat)
    requires cs != []
    ensures i < |cs|
    ensures forall j :: 0 <= j < |cs| ==> !Outranks(cs[j], cs[i])
    ensures forall j :: 0 <= j < i ==> Outranks(cs[i], cs[j])
  {
    if |cs| == 1 then 0
    else
      var k := PickIndex(cs[..|cs| - 1]);
      if Outranks(cs[|cs| - 1], cs[k]) then |cs| - 1 else k
  }

  function LiveCandidate(sim: DiseaseSims, d: Disease): Candidate {
    Candidate(Live, Some(d.Code()), sim.Of(d).ratio, sim.Of(d).matched, sim.Of(d).total, None)
  }

  /** The disease candidates, pushed in the order P1, P2, P3. */
  function LiveCandidates(sim: DiseaseSims): seq<Candidate> {
    [LiveCandidate(sim, P1), LiveCandidate(sim, P2), LiveCandidate(sim, P3)]
  }

  /** A case candidate is labelled with the case's stored `result`, as stored. */
  function CaseCandidate(sel: seq<string>, c: Case): Candidate {
    var s := CaseSimilarity(sel, c);
    Candidate(FromCase, c.result, s.ratio, s.matched, s.total, Some(c.id))
  }

  function CaseCandidates(sel: seq<string>, cases: seq<Case>): seq<Candidate> {
    if cases == [] then []
    else CaseCandidates(sel, cases[..|cases| - 1]) + [CaseCandidate(sel, cases[|cases| - 1])]
  }

  /** Every candidate of the `predicted` memo, in the order they are pushed. */
  function Candidates(sel: seq<string>, cases: seq<Case>): seq<Candidate> {
    LiveCandidates(SimilarityPerDisease(sel)) + CaseCandidates(sel, cases)
  }

  /** `predicted`: the first candidate after sorting. There are always at least three, so it always exists. */
  function Predict(sel: seq<string>, cases: seq<Case>): Candidate {
    var cs := Candidates(sel, cases);
    cs[PickIndex(cs)]
  }

  /**
   * The `predicted` memo as the source runs it: push the three disease candidates,
   * then one candidate per case in case-base order, and take the first after sorting.
   */
  method ComputePrediction(sel: seq<string>, cases: seq<Case>) returns (p: Candidate)
    ensures p == Predict(sel, cases)
  {
    var live := ComputeSimilarityPerDisease(sel);
    var cs: seq<Candidate> := [];
    for k := 0 to |DISEASES|
      invariant cs == LiveCandidates(live)[..k]
    {
      var d := DISEASES[k];
      cs := cs + [Candidate(Live, Some(d.Code()), live.Of(d).ratio, live.Of(d).matched, live.Of(d).total, None)];
    }
    for i := 0 to |cases|
      invariant cs == LiveCandidates(live) + CaseCandidates(sel, cases[..i])
    {
      assert cases[..i + 1][..i] == cases[..i];
      var c := cases[i];
      var sim := ComputeCaseToCaseSimilarity(sel, c);
      cs := cs + [Candidate(FromCase, c.result, sim.ratio, sim.matched, sim.total, Some(c.id))];
    }
    assert cases[..|cases|] == cases;
    p := cs[PickIndex(cs)];
  }

  lemma {:induction false} CaseCandidatesAt(sel: seq<string>, cases: seq<Case>, i: nat)
    requires i < |cases|
    ensures |CaseCandidates(sel, cases)| == |cases|
    ensures CaseCandidates(sel, cases)[i] == CaseCandidate(sel, cases[i])
  {
    CaseCandidatesLength(sel, cases);
    if i < |cases| - 1 {
      CaseCandidatesAt(sel, cases[..|cases| - 1], i);
    }
  }

  lemma {:induction false} CaseCandidatesLength(sel: seq<string>, cases: seq<Case>)
    ensures |CaseCandidates(sel, cases)| == |cases|
  {
    if cases != [] {
      CaseCandidatesLength(sel, cases[..|cases| - 1]);
    }
  }

  /** The first three candidates are P1, P2 and P3, in that order. */
  lemma CandidatesLive(sel: seq<string>, cases: seq<Case>)
    ensures |Candidates(sel, cases)| >= 3
    ensures forall k :: 0 <= k < 3 ==> Candidates(sel, cases)[k] == LiveCandidate(SimilarityPerDisease(sel), DISEASES[k])
  {
    var sim := SimilarityPerDisease(sel);
    LiveCandidatesEach(sim);
    BeforeCases(LiveCandidates(sim), CaseCandidates(sel, cases));
  }

  lemma LiveCandidatesEach(sim: DiseaseSims)
    ensures forall k :: 0 <= k < 3 ==> LiveCandidates(sim)[k] == LiveCandidate(sim, DISEASES[k])
  {
  }

  lemma BeforeCases(live: seq<Candidate>, cc: seq<Candidate>)
    ensures forall k :: 0 <= k < |live| ==> (live + cc)[k] == live[k]
  {
  }

  /** The case candidates, one per stored case, in case-base order. */
  lemma CaseCandidatesEach(sel: seq<string>, cases: seq<Case>)
    ensures |CaseCandidates(sel, cases)| == |cases|
    ensures forall i :: 0 <= i < |cases| ==> CaseCandidates(sel, cases)[i] == CaseCandidate(sel, cases[i])
  {
    CaseCandidatesLength(sel, cases);
    forall i | 0 <= i < |cases|
      ensures CaseCandidates(sel, cases)[i] == CaseCandidate(sel, cases[i])
    {
      CaseCandidatesAt(sel, cases, i);
    }
  }

  /** After them comes one candidate per stored case, in case-base order. */
  lemma CandidatesFromCases(sel: seq<string>, cases: seq<Case>)
    ensures |Candidates(sel, cases)| == 3 + |cases|
    ensures forall i :: 3 <= i < 3 + |cases| ==> Candidates(sel, cases)[i] == CaseCandidate(sel, cases[i - 3])
  {
    CaseCandidatesEach(sel, cases);
    AfterLive(LiveCandidates(SimilarityPerDisease(sel)), CaseCandidates(sel, cases), sel, cases);
  }

  lemma AfterLive(live: seq<Candidate>, cc: seq<Candidate>, sel: seq<string>, cases: seq<Case>)
    requires |live| == 3 && |cc| == |cases|
    requires forall i :: 0 <= i < |cases| ==> cc[i] == CaseCandidate(sel, cases[i])
    ensures forall i :: 3 <= i < 3 + |cases| ==> (live + cc)[i] == CaseCandidate(sel, cases[i - 3])
  {
  }

  /**
   * The candidate list: P1, P2 and P3 first, then one candidate per stored case in
   * case-base order, carrying that case's similarity, id and stored result.
   */
  lemma CandidatesLayout(sel: seq<string>, cases: seq<Case>)
    ensures |Candidates(sel, cases)| == 3 + |cases|
    ensures forall k :: 0 <= k < 3 ==> Candidates(sel, cases)[k] == LiveCandidate(SimilarityPerDisease(sel), DISEASES[k])
    ensures forall i :: 3 <= i < 3 + |cases| ==> Candidates(sel, cases)[i] == CaseCandidate(sel, cases[i - 3])
  {
    CandidatesLive(sel, cases);
    CandidatesFromCases(sel, cases);
  }

  /**
   * The prediction is the best candidate under the three-level order: no candidate
   * has a higher ratio; none with the same ratio has more matched weight; a disease
   * is predicted only if no case ties it on both; and every candidate enumerated
   * before it ranks strictly lower.
   */
  lemma PredictIsBest(sel: seq<string>, cases: seq<Case>)
    ensures Predict(sel, cases) in Candidates(sel, cases)
    ensures forall c :: c in Candidates(sel, cases) ==> c.ratio <= Predict(sel, cases).ratio
    ensures forall c :: c in Candidates(sel, cases) && c.ratio == Predict(sel, cases).ratio ==>
      c.matched <= Predict(sel, cases).matched
    ensures Predict(sel, cases).kind == Live ==>
      forall c :: c in Candidates(sel, cases) && c.ratio == Predict(sel, cases).ratio && c.matched == Predict(sel, cases).matched ==>
        c.kind == Live
    ensures exists i ::
      && 0 <= i < |Candidates(sel, cases)|
      && Candidates(sel, cases)[i] == Predict(sel, cases)
      && forall j :: 0 <= j < i ==> Outranks(Predict(sel, cases), Candidates(sel, cases)[j])
  {
    var cs := Candidates(sel, cases);
    var i := PickIndex(cs);
    assert cs[i] == Predict(sel, cases);
  }

  /**
   * A stored case that scores above every disease, and that every other stored case
   * scores below or ties with less matched weight, is predicted, under its stored result.
   */
  lemma BestCaseIsPredicted(sel: seq<string>, cases: seq<Case>, j: nat)
    requires j < |cases|
    requires forall d: Disease :: SimilarityPerDisease(sel).Of(d).ratio < CaseSimilarity(sel, cases[j]).ratio
    requires forall k :: 0 <= k < |cases| && k != j ==>
      || CaseSimilarity(sel, cases[k]).ratio < CaseSimilarity(sel, cases[j]).ratio
      || (&& CaseSimilarity(sel, cases[k]).ratio == CaseSimilarity(sel, cases[j]).ratio
          && CaseSimilarity(sel, cases[k]).matched < CaseSimilarity(sel, cases[j]).matched)
    ensures Predict(sel, cases) == CaseCandidate(sel, cases[j])
    ensures Predict(sel, cases).code == cases[j].result && Predict(sel, cases).srcId == Some(cases[j].id)
  {
    var cs := Candidates(sel, cases);
    var sim := SimilarityPerDisease(sel);
    CandidatesLayout(sel, cases);
    var best := CaseCandidate(sel, cases[j]);
    assert cs[3 + j] == best;
    forall k | 0 <= k < 3
      ensures Outranks(best, cs[k])
    {
      assert cs[k] == LiveCandidate(sim, DISEASES[k]);
    }
    forall k | 3 <= k < |cs| && k != 3 + j
      ensures Outranks(best, cs[k])
    {
      assert cs[k] == CaseCandidate(sel, cases[k - 3]);
    }
    SoleBest(cs, 3 + j);
  }

  /** A candidate that outranks every other one is the one picked. */
  lemma SoleBest(cs: seq<Candidate>, b: nat)
    requires b < |cs|
    requires forall k :: 0 <= k < |cs| && k != b ==> Outranks(cs[b], cs[k])
    ensures PickIndex(cs) == b
  {
    var i := PickIndex(cs);
    assert !Outranks(cs[b], cs[i]);
  }

  /** An empty selection scores 0 with 0 matched weight against every disease and every case. */
  lemma EmptySelectionScoresZero(cases: seq<Case>)
    ensures forall c :: c in Candidates([], cases) ==> c.ratio == 0.0 && c.matched == 0
  {
    var sim := SimilarityPerDisease([]);
    var cs := Candidates([], cases);
    assert forall d: Disease :: sim.Of(d).matched == 0 && sim.Of(d).ratio == 0.0;
    CandidatesLayout([], cases);
    forall c | c in cs
      ensures c.ratio == 0.0 && c.matched == 0
    {
      var k :| 0 <= k < |cs| && cs[k] == c;
      if k >= 3 {
        CaseScoresZeroWithoutOverlap([], cases[k - 3]);
      }
    }
  }

  /**
   * With nothing selected every candidate ties at ratio 0 and matched 0, so a case
   * outranks every disease and, among the cases, the first one in case-base order
   * is predicted: the prediction is that case's stored result.
   */
  lemma EmptySelectionPicksFirstCase(cases: seq<Case>)
    requires cases != []
    ensures Predict([], cases).kind == FromCase
    ensures Predict([], cases).srcId == Some(cases[0].id)
    ensures Predict([], cases).code == cases[0].result
  {
    var cs := Candidates([], cases);
    CandidatesLayout([], cases);
    EmptySelectionScoresZero(cases);
    assert forall k :: 0 <= k < |cs| ==> cs[k] in cs;
    var i := PickIndex(cs);
    assert cs[3].kind == FromCase && cs[i].ratio == cs[3].ratio && cs[i].matched == cs[3].matched;
    assert !Outranks(cs[3], cs[i]);
    assert i >= 3;
    assert !Outranks(cs[i], cs[3]);
    assert i == 3;
  }

  /**
   * With nothing selected and no stored case, the three diseases tie and the first
   * one enumerated, P1, is predicted with ratio 0.
   */
  lemma EmptySelectionWithoutCasesPicksP1()
    ensures Predict([], []).kind == Live
    ensures Predict([], []).code == Some("P1")
    ensures Predict([], []).ratio == 0.0
  {
    var cs := Candidates([], []);
    CandidatesLayout([], []);
    EmptySelectionScoresZero([]);
    assert forall k :: 0 <= k < |cs| ==> cs[k] in cs;
    var i := PickIndex(cs);
    assert i == 0;
  }
}
