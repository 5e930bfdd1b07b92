/**
 * Stored case records, the case-to-case similarity that compares a selection with a
 * record's own frozen weights, and the label a record is displayed under.
 */
module CaseRecord {
  import opened Wrappers
  import opened JsSet
  import opened JsObject
  import opened DomainTable
  import opened Similarity

  /** JavaScript's `s || null` on a possibly missing string: the empty string counts as missing. */
  function Truthy(s: Option<string>): (r: Option<string>)
    ensures r.Some? ==> r == s && r.value != ""
    ensures s.Some? && s.value != "" ==> r == s
  {
    if s == Some("") then None else s
  }

  /** One entry of a record's `comparisons` list; `caption` is the entry's `label`. */
  datatype Comparison =
    | VsDiseases(caption: string, values: DiseaseSims)
    | VsCase(caption: string, srcId: string, matched: int, total: int, ratio: real, dsrc: Option<string>)

  /**
   * A case record as stored: `symptoms`, `result` and `weights` may be missing in a
   * record read back from storage, and a missing `denom` reads like 0. `scores` holds
   * the entries of the snapshot object (none when it is missing); `createdAt` is not
   * modelled.
   */
  datatype Case = Case(
    id: string,
    symptoms: Option<seq<string>>,
    result: Option<string>,
    weights: Option<Obj<int>>,
    denom: int,
    scores: Obj<real>,
    comparisons: seq<Comparison>)

  /** The result of comparing a selection with one stored case. */
  datatype CaseSim = CaseSim(matched: int, total: int, ratio: real, dsrc: Option<string>, intersection: Obj<int>)

  /** `{ code: g, w }` for every code of the intersection, in selection order. */
  function Details(inter: seq<string>, w: Obj<int>): Obj<int> {
    if inter == [] then []
    else Details(inter[..|inter| - 1], w) + [(inter[|inter| - 1], Get(w, inter[|inter| - 1]).GetOr(0))]
  }

  /** The case's denominator: `denom`, or the sum of its weights when `denom` is 0 or missing. */
  function CaseTotal(c: Case, w: Obj<int>): int {
    if c.denom != 0 then c.denom else Sum(w)
  }

  /** `computeCaseToCaseSimilarity(selected, sourceCase)`. */
  function CaseSimilarity(sel: seq<string>, c: Case): CaseSim {
    match c.weights
    case None => CaseSim(0, 0, 0.0, Truthy(c.result), [])
    case Some(w) =>
      var inter := KeepIn(sel, Keys(w));
      var matched := SumLookup(inter, w);
      var total := CaseTotal(c, w);
      CaseSim(matched, total, Ratio(matched, total), Truthy(c.result), Details(inter, w))
  }

  /**
   * `computeCaseToCaseSimilarity(selected, sourceCase)` as the source runs it: keep
   * the selected codes that are keys of the case's weights, add up their weights in
   * one pass, and divide by the case's own denominator.
   */
  method ComputeCaseToCaseSimilarity(sel: seq<string>, c: Case) returns (r: CaseSim)
    ensures r == CaseSimilarity(sel, c)
  {
    if c.weights.None? {
      return CaseSim(0, 0, 0.0, Truthy(c.result), []);
    }
    var w := c.weights.value;
    var inter := KeepIn(sel, Keys(w));
    var matched := 0;
    var details: Obj<int> := [];
    for i := 0 to |inter|
      invariant matched == SumLookup(inter[..i], w)
      invariant details == Details(inter[..i], w)
    {
      assert inter[..i + 1][..i] == inter[..i];
      var g := inter[i];
      var x := Get(w, g).GetOr(0);
      matched := matched + x;
      details := details + [(g, x)];
    }
    assert inter[..|inter|] == inter;
    var total := if c.denom != 0 then c.denom else Sum(w);
    var ratio := if total == 0 then 0.0 else matched as real / total as real;
    r := CaseSim(matched, total, ratio, Truthy(c.result), details);
  }

  /**
   * Against a case with weights, a duplicate-free selection matches the sum of the
   * case's own weights over the selected codes; the live table plays no part.
   */
  lemma CaseMatchedIsSelectedWeightSum(sel: seq<string>, c: Case)
    requires c.weights.Some? && NoDup(sel) && DistinctKeys(c.weights.value)
    ensures CaseSimilarity(sel, c).matched == SumWhere(c.weights.value, Members(sel))
  {
    var w := c.weights.value;
    SumLookupKeepIn(sel, w);
    SumLookupIsSumWhere(sel, w);
  }

  /** A case without weights, or one none of whose weight keys is selected, scores 0. */
  lemma CaseScoresZeroWithoutOverlap(sel: seq<string>, c: Case)
    requires c.weights.None? || forall g :: g in sel ==> g !in Keys(c.weights.value)
    ensures CaseSimilarity(sel, c).matched == 0 && CaseSimilarity(sel, c).ratio == 0.0
  {
    if c.weights.Some? {
      KeepInDisjoint(sel, Keys(c.weights.value));
    }
  }

  /**
   * With non-negative weights and a denominator that is 0 (so the weight sum is used)
   * or at least the weight sum, a duplicate-free selection scores between 0 and 1.
   */
  lemma CaseRatioBounded(sel: seq<string>, c: Case)
    requires c.weights.Some? && NoDup(sel)
    requires DistinctKeys(c.weights.value) && NonNegative(c.weights.value)
    requires c.denom == 0 || c.denom >= Sum(c.weights.value)
    ensures 0.0 <= CaseSimilarity(sel, c).ratio <= 1.0
  {
    var w := c.weights.value;
    CaseMatchedIsSelectedWeightSum(sel, c);
    SumWhereBounded(w, Members(sel));
    if CaseTotal(c, w) != 0 {
      RatioBounded(SumWhere(w, Members(sel)), CaseTotal(c, w));
    }
  }

  /**
   * A case matches at 100% any duplicate-free selection that contains all its weight
   * keys (in particular its own symptoms, when its weights are keyed by them), as long
   * as its denominator is its weight sum, stated or recomputed, and that sum is positive.
   */
  lemma SelfSimilarity(sel: seq<string>, c: Case)
    requires c.weights.Some? && NoDup(sel) && DistinctKeys(c.weights.value)
    requires forall k :: k in Keys(c.weights.value) ==> k in sel
    requires c.denom == 0 || c.denom == Sum(c.weights.value)
    requires Sum(c.weights.value) > 0
    ensures CaseSimilarity(sel, c).ratio == 1.0
  {
    var w := c.weights.value;
    CaseMatchedIsSelectedWeightSum(sel, c);
    SumWhereCovering(w, Members(sel));
    RatioBounded(Sum(w), Sum(w));
  }

  /** The label and ratio a stored case is shown under. */
  datatype Assigned = Assigned(code: string, ratio: real)

  /**
   * The entry a stable descending sort by value puts first: the earliest entry whose
   * value no other entry exceeds.
   */
  function FirstMaxIndex(o: Obj<real>): (i: nat)
    requires o != []
    ensures i < |o|
    ensures forall j :: 0 <= j < |o| ==> o[j].1 <= o[i].1
    ensures forall j :: 0 <= j < i ==> o[j].1 < o[i].1
  {
    if |o| == 1 then 0
    else
      var k := FirstMaxIndex(o[..|o| - 1]);
      if o[|o| - 1].1 > o[k].1 then |o| - 1 else k
  }

  /** The three live ratios as the object `{ P1, P2, P3 }`. */
  function ScoreEntries(sim: DiseaseSims): Obj<real> {
    [("P1", sim.p1.ratio), ("P2", sim.p2.ratio), ("P3", sim.p3.ratio)]
  }

  /** `computeAssignedForCase(c)`. */
  function AssignedForCase(c: Case): Assigned {
    if c.scores != [] then
      var i := FirstMaxIndex(c.scores);
      Assigned(c.scores[i].0, c.scores[i].1)
    else if c.symptoms.Some? then
      var arr := ScoreEntries(SimilarityPerDisease(c.symptoms.value));
      var i := FirstMaxIndex(arr);
      Assigned(arr[i].0, arr[i].1)
    else
      Assigned(Truthy(c.result).GetOr("-"), 0.0)
  }

  /** The place of a disease in the order P1, P2, P3. */
  function Rank(d: Disease): nat {
    match d
    case P1 => 0
    case P2 => 1
    case P3 => 2
  }

  /**
   * First tier of `computeAssignedForCase`: a non-empty snapshot gives its highest
   * entry, the first one on ties.
   */
  lemma AssignedFromSnapshot(c: Case)
    requires c.scores != []
    ensures exists i ::
              && 0 <= i < |c.scores|
              && c.scores[i] == (AssignedForCase(c).code, AssignedForCase(c).ratio)
              && (forall j :: 0 <= j < |c.scores| ==> c.scores[j].1 <= c.scores[i].1)
              && (forall j :: 0 <= j < i ==> c.scores[j].1 < c.scores[i].1)
  {
    var i := FirstMaxIndex(c.scores);
    assert c.scores[i] == (AssignedForCase(c).code, AssignedForCase(c).ratio);
  }

  /**
   * Second tier: without a snapshot, recorded symptoms give the disease whose
   * recomputed ratio is highest, the earliest of P1, P2, P3 on ties.
   */
  lemma AssignedFromSymptoms(c: Case)
    requires c.scores == [] && c.symptoms.Some?
    ensures var sim := SimilarityPerDisease(c.symptoms.value);
      exists d: Disease ::
        && d.Code() == AssignedForCase(c).code
        && sim.Of(d).ratio == AssignedForCase(c).ratio
        && (forall e: Disease :: sim.Of(e).ratio <= sim.Of(d).ratio)
        && (forall e: Disease :: Rank(e) < Rank(d) ==> sim.Of(e).ratio < sim.Of(d).ratio)
  {
    var sim := SimilarityPerDisease(c.symptoms.value);
    var arr := ScoreEntries(sim);
    var i := FirstMaxIndex(arr);
    var d := [P1, P2, P3][i];
    assert forall e: Disease :: arr[Rank(e)].1 == sim.Of(e).ratio;
    assert d.Code() == AssignedForCase(c).code && sim.Of(d).ratio == AssignedForCase(c).ratio;
  }

  /** Third tier: with neither, the stored result (or "-" when it is missing or empty) at ratio 0. */
  lemma AssignedFallback(c: Case)
    requires c.scores == [] && c.symptoms.None?
    ensures AssignedForCase(c).ratio == 0.0
    ensures c.result.Some? && c.result.value != "" ==> AssignedForCase(c).code == c.result.value
    ensures c.result.None? || c.result == Some("") ==> AssignedForCase(c).code == "-"
  {
  }
}
