/**
 * The case base: the two seed records, loading a stored case base, retaining the
 * current selection as a new record, removing records, and the `App` component's
 * state together with the actions that change it.
 */
module CaseBase {
  import opened Wrappers
  import opened JsSet
  import opened JsObject
  import opened DomainTable
  import opened Similarity
  import opened CaseRecord
  import opened CaseId
  import opened Ranking

  /* ---------- Seed records ---------- */

  const CASE_001: Case := Case(
    "CASE-001",
    Some(["G05", "G26", "G08", "G14", "G20", "G07", "G17", "G25", "G04", "G27"]),
    Some("P3"),
    Some([("G05", 1), ("G26", 4), ("G08", 2), ("G14", 1), ("G20", 4),
          ("G07", 1), ("G17", 1), ("G25", 2), ("G04", 1), ("G27", 3)]),
    20,
    [("P1", 0.357142857), ("P2", 0.307692308), ("P3", 0.65)],
    [])

  const CASE_002: Case := Case(
    "CASE-002",
    Some(["G05", "G06", "G07", "G14", "G17", "G18", "G20", "G23", "G25", "G27"]),
    Some("P3"),
    Some([("G05", 1), ("G06", 1), ("G07", 1), ("G14", 1), ("G17", 1),
          ("G18", 2), ("G20", 4), ("G23", 3), ("G25", 2), ("G27", 3)]),
    19,
    [("P1", 0.2142857), ("P2", 0.3461538), ("P3", 0.55)],
    [])

  /** `PREPOPULATED`: the two reference cases every loaded case base contains. */
  const PREPOPULATED: seq<Case> := [CASE_001, CASE_002]

  /** The ids of a list of records, in order. */
  function Ids(cs: seq<Case>): (ids: seq<string>)
    ensures |ids| == |cs| && forall i :: 0 <= i < |cs| ==> ids[i] == cs[i].id
  {
    seq(|cs|, i requires 0 <= i < |cs| => cs[i].id)
  }

  lemma IdsSnoc(cs: seq<Case>, c: Case)
    ensures Ids(cs + [c]) == Ids(cs) + [c.id]
  {
  }

  /* ---------- Loading ---------- */

  /** `map[c.id] = c` for every loaded record: a later record with a known id replaces the earlier one in place. */
  function PutRecords(m: Obj<Case>, cs: seq<Case>): Obj<Case> {
    if cs == [] then m
    else Put(PutRecords(m, cs[..|cs| - 1]), cs[|cs| - 1].id, cs[|cs| - 1])
  }

  /** `if (!map[p.id]) map[p.id] = p` for every seed: a seed is added only under an id not yet present. */
  function AddMissing(m: Obj<Case>, seeds: seq<Case>): Obj<Case> {
    if seeds == [] then m
    else
      var m' := AddMissing(m, seeds[..|seeds| - 1]);
      var p := seeds[|seeds| - 1];
      if Get(m', p.id).Some? then m' else Put(m', p.id, p)
  }

  /** `Object.values(map)` after both passes: the merged case base. */
  function Merge(loaded: seq<Case>): seq<Case> {
    Values(AddMissing(PutRecords([], loaded), PREPOPULATED))
  }

  /**
   * The load effect. `stored` is the parsed case base, or `None` when storage holds
   * nothing or reading or parsing it fails; both of those give the seeds alone.
   * `writeFails` says whether writing the merged case base back to storage throws:
   * the handler then replaces the merged case base by the seeds.
   */
  function LoadCaseBase(stored: Option<seq<Case>>, writeFails: bool): seq<Case> {
    match stored
    case None => PREPOPULATED
    case Some(loaded) => if writeFails then PREPOPULATED else Merge(loaded)
  }

  /** The record `map[id]` ends up holding after the first pass: the last loaded record with that id. */
  function LastWithId(cs: seq<Case>, id: string): (r: Option<Case>)
    ensures r.Some? <==> id in Ids(cs)
    ensures r.Some? ==> r.value in cs && r.value.id == id
    ensures r.Some? ==> exists k :: 0 <= k < |cs| && cs[k] == r.value && forall j :: k < j < |cs| ==> cs[j].id != id
  {
    if cs == [] then None
    else
      var init, last := cs[..|cs| - 1], cs[|cs| - 1];
      assert cs == init + [last];
      IdsSnoc(init, last);
      if last.id == id then Some(last) else LastWithId(init, id)
  }

  /** The first record of `cs` with the given id. */
  function FirstWithId(cs: seq<Case>, id: string): (r: Option<Case>)
    ensures r.Some? <==> id in Ids(cs)
    ensures r.Some? ==> r.value in cs && r.value.id == id
    ensures r.Some? ==> exists k :: 0 <= k < |cs| && cs[k] == r.value && forall j :: 0 <= j < k ==> cs[j].id != id
  {
    if cs == [] then None
    else
      var init, last := cs[..|cs| - 1], cs[|cs| - 1];
      assert cs == init + [last];
      IdsSnoc(init, last);
      var f := FirstWithId(init, id);
      if f.Some? then f else if last.id == id then Some(last) else None
  }

  /** Every record of the map sits under its own id. */
  predicate KeyedById(m: Obj<Case>) {
    forall e :: e in m ==> e.1.id == e.0
  }

  lemma {:induction false} PutRecordsShape(cs: seq<Case>)
    ensures KeyedById(PutRecords([], cs))
    ensures Keys(PutRecords([], cs)) == FromArray(Ids(cs))
    ensures forall id :: Get(PutRecords([], cs), id) == LastWithId(cs, id)
  {
    if cs != [] {
      var init, c := cs[..|cs| - 1], cs[|cs| - 1];
      assert cs == init + [c];
      PutRecordsShape(init);
      var m := PutRecords([], init);
      PutKeys(m, c.id, c);
      IdsSnoc(init, c);
      FromArraySnoc(Ids(init), c.id);
      forall id ensures Get(PutRecords([], cs), id) == LastWithId(cs, id) {
        PutGet(m, c.id, c, id);
      }
    }
  }

  lemma {:induction false} AddMissingShape(m: Obj<Case>, a: seq<string>, seeds: seq<Case>)
    requires KeyedById(m) && Keys(m) == FromArray(a)
    ensures KeyedById(AddMissing(m, seeds))
    ensures Keys(AddMissing(m, seeds)) == FromArray(a + Ids(seeds))
    ensures forall id :: Get(m, id).Some? ==> Get(AddMissing(m, seeds), id) == Get(m, id)
    ensures forall id :: Get(m, id).None? ==> Get(AddMissing(m, seeds), id) == FirstWithId(seeds, id)
  {
    if seeds == [] {
      assert a + Ids(seeds) == a;
    } else {
      var init, p := seeds[..|seeds| - 1], seeds[|seeds| - 1];
      assert seeds == init + [p];
      AddMissingShape(m, a, init);
      IdsSnoc(init, p);
      assert a + Ids(seeds) == (a + Ids(init)) + [p.id];
      var m' := AddMissing(m, init);
      var r := AddMissing(m, seeds);
      assert r == if Get(m', p.id).Some? then m' else Put(m', p.id, p);
      AddOneSeed(m', a + Ids(init), p);
      SeedStepGets(m, m', r, init, p);
    }
  }

  lemma SeedStepGets(m: Obj<Case>, m': Obj<Case>, r: Obj<Case>, init: seq<Case>, p: Case)
    requires forall id :: Get(m, id).Some? ==> Get(m', id) == Get(m, id)
    requires forall id :: Get(m, id).None? ==> Get(m', id) == FirstWithId(init, id)
    requires forall id :: Get(r, id) == if Get(m', id).None? && id == p.id then Some(p) else Get(m', id)
    ensures forall id :: Get(m, id).Some? ==> Get(r, id) == Get(m, id)
    ensures forall id :: Get(m, id).None? ==> Get(r, id) == FirstWithId(init + [p], id)
  {
    forall id | Get(m, id).None?
      ensures Get(r, id) == FirstWithId(init + [p], id)
    {
      FirstWithIdSnoc(init, p, id);
    }
  }

  lemma FirstWithIdSnoc(cs: seq<Case>, c: Case, id: string)
    ensures FirstWithId(cs + [c], id)
         == if FirstWithId(cs, id).Some? then FirstWithId(cs, id) else if c.id == id then Some(c) else None
  {
    assert (cs + [c])[..|cs|] == cs;
  }

  /** One step of the seed pass: `p` is added under its id unless that id is taken. */
  lemma AddOneSeed(m: Obj<Case>, b: seq<string>, p: Case)
    requires KeyedById(m) && Keys(m) == FromArray(b)
    ensures var r := if Get(m, p.id).Some? then m else Put(m, p.id, p);
      && KeyedById(r)
      && Keys(r) == FromArray(b + [p.id])
      && forall id :: Get(r, id) == if Get(m, id).None? && id == p.id then Some(p) else Get(m, id)
  {
    FromArraySnoc(b, p.id);
    if Get(m, p.id).None? {
      PutKeys(m, p.id, p);
      forall id ensures Get(Put(m, p.id, p), id) == if id == p.id then Some(p) else Get(m, id) {
        PutGet(m, p.id, p, id);
      }
    }
  }

  lemma IdsOfValues(m: Obj<Case>)
    requires KeyedById(m)
    ensures Ids(Values(m)) == Keys(m)
  {
    forall i | 0 <= i < |m| ensures Values(m)[i].id == Keys(m)[i] {
      assert m[i] in m;
    }
  }

  /**
   * Loading never duplicates an id: the merged ids are those of the loaded records
   * followed by the seed ids not among them, each once, in first-seen order; a
   * record under a loaded id is the last loaded record with that id, and any other
   * record is a seed.
   */
  lemma MergeShape(loaded: seq<Case>)
    ensures Ids(Merge(loaded)) == FromArray(Ids(loaded) + Ids(PREPOPULATED))
    ensures forall r :: r in Merge(loaded) && r.id in Ids(loaded) ==> Some(r) == LastWithId(loaded, r.id)
    ensures forall r :: r in Merge(loaded) && r.id !in Ids(loaded) ==> Some(r) == FirstWithId(PREPOPULATED, r.id)
  {
    var m0 := PutRecords([], loaded);
    PutRecordsShape(loaded);
    AddMissingShape(m0, Ids(loaded), PREPOPULATED);
    var m := AddMissing(m0, PREPOPULATED);
    IdsOfValues(m);
    forall r | r in Merge(loaded) ensures Get(m, r.id) == Some(r) {
      var i :| 0 <= i < |m| && Values(m)[i] == r;
      assert m[i] in m;
      GetEntry(m, i);
    }
  }

  /**
   * With nothing stored, with an empty list stored, or when writing the merged case
   * base back fails, the case base is the two seeds.
   */
  lemma LoadEmpty()
    ensures forall writeFails :: LoadCaseBase(None, writeFails) == PREPOPULATED
    ensures forall writeFails :: LoadCaseBase(Some([]), writeFails) == PREPOPULATED
    ensures forall stored :: LoadCaseBase(stored, true) == PREPOPULATED
  {
    var m1: Obj<Case> := [("CASE-001", CASE_001)];
    assert PREPOPULATED[..1] == [CASE_001];
    assert AddMissing([], PREPOPULATED[..1]) == m1;
    assert Get(m1, "CASE-002") == None;
    assert Put(m1, "CASE-002", CASE_002) == [("CASE-001", CASE_001), ("CASE-002", CASE_002)];
    assert AddMissing(PutRecords([], []), PREPOPULATED) == [("CASE-001", CASE_001), ("CASE-002", CASE_002)];
  }

  /** Every loaded case base has distinct ids and contains both seed ids. */
  lemma LoadedIdsDistinct(stored: Option<seq<Case>>, writeFails: bool)
    ensures NoDup(Ids(LoadCaseBase(stored, writeFails)))
    ensures "CASE-001" in Ids(LoadCaseBase(stored, writeFails)) && "CASE-002" in Ids(LoadCaseBase(stored, writeFails))
  {
    match stored {
      case None =>
        SeedIdsAre();
      case Some(loaded) =>
        SeedIdsAre();
        if !writeFails {
          MergeShape(loaded);
          KeepsSeedIds(Ids(loaded), Ids(PREPOPULATED));
        }
    }
  }

  lemma SeedIdsAre()
    ensures Ids(PREPOPULATED) == ["CASE-001", "CASE-002"]
  {
  }

  lemma KeepsSeedIds(a: seq<string>, seeds: seq<string>)
    requires seeds == ["CASE-001", "CASE-002"]
    ensures "CASE-001" in FromArray(a + seeds) && "CASE-002" in FromArray(a + seeds)
  {
    assert (a + seeds)[|a|] == "CASE-001" && (a + seeds)[|a| + 1] == "CASE-002";
  }

  /* ---------- Removing ---------- */

  /** `cases.filter((r) => r.id !== id)`. */
  function RemoveById(cs: seq<Case>, id: string): (r: seq<Case>)
    ensures forall c :: c in r <==> c in cs && c.id != id
    ensures |r| <= |cs|
  {
    if cs == [] then []
    else
      var init, last := cs[..|cs| - 1], cs[|cs| - 1];
      assert cs == init + [last];
      if last.id == id then RemoveById(init, id) else RemoveById(init, id) + [last]
  }

  /** Removing keeps the order of what remains: it distributes over concatenation. */
  lemma {:induction false} RemoveByIdAppend(a: seq<Case>, b: seq<Case>, id: string)
    ensures RemoveById(a + b, id) == RemoveById(a, id) + RemoveById(b, id)
  {
    if b == [] {
      assert a + b == a;
    } else {
      var init, last := b[..|b| - 1], b[|b| - 1];
      assert a + b == (a + init) + [last];
      RemoveByIdAppend(a, init, id);
    }
  }

  /** Removing an id no record has changes nothing. */
  lemma {:induction false} RemoveByIdAbsent(cs: seq<Case>, id: string)
    requires id !in Ids(cs)
    ensures RemoveById(cs, id) == cs
  {
    if cs != [] {
      var init, last := cs[..|cs| - 1], cs[|cs| - 1];
      assert cs == init + [last];
      IdsSnoc(init, last);
      RemoveByIdAbsent(init, id);
    }
  }

  /** Removing the same id twice is removing it once. */
  lemma RemoveByIdIdempotent(cs: seq<Case>, id: string)
    ensures RemoveById(RemoveById(cs, id), id) == RemoveById(cs, id)
  {
    RemoveByIdAbsent(RemoveById(cs, id), id);
  }

  /** When ids are distinct, removing a present id drops exactly one record. */
  lemma {:induction false} RemoveByIdCount(cs: seq<Case>, id: string)
    requires NoDup(Ids(cs)) && id in Ids(cs)
    ensures |RemoveById(cs, id)| == |cs| - 1
  {
    var init, last := cs[..|cs| - 1], cs[|cs| - 1];
    assert cs == init + [last];
    IdsSnoc(init, last);
    NoDupSnoc(Ids(init), last.id);
    if last.id == id {
      RemoveByIdAbsent(init, id);
    } else {
      RemoveByIdCount(init, id);
    }
  }

  /** A removed record other than a seed does not come back on the next load. */
  lemma RemovedStaysRemoved(cases: seq<Case>, id: string, writeFails: bool)
    requires id !in Ids(PREPOPULATED)
    ensures id !in Ids(LoadCaseBase(Some(RemoveById(cases, id)), writeFails))
  {
    var rest := RemoveById(cases, id);
    MergeShape(rest);
    assert id !in Ids(rest);
  }

  /**
   * When writing the filtered list fails, storage still holds the list the record was
   * removed from, and a load whose own write-back succeeds brings the record back.
   */
  lemma UnwrittenRemovalReturns(cases: seq<Case>, id: string)
    requires id in Ids(cases)
    ensures id in Ids(LoadCaseBase(Some(cases), false))
  {
    MergeShape(cases);
    assert id in Ids(cases) + Ids(PREPOPULATED);
  }

  /** A removed seed is put back by the next load. */
  lemma RemovedSeedReturns(cases: seq<Case>, id: string, writeFails: bool)
    requires id in Ids(PREPOPULATED)
    ensures id in Ids(LoadCaseBase(Some(RemoveById(cases, id)), writeFails))
  {
    var rest := RemoveById(cases, id);
    MergeShape(rest);
    assert id in Ids(rest) + Ids(PREPOPULATED);
  }

  /* ---------- Retaining ---------- */

  /** `weights[g]` of a retained record: the table weight of `g` for the predicted code, 0 when `g` is unknown or the code names no disease. */
  function RetainWeight(g: string, code: Option<string>): int {
    match code
    case None => 0
    case Some(c) =>
      match DiseaseOf(c)
      case None => 0
      case Some(d) => TableWeight(g, d)
  }

  /** The `weights` object a retained record is given, filled in selection order. */
  function RetainWeights(sel: seq<string>, code: Option<string>): Obj<int> {
    if sel == [] then []
    else Put(RetainWeights(sel[..|sel| - 1], code), sel[|sel| - 1], RetainWeight(sel[|sel| - 1], code))
  }

  const DISEASES_CAPTION := "vs diseases (P1,P2,P3)"

  /** The comparison a retained record stores against one existing case. */
  function CaseComparison(sel: seq<string>, src: Case): Comparison {
    var s := CaseSimilarity(sel, src);
    VsCase("vs " + src.id + " (base:" + Truthy(src.result).GetOr("-") + ")", src.id,
           s.matched, s.total, s.ratio, if s.dsrc.Some? then s.dsrc else Truthy(src.result))
  }

  function CaseComparisons(sel: seq<string>, cases: seq<Case>): seq<Comparison> {
    if cases == [] then []
    else CaseComparisons(sel, cases[..|cases| - 1]) + [CaseComparison(sel, cases[|cases| - 1])]
  }

  /** The record `retain` builds from the selection and the case base it is added to. */
  function NewRecord(sel: seq<string>, cases: seq<Case>): Case {
    var live := SimilarityPerDisease(sel);
    var code := Truthy(Predict(sel, cases).code);
    var w := RetainWeights(sel, code);
    Case(FormatCaseId(|cases|), Some(sel), code, Some(w), Sum(w), ScoreEntries(live),
         [VsDiseases(DISEASES_CAPTION, live)] + CaseComparisons(sel, cases))
  }

  /** The retained record's result is the prediction's label and its snapshot the live ratios. */
  lemma NewRecordParts(sel: seq<string>, cases: seq<Case>)
    ensures NewRecord(sel, cases).result == Truthy(Predict(sel, cases).code)
    ensures NewRecord(sel, cases).scores == ScoreEntries(SimilarityPerDisease(sel))
    ensures NewRecord(sel, cases).id == FormatCaseId(|cases|)
    ensures NewRecord(sel, cases).comparisons
         == [VsDiseases(DISEASES_CAPTION, SimilarityPerDisease(sel))] + CaseComparisons(sel, cases)
  {
  }

  /** The retained weights have one key per selected code, in first-selection order. */
  lemma {:induction false} RetainWeightsKeys(sel: seq<string>, code: Option<string>)
    ensures Keys(RetainWeights(sel, code)) == FromArray(sel)
  {
    if sel != [] {
      var init, g := sel[..|sel| - 1], sel[|sel| - 1];
      assert sel == init + [g];
      RetainWeightsKeys(init, code);
      PutKeys(RetainWeights(init, code), g, RetainWeight(g, code));
      FromArraySnoc(init, g);
    }
  }

  /** Each selected code holds its table weight for the predicted disease, and no weight is negative. */
  lemma {:induction false} RetainWeightsGet(sel: seq<string>, code: Option<string>, j: string)
    ensures Get(RetainWeights(sel, code), j) == if j in sel then Some(RetainWeight(j, code)) else None
    ensures NonNegative(RetainWeights(sel, code))
  {
    if sel != [] {
      var init, g := sel[..|sel| - 1], sel[|sel| - 1];
      assert sel == init + [g];
      RetainWeightsGet(init, code, j);
      var w := RetainWeights(init, code);
      PutGet(w, g, RetainWeight(g, code), j);
      var r := Put(w, g, RetainWeight(g, code));
      forall i | 0 <= i < |r| ensures r[i].1 >= 0 {
        assert r[i] in r;
        if r[i] in w {
          var k :| 0 <= k < |w| && w[k] == r[i];
        }
      }
    }
  }

  /** For a selection without repeats, the retained weights add up to the numerator of the predicted disease. */
  lemma {:induction false} RetainWeightsSum(sel: seq<string>, d: Disease)
    requires NoDup(sel)
    ensures Sum(RetainWeights(sel, Some(d.Code()))) == Matched(sel, d)
  {
    if sel != [] {
      var init, g := sel[..|sel| - 1], sel[|sel| - 1];
      assert sel == init + [g];
      NoDupSnoc(init, g);
      RetainWeightsSum(init, d);
      RetainWeightsKeys(init, Some(d.Code()));
      var w := RetainWeights(init, Some(d.Code()));
      var x := RetainWeight(g, Some(d.Code()));
      assert RetainWeights(sel, Some(d.Code())) == Put(w, g, x);
      PutNewKey(w, g, x);
      SumSnoc(w, g, x);
      RetainWeightOf(g, d);
      assert Matched(sel, d) == Matched(init, d) + TableWeight(g, d);
    }
  }

  /** Under a disease label, a retained weight is the table weight for that disease. */
  lemma RetainWeightOf(g: string, d: Disease)
    ensures RetainWeight(g, Some(d.Code())) == TableWeight(g, d)
  {
    assert DiseaseOf(d.Code()) == Some(d);
  }

  /** Without a code naming a disease every retained weight is 0. */
  lemma {:induction false} RetainWeightsZero(sel: seq<string>, code: Option<string>)
    requires code.None? || DiseaseOf(code.value).None?
    ensures Sum(RetainWeights(sel, code)) == 0
  {
    if sel != [] {
      var init, g := sel[..|sel| - 1], sel[|sel| - 1];
      RetainWeightsZero(init, code);
      var w := RetainWeights(init, code);
      assert sel == init + [g];
      RetainWeightsKeys(init, code);
      RetainWeightsGet(init, code, g);
      if g in Keys(w) {
        PutReplaceSum(w, g, 0);
      } else {
        PutNewKey(w, g, 0);
        SumSnoc(w, g, 0);
      }
    }
  }

  /**
   * A retained record's `denom` is the numerator of the predicted disease when the
   * prediction names one, and 0 when it names none (a case-derived prediction whose
   * stored result is missing or is not a disease code).
   */
  lemma RetainedDenom(sel: seq<string>, cases: seq<Case>)
    requires NoDup(sel)
    ensures var code := NewRecord(sel, cases).result;
      && (code.Some? && DiseaseOf(code.value).Some? ==>
            NewRecord(sel, cases).denom == SimilarityPerDisease(sel).Of(DiseaseOf(code.value).value).matched)
      && (code.None? || DiseaseOf(code.value).None? ==> NewRecord(sel, cases).denom == 0)
  {
    var code := Truthy(Predict(sel, cases).code);
    if code.Some? && DiseaseOf(code.value).Some? {
      var d := DiseaseOf(code.value).value;
      assert code == Some(d.Code());
      RetainWeightsSum(sel, d);
    } else {
      RetainWeightsZero(sel, code);
    }
  }

  /**
   * Compared with its own selection, a retained record scores 100% whenever its
   * `denom` is positive.
   */
  lemma RetainedMatchesItself(sel: seq<string>, cases: seq<Case>)
    requires NoDup(sel) && NewRecord(sel, cases).denom > 0
    ensures CaseSimilarity(sel, NewRecord(sel, cases)).ratio == 1.0
    ensures CaseSimilarity(sel, NewRecord(sel, cases)).matched == NewRecord(sel, cases).denom
  {
    var r := NewRecord(sel, cases);
    var w := r.weights.value;
    RetainWeightsKeys(sel, r.result);
    assert Keys(w) == sel;
    SelfSimilarity(sel, r);
    CaseMatchedIsSelectedWeightSum(sel, r);
    SumWhereCovering(w, Members(sel));
  }

  lemma {:induction false} CaseComparisonsAt(sel: seq<string>, cases: seq<Case>, i: nat)
    requires i < |cases|
    ensures |CaseComparisons(sel, cases)| == |cases|
    ensures CaseComparisons(sel, cases)[i] == CaseComparison(sel, cases[i])
  {
    CaseComparisonsLength(sel, cases);
    if i < |cases| - 1 {
      CaseComparisonsAt(sel, cases[..|cases| - 1], i);
    }
  }

  lemma {:induction false} CaseComparisonsLength(sel: seq<string>, cases: seq<Case>)
    ensures |CaseComparisons(sel, cases)| == |cases|
  {
    if cases != [] {
      CaseComparisonsLength(sel, cases[..|cases| - 1]);
    }
  }

  /**
   * A retained record's comparisons: first the three disease similarities, then one
   * entry per existing case, in case-base order, holding that case's id and the
   * ratio, matched weight and total the selection scores against it (the figures
   * its prediction candidate carries).
   */
  lemma RetainedComparisons(sel: seq<string>, cases: seq<Case>)
    ensures var comps := NewRecord(sel, cases).comparisons;
      && |comps| == |cases| + 1
      && comps[0] == VsDiseases(DISEASES_CAPTION, SimilarityPerDisease(sel))
      && forall i :: 1 <= i <= |cases| ==>
           && comps[i].VsCase?
           && comps[i].srcId == cases[i - 1].id
           && comps[i].ratio == CaseSimilarity(sel, cases[i - 1]).ratio
           && comps[i].matched == CaseSimilarity(sel, cases[i - 1]).matched
           && comps[i].total == CaseSimilarity(sel, cases[i - 1]).total
           && comps[i].dsrc == Truthy(cases[i - 1].result)
  {
    NewRecordParts(sel, cases);
    CaseComparisonsEach(sel, cases);
    AfterDiseases(VsDiseases(DISEASES_CAPTION, SimilarityPerDisease(sel)), CaseComparisons(sel, cases), sel, cases);
  }

  lemma CaseComparisonsEach(sel: seq<string>, cases: seq<Case>)
    ensures |CaseComparisons(sel, cases)| == |cases|
    ensures forall i :: 0 <= i < |cases| ==> CaseComparisons(sel, cases)[i] == CaseComparison(sel, cases[i])
  {
    CaseComparisonsLength(sel, cases);
    forall i | 0 <= i < |cases|
      ensures CaseComparisons(sel, cases)[i] == CaseComparison(sel, cases[i])
    {
      CaseComparisonsAt(sel, cases, i);
    }
  }

  lemma AfterDiseases(head: Comparison, cc: seq<Comparison>, sel: seq<string>, cases: seq<Case>)
    requires |cc| == |cases|
    requires forall i :: 0 <= i < |cases| ==> cc[i] == CaseComparison(sel, cases[i])
    ensures forall i :: 1 <= i <= |cases| ==>
      && ([head] + cc)[i].VsCase?
      && ([head] + cc)[i].srcId == cases[i - 1].id
      && ([head] + cc)[i].ratio == CaseSimilarity(sel, cases[i - 1]).ratio
      && ([head] + cc)[i].matched == CaseSimilarity(sel, cases[i - 1]).matched
      && ([head] + cc)[i].total == CaseSimilarity(sel, cases[i - 1]).total
      && ([head] + cc)[i].dsrc == Truthy(cases[i - 1].result)
  {
    forall i | 1 <= i <= |cases|
      ensures ([head] + cc)[i] == CaseComparison(sel, cases[i - 1])
    {
      assert ([head] + cc)[i] == cc[i - 1];
    }
  }

  /**
   * When the prediction is a disease, the label a retained record is later shown
   * under carries the predicted ratio: the record's snapshot peaks exactly there.
   */
  lemma RetainedLabelRatio(sel: seq<string>, cases: seq<Case>)
    requires Predict(sel, cases).kind == Live
    ensures AssignedForCase(NewRecord(sel, cases)).ratio == Predict(sel, cases).ratio
  {
    var sim := SimilarityPerDisease(sel);
    NewRecordParts(sel, cases);
    LiveWinnerIsPeak(sel, cases);
    SnapshotPeak(NewRecord(sel, cases), sim, Predict(sel, cases).ratio);
  }

  /** A disease prediction carries the highest of the three disease ratios. */
  lemma LiveWinnerIsPeak(sel: seq<string>, cases: seq<Case>)
    requires Predict(sel, cases).kind == Live
    ensures var sim := SimilarityPerDisease(sel);
      && (exists d: Disease :: sim.Of(d).ratio == Predict(sel, cases).ratio)
      && forall d: Disease :: sim.Of(d).ratio <= Predict(sel, cases).ratio
  {
    var sim := SimilarityPerDisease(sel);
    var cs := Candidates(sel, cases);
    var p := Predict(sel, cases);
    CandidatesLayout(sel, cases);
    PredictIsBest(sel, cases);
    var k :| 0 <= k < |cs| && cs[k] == p;
    assert k < 3;
    assert DISEASES == [P1, P2, P3];
    assert sim.Of(DISEASES[k]).ratio == p.ratio;
    forall d: Disease ensures sim.Of(d).ratio <= p.ratio {
      var j := Rank(d);
      assert DISEASES[j] == d;
      assert cs[j] in cs;
    }
  }

  /** A snapshot of the three disease ratios is shown at its peak ratio. */
  lemma SnapshotPeak(c: Case, sim: DiseaseSims, r: real)
    requires c.scores == ScoreEntries(sim)
    requires (exists d: Disease :: sim.Of(d).ratio == r) && forall d: Disease :: sim.Of(d).ratio <= r
    ensures AssignedForCase(c).ratio == r
  {
    var i := FirstMaxIndex(c.scores);
    var d: Disease :| sim.Of(d).ratio == r;
    assert c.scores[Rank(d)].1 == r;
    assert sim.Of(P1).ratio <= r && sim.Of(P2).ratio <= r && sim.Of(P3).ratio <= r;
    assert c.scores[i].1 <= r;
  }


  /** Removing the record just retained gives back the case base it was added to. */
  lemma RemoveRetained(sel: seq<string>, cases: seq<Case>)
    requires FormatCaseId(|cases|) !in Ids(cases)
    ensures RemoveById([NewRecord(sel, cases)] + cases, FormatCaseId(|cases|)) == cases
  {
    RemoveByIdAppend([NewRecord(sel, cases)], cases, FormatCaseId(|cases|));
    RemoveByIdAbsent(cases, FormatCaseId(|cases|));
    assert RemoveById([NewRecord(sel, cases)], FormatCaseId(|cases|)) == [];
  }

  /** The seed ids are the ids `formatCaseId` gives the first and second case. */
  lemma SeedIds()
    ensures Ids(PREPOPULATED) == [FormatCaseId(0), FormatCaseId(1)]
  {
    assert Decimal(1) == "1" && Decimal(2) == "2";
    assert Zeros(2) == "00";
    assert PadStart("1", 3) == "001" && PadStart("2", 3) == "002";
    assert FormatCaseId(0) == "CASE-001" && FormatCaseId(1) == "CASE-002";
  }

  /**
   * Ids are not unique over time: after a record other than the newest is removed
   * from a case base with distinct ids, the next retained record gets the id of
   * the newest one again.
   */
  lemma IdRepeatsAfterRemoval(sel: seq<string>, sel2: seq<string>, cases: seq<Case>, id: string)
    requires NoDup(Ids(cases)) && id in Ids(cases) && id != FormatCaseId(|cases|)
    ensures var once := [NewRecord(sel, cases)] + cases;
      NewRecord(sel2, RemoveById(once, id)).id == once[0].id
  {
    var first := NewRecord(sel, cases);
    NewRecordParts(sel, cases);
    RemoveBelowNewest(first, cases, id);
    NewRecordParts(sel2, RemoveById([first] + cases, id));
  }

  lemma RemoveBelowNewest(first: Case, cases: seq<Case>, id: string)
    requires NoDup(Ids(cases)) && id in Ids(cases) && id != first.id
    ensures |RemoveById([first] + cases, id)| == |cases|
  {
    RemoveByIdAppend([first], cases, id);
    RemoveByIdCount(cases, id);
    assert RemoveById([first], id) == [first];
  }

  /* ---------- Toggling ---------- */

  /** The selection after `toggleSymptom(code)`. */
  function Toggled(sel: seq<string>, code: string): (r: seq<string>)
    ensures NoDup(sel) ==> NoDup(r)
    ensures code in r <==> code !in sel
    ensures forall g :: g != code ==> (g in r <==> g in sel)
  {
    if code in sel then Delete(sel, code) else Add(sel, code)
  }

  /** Toggling the same code twice restores the selected codes (a re-added code moves to the end). */
  lemma ToggleTwice(sel: seq<string>, code: string)
    ensures Members(Toggled(Toggled(sel, code), code)) == Members(sel)
  {
  }

  /* ---------- The component state ---------- */

  /**
   * The state of the `App` component that the model covers: the selected codes (a
   * `Set`, so without repeats) and the case base.
   */
  class App {
    var selected: seq<string>
    var cases: seq<Case>

    predicate Valid()
      reads this
    {
      NoDup(selected)
    }

    constructor ()
      ensures Valid() && selected == [] && cases == []
    {
      selected := [];
      cases := [];
    }

    /**
     * The load effect, run once on mount: the merged case base is set, and set back
     * to the seeds when writing it to storage throws.
     */
    method Load(stored: Option<seq<Case>>, writeFails: bool)
      requires Valid()
      modifies this
      ensures Valid()
      ensures cases == LoadCaseBase(stored, writeFails)
      ensures selected == old(selected)
    {
      match stored {
        case None =>
          cases := PREPOPULATED;
        case Some(loaded) =>
          var m: Obj<Case> := [];
          for i := 0 to |loaded|
            invariant m == PutRecords([], loaded[..i])
          {
            assert loaded[..i + 1][..i] == loaded[..i];
            m := Put(m, loaded[i].id, loaded[i]);
          }
          assert loaded[..|loaded|] == loaded;
          for j := 0 to |PREPOPULATED|
            invariant m == AddMissing(PutRecords([], loaded), PREPOPULATED[..j])
          {
            assert PREPOPULATED[..j + 1][..j] == PREPOPULATED[..j];
            var p := PREPOPULATED[j];
            if Get(m, p.id).None? {
              m := Put(m, p.id, p);
            }
          }
          assert PREPOPULATED[..|PREPOPULATED|] == PREPOPULATED;
          cases := Values(m);
          if writeFails {
            cases := PREPOPULATED;
          }
      }
    }

    /** `toggleSymptom(code)`. */
    method Toggle(code: string)
      requires Valid()
      modifies this
      ensures Valid()
      ensures selected == Toggled(old(selected), code)
      ensures cases == old(cases)
    {
      if code in selected {
        selected := Delete(selected, code);
      } else {
        selected := Add(selected, code);
      }
    }

    /** `reset()`: clears the selection (the expanded-row state is display only). */
    method Reset()
      modifies this
      ensures Valid() && selected == []
      ensures cases == old(cases)
    {
      selected := [];
    }

    /**
     * `retain()`: predicts, builds the weights for the predicted disease in one pass
     * over the selection, snapshots the live scores and one comparison per existing
     * case, and puts the record in front of the case base.
     */
    method Retain()
      requires Valid()
      modifies this
      ensures Valid()
      ensures cases == [NewRecord(old(selected), old(cases))] + old(cases)
      ensures selected == old(selected)
    {
      var p := ComputePrediction(selected, cases);
      var live := ComputeSimilarityPerDisease(selected);
      var code := Truthy(p.code);
      var weights := BuildWeights(selected, code);
      var comparisons := BuildComparisons(selected, cases, live);
      var record := Case(FormatCaseId(|cases|), Some(selected), code, Some(weights), Sum(weights),
                         ScoreEntries(live), comparisons);
      cases := [record] + cases;
    }

    /** `reuse(c)`: the selection becomes the record's symptoms, or nothing when it has none. */
    method Reuse(c: Case)
      modifies this
      ensures Valid() && selected == FromArray(c.symptoms.GetOr([]))
      ensures cases == old(cases)
    {
      selected := FromArray(c.symptoms.GetOr([]));
    }

    /** `removeCase(id)`. */
    method RemoveCase(id: string)
      requires Valid()
      modifies this
      ensures Valid()
      ensures cases == RemoveById(old(cases), id)
      ensures selected == old(selected)
    {
      cases := RemoveById(cases, id);
    }
  }

  /** The weights loop of `retain()`: one write per selected code. */
  method BuildWeights(sel: seq<string>, code: Option<string>) returns (weights: Obj<int>)
    ensures weights == RetainWeights(sel, code)
  {
    weights := [];
    for i := 0 to |sel|
      invariant weights == RetainWeights(sel[..i], code)
    {
      assert sel[..i + 1][..i] == sel[..i];
      var g := sel[i];
      var s := GetSymptom(g);
      var w := 0;
      if s.Some? && code.Some? {
        match DiseaseOf(code.value) {
          case Some(d) => w := s.value.Weight(d);
          case None =>
        }
      }
      weights := Put(weights, g, w);
    }
    assert sel[..|sel|] == sel;
  }

  /** The comparisons loop of `retain()`: the disease snapshot, then one entry per existing case. */
  method BuildComparisons(sel: seq<string>, cases: seq<Case>, live: DiseaseSims) returns (comparisons: seq<Comparison>)
    ensures comparisons == [VsDiseases(DISEASES_CAPTION, live)] + CaseComparisons(sel, cases)
  {
    comparisons := [VsDiseases(DISEASES_CAPTION, live)];
    for i := 0 to |cases|
      invariant comparisons == [VsDiseases(DISEASES_CAPTION, live)] + CaseComparisons(sel, cases[..i])
    {
      assert cases[..i + 1][..i] == cases[..i];
      var src := cases[i];
      var s := ComputeCaseToCaseSimilarity(sel, src);
      var dsrc := if s.dsrc.Some? then s.dsrc else Truthy(src.result);
      comparisons := comparisons + [VsCase("vs " + src.id + " (base:" + Truthy(src.result).GetOr("-") + ")",
                                           src.id, s.matched, s.total, s.ratio, dsrc)];
    }
    assert cases[..|cases|] == cases;
  }

  /** Reusing a retained record restores the selection it was retained from. */
  lemma ReuseRestoresSelection(sel: seq<string>, cases: seq<Case>)
    requires NoDup(sel)
    ensures FromArray(NewRecord(sel, cases).symptoms.GetOr([])) == sel
  {
  }
}
