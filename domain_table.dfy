/**
 * The domain table: three anxiety disorders, twenty-seven symptoms each carrying an
 * integer weight per disorder, and the fixed per-disorder denominators.
 */
module DomainTable {
  import opened Wrappers
  import opened JsObject

  datatype Disease = P1 | P2 | P3 {
    /** The disease code used as a key everywhere (`"P1"`, `"P2"`, `"P3"`). */
    function Code(): string {
      match this
      case P1 => "P1"
      case P2 => "P2"
      case P3 => "P3"
    }
  }

  /** The diseases in the order the application enumerates them. */
  const DISEASES: seq<Disease> := [P1, P2, P3]

  /** The disease a code names, if any: indexing a symptom's weights with any other code reads nothing. */
  function DiseaseOf(code: string): (d: Option<Disease>)
    ensures d.Some? <==> code in {"P1", "P2", "P3"}
    ensures d.Some? ==> d.value.Code() == code
  {
    if code == "P1" then Some(P1)
    else if code == "P2" then Some(P2)
    else if code == "P3" then Some(P3)
    else None
  }

  datatype Symptom = Symptom(code: string, name: string, w1: nat, w2: nat, w3: nat) {
    /** `s.weights[d]`. */
    function Weight(d: Disease): nat {
      match d
      case P1 => w1
      case P2 => w2
      case P3 => w3
    }
  }

  /**
   * `SYMPTOMS`, in table order. It is written as three literal blocks of nine so
   * that the verifier can evaluate facts about each block on its own.
   */
  const SYMPTOMS_G01_G09: seq<Symptom> := [
    Symptom("G01", "Nyeri otot", 1, 0, 0),
    Symptom("G02", "Kesulitan tidur", 2, 0, 0),
    Symptom("G03", "Mudah merasa lelah", 1, 0, 0),
    Symptom("G04", "Mual", 1, 1, 1),
    Symptom("G05", "Sakit kepala", 1, 1, 1),
    Symptom("G06", "Kecemasan berlebih", 1, 1, 0),
    Symptom("G07", "Merasa gelisah", 1, 0, 1),
    Symptom("G08", "Sulit berkonsentrasi", 2, 0, 0),
    Symptom("G09", "Kewaspadaan berlebihan", 1, 0, 0)
  ]
  const SYMPTOMS_G10_G18: seq<Symptom> := [
    Symptom("G10", "Mudah marah", 1, 0, 0),
    Symptom("G11", "Kebutuhan kontrol", 2, 0, 0),
    Symptom("G12", "Jantung berdebar", 0, 2, 0),
    Symptom("G13", "Keringat berlebih", 0, 2, 0),
    Symptom("G14", "Gemetar tidak terkendali", 0, 1, 1),
    Symptom("G15", "Sesak napas", 0, 1, 1),
    Symptom("G16", "Nyeri dada", 0, 1, 0),
    Symptom("G17", "Kesemutan", 0, 1, 0),
    Symptom("G18", "Menggigil", 0, 2, 0)
  ]
  const SYMPTOMS_G19_G27: seq<Symptom> := [
    Symptom("G19", "Merasa kehilangan kendali", 0, 2, 0),
    Symptom("G20", "Menghindari situasi", 0, 4, 0),
    Symptom("G21", "Menghindari serangan panik", 0, 4, 0),
    Symptom("G22", "Menghindari keramaian", 0, 3, 0),
    Symptom("G23", "Ketakutan intens", 0, 0, 3),
    Symptom("G24", "Sensasi tersendak", 0, 0, 3),
    Symptom("G25", "Kehilangan kekuatan", 0, 0, 2),
    Symptom("G26", "Langkah menghindar", 0, 0, 4),
    Symptom("G27", "Upaya mencari aman", 0, 0, 3)
  ]
  const SYMPTOMS: seq<Symptom> := SYMPTOMS_G01_G09 + SYMPTOMS_G10_G18 + SYMPTOMS_G19_G27

  /** `DENOM`: the fixed denominators. */
  function Denom(d: Disease): int {
    match d
    case P1 => 14
    case P2 => 26
    case P3 => 20
  }

  /** The first entry of `t` with the given code. */
  function FindIn(t: seq<Symptom>, code: string): (r: Option<Symptom>)
    ensures r.Some? ==> r.value in t && r.value.code == code
    ensures r.None? ==> forall s :: s in t ==> s.code != code
  {
    if t == [] then None
    else if t[0].code == code then Some(t[0])
    else FindIn(t[1..], code)
  }

  /** `getSymptom(code)`: the table entry with that code, or `None` for an unknown code. */
  function GetSymptom(code: string): (r: Option<Symptom>)
    ensures r.Some? ==> r.value in SYMPTOMS && r.value.code == code
    ensures r.None? ==> forall s :: s in SYMPTOMS ==> s.code != code
  {
    FindIn(SYMPTOMS, code)
  }

  /** `s.weights[d]` for the symptom with the given code, 0 for an unknown code. */
  function TableWeight(code: string, d: Disease): nat {
    match GetSymptom(code)
    case Some(s) => s.Weight(d)
    case None => 0
  }

  /** The sum of one disease's weights down a table. */
  function ColumnTotal(t: seq<Symptom>, d: Disease): int {
    if t == [] then 0 else t[0].Weight(d) + ColumnTotal(t[1..], d)
  }

  /** One disease's column of a table, as an object from symptom code to weight. */
  function ColumnOf(t: seq<Symptom>, d: Disease): Obj<int> {
    if t == [] then [] else [(t[0].code, t[0].Weight(d) as int)] + ColumnOf(t[1..], d)
  }

  function Column(d: Disease): Obj<int> {
    ColumnOf(SYMPTOMS, d)
  }

  /** The number of a symptom code `Gnn`: its two digits read as a number, or -1 when it has another shape. */
  function CodeNumber(code: string): int {
    if |code| == 3 && code[0] == 'G' then 10 * (code[1] as int - '0' as int) + (code[2] as int - '0' as int) else -1
  }

  lemma {:induction false} ColumnOfAt(t: seq<Symptom>, d: Disease, i: nat)
    requires i < |t|
    ensures |ColumnOf(t, d)| == |t| && ColumnOf(t, d)[i] == (t[i].code, t[i].Weight(d) as int)
  {
    ColumnLength(t, d);
    if i > 0 {
      ColumnOfAt(t[1..], d, i - 1);
    }
  }

  lemma {:induction false} ColumnLength(t: seq<Symptom>, d: Disease)
    ensures |ColumnOf(t, d)| == |t|
  {
    if t != [] {
      ColumnLength(t[1..], d);
    }
  }

  lemma {:induction false} ColumnTotalAppend(a: seq<Symptom>, b: seq<Symptom>, d: Disease)
    ensures ColumnTotal(a + b, d) == ColumnTotal(a, d) + ColumnTotal(b, d)
  {
    if a == [] {
      assert a + b == b;
    } else {
      assert (a + b)[0] == a[0] && (a + b)[1..] == a[1..] + b;
      ColumnTotalAppend(a[1..], b, d);
    }
  }

  lemma {:induction false} SumColumnOf(t: seq<Symptom>, d: Disease)
    ensures Sum(ColumnOf(t, d)) == ColumnTotal(t, d)
    ensures NonNegative(ColumnOf(t, d))
  {
    if t != [] {
      SumColumnOf(t[1..], d);
      var c := ColumnOf(t, d);
      assert c[1..] == ColumnOf(t[1..], d);
    }
  }

  /** Reading a column object at a code gives the weight `getSymptom` finds for it. */
  lemma {:induction false} GetColumnOf(t: seq<Symptom>, d: Disease, code: string)
    ensures Get(ColumnOf(t, d), code).GetOr(0) == match FindIn(t, code) case Some(s) => s.Weight(d) as int case None => 0
  {
    if t != [] && t[0].code != code {
      GetColumnOf(t[1..], d, code);
    }
  }

  lemma FirstBlockCodes()
    ensures |SYMPTOMS_G01_G09| == 9
    ensures forall i :: 0 <= i < 9 ==> CodeNumber(SYMPTOMS_G01_G09[i].code) == i + 1
  {
  }

  lemma FirstBlockTotals()
    ensures ColumnTotal(SYMPTOMS_G01_G09, P1) == 11
    ensures ColumnTotal(SYMPTOMS_G01_G09, P2) == 3
    ensures ColumnTotal(SYMPTOMS_G01_G09, P3) == 3
  {
  }

  lemma SecondBlockCodes()
    ensures |SYMPTOMS_G10_G18| == 9
    ensures forall i :: 0 <= i < 9 ==> CodeNumber(SYMPTOMS_G10_G18[i].code) == i + 10
  {
  }

  lemma SecondBlockTotals()
    ensures ColumnTotal(SYMPTOMS_G10_G18, P1) == 3
    ensures ColumnTotal(SYMPTOMS_G10_G18, P2) == 10
    ensures ColumnTotal(SYMPTOMS_G10_G18, P3) == 2
  {
  }

  lemma ThirdBlockCodes()
    ensures |SYMPTOMS_G19_G27| == 9
    ensures forall i :: 0 <= i < 9 ==> CodeNumber(SYMPTOMS_G19_G27[i].code) == i + 19
  {
  }

  lemma ThirdBlockTotals()
    ensures ColumnTotal(SYMPTOMS_G19_G27, P1) == 0
    ensures ColumnTotal(SYMPTOMS_G19_G27, P2) == 13
    ensures ColumnTotal(SYMPTOMS_G19_G27, P3) == 15
  {
  }

  /** The symptom codes are `G01` to `G27`, in order, so no two entries share a code. */
  lemma CodesAreNumbered()
    ensures |SYMPTOMS| == 27
    ensures forall i :: 0 <= i < |SYMPTOMS| ==> CodeNumber(SYMPTOMS[i].code) == i + 1
  {
    FirstBlockCodes();
    SecondBlockCodes();
    ThirdBlockCodes();
    var a, b, c := SYMPTOMS_G01_G09, SYMPTOMS_G10_G18, SYMPTOMS_G19_G27;
    forall i | 0 <= i < 27
      ensures CodeNumber(SYMPTOMS[i].code) == i + 1
    {
      if i < 9 {
        assert SYMPTOMS[i] == a[i];
      } else if i < 18 {
        assert SYMPTOMS[i] == b[i - 9];
      } else {
        assert SYMPTOMS[i] == c[i - 18];
      }
    }
  }

  /**
   * `DENOM` holds the column sums of `SYMPTOMS`: each fixed denominator is the total
   * weight the table gives that disease.
   */
  lemma DenomIsColumnTotal(d: Disease)
    ensures Denom(d) == ColumnTotal(SYMPTOMS, d)
  {
    FirstBlockTotals();
    SecondBlockTotals();
    ThirdBlockTotals();
    DenomFromBlocks(SYMPTOMS_G01_G09, SYMPTOMS_G10_G18, SYMPTOMS_G19_G27, d);
  }

  lemma DenomFromBlocks(a: seq<Symptom>, b: seq<Symptom>, c: seq<Symptom>, d: Disease)
    requires ColumnTotal(a, d) + ColumnTotal(b, d) + ColumnTotal(c, d) == Denom(d)
    ensures ColumnTotal(a + b + c, d) == Denom(d)
  {
    ColumnTotalAppend(a, b, d);
    ColumnTotalAppend(a + b, c, d);
  }

  /**
   * Each disease column is an object with distinct keys and non-negative values
   * whose values add up to the disease's denominator, and reading it at a code gives
   * the table weight of that code.
   */
  lemma ColumnFacts(d: Disease)
    ensures DistinctKeys(Column(d)) && NonNegative(Column(d))
    ensures Sum(Column(d)) == Denom(d)
    ensures forall code :: Get(Column(d), code).GetOr(0) == TableWeight(code, d)
  {
    var c := Column(d);
    CodesAreNumbered();
    ColumnLength(SYMPTOMS, d);
    forall i, j | 0 <= i < j < |c|
      ensures Keys(c)[i] != Keys(c)[j]
    {
      ColumnOfAt(SYMPTOMS, d, i);
      ColumnOfAt(SYMPTOMS, d, j);
    }
    SumColumnOf(SYMPTOMS, d);
    DenomIsColumnTotal(d);
    forall code
      ensures Get(c, code).GetOr(0) == TableWeight(code, d)
    {
      GetColumnOf(SYMPTOMS, d, code);
    }
  }

  lemma {:induction false} FindInDistinct(t: seq<Symptom>, i: nat)
    requires i < |t|
    requires forall j :: 0 <= j < i ==> t[j].code != t[i].code
    ensures FindIn(t, t[i].code) == Some(t[i])
  {
    if i > 0 {
      FindInDistinct(t[1..], i - 1);
    }
  }

  /** `getSymptom` finds every entry of the table under its own code. */
  lemma GetSymptomAt(i: nat)
    requires i < |SYMPTOMS|
    ensures GetSymptom(SYMPTOMS[i].code) == Some(SYMPTOMS[i])
  {
    CodesAreNumbered();
    FindInDistinct(SYMPTOMS, i);
  }

  /** The weight of the `i`-th symptom of the table, read through its code. */
  lemma TableWeightAt(i: nat, d: Disease)
    requires i < |SYMPTOMS|
    ensures TableWeight(SYMPTOMS[i].code, d) == SYMPTOMS[i].Weight(d)
  {
    GetSymptomAt(i);
  }
}
