/** Identifiers of retained cases: `CASE-` followed by a sequence number padded to three digits. */
module CaseId {

  predicate IsDigit(c: char) {
    '0' <= c <= '9'
  }

  function Digit(n: nat): (c: char)
    requires n < 10
    ensures IsDigit(c) && c as int - '0' as int == n
  {
    ('0' as int + n) as char
  }

  /** `String(n)` for a natural number: its decimal digits, without leading zeros. */
  function Decimal(n: nat): (s: string)
    ensures 1 <= |s| && forall i :: 0 <= i < |s| ==> IsDigit(s[i])
    ensures n < 10 ==> |s| == 1
    ensures n < 100 ==> |s| <= 2
    ensures n < 1000 ==> |s| <= 3
  {
    if n < 10 then [Digit(n)] else Decimal(n / 10) + [Digit(n % 10)]
  }

  function Zeros(k: nat): (s: string)
    ensures |s| == k && forall i :: 0 <= i < k ==> s[i] == '0'
  {
    if k == 0 then "" else Zeros(k - 1) + "0"
  }

  /** `s.padStart(width, "0")`. */
  function PadStart(s: string, width: nat): (r: string)
    ensures |r| == if |s| >= width then |s| else width
    ensures r[|r| - |s|..] == s
    ensures forall i :: 0 <= i < |r| - |s| ==> r[i] == '0'
  {
    if |s| >= width then s else Zeros(width - |s|) + s
  }

  /** `formatCaseId(count)`: the id for the case that follows `count` existing ones. */
  function FormatCaseId(count: nat): string {
    "CASE-" + PadStart(Decimal(count + 1), 3)
  }

  /** The number a string of decimal digits denotes (leading zeros allowed). */
  function ParseDecimal(s: string): int {
    if s == [] then 0
    else 10 * ParseDecimal(s[..|s| - 1]) + (s[|s| - 1] as int - '0' as int)
  }

  lemma {:induction false} DecimalRoundTrip(n: nat)
    ensures ParseDecimal(Decimal(n)) == n
  {
    if n >= 10 {
      DecimalRoundTrip(n / 10);
      var s := Decimal(n);
      assert s[..|s| - 1] == Decimal(n / 10);
    }
  }

  lemma {:induction false} LeadingZeros(k: nat, s: string)
    ensures ParseDecimal(Zeros(k) + s) == ParseDecimal(s)
  {
    if s == [] {
      assert Zeros(k) + s == Zeros(k);
      ZerosParse(k);
    } else {
      var init := s[..|s| - 1];
      LeadingZeros(k, init);
      assert (Zeros(k) + s)[..|Zeros(k) + s| - 1] == Zeros(k) + init;
    }
  }

  lemma {:induction false} ZerosParse(k: nat)
    ensures ParseDecimal(Zeros(k)) == 0
  {
    if k > 0 {
      ZerosParse(k - 1);
      assert Zeros(k)[..k - 1] == Zeros(k - 1);
    }
  }

  /**
   * A formatted id is `CASE-` followed by at least three digits, which read back as
   * the sequence number `count + 1`; below 999 existing cases it is exactly eight
   * characters long.
   */
  lemma FormatCaseIdRoundTrip(count: nat)
    ensures |FormatCaseId(count)| >= 8 && FormatCaseId(count)[..5] == "CASE-"
    ensures forall i :: 5 <= i < |FormatCaseId(count)| ==> IsDigit(FormatCaseId(count)[i])
    ensures ParseDecimal(FormatCaseId(count)[5..]) == count + 1
    ensures count < 999 ==> |FormatCaseId(count)| == 8
  {
    var digits := Decimal(count + 1);
    var padded := PadStart(digits, 3);
    var id := FormatCaseId(count);
    PadKeepsValue(digits, 3);
    DecimalRoundTrip(count + 1);
    assert id == "CASE-" + padded;
    assert id[..5] == "CASE-" && id[5..] == padded;
  }

  /** Padding a string of digits with zeros keeps it all digits and keeps its value. */
  lemma PadKeepsValue(s: string, width: nat)
    requires forall i :: 0 <= i < |s| ==> IsDigit(s[i])
    ensures forall i :: 0 <= i < |PadStart(s, width)| ==> IsDigit(PadStart(s, width)[i])
    ensures ParseDecimal(PadStart(s, width)) == ParseDecimal(s)
  {
    if |s| < width {
      LeadingZeros(width - |s|, s);
    }
  }

  /** Distinct counts give distinct ids. */
  lemma FormatCaseIdInjective(a: nat, b: nat)
    requires FormatCaseId(a) == FormatCaseId(b)
    ensures a == b
  {
    FormatCaseIdRoundTrip(a);
    FormatCaseIdRoundTrip(b);
  }
}
