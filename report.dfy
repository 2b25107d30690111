/** The report lines written after the structural trace: the keyword count,
    the switch count and the per-switch case counts, each an unsigned number
    written in decimal by `std::cout`. Each line comes with a reader that
    recovers the numbers from its text. */
module Report {

  datatype Option<T> = None | Some(value: T)

  predicate IsDigit(c: char)
  {
    '0' <= c <= '9'
  }

  predicate AllDigits(s: string)
  {
    forall i :: 0 <= i < |s| ==> IsDigit(s[i])
  }

  function DigitChar(d: nat): (c: char)
    requires d < 10
    ensures IsDigit(c)
  {
    (48 + d) as char
  }

  function DigitValue(c: char): (d: nat)
    requires IsDigit(c)
    ensures d < 10 && DigitChar(d) == c
  {
    c as int - 48
  }

  /** The decimal text of n, as `operator<<` writes an unsigned value: only
      digits, and no leading zero unless the number is 0. */
  function Decimal(n: nat): (s: string)
    ensures |s| > 0 && AllDigits(s)
    ensures s[0] == '0' ==> n == 0
  {
    if n < 10 then [DigitChar(n)] else Decimal(n / 10) + [DigitChar(n % 10)]
  }

  /** The value of a run of decimal digits. */
  function ParseDecimal(s: string): nat
    requires AllDigits(s)
  {
    if s == [] then 0 else 10 * ParseDecimal(s[..|s| - 1]) + DigitValue(s[|s| - 1])
  }

  lemma {:induction false} DecimalRoundTrip(n: nat)
    ensures ParseDecimal(Decimal(n)) == n
    decreases n
  {
    if n >= 10 {
      var s := Decimal(n);
      assert s[..|s| - 1] == Decimal(n / 10);
      DecimalRoundTrip(n / 10);
    }
  }

  predicate HasPrefix(s: string, prefix: string)
  {
    |prefix| <= |s| && s[..|prefix|] == prefix
  }

  /** `"keywords: " << n`. */
  function KeywordsLine(n: nat): string
  {
    "keywords: " + Decimal(n)
  }

  /** `"switch: " << n`. */
  function SwitchLine(n: nat): string
  {
    "switch: " + Decimal(n)
  }

  /** The tail of the case line: `" " << n` for each count, in order. */
  function CaseFields(counts: seq<nat>): string
  {
    if counts == [] then "" else " " + Decimal(counts[0]) + CaseFields(counts[1..])
  }

  /** `"case:"` followed by the counts. */
  function CaseLine(counts: seq<nat>): string
  {
    "case:" + CaseFields(counts)
  }

  /** Reads the number after a tag, when the rest of the line is exactly
      one decimal number. */
  function ParseLabelled(tag: string, line: string): Option<nat>
  {
    if HasPrefix(line, tag) && |line| > |tag| && AllDigits(line[|tag|..])
    then Some(ParseDecimal(line[|tag|..]))
    else None
  }

  lemma KeywordsLineRoundTrip(n: nat)
    ensures ParseLabelled("keywords: ", KeywordsLine(n)) == Some(n)
  {
    var line := KeywordsLine(n);
    assert line[..10] == "keywords: " && line[10..] == Decimal(n);
    DecimalRoundTrip(n);
  }

  lemma SwitchLineRoundTrip(n: nat)
    ensures ParseLabelled("switch: ", SwitchLine(n)) == Some(n)
  {
    var line := SwitchLine(n);
    assert line[..8] == "switch: " && line[8..] == Decimal(n);
    DecimalRoundTrip(n);
  }

  /** Length of the run of digits `s` starts with. */
  function DigitRun(s: string): (k: nat)
    ensures k <= |s| && AllDigits(s[..k])
    ensures k < |s| ==> !IsDigit(s[k])
  {
    if s != [] && IsDigit(s[0]) then
      var k := 1 + DigitRun(s[1..]);
      assert s[..k] == [s[0]] + s[1..][..k - 1];
      k
    else 0
  }

  lemma {:induction false} DigitRunOver(d: string, rest: string)
    requires AllDigits(d)
    requires rest == [] || !IsDigit(rest[0])
    ensures DigitRun(d + rest) == |d|
    decreases |d|
  {
    if d == [] {
      assert d + rest == rest;
    } else {
      assert (d + rest)[1..] == d[1..] + rest;
      DigitRunOver(d[1..], rest);
    }
  }

  /** Reads a sequence of `" " << n` fields. */
  function ParseFields(s: string): Option<seq<nat>>
    decreases |s|
  {
    if s == [] then Some([])
    else if s[0] != ' ' then None
    else
      var k := DigitRun(s[1..]);
      if k == 0 then None
      else
        match ParseFields(s[1 + k..])
        case None => None
        case Some(rest) =>
          assert s[1..1 + k] == s[1..][..k];
          Some([ParseDecimal(s[1..1 + k])] + rest)
  }

  function ParseCaseLine(line: string): Option<seq<nat>>
  {
    if HasPrefix(line, "case:") then ParseFields(line[5..]) else None
  }

  lemma {:induction false} CaseFieldsRoundTrip(counts: seq<nat>)
    ensures ParseFields(CaseFields(counts)) == Some(counts)
    decreases |counts|
  {
    if counts != [] {
      var d, rest := Decimal(counts[0]), CaseFields(counts[1..]);
      var s := CaseFields(counts);
      assert s == " " + (d + rest);
      assert s[1..] == d + rest;
      if counts[1..] != [] {
        assert rest[0] == ' ';
      }
      DigitRunOver(d, rest);
      assert s[1..1 + |d|] == d;
      assert s[1 + |d|..] == rest;
      DecimalRoundTrip(counts[0]);
      CaseFieldsRoundTrip(counts[1..]);
      assert [counts[0]] + counts[1..] == counts;
    }
  }

  /** The case line can be read back into exactly the counts it was written
      from, in order. */
  lemma CaseLineRoundTrip(counts: seq<nat>)
    ensures ParseCaseLine(CaseLine(counts)) == Some(counts)
  {
    var line := CaseLine(counts);
    assert line[..5] == "case:" && line[5..] == CaseFields(counts);
    CaseFieldsRoundTrip(counts);
  }
}
