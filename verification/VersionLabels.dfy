/** The version labels of apps/api/captureos/corpus/ingest.py, v1, v2 and so on. */
module VersionLabels {

  predicate IsDigit(c: char) {
    '0' <= c <= '9'
  }

  // str.isdigit() on ASCII text
  predicate AllDigits(s: string) {
    s != "" && forall c | c in s :: IsDigit(c)
  }

  function Decimal(n: nat): string {
    if n < 10 then [(48 + n) as char] else Decimal(n / 10) + [(48 + n % 10) as char]
  }

  function Parse(s: string): nat
    requires forall c | c in s :: IsDigit(c)
  {
    if s == "" then 0
    else
      assert IsDigit(s[|s| - 1]);
      Parse(s[..|s| - 1]) * 10 + (s[|s| - 1] as int - '0' as int)
  }

  function Label(n: nat): string {
    "v" + Decimal(n)
  }

  function NextVersion(version: string): string {
    if version != "" && version[0] == 'v' && AllDigits(version[1..]) then Label(Parse(version[1..]) + 1) else "v2"
  }

  // Printing a number and reading it back gives the number.
  lemma {:induction false} ParsePrinted(n: nat)
    ensures AllDigits(Decimal(n)) && Parse(Decimal(n)) == n
  {
    var last := [(48 + n % 10) as char];
    if n < 10 {
      assert Decimal(n) == last && last[..0] == "";
    } else {
      ParsePrinted(n / 10);
      assert (Decimal(n / 10) + last)[..|Decimal(n / 10)|] == Decimal(n / 10);
    }
  }

  // The first labels as they are printed; anything that is not a label is followed by v2.
  lemma KnownLabels(other: string)
    ensures Label(1) == "v1" && Label(9) == "v9" && Label(10) == "v10" && Label(127) == "v127"
    ensures (forall n :: other != "v" + n || !AllDigits(n)) ==> NextVersion(other) == "v2"
  {
    assert Decimal(12) == "12" && Decimal(127) == Decimal(12) + "7";
    if other != "" && other[0] == 'v' {
      assert other == "v" + other[1..];
    }
  }

  // Labels the ingest wrote are counted up one by one, and are all different.
  lemma LabelsCountUp(n: nat, m: nat)
    ensures NextVersion(Label(n)) == Label(n + 1)
    ensures Label(n) == Label(m) ==> n == m
  {
    ParsePrinted(n);
    ParsePrinted(m);
    assert Label(n)[1..] == Decimal(n) && Label(m)[1..] == Decimal(m);
  }
}
