/** The names of the generated files: the 1-based position in decimal, then ".png". */
module Naming {

  /** The character of a decimal digit. */
  function DigitChar(d: nat): (c: char)
    requires d < 10
    ensures '0' <= c <= '9'
    ensures c as int - '0' as int == d
  {
    ('0' as int + d) as char
  }

  predicate IsDigits(s: string)
  {
    forall i :: 0 <= i < |s| ==> '0' <= s[i] <= '9'
  }

  /** The decimal numeral of n, as JavaScript's string conversion writes it. */
  function NatToString(n: nat): (s: string)
    ensures |s| >= 1 && IsDigits(s)
    ensures n > 0 ==> s[0] != '0'
    decreases n
  {
    if n < 10 then [DigitChar(n)] else NatToString(n / 10) + [DigitChar(n % 10)]
  }

  /** The value of a decimal numeral. */
  function ParseDecimal(s: string): nat
    requires IsDigits(s)
    decreases |s|
  {
    if |s| == 0 then 0
    else ParseDecimal(s[..|s| - 1]) * 10 + (s[|s| - 1] as int - '0' as int)
  }

  /** Reading back the numeral of n gives n. */
  lemma {:induction false} ParseNatToString(n: nat)
    ensures ParseDecimal(NatToString(n)) == n
    decreases n
  {
    var s := NatToString(n);
    if n >= 10 {
      ParseNatToString(n / 10);
      assert s[..|s| - 1] == NatToString(n / 10);
    } else {
      assert s[..0] == [];
    }
  }

  /** Distinct numbers have distinct numerals. */
  lemma NatToStringInjective(m: nat, n: nat)
    requires m != n
    ensures NatToString(m) != NatToString(n)
  {
    ParseNatToString(m);
    ParseNatToString(n);
  }

  /** The name of the result at 0-based position i: `${i + 1}.png`, a numeral then ".png". */
  function ResultName(i: nat): (s: string)
    ensures |s| >= 5 && s[|s| - 4..] == ".png" && IsDigits(s[..|s| - 4])
  {
    NatToString(i + 1) + ".png"
  }

  /** Result names are numerals of the 1-based position followed by ".png", and distinct. */
  lemma ResultNamesDistinct(i: nat, j: nat)
    requires i != j
    ensures ResultName(i) != ResultName(j)
  {
    var a, b := NatToString(i + 1), NatToString(j + 1);
    NatToStringInjective(i + 1, j + 1);
    assert ResultName(i)[..|a|] == a && ResultName(j)[..|b|] == b;
  }

  /** The name of a result reads back as its 1-based position. */
  lemma ResultNameReadsBack(i: nat)
    ensures var s := ResultName(i);
      |s| >= 5 && IsDigits(s[..|s| - 4]) && ParseDecimal(s[..|s| - 4]) == i + 1
  {
    var s := ResultName(i);
    assert s[..|s| - 4] == NatToString(i + 1);
    ParseNatToString(i + 1);
  }
}
