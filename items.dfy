/**
 * The head-count caption of a project card (`ProjectItem.personsText`), with the
 * decimal rendering of an integer that the template literal performs.
 */
module Items {
  import opened Projects

  predicate IsDigit(c: char) {
    '0' <= c <= '9'
  }

  function DigitChar(d: nat): (c: char)
    requires d < 10
    ensures IsDigit(c) && c as int - '0' as int == d
  {
    ('0' as int + d) as char
  }

  /** The decimal digits of `n`, most significant first, without leading zeros. */
  function NatToDecimal(n: nat): (s: string)
    ensures |s| >= 1
    ensures forall k :: 0 <= k < |s| ==> IsDigit(s[k])
    ensures s[0] == '0' ==> n == 0 && s == "0"
  {
    if n < 10 then [DigitChar(n)] else NatToDecimal(n / 10) + [DigitChar(n % 10)]
  }

  /** The text `${n}` gives for an integer `n`: a minus sign for a negative value,
      then the digits of its magnitude. */
  function IntToDecimal(n: int): (s: string)
    ensures |s| >= 1
    ensures s[0] == '-' <==> n < 0
    ensures ' ' !in s
  {
    if n < 0 then "-" + NatToDecimal(-n) else NatToDecimal(n)
  }

  /** The value of a run of decimal digits (the reading a person makes of the caption). */
  function DigitsValue(s: string): int
  {
    if s == [] then 0 else DigitsValue(s[..|s| - 1]) * 10 + (s[|s| - 1] as int - '0' as int)
  }

  function DecimalValue(s: string): int
  {
    if |s| > 0 && s[0] == '-' then -DigitsValue(s[1..]) else DigitsValue(s)
  }

  lemma {:induction false} NatToDecimalRoundTrip(n: nat)
    ensures DigitsValue(NatToDecimal(n)) == n
  {
    var s := NatToDecimal(n);
    if n < 10 {
      assert s[..|s| - 1] == [];
    } else {
      assert s[..|s| - 1] == NatToDecimal(n / 10);
      NatToDecimalRoundTrip(n / 10);
    }
  }

  /** Reading the rendered number back gives the number. */
  lemma DecimalRoundTrip(n: int)
    ensures DecimalValue(IntToDecimal(n)) == n
  {
    if n < 0 {
      assert ("-" + NatToDecimal(-n))[1..] == NatToDecimal(-n);
      NatToDecimalRoundTrip(-n);
    } else {
      assert IsDigit(NatToDecimal(n)[0]);
      NatToDecimalRoundTrip(n);
    }
  }

  /** The caption's leading word: everything before its first space. */
  function NumberPart(s: string): string
  {
    if s == [] || s[0] == ' ' then [] else [s[0]] + NumberPart(s[1..])
  }

  lemma {:induction false} NumberPartOf(a: string, b: string)
    requires ' ' !in a
    ensures NumberPart(a + " " + b) == a
  {
    if a != [] {
      assert (a + " " + b)[1..] == a[1..] + " " + b;
      assert ' ' !in a[1..] by {
        forall k | 0 <= k < |a[1..]| ensures a[1..][k] != ' ' { assert a[1..][k] == a[k + 1]; }
      }
      NumberPartOf(a[1..], b);
    }
  }

  /** `personsText`: "1 person" for a single person, "<n> persons" otherwise.
      The special case is the general form's singular. */
  function PersonsText(p: Project): (s: string)
    ensures s == IntToDecimal(p.peopleAmount) + (if p.peopleAmount == 1 then " person" else " persons")
  {
    if p.peopleAmount == 1 then "1 person"
    else IntToDecimal(p.peopleAmount) + " persons"
  }

  /** The caption states the head count: its leading number reads back as `peopleAmount`. */
  lemma PersonsTextReadsBack(p: Project)
    ensures DecimalValue(NumberPart(PersonsText(p))) == p.peopleAmount
  {
    var n := IntToDecimal(p.peopleAmount);
    var noun := if p.peopleAmount == 1 then "person" else "persons";
    assert PersonsText(p) == n + " " + noun;
    NumberPartOf(n, noun);
    DecimalRoundTrip(p.peopleAmount);
  }

  /** The noun is plural exactly when the count is not one. */
  lemma PluralUnlessOne(p: Project)
    ensures var s := PersonsText(p); s[|s| - 1] == 's' <==> p.peopleAmount != 1
  {
  }

  /** Two cards with the same caption have the same head count. */
  lemma PersonsTextInjective(p: Project, q: Project)
    requires PersonsText(p) == PersonsText(q)
    ensures p.peopleAmount == q.peopleAmount
  {
    PersonsTextReadsBack(p);
    PersonsTextReadsBack(q);
  }
}
