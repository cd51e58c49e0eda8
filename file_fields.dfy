/**
 * The upload field names `file_row_<n>`: the server declares one per row number
 * and `applyFiles` parses the number back out of a field name with the pattern
 * `^file_row_(\d+)$` and `parseInt`.
 */
module FileFields {
  import opened Wrappers

  const Prefix: string := "file_row_"

  /** `\d` without the `u` flag: an ASCII decimal digit. */
  predicate IsDigit(c: char) {
    '0' <= c <= '9'
  }

  predicate AllDigits(s: string) {
    forall i :: 0 <= i < |s| ==> IsDigit(s[i])
  }

  function DigitValue(c: char): nat
    requires IsDigit(c)
  {
    (c as int - '0' as int) as nat
  }

  function DigitChar(d: nat): (c: char)
    requires d < 10
    ensures IsDigit(c) && DigitValue(c) == d
  {
    ('0' as int + d) as char
  }

  function Pow10(n: nat): (p: nat)
    ensures p >= 1
  {
    if n == 0 then 1 else 10 * Pow10(n - 1)
  }

  /** The number a digit string denotes, read as positional decimal notation. */
  function DigitsValue(s: string): nat
    requires AllDigits(s)
  {
    if |s| == 0 then 0 else 10 * DigitsValue(s[..|s| - 1]) + DigitValue(s[|s| - 1])
  }

  /** `parseInt`'s left-to-right accumulation over a digit string. */
  function Accumulate(s: string, acc: nat): nat
    requires AllDigits(s)
  {
    if |s| == 0 then acc else Accumulate(s[1..], 10 * acc + DigitValue(s[0]))
  }

  /** The shortest decimal notation of a number, as `${n}` writes it. */
  function DecimalString(n: nat): (s: string)
    ensures |s| > 0 && AllDigits(s)
  {
    if n < 10 then [DigitChar(n)] else DecimalString(n / 10) + [DigitChar(n % 10)]
  }

  /** `fieldname.match(/^file_row_(\d+)$/)` and then `parseInt(match[1])`. */
  function ParseFileRowField(name: string): Option<nat> {
    if |name| > |Prefix| && name[..|Prefix|] == Prefix && AllDigits(name[|Prefix|..]) then
      Some(Accumulate(name[|Prefix|..], 0))
    else None
  }

  /** The field the routes declare for row number `n` (`file_row_${n}`). */
  function FileRowField(n: nat): string {
    Prefix + DecimalString(n)
  }

  lemma {:induction false} DigitsValueCons(c: char, s: string)
    requires IsDigit(c) && AllDigits(s)
    ensures AllDigits([c] + s)
    ensures DigitsValue([c] + s) == DigitValue(c) * Pow10(|s|) + DigitsValue(s)
  {
    var cs := [c] + s;
    if |s| > 0 {
      assert cs[..|cs| - 1] == [c] + s[..|s| - 1];
      assert cs[|cs| - 1] == s[|s| - 1];
      var front := s[..|s| - 1];
      DigitsValueCons(c, front);
      AppendDigit(DigitValue(c), Pow10(|front|), DigitsValue(front), DigitValue(s[|s| - 1]));
    } else {
      assert cs[..0] == [];
    }
  }

  /** Left-to-right accumulation computes the positional value: parseInt reads the digits as decimal. */
  lemma {:induction false} AccumulateValue(s: string, acc: nat)
    requires AllDigits(s)
    ensures Accumulate(s, acc) == acc * Pow10(|s|) + DigitsValue(s)
  {
    if |s| > 0 {
      var d, rest := DigitValue(s[0]), s[1..];
      AccumulateValue(rest, 10 * acc + d);
      DigitsValueCons(s[0], rest);
      assert [s[0]] + rest == s;
      ShiftDigit(acc, d, Pow10(|rest|));
    }
  }

  lemma AppendDigit(d: nat, p: nat, v: nat, e: nat)
    ensures 10 * (d * p + v) + e == d * (10 * p) + (10 * v + e)
  {
  }

  lemma ShiftDigit(acc: nat, d: nat, p: nat)
    ensures (10 * acc + d) * p == acc * (10 * p) + d * p
  {
  }

  lemma {:induction false} DecimalStringValue(n: nat)
    ensures DigitsValue(DecimalString(n)) == n
  {
    var s := DecimalString(n);
    if n < 10 {
      assert s[..0] == [];
    } else {
      var front := DecimalString(n / 10);
      assert s[..|s| - 1] == front;
      DecimalStringValue(n / 10);
    }
  }

  /** The field declared for row `n` parses back to exactly `n`. */
  lemma FileRowFieldRoundTrip(n: nat)
    ensures ParseFileRowField(FileRowField(n)) == Some(n)
  {
    var name := FileRowField(n);
    assert name[..|Prefix|] == Prefix;
    assert name[|Prefix|..] == DecimalString(n);
    AccumulateValue(DecimalString(n), 0);
    DecimalStringValue(n);
  }

  /**
   * A field name is accepted exactly when it is the prefix followed by one or more
   * digits, and then its number is the digits' decimal value (leading zeros allowed).
   */
  lemma ParseFileRowFieldSpec(name: string)
    ensures ParseFileRowField(name).Some? <==>
            |name| > |Prefix| && name[..|Prefix|] == Prefix && AllDigits(name[|Prefix|..])
    ensures ParseFileRowField(name).Some? ==> ParseFileRowField(name).value == DigitsValue(name[|Prefix|..])
  {
    if |name| > |Prefix| && name[..|Prefix|] == Prefix && AllDigits(name[|Prefix|..]) {
      AccumulateValue(name[|Prefix|..], 0);
    }
  }

  /** A field name with anything but digits after the prefix ("file_row_1a", "file_row_") is ignored. */
  lemma RejectsNonDigits()
    ensures ParseFileRowField("file_row_1a") == None
    ensures ParseFileRowField("file_row_") == None
    ensures ParseFileRowField("proof") == None
  {
    assert !IsDigit("file_row_1a"[10]);
  }
}
