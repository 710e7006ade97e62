/** A concrete number format for whole numbers: decimal digits, which is
    how a template literal writes a non-negative integer below 10^21 and
    what `parseFloat` reads back. It shows that the lawful-format hypothesis of
    the round trip can be met. */
module Decimal {
  import opened Coordinates

  function DigitChar(d: nat): (c: char)
    requires d < 10
    ensures '0' <= c <= '9'
  {
    ('0' as int + d) as char
  }

  /** The value of a digit; any other character reads as 0. */
  function DigitValue(c: char): (d: nat)
    ensures d < 10
  {
    if '0' <= c <= '9' then c as int - '0' as int else 0
  }

  /** `${n}` for a non-negative integer below 10^21: its decimal digits, no
    leading zero. Larger numbers are written in exponent form by
    JavaScript; this model writes plain digits for every `nat`. */
  function Show(n: nat): (s: string)
    ensures |s| > 0
    ensures forall i :: 0 <= i < |s| ==> '0' <= s[i] <= '9'
    decreases n
  {
    if n < 10 then [DigitChar(n)] else Show(n / 10) + [DigitChar(n % 10)]
  }

  /** Reads a string of decimal digits, most significant first. */
  function Read(s: string): nat
    decreases |s|
  {
    if |s| == 0 then 0 else Read(s[..|s| - 1]) * 10 + DigitValue(s[|s| - 1])
  }

  /** Reading the digits of `n` gives `n`. */
  lemma {:induction false} ReadShow(n: nat)
    ensures Read(Show(n)) == n
    decreases n
  {
    var s := Show(n);
    if n < 10 {
      assert s[..0] == [];
    } else {
      ReadShow(n / 10);
      assert s[..|s| - 1] == Show(n / 10);
      assert DigitValue(s[|s| - 1]) == n % 10;
    }
  }

  /** The decimal format as a number format for coordinates. */
  function Format(): NumFormat<nat> {
    NumFormat(Show, Read)
  }

  /** The decimal format is lawful. */
  lemma FormatIsLawful()
    ensures Lawful(Format())
  {
    forall n: nat
      ensures Format().read(Format().show(n)) == n
      ensures ',' !in Format().show(n) && '\n' !in Format().show(n)
    {
      ReadShow(n);
    }
  }
}
