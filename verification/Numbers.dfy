/** Decimal numbers as the program prints and reads them: strconv.Itoa,
    and strconv.Atoi / strconv.ParseInt in base 10 with a 64-bit result. */
module Numbers {

  datatype Option<+T> = None | Some(value: T)

  const MAX_INT64: int := 0x7FFF_FFFF_FFFF_FFFF
  const MIN_INT64: int := -0x8000_0000_0000_0000

  predicate IsDigit(c: char) {
    '0' <= c <= '9'
  }

  predicate AllDigits(s: string) {
    forall i | 0 <= i < |s| :: IsDigit(s[i])
  }

  function DigitValue(c: char): (v: nat)
    requires IsDigit(c)
    ensures v < 10
  {
    c as int - '0' as int
  }

  function DigitChar(d: nat): (c: char)
    requires d < 10
    ensures IsDigit(c) && DigitValue(c) == d
  {
    ('0' as int + d) as char
  }

  /** The number a run of digits spells. */
  function Value(s: string): nat
    requires AllDigits(s)
  {
    if s == "" then 0 else 10 * Value(s[..|s| - 1]) + DigitValue(s[|s| - 1])
  }

  function Itoa(n: nat): string {
    if n < 10 then [DigitChar(n)] else Itoa(n / 10) + [DigitChar(n % 10)]
  }

  /** Atoi: an optional sign, at least one digit, and nothing that does not fit in 64 bits. */
  function ParseInt(s: string): Option<int> {
    var signed := s != "" && (s[0] == '+' || s[0] == '-');
    var digits := if signed then s[1..] else s;
    if digits == "" || !AllDigits(digits) then None
    else
      var v: int := if signed && s[0] == '-' then 0 - Value(digits) else Value(digits);
      if MIN_INT64 <= v <= MAX_INT64 then Some(v) else None
  }

  lemma {:induction false} ItoaSpells(n: nat)
    ensures Itoa(n) != "" && AllDigits(Itoa(n)) && Value(Itoa(n)) == n
  {
    if n < 10 {
      assert Itoa(n)[..0] == "";
    } else {
      ItoaSpells(n / 10);
      var s := Itoa(n);
      assert s[..|s| - 1] == Itoa(n / 10);
      assert s[|s| - 1] == DigitChar(n % 10);
    }
  }

  /** Printing a number and reading it back gives the number when it fits, and nothing when it does not. */
  lemma ParsePrinted(n: nat)
    ensures ParseInt(Itoa(n)) == if n <= MAX_INT64 then Some(n) else None
  {
    ItoaSpells(n);
    assert IsDigit(Itoa(n)[0]);
  }
}
