/** Decimal numerals as Python prints them. */
module Text {
  function Digit(d: nat): char
    requires d < 10
  {
    "0123456789"[d]
  }

  function DigitValue(c: char): nat {
    if '0' <= c <= '9' then (c - '0') as nat else 0
  }

  predicate IsDigit(c: char) {
    '0' <= c <= '9'
  }

  /** Whitespace, as Python's strip sees it. */
  predicate IsSpace(c: char) {
    || '\t' <= c <= '\r' || '\U{1C}' <= c <= ' ' || c == '\U{85}' || c == '\U{A0}' || c == '\U{1680}'
    || '\U{2000}' <= c <= '\U{200A}' || c == '\U{2028}' || c == '\U{2029}' || c == '\U{202F}' || c == '\U{205F}'
    || c == '\U{3000}'
  }

  /** The whitespace code points, one by one. */
  lemma SpacesAre(c: char)
    ensures IsSpace(c) <==> c as int in {
              9, 10, 11, 12, 13, 28, 29, 30, 31, 32, 133, 160, 5760, 8192, 8193, 8194, 8195, 8196, 8197, 8198, 8199,
              8200, 8201, 8202, 8232, 8233, 8239, 8287, 12288}
  {
  }

  /** The decimal numeral of a natural number, without leading zeros. */
  function ShowNat(n: nat): (text: string)
    ensures |text| >= 1
    ensures forall i :: 0 <= i < |text| ==> IsDigit(text[i])
    ensures text[0] == '0' ==> n == 0
  {
    if n < 10 then [Digit(n)] else ShowNat(n / 10) + [Digit(n % 10)]
  }

  /** Reads a string of digits. */
  function ReadNat(text: string): nat {
    if text == [] then 0 else 10 * ReadNat(text[..|text| - 1]) + DigitValue(text[|text| - 1])
  }

  /** Reading back what was printed. */
  lemma {:induction false} ReadShow(n: nat)
    ensures ReadNat(ShowNat(n)) == n
  {
    if n < 10 {
      assert ShowNat(n)[..0] == [];
      assert ReadNat([]) == 0;
    } else {
      ReadShow(n / 10);
      assert ShowNat(n)[..|ShowNat(n)| - 1] == ShowNat(n / 10);
    }
  }

  lemma ShowNatInjective(m: nat, n: nat)
    requires ShowNat(m) == ShowNat(n)
    ensures m == n
  {
    ReadShow(m);
    ReadShow(n);
  }
}
