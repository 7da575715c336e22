/**
 * The older CPF validator (brado/src/cpf/cpf.rs). It computes both check digits from
 * the input's first ten digits, so the eleventh is weighed against the input's own
 * tenth digit; its `is_masked` checks the symbols only, and its `mask` panics on a
 * string that is not bare. Its `is_bare` is Cpf.IsBare.
 */
module CpfV1 {
  import opened Wrappers
  import opened Common
  import Cpf

  /**
   * `generate_digit(cpf, max)`: `cpf[max - i] * i` summed for `i` from `max` down to 2,
   * then `(10 * sum) % 11` with 10 becoming 0: the current rule on the first `max - 1` digits.
   */
  method GenerateDigit(cpf: seq<nat>, max: nat) returns (d: nat)
    requires 1 <= max <= |cpf| + 1
    ensures d == Cpf.CheckDigit(cpf[..max - 1])
  {
    ghost var body := cpf[..max - 1];
    ghost var ws := Descending(max, max - 1);
    var sum := 0;
    var i := max;
    while i >= 2
      invariant 1 <= i <= max
      invariant sum == Dot(body[..max - i], ws)
    {
      DotPrefix(body, ws, max - i);
      sum := sum + cpf[max - i] * i;
      i := i - 1;
    }
    assert body[..max - 1] == body;
    sum := (sum * 10) % 11;
    if sum == 10 {
      sum := 0;
    }
    d := sum;
  }

  /** `generate_digits`: both digits from the same ten-digit slice, with `max` 10 and 11. */
  method GenerateDigits(cpf: seq<nat>) returns (d10: nat, d11: nat)
    requires |cpf| >= 10
    ensures d10 == Cpf.CheckDigit(cpf[..9]) && d11 == Cpf.CheckDigit(cpf[..10])
  {
    d10 := GenerateDigit(cpf, 10);
    d11 := GenerateDigit(cpf, 11);
  }

  /** `is_masked`: exactly the three symbols of the mask; the digit count is not looked at. */
  predicate IsMasked(doc: string) {
    var symbols := GetSymbols(doc);
    if |symbols| != 3 then false
    else symbols[0] == (3, '.') && symbols[1] == (7, '.') && symbols[2] == (11, '-')
  }

  /** What `validate` computes. */
  predicate Valid(doc: string) {
    if |doc| != 11 && !IsMasked(doc) then false
    else
      var digits := GetDigits(doc);
      if |digits| != 11 || IsRepeated(digits) then false
      else (Cpf.CheckDigit(digits[..9]), Cpf.CheckDigit(digits[..10])) == (digits[9], digits[10])
  }

  /** `validate`. */
  method Validate(doc: string) returns (b: bool)
    ensures b == Valid(doc)
  {
    if |doc| != 11 && !IsMasked(doc) {
      return false;
    }
    var digits := GetDigits(doc);
    if |digits| != 11 || IsRepeated(digits) {
      return false;
    }
    var d10, d11 := GenerateDigits(digits[..10]);
    assert digits[..10][..9] == digits[..9] && digits[..10][..10] == digits[..10];
    b := (d10, d11) == (digits[9], digits[10]);
  }

  /** `mask`: defined on bare strings only (it panics otherwise), with the current layout. */
  function Mask(doc: string): (m: string)
    requires Cpf.IsBare(doc)
    ensures Cpf.Mask(doc) == Ok(m)
    ensures IsMasked(m) && GetDigits(m) == GetDigits(doc) && Unmask(m) == doc
  {
    Cpf.MaskSpec(doc);
    doc[0..3] + "." + doc[3..6] + "." + doc[6..9] + "-" + doc[9..11]
  }

  // ================================================================== lemmas

  /**
   * Weighing the eleventh digit against the input's tenth instead of the computed one
   * accepts exactly the same digit vectors, since both digits must match.
   */
  lemma ChecksumAgrees(digits: seq<nat>)
    requires |digits| == 11
    ensures (Cpf.CheckDigit(digits[..9]), Cpf.CheckDigit(digits[..10])) == (digits[9], digits[10])
      <==> Cpf.ChecksumHolds(digits)
  {
    assert digits[..10] == digits[..9] + [digits[9]];
  }

  /** The current `is_masked` is this one plus the eleven-digit count. */
  lemma MaskedAgrees(doc: string)
    ensures Cpf.IsMasked(doc) <==> IsMasked(doc) && |GetDigits(doc)| == 11
  {
  }

  /** The older `validate` accepts exactly the strings the current one accepts. */
  lemma ValidAgrees(doc: string)
    ensures Valid(doc) <==> Cpf.Validate(doc)
  {
    var digits := GetDigits(doc);
    if |digits| == 11 {
      ChecksumAgrees(digits);
    }
  }

  /** Three groups of digits joined by '.', '.' and closed by '-' carry the three symbols of the mask at their positions. */
  lemma ShortMaskOfGroups(a: string, b: string, c: string)
    requires |a| == 3 && |b| == 3 && |c| == 3
    requires AllDecimal(a) && AllDecimal(b) && AllDecimal(c)
    ensures IsMasked(a + ['.'] + b + ['.'] + c + ['-'])
  {
    var x := a + ['.'] + b;
    var y := x + ['.'] + c;
    SymbolsAppendDecimal([], a);
    assert [] + a == a;
    SeparatorStep(a, '.', b);
    SeparatorStep(x, '.', c);
    SymbolsSnoc(y, '-');
  }

  /** "123.456.789-" carries the three symbols of the mask at their positions. */
  lemma ShortMaskSymbols()
    ensures IsMasked("123.456.789-")
  {
    ShortMaskOfGroups("123", "456", "789");
    assert "123" + ['.'] + "456" + ['.'] + "789" + ['-'] == "123.456.789-";
  }

  /** With only nine digits, "123.456.789-" passes this `is_masked` but not the current one. */
  lemma MaskedShortOfDigits()
    ensures IsMasked("123.456.789-") && !Cpf.IsMasked("123.456.789-")
  {
    ShortMaskSymbols();
    Partition("123.456.789-");
  }
}
