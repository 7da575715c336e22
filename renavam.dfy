/**
 * Registro Nacional de Veículos Automotores (brado/src/renavam.rs): eleven digits, ten
 * of body and one check digit, bare ("79072338363") or masked as "XXXXXXXXXX-X".
 * Unlike the other documents, a RENAVAM made of one repeated digit is not rejected
 * for that reason alone.
 */
module Renavam {
  import opened Wrappers
  import opened Common

  /** The multipliers of `generate_digit`. */
  const Multipliers: seq<nat> := [3, 2, 9, 8, 7, 6, 5, 4, 3, 2]

  /** `generate_digit`: `(10 * sum) % 11`, 10 becoming 0. */
  function CheckDigit(body: seq<nat>): (d: nat)
    requires |body| <= 10
    ensures CompletesMod11(Dot(body, Multipliers), d)
  {
    var sum := Dot(body, Multipliers);
    TenRuleCompletes(sum);
    var rest := (sum * 10) % 11;
    if rest == 10 then 0 else rest
  }

  /** The last digit of an eleven-digit vector is the one `generate_digit` computes from the first ten. */
  predicate ChecksumHolds(digits: seq<nat>)
    requires |digits| == 11
  {
    CheckDigit(digits[..10]) == digits[10]
  }

  /** `validate`: no repeated-digit guard here. */
  predicate Validate(doc: string) {
    if |doc| != 11 && !IsMasked(doc) then false
    else
      var digits := GetDigits(doc);
      if |digits| != 11 then false
      else CheckDigit(digits[..10]) == digits[10]
  }

  /** `is_bare`: eleven characters, all of them digits. */
  predicate IsBare(doc: string) {
    |doc| == 11 && |GetDigits(doc)| == 11
  }

  /** `is_masked`: the single symbol (10, '-') and eleven digits. */
  predicate IsMasked(doc: string) {
    var symbols := GetSymbols(doc);
    var digits := GetDigits(doc);
    if |symbols| != 1 || |digits| != 11 then false
    else symbols[0] == (10, '-')
  }

  /** `mask`. */
  function Mask(doc: string): Result<string> {
    if !IsBare(doc) then Err("The given string cannot be masked as RENAVAM!")
    else Ok(doc[0..10] + "-" + doc[10..11])
  }

  /** `generate`: ten random digits with their check digit pushed; every generated RENAVAM validates. */
  method Generate(rng: seq<nat>) returns (s: string)
    requires |rng| >= 10
    ensures IsBare(s) && GetDigits(s)[..10] == Drawn(10, rng) && ChecksumHolds(GetDigits(s))
    ensures Validate(s)
  {
    var renavam := RandomDigitVector(10, rng);
    renavam := renavam + [CheckDigit(renavam)];
    s := Render(renavam);
    RenderDigits(renavam);
    assert renavam[..10] == Drawn(10, rng);
    ValidateIff(s);
  }

  /** `generate_masked`: the mask of a generated RENAVAM, which never fails. */
  method GenerateMasked(rng: seq<nat>) returns (s: string)
    requires |rng| >= 10
    ensures IsMasked(s) && GetDigits(s)[..10] == Drawn(10, rng) && Validate(s)
  {
    var bare := Generate(rng);
    MaskSpec(bare);
    s := Mask(bare).value;
    ValidateIff(bare);
    ValidateIff(s);
  }

  // ================================================================== lemmas

  /** A RENAVAM validates exactly when it is bare or masked and its check digit matches. */
  lemma ValidateIff(doc: string)
    ensures Validate(doc) <==> (IsBare(doc) || IsMasked(doc)) && ChecksumHolds(GetDigits(doc))
  {
  }

  /** No string is both bare and masked. */
  lemma BareMaskedExclusive(doc: string)
    ensures !(IsBare(doc) && IsMasked(doc))
  {
    if IsBare(doc) {
      BareFacts(doc);
    }
  }

  /** `mask` fails exactly on strings that are not bare; otherwise it yields a masked RENAVAM with the same digits. */
  lemma MaskSpec(doc: string)
    ensures Mask(doc).Err? <==> !IsBare(doc)
    ensures Mask(doc).Ok? ==>
      var m := Mask(doc).value;
      |m| == 12 && IsMasked(m) && GetDigits(m) == GetDigits(doc) && Unmask(m) == doc
  {
    if IsBare(doc) {
      BareFacts(doc);
      var a, b := doc[0..10], doc[10..11];
      SliceDecimal(doc, 0, 10);
      SliceDecimal(doc, 10, 11);
      assert doc == a + b;
      var m := a + ['-'] + b;
      assert Mask(doc).value == m;
      DigitsOfDecimal(a);
      SeparatorStep(a, '-', b);
      DigitsAppend(a, b);
      DigitsOfDecimal(b);
      UnmaskRendersDigits(m);
      UnmaskRendersDigits(doc);
      UnmaskDecimal(doc);
    }
  }

  /** The total of the multipliers. */
  lemma MultiplierTotal()
    ensures Total(Multipliers) == 49
  {
    var m := Multipliers;
    assert Total(m[..0]) == 0;
    assert m[..1][..0] == m[..0];
    assert Total(m[..1]) == 3;
    assert m[..2][..1] == m[..1];
    assert Total(m[..2]) == 5;
    assert m[..3][..2] == m[..2];
    assert Total(m[..3]) == 14;
    assert m[..4][..3] == m[..3];
    assert Total(m[..4]) == 22;
    assert m[..5][..4] == m[..4];
    assert Total(m[..5]) == 29;
    assert m[..6][..5] == m[..5];
    assert Total(m[..6]) == 35;
    assert m[..7][..6] == m[..6];
    assert Total(m[..7]) == 40;
    assert m[..8][..7] == m[..7];
    assert Total(m[..8]) == 44;
    assert m[..9][..8] == m[..8];
    assert Total(m[..9]) == 47;
    assert m[..10][..9] == m[..9];
    assert Total(m[..10]) == 49;
    assert m[..10] == m;
  }

  /** Of the strings of one digit repeated eleven times, only "00000000000" passes the checksum. */
  lemma RepeatedValidates(k: nat)
    requires k < 10
    ensures Validate(Render(Repeat(k, 11))) <==> k == 0
  {
    DotRepeat(k, 10, Multipliers);
    assert Multipliers[..10] == Multipliers;
    MultiplierTotal();
    assert 49 * k + k == 11 * (4 * k) + 6 * k;
    AddMod11(11 * (4 * k), 6 * k);
    RenderDigits(Repeat(k, 11));
    assert Repeat(k, 11)[..10] == Repeat(k, 10);
  }

  /** The weighted sum behind the check digit of the documented RENAVAM 7907233836-3. */
  lemma ExampleSum()
    ensures Dot([7, 9, 0, 7, 2, 3, 3, 8, 3, 6], Multipliers) == 195
  {
    var w := Multipliers;
    var b1 := [7];
    var b2 := b1 + [9]; DotSnoc(b1, 9, w);
    var b3 := b2 + [0]; DotSnoc(b2, 0, w);
    var b4 := b3 + [7]; DotSnoc(b3, 7, w);
    var b5 := b4 + [2]; DotSnoc(b4, 2, w);
    var b6 := b5 + [3]; DotSnoc(b5, 3, w);
    var b7 := b6 + [3]; DotSnoc(b6, 3, w);
    var b8 := b7 + [8]; DotSnoc(b7, 8, w);
    var b9 := b8 + [3]; DotSnoc(b8, 3, w);
    var b10 := b9 + [6]; DotSnoc(b9, 6, w);
    assert b10 == [7, 9, 0, 7, 2, 3, 3, 8, 3, 6];
  }

  /** The digits of the documented RENAVAM and of its variant with a wrong last digit. */
  lemma SampleDigits()
    ensures IsBare("79072338363") && IsBare("79072338362")
    ensures GetDigits("79072338363") == [7, 9, 0, 7, 2, 3, 3, 8, 3, 6, 3]
    ensures GetDigits("79072338362") == [7, 9, 0, 7, 2, 3, 3, 8, 3, 6, 2]
  {
    DigitsOfChars("79072338363", [7, 9, 0, 7, 2, 3, 3, 8, 3, 6, 3]);
    DigitsOfChars("79072338362", [7, 9, 0, 7, 2, 3, 3, 8, 3, 6, 2]);
  }

  /** The documented examples of `validate`. */
  lemma ValidateExamples()
    ensures Validate("79072338363") && !Validate("79072338362")
  {
    SampleDigits();
    var good, bad := [7, 9, 0, 7, 2, 3, 3, 8, 3, 6, 3], [7, 9, 0, 7, 2, 3, 3, 8, 3, 6, 2];
    assert good[..10] == bad[..10] == [7, 9, 0, 7, 2, 3, 3, 8, 3, 6];
    ExampleSum();
    ValidateIff("79072338363");
    ValidateIff("79072338362");
  }

  /** `mask` of the documented RENAVAM, whose masked form validates; a dash elsewhere does not. */
  lemma MaskExamples()
    ensures Mask("79072338363") == Ok("7907233836-3")
    ensures Validate("7907233836-3")
    ensures !Validate("790723383-63")
  {
    SampleDigits();
    var doc := "79072338363";
    assert doc[0..10] + "-" + doc[10..11] == "7907233836-3";
    MaskSpec(doc);
    ValidateExamples();
    ValidateIff(doc);
    ValidateIff("7907233836-3");
    SymbolsComplete("790723383-63", 9);
  }
}
