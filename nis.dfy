/**
 * NIS/NIT/PIS/PASEP (brado/src/nis.rs): eleven digits, ten of body and one check digit,
 * bare ("40865658047") or masked as "XXX.XXXXX.XX-X".
 */
module Nis {
  import opened Wrappers
  import opened Common

  /** `NIS_SIZE`. */
  const Size: nat := 11

  /** The multipliers of `generate_digit`. */
  const Multipliers: seq<nat> := [3, 2, 9, 8, 7, 6, 5, 4, 3, 2]

  /** `generate_digit`: `11 - rest` for a remainder of 2 or more, otherwise 0. */
  function CheckDigit(body: seq<nat>): (d: nat)
    requires |body| <= 10
    ensures CompletesMod11(Dot(body, Multipliers), d)
  {
    var rest := Dot(body, Multipliers) % 11;
    AddMod11(Dot(body, Multipliers), 11 - rest);
    if rest >= 2 then 11 - rest else 0
  }

  /** The last digit of an eleven-digit vector is the one `generate_digit` computes from the first ten. */
  predicate ChecksumHolds(digits: seq<nat>)
    requires |digits| == 11
  {
    CheckDigit(digits[..10]) == digits[10]
  }

  /** `validate`. */
  predicate Validate(doc: string) {
    if |doc| != Size && !IsMasked(doc) then false
    else
      var digits := GetDigits(doc);
      if |digits| != Size || IsRepeated(digits) then false
      else CheckDigit(digits[..10]) == digits[10]
  }

  /** `is_bare`: eleven characters, all of them digits. */
  predicate IsBare(doc: string) {
    |doc| == Size && |GetDigits(doc)| == Size
  }

  /** `is_masked`: exactly the symbols (3, '.'), (9, '.') and (12, '-'), and eleven digits. */
  predicate IsMasked(doc: string) {
    var symbols := GetSymbols(doc);
    var digits := GetDigits(doc);
    if |symbols| != 3 || |digits| != Size then false
    else symbols[0] == (3, '.') && symbols[1] == (9, '.') && symbols[2] == (12, '-')
  }

  /** `mask`. */
  function Mask(doc: string): Result<string> {
    if !IsBare(doc) then Err("The given string cannot be masked as NIS/NIT/PIS/PASEP!")
    else Ok(doc[0..3] + "." + doc[3..8] + "." + doc[8..10] + "-" + doc[10..11])
  }

  /** `generate`: ten random digits with their check digit pushed. */
  method Generate(rng: seq<nat>) returns (s: string)
    requires |rng| >= 10
    ensures IsBare(s) && GetDigits(s)[..10] == Drawn(10, rng) && ChecksumHolds(GetDigits(s))
    ensures Validate(s) <==> Drawn(10, rng) != Repeat(0, 10)
  {
    var nis := RandomDigitVector(10, rng);
    nis := nis + [CheckDigit(nis)];
    s := Render(nis);
    RenderDigits(nis);
    assert nis[..10] == Drawn(10, rng);
    ValidateIff(s);
    RepeatedBody(nis);
  }

  /** `generate_masked`: the mask of a generated NIS, which never fails. */
  method GenerateMasked(rng: seq<nat>) returns (s: string)
    requires |rng| >= 10
    ensures IsMasked(s) && ChecksumHolds(GetDigits(s))
    ensures Validate(s) <==> Drawn(10, rng) != Repeat(0, 10)
  {
    var bare := Generate(rng);
    MaskSpec(bare);
    s := Mask(bare).value;
    ValidateIff(bare);
    ValidateIff(s);
  }

  // ================================================================== lemmas

  /** A NIS validates exactly when it is bare or masked, not one repeated digit, and its check digit matches. */
  lemma ValidateIff(doc: string)
    ensures Validate(doc) <==>
      (IsBare(doc) || IsMasked(doc)) && !IsRepeated(GetDigits(doc)) && ChecksumHolds(GetDigits(doc))
  {
  }

  /** No string is both bare and masked. */
  lemma BareMaskedExclusive(doc: string)
    ensures !(IsBare(doc) && IsMasked(doc))
  {
    if IsBare(doc) {
      BareFacts(doc);
    }
  }

  /** `mask` fails exactly on strings that are not bare; otherwise it yields a masked NIS with the same digits. */
  lemma MaskSpec(doc: string)
    ensures Mask(doc).Err? <==> !IsBare(doc)
    ensures Mask(doc).Ok? ==>
      var m := Mask(doc).value;
      |m| == 14 && IsMasked(m) && GetDigits(m) == GetDigits(doc) && Unmask(m) == doc
  {
    if IsBare(doc) {
      BareFacts(doc);
      var a, b, c, d := doc[0..3], doc[3..8], doc[8..10], doc[10..11];
      SliceDecimal(doc, 0, 3);
      SliceDecimal(doc, 3, 8);
      SliceDecimal(doc, 8, 10);
      SliceDecimal(doc, 10, 11);
      assert doc == a + b + c + d;
      MaskedParts(a, b, c, d);
      UnmaskRendersDigits(Mask(doc).value);
      UnmaskRendersDigits(doc);
      UnmaskDecimal(doc);
    }
  }

  /** Digit groups of lengths 3, 5, 2 and 1 joined by '.', '.' and '-' form a masked NIS with the same digits. */
  lemma MaskedParts(a: string, b: string, c: string, d: string)
    requires AllDecimal(a) && AllDecimal(b) && AllDecimal(c) && AllDecimal(d)
    requires |a| == 3 && |b| == 5 && |c| == 2 && |d| == 1
    ensures var m := a + "." + b + "." + c + "-" + d;
      |m| == 14 && IsMasked(m) && GetDigits(m) == GetDigits(a + b + c + d)
  {
    DigitsOfDecimal(a);
    var x := a + ['.'] + b;
    var y := x + ['.'] + c;
    SeparatorStep(a, '.', b);
    SeparatorStep(x, '.', c);
    SeparatorStep(y, '-', d);
    DigitsAppend(a, b);
    DigitsAppend(a + b, c);
    DigitsAppend(a + b + c, d);
    DigitsOfDecimal(b);
    DigitsOfDecimal(c);
    DigitsOfDecimal(d);
  }

  /** The total of the multipliers. */
  lemma MultiplierTotal()
    ensures Total(Multipliers) == 49
  {
    var m := Multipliers;
    assert Total(m[..0]) == 0;
    assert m[..1][..0] == m[..0];
    assert Total(m[..1]) == 3;
    assert m[..2][..1] == m[..1];
    assert Total(m[..2]) == 5;
    assert m[..3][..2] == m[..2];
    assert Total(m[..3]) == 14;
    assert m[..4][..3] == m[..3];
    assert Total(m[..4]) == 22;
    assert m[..5][..4] == m[..4];
    assert Total(m[..5]) == 29;
    assert m[..6][..5] == m[..5];
    assert Total(m[..6]) == 35;
    assert m[..7][..6] == m[..6];
    assert Total(m[..7]) == 40;
    assert m[..8][..7] == m[..7];
    assert Total(m[..8]) == 44;
    assert m[..9][..8] == m[..8];
    assert Total(m[..9]) == 47;
    assert m[..10][..9] == m[..9];
    assert Total(m[..10]) == 49;
    assert m[..10] == m;
  }

  /** A body of ten equal digits `k` passes the checksum only for `k` = 0: the digit it gets is `6 * k` reduced. */
  lemma RepeatedBodyDigit(k: nat)
    requires k < 10
    ensures CheckDigit(Repeat(k, 10)) == k <==> k == 0
  {
    DotRepeat(k, 10, Multipliers);
    assert Multipliers[..10] == Multipliers;
    MultiplierTotal();
    assert 49 * k + k == 11 * (4 * k) + 6 * k;
    AddMod11(11 * (4 * k), 6 * k);
  }

  /** An eleven-digit vector that passes the checksum is repeated exactly when it is all zeros. */
  lemma RepeatedBody(digits: seq<nat>)
    requires |digits| == 11 && IsDigits(digits) && ChecksumHolds(digits)
    ensures IsRepeated(digits) <==> digits[..10] == Repeat(0, 10)
  {
    RepeatedIff(digits);
    if IsRepeated(digits) {
      var k := digits[0];
      assert digits[..10] == Repeat(k, 10);
      RepeatedBodyDigit(k);
    }
    if digits[..10] == Repeat(0, 10) {
      RepeatedBodyDigit(0);
    }
  }

  /** The strings of one digit repeated eleven times are all rejected, by the repeated-digit guard. */
  lemma RepeatedRejected(k: nat)
    requires k < 10
    ensures !Validate(Render(Repeat(k, 11)))
  {
    RenderDigits(Repeat(k, 11));
    RepeatedIff(Repeat(k, 11));
  }

  /** The weighted sum behind the check digit of the documented NIS 408.65658.04-7. */
  lemma ExampleSum()
    ensures Dot([4, 0, 8, 6, 5, 6, 5, 8, 0, 4], Multipliers) == 268
  {
    var w := Multipliers;
    var b1 := [4];
    var b2 := b1 + [0]; DotSnoc(b1, 0, w);
    var b3 := b2 + [8]; DotSnoc(b2, 8, w);
    var b4 := b3 + [6]; DotSnoc(b3, 6, w);
    var b5 := b4 + [5]; DotSnoc(b4, 5, w);
    var b6 := b5 + [6]; DotSnoc(b5, 6, w);
    var b7 := b6 + [5]; DotSnoc(b6, 5, w);
    var b8 := b7 + [8]; DotSnoc(b7, 8, w);
    var b9 := b8 + [0]; DotSnoc(b8, 0, w);
    var b10 := b9 + [4]; DotSnoc(b9, 4, w);
    assert b10 == [4, 0, 8, 6, 5, 6, 5, 8, 0, 4];
  }

  /** The digits of the documented NIS and of its variant with a wrong last digit. */
  lemma SampleDigits()
    ensures IsBare("40865658047") && IsBare("40865658046")
    ensures GetDigits("40865658047") == [4, 0, 8, 6, 5, 6, 5, 8, 0, 4, 7]
    ensures GetDigits("40865658046") == [4, 0, 8, 6, 5, 6, 5, 8, 0, 4, 6]
  {
    DigitsOfChars("40865658047", [4, 0, 8, 6, 5, 6, 5, 8, 0, 4, 7]);
    DigitsOfChars("40865658046", [4, 0, 8, 6, 5, 6, 5, 8, 0, 4, 6]);
  }

  /** The documented examples of `validate`. */
  lemma ValidateExamples()
    ensures Validate("40865658047") && !Validate("40865658046")
  {
    SampleDigits();
    var good, bad := [4, 0, 8, 6, 5, 6, 5, 8, 0, 4, 7], [4, 0, 8, 6, 5, 6, 5, 8, 0, 4, 6];
    assert good[..10] == bad[..10] == [4, 0, 8, 6, 5, 6, 5, 8, 0, 4];
    ExampleSum();
    RepeatedIff(good);
    assert good[1] != good[0];
    ValidateIff("40865658047");
    ValidateIff("40865658046");
  }

  /** `mask` of the documented NIS, whose masked form validates. */
  lemma MaskExamples()
    ensures Mask("40865658047") == Ok("408.65658.04-7")
    ensures Validate("408.65658.04-7")
  {
    SampleDigits();
    var doc := "40865658047";
    assert doc[0..3] + "." + doc[3..8] + "." + doc[8..10] + "-" + doc[10..11] == "408.65658.04-7";
    MaskSpec(doc);
    ValidateExamples();
    ValidateIff(doc);
    ValidateIff("408.65658.04-7");
  }

  /** The CPF-style mask is not a NIS mask. */
  lemma CpfMaskRejected()
    ensures !Validate("408.656.580-47")
  {
    SymbolsComplete("408.656.580-47", 7);
  }
}
