/**
 * Cadastro Nacional da Pessoa Jurídica (brado/src/cnpj.rs): fourteen digits, twelve of
 * body and two check digits, bare ("05200851000100") or masked as "XX.XXX.XXX/XXXX-XX".
 *
 * The check-digit rule maps every remainder below 10 to 0 and the remainder 10 to 1,
 * so the library only ever computes the check digits 0 and 1.
 */
module Cnpj {
  import opened Wrappers
  import opened Common

  /** The weights of the thirteenth digit, over the twelve-digit body. */
  const Weights13: seq<nat> := [5, 4, 3, 2, 9, 8, 7, 6, 5, 4, 3, 2]

  /** The weights of the fourteenth digit, over the body followed by the thirteenth digit. */
  const Weights14: seq<nat> := [6, 5, 4, 3, 2, 9, 8, 7, 6, 5, 4, 3, 2]

  /** The value of `generate_digit` over `ds` and `weights`: 1 exactly when the weighted sum leaves 10 modulo 11. */
  function CheckDigit(ds: seq<nat>, weights: seq<nat>): (d: nat)
    requires |ds| <= |weights|
    ensures d <= 1
    ensures d == 1 <==> Dot(ds, weights) % 11 == 10
  {
    var rest := Dot(ds, weights) % 11;
    if rest < 10 then 0 else 11 - rest
  }

  /** The value of `generate_digits` on a twelve-digit body. */
  function CheckDigits(body: seq<nat>): (d: (nat, nat))
    requires |body| == 12
    ensures d.0 <= 1 && d.1 <= 1
  {
    var d13 := CheckDigit(body, Weights13);
    (d13, CheckDigit(body + [d13], Weights14))
  }

  /** The two trailing digits of a fourteen-digit vector are those `generate_digits` computes from the first twelve. */
  predicate ChecksumHolds(digits: seq<nat>)
    requires |digits| == 14
  {
    CheckDigits(digits[..12]) == (digits[12], digits[13])
  }

  /** `generate_digit`: the weighted sum of the first `max` digits, accumulated in a loop. */
  method GenerateDigit(docSlice: seq<nat>, max: nat, weights: seq<nat>) returns (d: nat)
    requires max <= |docSlice| && max <= |weights|
    ensures d == CheckDigit(docSlice[..max], weights)
  {
    var sum := 0;
    for i := 0 to max
      invariant sum == Dot(docSlice[..i], weights)
    {
      DotPrefix(docSlice, weights, i);
      sum := sum + docSlice[i] * weights[i];
    }
    assert docSlice[..max] == docSlice[..max][..max];
    sum := sum % 11;
    if sum < 10 {
      sum := 0;
    } else {
      sum := 11 - sum;
    }
    d := sum;
  }

  /** `generate_digits`: the thirteenth digit, pushed onto a copy of the body, then the fourteenth. */
  method GenerateDigits(body: seq<nat>) returns (d13: nat, d14: nat)
    requires |body| == 12
    ensures (d13, d14) == CheckDigits(body)
  {
    var docSlice := body;
    d13 := GenerateDigit(docSlice, 12, Weights13);
    assert docSlice[..12] == body;
    docSlice := docSlice + [d13];
    d14 := GenerateDigit(docSlice, 13, Weights14);
    assert docSlice[..13] == body + [d13];
  }

  /** `validate`, as the value it returns. */
  predicate Valid(doc: string) {
    if |doc| != 14 && !IsMasked(doc) then false
    else
      var digits := GetDigits(doc);
      if |digits| != 14 then false
      else if exists i :: 0 <= i < 10 && multiset(digits)[i] == 14 then false
      else ChecksumHolds(digits)
  }

  /** `validate`, with the loop that rejects a digit occurring fourteen times. */
  method Validate(doc: string) returns (b: bool)
    ensures b == Valid(doc)
  {
    if |doc| != 14 && !IsMasked(doc) {
      return false;
    }
    var digits := GetDigits(doc);
    if |digits| != 14 {
      return false;
    }
    for i := 0 to 10
      invariant forall j :: 0 <= j < i ==> multiset(digits)[j] != 14
    {
      if multiset(digits)[i] == 14 {
        return false;
      }
    }
    var d13, d14 := GenerateDigits(digits[..12]);
    b := (d13, d14) == (digits[12], digits[13]);
  }

  /** `is_bare`: fourteen characters, all of them digits. */
  predicate IsBare(doc: string) {
    |doc| == 14 && |GetDigits(doc)| == 14
  }

  /** `is_masked`: exactly the four symbols of the mask, at their positions, and fourteen digits. */
  predicate IsMasked(doc: string) {
    var symbols := GetSymbols(doc);
    var digits := GetDigits(doc);
    if |symbols| != 4 || |digits| != 14 then false
    else
      symbols[0] == (2, '.') && symbols[1] == (6, '.') && symbols[2] == (10, '/')
      && symbols[3] == (15, '-')
  }

  /** `mask`. */
  function Mask(doc: string): Result<string> {
    var digits := GetDigits(doc);
    if !IsBare(doc) || |digits| != 14 then Err("The given string cannot be masked as CNPJ!")
    else Ok(doc[0..2] + "." + doc[2..5] + "." + doc[5..8] + "/" + doc[8..12] + "-" + doc[12..14])
  }

  /** `generate`: twelve random digits followed by their two check digits. */
  method Generate(rng: seq<nat>) returns (s: string)
    requires |rng| >= 12
    ensures IsBare(s)
    ensures var digits := GetDigits(s);
      ChecksumHolds(digits) && forall i :: 0 <= i < 12 ==> digits[i] == rng[i] % 10
    ensures Valid(s) <==> GetDigits(s)[..12] != Repeat(0, 12)
  {
    var cnpj := RandomDigitVector(12, rng);
    var d13, d14 := GenerateDigits(cnpj);
    var digits := cnpj + [d13, d14];
    s := Render(digits);
    RenderDigits(digits);
    assert digits[..12] == cnpj;
    ValidIff(s);
    GeneratedRepeated(digits);
  }

  /** `generate_masked`: the mask of a generated CNPJ, which never fails. */
  method GenerateMasked(rng: seq<nat>) returns (s: string)
    requires |rng| >= 12
    ensures IsMasked(s) && ChecksumHolds(GetDigits(s))
    ensures Valid(s) <==> GetDigits(s)[..12] != Repeat(0, 12)
  {
    var bare := Generate(rng);
    MaskSpec(bare);
    s := Mask(bare).value;
    ValidIff(bare);
    ValidIff(s);
  }

  // ================================================================== lemmas

  /** A CNPJ validates exactly when it is bare or masked, not one repeated digit, and its check digits match. */
  lemma ValidIff(doc: string)
    ensures Valid(doc) <==>
      (IsBare(doc) || IsMasked(doc)) && !IsRepeated(GetDigits(doc)) && ChecksumHolds(GetDigits(doc))
  {
    var digits := GetDigits(doc);
    if |digits| == 14 {
      CountLoopRepeated(digits);
    }
  }

  /** No string is both bare and masked. */
  lemma BareMaskedExclusive(doc: string)
    ensures !(IsBare(doc) && IsMasked(doc))
  {
    if IsBare(doc) {
      BareFacts(doc);
    }
  }

  /** `mask` fails exactly on strings that are not bare; otherwise it yields a masked CNPJ with the same digits. */
  lemma MaskSpec(doc: string)
    ensures Mask(doc).Err? <==> !IsBare(doc)
    ensures Mask(doc).Ok? ==>
      var m := Mask(doc).value;
      |m| == 18 && IsMasked(m) && GetDigits(m) == GetDigits(doc) && Unmask(m) == doc
  {
    if IsBare(doc) {
      BareFacts(doc);
      var a, b, c, d, e := doc[0..2], doc[2..5], doc[5..8], doc[8..12], doc[12..14];
      SliceDecimal(doc, 0, 2);
      SliceDecimal(doc, 2, 5);
      SliceDecimal(doc, 5, 8);
      SliceDecimal(doc, 8, 12);
      SliceDecimal(doc, 12, 14);
      assert doc == a + b + c + d + e;
      MaskedParts(a, b, c, d, e);
      UnmaskRendersDigits(Mask(doc).value);
      UnmaskRendersDigits(doc);
      UnmaskDecimal(doc);
    }
  }

  /** Digit groups of the right lengths joined by the mask's symbols form a masked CNPJ with the same digits. */
  lemma MaskedParts(a: string, b: string, c: string, d: string, e: string)
    requires AllDecimal(a) && AllDecimal(b) && AllDecimal(c) && AllDecimal(d) && AllDecimal(e)
    requires |a| == 2 && |b| == 3 && |c| == 3 && |d| == 4 && |e| == 2
    ensures var m := a + "." + b + "." + c + "/" + d + "-" + e;
      |m| == 18 && IsMasked(m) && GetDigits(m) == GetDigits(a + b + c + d + e)
  {
    DigitsOfDecimal(a);
    var x := a + ['.'] + b;
    var y := x + ['.'] + c;
    var z := y + ['/'] + d;
    SeparatorStep(a, '.', b);
    SeparatorStep(x, '.', c);
    SeparatorStep(y, '/', d);
    SeparatorStep(z, '-', e);
    GroupDigits(a, b, c, d, e);
  }

  /** The digits of five groups laid end to end are the groups' digits in order, fourteen of them for the CNPJ's group lengths. */
  lemma GroupDigits(a: string, b: string, c: string, d: string, e: string)
    requires AllDecimal(a) && AllDecimal(b) && AllDecimal(c) && AllDecimal(d) && AllDecimal(e)
    requires |a| == 2 && |b| == 3 && |c| == 3 && |d| == 4 && |e| == 2
    ensures GetDigits(a + b + c + d + e) == GetDigits(a) + GetDigits(b) + GetDigits(c) + GetDigits(d) + GetDigits(e)
    ensures |GetDigits(a + b + c + d + e)| == 14
  {
    DigitsAppend(a, b);
    DigitsAppend(a + b, c);
    DigitsAppend(a + b + c, d);
    DigitsAppend(a + b + c + d, e);
    AllDigitsIff(a);
    AllDigitsIff(b);
    AllDigitsIff(c);
    AllDigitsIff(d);
    AllDigitsIff(e);
  }

  /** A fourteen-digit vector that passes the checksum is one repeated digit only when all of it is 0. */
  lemma GeneratedRepeated(digits: seq<nat>)
    requires |digits| == 14 && ChecksumHolds(digits)
    ensures IsRepeated(digits) <==> digits[..12] == Repeat(0, 12)
  {
    RepeatedIff(digits);
    var body := digits[..12];
    if digits[..12] == Repeat(0, 12) {
      DotRepeat(0, 12, Weights13);
      DotRepeat(0, 13, Weights14);
      assert body + [0] == Repeat(0, 13);
    }
    if IsRepeated(digits) {
      var k := digits[0];
      assert body == Repeat(k, 12);
      assert k <= 1;
      if k == 1 {
        DotRepeat(1, 12, Weights13);
        assert Weights13[..12] == Weights13;
        assert Total(Weights13) == 58 by { WeightTotals(); }
      }
    }
  }

  /** The total of the weights of the thirteenth digit. */
  lemma WeightTotals()
    ensures Total(Weights13) == 58
  {
    var w := Weights13;
    assert Total(w[..0]) == 0;
    assert w[..1][..0] == w[..0];
    assert Total(w[..1]) == 5;
    assert w[..2][..1] == w[..1];
    assert Total(w[..2]) == 9;
    assert w[..3][..2] == w[..2];
    assert Total(w[..3]) == 12;
    assert w[..4][..3] == w[..3];
    assert Total(w[..4]) == 14;
    assert w[..5][..4] == w[..4];
    assert Total(w[..5]) == 23;
    assert w[..6][..5] == w[..5];
    assert Total(w[..6]) == 31;
    assert w[..7][..6] == w[..6];
    assert Total(w[..7]) == 38;
    assert w[..8][..7] == w[..7];
    assert Total(w[..8]) == 44;
    assert w[..9][..8] == w[..8];
    assert Total(w[..9]) == 49;
    assert w[..10][..9] == w[..9];
    assert Total(w[..10]) == 53;
    assert w[..11][..10] == w[..10];
    assert Total(w[..11]) == 56;
    assert w[..12][..11] == w[..11];
    assert Total(w[..12]) == 58;
    assert w[..12] == w;
  }

  /** The weighted sums behind the check digits of the documented CNPJ 05.200.851/0001-00. */
  lemma ExampleSums()
    ensures Dot([0, 5, 2, 0, 0, 8, 5, 1, 0, 0, 0, 1], Weights13) == 133
    ensures Dot([0, 5, 2, 0, 0, 8, 5, 1, 0, 0, 0, 1, 0], Weights14) == 155
  {
    var w, v := Weights13, Weights14;
    var b1 := [0];
    var b2 := b1 + [5]; DotSnoc(b1, 5, w); DotSnoc(b1, 5, v);
    var b3 := b2 + [2]; DotSnoc(b2, 2, w); DotSnoc(b2, 2, v);
    var b4 := b3 + [0]; DotSnoc(b3, 0, w); DotSnoc(b3, 0, v);
    var b5 := b4 + [0]; DotSnoc(b4, 0, w); DotSnoc(b4, 0, v);
    var b6 := b5 + [8]; DotSnoc(b5, 8, w); DotSnoc(b5, 8, v);
    var b7 := b6 + [5]; DotSnoc(b6, 5, w); DotSnoc(b6, 5, v);
    var b8 := b7 + [1]; DotSnoc(b7, 1, w); DotSnoc(b7, 1, v);
    var b9 := b8 + [0]; DotSnoc(b8, 0, w); DotSnoc(b8, 0, v);
    var b10 := b9 + [0]; DotSnoc(b9, 0, w); DotSnoc(b9, 0, v);
    var b11 := b10 + [0]; DotSnoc(b10, 0, w); DotSnoc(b10, 0, v);
    var b12 := b11 + [1]; DotSnoc(b11, 1, w); DotSnoc(b11, 1, v);
    var b13 := b12 + [0]; DotSnoc(b12, 0, v);
    assert b12 == [0, 5, 2, 0, 0, 8, 5, 1, 0, 0, 0, 1];
    assert b13 == [0, 5, 2, 0, 0, 8, 5, 1, 0, 0, 0, 1, 0];
  }

  /** The check digits of the documented CNPJ. */
  lemma CheckDigitsExample()
    ensures CheckDigits([0, 5, 2, 0, 0, 8, 5, 1, 0, 0, 0, 1]) == (0, 0)
  {
    ExampleSums();
    assert [0, 5, 2, 0, 0, 8, 5, 1, 0, 0, 0, 1] + [0] == [0, 5, 2, 0, 0, 8, 5, 1, 0, 0, 0, 1, 0];
  }

  /** The digits of the documented CNPJ and of its variant with a wrong last digit. */
  lemma SampleDigits()
    ensures IsBare("05200851000100") && IsBare("05200851000101")
    ensures GetDigits("05200851000100") == [0, 5, 2, 0, 0, 8, 5, 1, 0, 0, 0, 1, 0, 0]
    ensures GetDigits("05200851000101") == [0, 5, 2, 0, 0, 8, 5, 1, 0, 0, 0, 1, 0, 1]
  {
    DigitsOfChars("05200851000100", [0, 5, 2, 0, 0, 8, 5, 1, 0, 0, 0, 1, 0, 0]);
    DigitsOfChars("05200851000101", [0, 5, 2, 0, 0, 8, 5, 1, 0, 0, 0, 1, 0, 1]);
  }

  /** The documented examples of `validate`. */
  lemma ValidExamples()
    ensures Valid("05200851000100") && !Valid("05200851000101")
  {
    SampleDigits();
    var good, bad := [0, 5, 2, 0, 0, 8, 5, 1, 0, 0, 0, 1, 0, 0], [0, 5, 2, 0, 0, 8, 5, 1, 0, 0, 0, 1, 0, 1];
    assert good[..12] == bad[..12] == [0, 5, 2, 0, 0, 8, 5, 1, 0, 0, 0, 1];
    CheckDigitsExample();
    RepeatedIff(good);
    assert good[1] != good[0];
    ValidIff("05200851000100");
    ValidIff("05200851000101");
  }

  /** `mask` of the documented CNPJ. */
  lemma MaskExample()
    ensures Mask("05200851000100") == Ok("05.200.851/0001-00")
  {
    SampleDigits();
    var doc := "05200851000100";
    assert doc[0..2] + "." + doc[2..5] + "." + doc[5..8] + "/" + doc[8..12] + "-" + doc[12..14]
      == "05.200.851/0001-00";
  }

  /** The masked CNPJ validates and cannot be masked again. */
  lemma MaskedValidates()
    ensures Valid("05.200.851/0001-00") && Mask("05.200.851/0001-00").Err?
  {
    var doc := "05200851000100";
    SampleDigits();
    MaskExample();
    MaskSpec(doc);
    ValidExamples();
    ValidIff(doc);
    ValidIff("05.200.851/0001-00");
  }

  /** A mask shifted one place to the left is not recognised, so "0.520.085/1000-100" is invalid. */
  lemma ShiftedMaskExample()
    ensures !IsMasked("0.520.085/1000-100") && !Valid("0.520.085/1000-100")
  {
    SymbolsComplete("0.520.085/1000-100", 1);
  }

  /** Since the rule yields only 0 or 1, a CNPJ whose check digits include anything larger never validates. */
  lemma ValidCheckDigitsAtMostOne(doc: string)
    ensures Valid(doc) ==> |GetDigits(doc)| == 14 && GetDigits(doc)[12] <= 1 && GetDigits(doc)[13] <= 1
  {
    ValidIff(doc);
  }

  /** "11222333000181", whose check digits 8 and 1 follow the usual CNPJ rule, is rejected here. */
  lemma UsualRuleExample()
    ensures IsBare("11222333000181") && !Valid("11222333000181")
  {
    DigitsOfChars("11222333000181", [1, 1, 2, 2, 2, 3, 3, 3, 0, 0, 0, 1, 8, 1]);
    ValidCheckDigitsAtMostOne("11222333000181");
  }
}
