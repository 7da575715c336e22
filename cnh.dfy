/**
 * Carteira Nacional de Habilitação (brado/src/cnh.rs): eleven digits, nine of body and
 * two check digits, bare ("84718735264") or masked as "XXX XXX XXX XX".
 *
 * The first check digit carries a discount (`dsc`) into the second. When the discount
 * applies and the second remainder is 1, the second "digit" is 10: it is not reduced
 * again, so `generate` can then produce a twelve-character string.
 */
module Cnh {
  import opened Common

  /** The weights of the first check digit: `cnh[9 - i] * i` for `i` from 9 down to 1. */
  const FirstWeights: seq<nat> := [9, 8, 7, 6, 5, 4, 3, 2, 1]

  /** The weights of the second check digit: `doc[i - 1] * i` for `i` from 1 to 9. */
  const SecondWeights: seq<nat> := [1, 2, 3, 4, 5, 6, 7, 8, 9]

  /**
   * The value of `generate_first_digit`: the remainder of the weighted sum, or 0 with the
   * discount 2 when that remainder is 10.
   */
  function FirstDigit(cnh: seq<nat>): (r: (nat, nat))
    requires |cnh| >= 9
    ensures r.0 < 10 && (r.1 == 0 || r.1 == 2)
    ensures var rest := Dot(cnh[..9], FirstWeights) % 11;
      (r.1 == 2 <==> rest == 10) && (r.1 == 0 ==> r.0 == rest) && (r.1 == 2 ==> r.0 == 0)
  {
    var first := Dot(cnh[..9], FirstWeights) % 11;
    if first >= 10 then (0, 2) else (first, 0)
  }

  /**
   * The value of `generate_second_digit`: the remainder of the weighted sum minus the
   * discount, brought back into range by adding 11 when negative, or set to 0 when it is 10
   * or more. Only 0..10 is guaranteed: 10 comes out exactly when the discount is one more
   * than the remainder.
   */
  function SecondDigit(doc: seq<nat>, dsc: nat): (d: nat)
    requires |doc| >= 9 && dsc <= 11
    ensures d <= 10
    ensures var rest := Dot(doc[..9], SecondWeights) % 11;
      (d == 10 <==> rest + 1 == dsc)
      && ((d + dsc) % 11 == rest || (rest - dsc >= 10 && d == 0))
  {
    var second: int := Dot(doc[..9], SecondWeights) % 11 - dsc;
    if second < 0 then second + 11
    else if second >= 10 then 0
    else second
  }

  /** The value of `generate_digits`: the first digit, then the second with the first's discount. */
  function CheckDigits(ds: seq<nat>): (d: (nat, nat))
    requires |ds| >= 9
    ensures d.0 < 10 && d.1 <= 10
  {
    var (first, dsc) := FirstDigit(ds);
    (first, SecondDigit(ds, dsc))
  }

  /** The two trailing digits of an eleven-digit vector are those `generate_digits` computes. */
  predicate ChecksumHolds(digits: seq<nat>)
    requires |digits| == 11
  {
    CheckDigits(digits) == (digits[9], digits[10])
  }

  /** `generate_first_digit`: the loop over `i` from 9 down to 1, then the discount. */
  method GenerateFirstDigit(cnh: seq<nat>) returns (first: nat, dsc: nat)
    requires |cnh| >= 9
    ensures (first, dsc) == FirstDigit(cnh)
  {
    var sum := 0;
    dsc := 0;
    var i := 9;
    while i >= 1
      invariant 0 <= i <= 9
      invariant sum == Dot(cnh[..9 - i], FirstWeights)
    {
      DotPrefix(cnh, FirstWeights, 9 - i);
      sum := sum + cnh[9 - i] * i;
      i := i - 1;
    }
    first := sum % 11;
    if first >= 10 {
      first := 0;
      dsc := 2;
    }
  }

  /** `generate_second_digit`: the loop over `i` from 1 to 9, then the discount and the wrap. */
  method GenerateSecondDigit(doc: seq<nat>, dsc: nat) returns (d: nat)
    requires |doc| >= 9 && dsc <= 11
    ensures d == SecondDigit(doc, dsc)
  {
    var sum := 0;
    for i := 1 to 10
      invariant sum == Dot(doc[..i - 1], SecondWeights)
    {
      DotPrefix(doc, SecondWeights, i - 1);
      sum := sum + doc[i - 1] * i;
    }
    var second: int := sum % 11 - dsc;
    if second < 0 {
      second := second + 11;
    } else if second >= 10 {
      second := 0;
    }
    d := second;
  }

  /** `generate_digits`: only the first nine digits of its argument take part. */
  method GenerateDigits(docSlice: seq<nat>) returns (d10: nat, d11: nat)
    requires |docSlice| >= 9
    ensures (d10, d11) == CheckDigits(docSlice[..9])
  {
    var dsc;
    d10, dsc := GenerateFirstDigit(docSlice);
    d11 := GenerateSecondDigit(docSlice, dsc);
    assert docSlice[..9][..9] == docSlice[..9];
  }

  /** `validate`. */
  predicate Validate(doc: string) {
    if |doc| != 11 && !IsMasked(doc) then false
    else
      var digits := GetDigits(doc);
      if |digits| != 11 then false
      else if IsRepeated(digits) then false
      else CheckDigits(digits) == (digits[9], digits[10])
  }

  /** `is_bare`: eleven characters, all of them digits. */
  predicate IsBare(doc: string) {
    |doc| == 11 && |GetDigits(doc)| == 11
  }

  /** `is_masked`: exactly three spaces, at 3, 7 and 11, and eleven digits. */
  predicate IsMasked(doc: string) {
    var symbols := GetSymbols(doc);
    var digits := GetDigits(doc);
    if |symbols| != 3 || |digits| != 11 then false
    else symbols[0] == (3, ' ') && symbols[1] == (7, ' ') && symbols[2] == (11, ' ')
  }

  /** `mask`, which panics on a string that is not bare. */
  function Mask(doc: string): (m: string)
    requires IsBare(doc)
    ensures |m| == 14 && IsMasked(m) && GetDigits(m) == GetDigits(doc) && Unmask(m) == doc
  {
    MaskSpec(doc);
    doc[0..3] + " " + doc[3..6] + " " + doc[6..9] + " " + doc[9..11]
  }

  /**
   * `generate`: nine random digits, the first check digit pushed, then the second. When
   * the second is 10 its rendering "10" makes the string twelve characters long.
   */
  method Generate(rng: seq<nat>) returns (s: string)
    requires |rng| >= 9
    ensures var (d10, d11) := CheckDigits(Drawn(9, rng));
      GetDigits(s) == Drawn(9, rng) + [d10] + (if d11 < 10 then [d11] else [1, 0])
    ensures CheckDigits(Drawn(9, rng)).1 < 10 ==>
      IsBare(s) && ChecksumHolds(GetDigits(s)) && (Validate(s) <==> !IsRepeated(Drawn(9, rng)))
    ensures CheckDigits(Drawn(9, rng)).1 == 10 ==> |s| == 12 && !Validate(s)
  {
    var cnh := RandomDigitVector(9, rng);
    assert cnh == Drawn(9, rng);
    var d10, dsc := GenerateFirstDigit(cnh);
    cnh := cnh + [d10];
    var d11 := GenerateSecondDigit(cnh, dsc);
    assert cnh[..9] == Drawn(9, rng) == Drawn(9, rng)[..9];
    assert (d10, d11) == CheckDigits(Drawn(9, rng));
    cnh := cnh + [d11];
    s := Render(cnh);
    RenderSplits(Drawn(9, rng) + [d10], d11);
    if d11 < 10 {
      RenderDigits(cnh);
      assert GetDigits(s)[..9] == Drawn(9, rng);
      RepeatedBody(GetDigits(s));
    } else {
      Partition(s);
    }
  }

  /** `generate_masked`: it panics exactly when the generated string is not bare. */
  method GenerateMasked(rng: seq<nat>) returns (s: string)
    requires |rng| >= 9 && CheckDigits(Drawn(9, rng)).1 < 10
    ensures IsMasked(s) && ChecksumHolds(GetDigits(s))
    ensures Validate(s) <==> !IsRepeated(Drawn(9, rng))
  {
    var bare := Generate(rng);
    s := Mask(bare);
  }

  // ================================================================== lemmas

  /** A CNH validates exactly when it is bare or masked, not one repeated digit, and its check digits match. */
  lemma ValidateIff(doc: string)
    ensures Validate(doc) <==>
      (IsBare(doc) || IsMasked(doc)) && !IsRepeated(GetDigits(doc)) && ChecksumHolds(GetDigits(doc))
  {
  }

  /** No string is both bare and masked. */
  lemma BareMaskedExclusive(doc: string)
    ensures !(IsBare(doc) && IsMasked(doc))
  {
    if IsBare(doc) {
      BareFacts(doc);
    }
  }

  /** The shape of `mask`'s output: the digits of a bare CNH in groups of 3, 3, 3 and 2, separated by spaces. */
  lemma MaskSpec(doc: string)
    requires IsBare(doc)
    ensures var m := doc[0..3] + " " + doc[3..6] + " " + doc[6..9] + " " + doc[9..11];
      |m| == 14 && IsMasked(m) && GetDigits(m) == GetDigits(doc) && Unmask(m) == doc
  {
    BareFacts(doc);
    var a, b, c, d := doc[0..3], doc[3..6], doc[6..9], doc[9..11];
    SliceDecimal(doc, 0, 3);
    SliceDecimal(doc, 3, 6);
    SliceDecimal(doc, 6, 9);
    SliceDecimal(doc, 9, 11);
    assert doc == a + b + c + d;
    MaskedParts(a, b, c, d);
    UnmaskRendersDigits(a + " " + b + " " + c + " " + d);
    UnmaskRendersDigits(doc);
    UnmaskDecimal(doc);
  }

  /** Digit groups of lengths 3, 3, 3 and 2 joined by spaces form a masked CNH with the same digits. */
  lemma MaskedParts(a: string, b: string, c: string, d: string)
    requires AllDecimal(a) && AllDecimal(b) && AllDecimal(c) && AllDecimal(d)
    requires |a| == 3 && |b| == 3 && |c| == 3 && |d| == 2
    ensures var m := a + " " + b + " " + c + " " + d;
      |m| == 14 && IsMasked(m) && GetDigits(m) == GetDigits(a + b + c + d)
  {
    DigitsOfDecimal(a);
    var x := a + [' '] + b;
    var y := x + [' '] + c;
    SeparatorStep(a, ' ', b);
    SeparatorStep(x, ' ', c);
    SeparatorStep(y, ' ', d);
    DigitsAppend(a, b);
    DigitsAppend(a + b, c);
    DigitsAppend(a + b + c, d);
    DigitsOfDecimal(b);
    DigitsOfDecimal(c);
    DigitsOfDecimal(d);
  }

  /** Rendering a last value of 10 appends the two digits 1 and 0. */
  lemma RenderSplits(ds: seq<nat>, last: nat)
    requires IsDigits(ds) && last <= 10
    ensures GetDigits(Render(ds + [last])) == ds + (if last < 10 then [last] else [1, 0])
    ensures |Render(ds + [last])| == |ds| + (if last < 10 then 1 else 2)
  {
    RenderDigits(ds);
    assert (ds + [last])[..|ds|] == ds;
    var tail := NatToString(last);
    assert Render(ds + [last]) == Render(ds) + tail;
    DigitsAppend(Render(ds), tail);
    if last == 10 {
      assert tail == "10";
      DigitsOfChars(tail, [1, 0]);
    } else {
      DigitCharOf(tail[0]);
      DigitsOfChars(tail, [last]);
    }
  }

  /** A repeated body gives the same digit twice more, with no discount. */
  lemma RepeatedPassesChecksum(k: nat)
    requires k < 10
    ensures CheckDigits(Repeat(k, 9)) == (k, k)
  {
    DotRepeat(k, 9, FirstWeights);
    DotRepeat(k, 9, SecondWeights);
    assert FirstWeights[..9] == FirstWeights && SecondWeights[..9] == SecondWeights;
    assert Repeat(k, 9)[..9] == Repeat(k, 9);
    assert Total(FirstWeights) == 45 && Total(SecondWeights) == 45 by { WeightTotals(); }
    assert (45 * k) % 11 == k by {
      assert 45 * k == 11 * (4 * k) + k;
    }
  }

  /** The totals of the weights of both check digits. */
  lemma WeightTotals()
    ensures Total(FirstWeights) == 45 && Total(SecondWeights) == 45
  {
    var v := FirstWeights;
    assert Total(v[..0]) == 0;
    assert v[..1][..0] == v[..0];
    assert Total(v[..1]) == 9;
    assert v[..2][..1] == v[..1];
    assert Total(v[..2]) == 17;
    assert v[..3][..2] == v[..2];
    assert Total(v[..3]) == 24;
    assert v[..4][..3] == v[..3];
    assert Total(v[..4]) == 30;
    assert v[..5][..4] == v[..4];
    assert Total(v[..5]) == 35;
    assert v[..6][..5] == v[..5];
    assert Total(v[..6]) == 39;
    assert v[..7][..6] == v[..6];
    assert Total(v[..7]) == 42;
    assert v[..8][..7] == v[..7];
    assert Total(v[..8]) == 44;
    assert v[..9][..8] == v[..8];
    assert Total(v[..9]) == 45;
    assert v[..9] == v;
    var w := SecondWeights;
    assert Total(w[..0]) == 0;
    assert w[..1][..0] == w[..0];
    assert Total(w[..1]) == 1;
    assert w[..2][..1] == w[..1];
    assert Total(w[..2]) == 3;
    assert w[..3][..2] == w[..2];
    assert Total(w[..3]) == 6;
    assert w[..4][..3] == w[..3];
    assert Total(w[..4]) == 10;
    assert w[..5][..4] == w[..4];
    assert Total(w[..5]) == 15;
    assert w[..6][..5] == w[..5];
    assert Total(w[..6]) == 21;
    assert w[..7][..6] == w[..6];
    assert Total(w[..7]) == 28;
    assert w[..8][..7] == w[..7];
    assert Total(w[..8]) == 36;
    assert w[..9][..8] == w[..8];
    assert Total(w[..9]) == 45;
    assert w[..9] == w;
  }

  /** An eleven-digit vector that passes the checksum is repeated exactly when its body is. */
  lemma RepeatedBody(digits: seq<nat>)
    requires |digits| == 11 && IsDigits(digits) && ChecksumHolds(digits)
    ensures IsRepeated(digits) <==> IsRepeated(digits[..9])
  {
    RepeatedIff(digits);
    RepeatedIff(digits[..9]);
    if IsRepeated(digits[..9]) {
      var k := digits[0];
      assert digits[..9] == Repeat(k, 9);
      assert digits[..9][..9] == digits[..9];
      RepeatedPassesChecksum(k);
    }
  }

  /**
   * A body whose second check digit is 10: the first remainder is 10, which sets the
   * discount, and the second remainder is 1.
   */
  lemma SecondDigitTen()
    ensures CheckDigits([0, 0, 0, 0, 0, 0, 1, 8, 2]) == (0, 10)
  {
    var w, v := FirstWeights, SecondWeights;
    var b := [0, 0, 0, 0, 0, 0, 1, 8, 2];
    var b6 := [0, 0, 0, 0, 0, 0];
    DotRepeat(0, 6, w);
    DotRepeat(0, 6, v);
    assert b6 == Repeat(0, 6);
    var b7 := b6 + [1]; DotSnoc(b6, 1, w); DotSnoc(b6, 1, v);
    var b8 := b7 + [8]; DotSnoc(b7, 8, w); DotSnoc(b7, 8, v);
    var b9 := b8 + [2]; DotSnoc(b8, 2, w); DotSnoc(b8, 2, v);
    assert b9 == b && b[..9] == b;
    assert Dot(b, w) == 21 && Dot(b, v) == 89;
  }

  /** The weighted sums behind the check digits of the documented CNH 847 187 352 64. */
  lemma ExampleSums()
    ensures Dot([8, 4, 7, 1, 8, 7, 3, 5, 2], FirstWeights) == 248
    ensures Dot([8, 4, 7, 1, 8, 7, 3, 5, 2], SecondWeights) == 202
  {
    var w, v := FirstWeights, SecondWeights;
    var b1 := [8];
    var b2 := b1 + [4]; DotSnoc(b1, 4, w); DotSnoc(b1, 4, v);
    var b3 := b2 + [7]; DotSnoc(b2, 7, w); DotSnoc(b2, 7, v);
    var b4 := b3 + [1]; DotSnoc(b3, 1, w); DotSnoc(b3, 1, v);
    var b5 := b4 + [8]; DotSnoc(b4, 8, w); DotSnoc(b4, 8, v);
    var b6 := b5 + [7]; DotSnoc(b5, 7, w); DotSnoc(b5, 7, v);
    var b7 := b6 + [3]; DotSnoc(b6, 3, w); DotSnoc(b6, 3, v);
    var b8 := b7 + [5]; DotSnoc(b7, 5, w); DotSnoc(b7, 5, v);
    var b9 := b8 + [2]; DotSnoc(b8, 2, w); DotSnoc(b8, 2, v);
    assert b9 == [8, 4, 7, 1, 8, 7, 3, 5, 2];
  }

  /** The digits of the documented CNH and of its variant with a wrong last digit. */
  lemma SampleDigits()
    ensures IsBare("84718735264") && IsBare("84718735265")
    ensures GetDigits("84718735264") == [8, 4, 7, 1, 8, 7, 3, 5, 2, 6, 4]
    ensures GetDigits("84718735265") == [8, 4, 7, 1, 8, 7, 3, 5, 2, 6, 5]
  {
    DigitsOfChars("84718735264", [8, 4, 7, 1, 8, 7, 3, 5, 2, 6, 4]);
    DigitsOfChars("84718735265", [8, 4, 7, 1, 8, 7, 3, 5, 2, 6, 5]);
  }

  /** The documented examples of `validate`. */
  lemma ValidateExamples()
    ensures Validate("84718735264") && !Validate("84718735265")
  {
    SampleDigits();
    var good, bad := [8, 4, 7, 1, 8, 7, 3, 5, 2, 6, 4], [8, 4, 7, 1, 8, 7, 3, 5, 2, 6, 5];
    ExampleSums();
    assert good[..9] == bad[..9] == [8, 4, 7, 1, 8, 7, 3, 5, 2];
    assert CheckDigits(good) == (6, 4) && CheckDigits(bad) == (6, 4);
    RepeatedIff(good);
    assert good[1] != good[0];
    ValidateIff("84718735264");
    ValidateIff("84718735265");
  }

  /** `mask` of the documented CNH, whose masked form validates. */
  lemma MaskExamples()
    ensures IsBare("84718735264")
    ensures Mask("84718735264") == "847 187 352 64" && Validate("847 187 352 64")
  {
    SampleDigits();
    var doc := "84718735264";
    assert doc[0..3] + " " + doc[3..6] + " " + doc[6..9] + " " + doc[9..11] == "847 187 352 64";
    ValidateExamples();
    ValidateIff(doc);
    ValidateIff("847 187 352 64");
  }
}
