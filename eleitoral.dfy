/**
 * Título Eleitoral (brado/src/eleitoral.rs): twelve digits, eight of sequence, two
 * identifying the state and two check digits, bare ("773537801651") or masked as
 * "XXXX XXXX XXXX". A repeated-digit string is not rejected for that reason alone.
 */
module Eleitoral {
  import opened Wrappers
  import opened Common

  /** `ELEITORAL_SIZE`. */
  const Size: nat := 12

  /** The multipliers of `generate_first_digit`, 2 to 9. */
  const FirstMultipliers: seq<nat> := [2, 3, 4, 5, 6, 7, 8, 9]

  /** The multipliers of `generate_second_digit`, 7 to 9. */
  const SecondMultipliers: seq<nat> := [7, 8, 9]

  /** The digit both generators take from a weighted sum: its remainder modulo 11, 10 becoming 0. */
  function RestDigit(sum: nat): (d: nat)
    ensures d < 10
    ensures d == sum % 11 || (sum % 11 == 10 && d == 0)
    ensures d != sum % 11 ==> d == 0
  {
    var rest := sum % 11;
    if rest == 10 then 0 else rest
  }

  /** `generate_first_digit`: the eight sequence digits weighted 2 to 9. */
  function FirstDigit(sequence: seq<nat>): (d: nat)
    requires |sequence| <= 8
    ensures d < 10
    ensures var rest := Dot(sequence, FirstMultipliers) % 11;
      d == rest || (rest == 10 && d == 0)
  {
    RestDigit(Dot(sequence, FirstMultipliers))
  }

  /** `generate_second_digit`: the two state digits followed by the first check digit, weighted 7 to 9. */
  function SecondDigit(state: seq<nat>, first: nat): (d: nat)
    requires |state| <= 2
    ensures d < 10
    ensures var rest := Dot(state + [first], SecondMultipliers) % 11;
      d == rest || (rest == 10 && d == 0)
  {
    RestDigit(Dot(state + [first], SecondMultipliers))
  }

  /** `generate_digits`: digits 0 to 7 give the first check digit, digits 8 and 9 with it the second. */
  function CheckDigits(digits: seq<nat>): (r: (nat, nat))
    requires |digits| >= 10
    ensures r.0 < 10 && r.1 < 10
    ensures r.0 == FirstDigit(digits[0..8])
    ensures r.1 == SecondDigit(digits[8..10], r.0)
  {
    var d11 := FirstDigit(digits[0..8]);
    (d11, SecondDigit(digits[8..10], d11))
  }

  /** The two trailing digits of a twelve-digit vector are the ones `generate_digits` computes from the first ten. */
  predicate ChecksumHolds(digits: seq<nat>)
    requires |digits| == 12
  {
    CheckDigits(digits) == (digits[10], digits[11])
  }

  /** `validate`. */
  predicate Validate(doc: string) {
    if |doc| != Size && !IsMasked(doc) then false
    else
      var digits := GetDigits(doc);
      if |digits| != Size then false
      else CheckDigits(digits) == (digits[10], digits[11])
  }

  /** `is_bare`: twelve characters, all of them digits. */
  predicate IsBare(doc: string) {
    |doc| == Size && |GetDigits(doc)| == Size
  }

  /** `is_masked`: exactly the symbols (4, ' ') and (9, ' '), and twelve digits. */
  predicate IsMasked(doc: string) {
    var symbols := GetSymbols(doc);
    var digits := GetDigits(doc);
    if |symbols| != 2 || |digits| != Size then false
    else symbols[0] == (4, ' ') && symbols[1] == (9, ' ')
  }

  /** `mask`. */
  function Mask(doc: string): Result<string> {
    if !IsBare(doc) then Err("The given string cannot be masked as Título Eleitoral!")
    else Ok(doc[0..4] + " " + doc[4..8] + " " + doc[8..12])
  }

  /** `generate_state_identifier`: a digit in 0..1 then a digit in 0..9, from two draws. */
  function StateIdentifier(draws: seq<nat>): (state: seq<nat>)
    requires |draws| >= 2
    ensures |state| == 2 && state[0] < 2 && state[1] < 10
    ensures state[0] == draws[0] % 2 && state[1] == draws[1] % 10
  {
    [draws[0] % 2, draws[1] % 10]
  }

  /** `generate`: eight random digits, the state identifier, then the two check digits; every generated title validates. */
  method Generate(rng: seq<nat>) returns (s: string)
    requires |rng| >= 10
    ensures IsBare(s)
    ensures var digits := GetDigits(s);
      digits[..8] == Drawn(8, rng) && digits[8..10] == StateIdentifier(rng[8..]) &&
      ChecksumHolds(digits)
    ensures Validate(s)
  {
    var eleitoral := RandomDigitVector(8, rng);
    eleitoral := eleitoral + StateIdentifier(rng[8..]);
    var d11 := FirstDigit(eleitoral[0..8]);
    eleitoral := eleitoral + [d11];
    var d12 := SecondDigit(eleitoral[8..10], d11);
    eleitoral := eleitoral + [d12];
    s := Render(eleitoral);
    RenderDigits(eleitoral);
    assert eleitoral[0..8] == eleitoral[..8] == Drawn(8, rng);
    ValidateIff(s);
  }

  /** `generate_masked`: the mask of a generated title, which never fails. */
  method GenerateMasked(rng: seq<nat>) returns (s: string)
    requires |rng| >= 10
    ensures IsMasked(s) && GetDigits(s)[..8] == Drawn(8, rng) && Validate(s)
  {
    var bare := Generate(rng);
    MaskSpec(bare);
    s := Mask(bare).value;
    ValidateIff(bare);
    ValidateIff(s);
  }

  // ================================================================== lemmas

  /** A title validates exactly when it is bare or masked and its check digits match. */
  lemma ValidateIff(doc: string)
    ensures Validate(doc) <==> (IsBare(doc) || IsMasked(doc)) && ChecksumHolds(GetDigits(doc))
  {
  }

  /** No string is both bare and masked. */
  lemma BareMaskedExclusive(doc: string)
    ensures !(IsBare(doc) && IsMasked(doc))
  {
    if IsBare(doc) {
      BareFacts(doc);
    }
  }

  /** `mask` fails exactly on strings that are not bare; otherwise it yields a masked title with the same digits. */
  lemma MaskSpec(doc: string)
    ensures Mask(doc).Err? <==> !IsBare(doc)
    ensures Mask(doc).Ok? ==>
      var m := Mask(doc).value;
      |m| == 14 && IsMasked(m) && GetDigits(m) == GetDigits(doc) && Unmask(m) == doc
  {
    if IsBare(doc) {
      BareFacts(doc);
      var a, b, c := doc[0..4], doc[4..8], doc[8..12];
      SliceDecimal(doc, 0, 4);
      SliceDecimal(doc, 4, 8);
      SliceDecimal(doc, 8, 12);
      assert doc == a + b + c;
      var x := a + [' '] + b;
      var m := x + [' '] + c;
      assert Mask(doc).value == m;
      DigitsOfDecimal(a);
      SeparatorStep(a, ' ', b);
      SeparatorStep(x, ' ', c);
      DigitsAppend(a, b);
      DigitsAppend(a + b, c);
      DigitsOfDecimal(b);
      DigitsOfDecimal(c);
      UnmaskRendersDigits(m);
      UnmaskRendersDigits(doc);
      UnmaskDecimal(doc);
    }
  }

  /** Every repeated string has its check digits fixed by the digit: only 0 passes, as "000000000000". */
  lemma RepeatedValidates(k: nat)
    requires k < 10
    ensures Validate(Render(Repeat(k, 12))) <==> k == 0
  {
    var digits := Repeat(k, 12);
    RenderDigits(digits);
    assert digits[0..8] == Repeat(k, 8);
    DotRepeat(k, 8, FirstMultipliers);
    assert FirstMultipliers[..8] == FirstMultipliers;
    FirstTotal();
    assert 44 * k == 11 * (4 * k);
    assert FirstDigit(Repeat(k, 8)) == 0;
    ValidateIff(Render(digits));
    if k == 0 {
      assert digits[8..10] + [0] == Repeat(0, 3);
      DotRepeat(0, 3, SecondMultipliers);
    }
  }

  /** The total of the first multipliers. */
  lemma FirstTotal()
    ensures Total(FirstMultipliers) == 44
  {
    var w := FirstMultipliers;
    assert Total(w[..0]) == 0;
    assert w[..1][..0] == w[..0];
    assert Total(w[..1]) == 2;
    assert w[..2][..1] == w[..1];
    assert Total(w[..2]) == 5;
    assert w[..3][..2] == w[..2];
    assert Total(w[..3]) == 9;
    assert w[..4][..3] == w[..3];
    assert Total(w[..4]) == 14;
    assert w[..5][..4] == w[..4];
    assert Total(w[..5]) == 20;
    assert w[..6][..5] == w[..5];
    assert Total(w[..6]) == 27;
    assert w[..7][..6] == w[..6];
    assert Total(w[..7]) == 35;
    assert w[..8][..7] == w[..7];
    assert Total(w[..8]) == 44;
    assert w[..8] == w;
  }

  /** The weighted sums behind the check digits of the documented title 7735 3780 1651. */
  lemma ExampleSums()
    ensures Dot([7, 7, 3, 5, 3, 7, 8, 0], FirstMultipliers) == 203
    ensures Dot([1, 6] + [5], SecondMultipliers) == 100
  {
    var w := FirstMultipliers;
    var b1 := [7];
    var b2 := b1 + [7]; DotSnoc(b1, 7, w);
    var b3 := b2 + [3]; DotSnoc(b2, 3, w);
    var b4 := b3 + [5]; DotSnoc(b3, 5, w);
    var b5 := b4 + [3]; DotSnoc(b4, 3, w);
    var b6 := b5 + [7]; DotSnoc(b5, 7, w);
    var b7 := b6 + [8]; DotSnoc(b6, 8, w);
    var b8 := b7 + [0]; DotSnoc(b7, 0, w);
    assert b8 == [7, 7, 3, 5, 3, 7, 8, 0];
    var c1 := [1];
    var c2 := c1 + [6]; DotSnoc(c1, 6, SecondMultipliers);
    var c3 := c2 + [5]; DotSnoc(c2, 5, SecondMultipliers);
    assert c3 == [1, 6] + [5];
  }

  /** The digits of the documented title and of its variant with a wrong last digit. */
  lemma SampleDigits()
    ensures IsBare("773537801651") && IsBare("773537801650")
    ensures GetDigits("773537801651") == [7, 7, 3, 5, 3, 7, 8, 0, 1, 6, 5, 1]
    ensures GetDigits("773537801650") == [7, 7, 3, 5, 3, 7, 8, 0, 1, 6, 5, 0]
  {
    DigitsOfChars("773537801651", [7, 7, 3, 5, 3, 7, 8, 0, 1, 6, 5, 1]);
    DigitsOfChars("773537801650", [7, 7, 3, 5, 3, 7, 8, 0, 1, 6, 5, 0]);
  }

  /** The documented examples of `validate`. */
  lemma ValidateExamples()
    ensures Validate("773537801651") && !Validate("773537801650")
  {
    SampleDigits();
    var good, bad := [7, 7, 3, 5, 3, 7, 8, 0, 1, 6, 5, 1], [7, 7, 3, 5, 3, 7, 8, 0, 1, 6, 5, 0];
    assert good[0..8] == bad[0..8] == [7, 7, 3, 5, 3, 7, 8, 0];
    assert good[8..10] == bad[8..10] == [1, 6];
    ExampleSums();
    ValidateIff("773537801651");
    ValidateIff("773537801650");
  }

  /** `mask` of the documented title; the masked form validates and the masked variant does not. */
  lemma MaskExamples()
    ensures Mask("773537801651") == Ok("7735 3780 1651")
    ensures Validate("7735 3780 1651") && IsMasked("7735 3780 1650") && !Validate("7735 3780 1650")
  {
    SampleDigits();
    var doc, bad := "773537801651", "773537801650";
    assert doc[0..4] + " " + doc[4..8] + " " + doc[8..12] == "7735 3780 1651";
    assert bad[0..4] + " " + bad[4..8] + " " + bad[8..12] == "7735 3780 1650";
    MaskSpec(doc);
    MaskSpec(bad);
    ValidateExamples();
    ValidateIff(doc);
    ValidateIff(bad);
    ValidateIff("7735 3780 1651");
    ValidateIff("7735 3780 1650");
  }

  /** Spaces every three digits are not the mask: "773 537 801 651" is rejected. */
  lemma ShiftedMaskExample()
    ensures !Validate("773 537 801 651")
  {
    SymbolsComplete("773 537 801 651", 3);
    ValidateIff("773 537 801 651");
  }
}
