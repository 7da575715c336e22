/**
 * Cartão Nacional de Saúde (brado/src/cns.rs): fifteen digits, bare ("144082627260004")
 * or masked as "XXX XXXX XXXX XXXX". A card starting with 1 or 2 ends with four digits
 * computed from the first eleven; a card starting with 7, 8 or 9 only needs its weighted
 * sum to be a multiple of 11.
 */
module Cns {
  import opened Wrappers
  import opened Common

  /** `CNS_SIZE`. */
  const Size: nat := 15

  /** `valid_first_digits`. */
  const ValidFirstDigits: seq<nat> := [1, 2, 7, 8, 9]

  /** The weights `15 - i` of `cns_sum`. */
  const Weights: seq<nat> := [15, 14, 13, 12, 11, 10, 9, 8, 7, 6, 5, 4, 3, 2, 1]

  /** `cns_sum`: the digits weighted by 15 down to 1, from the left. */
  function CnsSum(ds: seq<nat>): nat
    requires |ds| <= 15
  {
    Dot(ds, Weights)
  }

  /** `is_first_digit_valid`. */
  predicate IsFirstDigitValid(d: nat) {
    d in ValidFirstDigits
  }

  /**
   * `generate_last_four_digits`: `[0, 0, 0, c]` with `c` the amount that completes the sum
   * to a multiple of 11; when that amount would be 10, the sum is raised by 2 and the
   * result is `[0, 0, 1, 8]`.
   */
  function LastFour(body: seq<nat>): (r: seq<nat>)
    requires |body| <= 15
    ensures |r| == 4 && r[0] == 0 && r[1] == 0 && r[2] <= 1 && r[3] < 10
    ensures r[2] == 1 <==> CnsSum(body) % 11 == 1
    ensures r[2] == 0 ==> (CnsSum(body) + r[3]) % 11 == 0
    ensures r[2] == 1 ==> r[3] == 8
  {
    var checksum := CnsSum(body);
    var checkDigit := if 11 - checksum % 11 == 11 then 0 else 11 - checksum % 11;
    AddMod11(checksum, checkDigit);
    if checkDigit == 10 then
      AddMod11(checksum, 2);
      [0, 0, 1, 11 - (checksum + 2) % 11]
    else [0, 0, 0, checkDigit]
  }

  /** `validate_checksum`. */
  predicate ValidateChecksum(ds: seq<nat>)
    requires 11 <= |ds| <= 15
  {
    if ds[0] == 1 || ds[0] == 2 then ds[11..] == LastFour(ds[..11])
    else CnsSum(ds) % 11 == 0
  }

  /** `validate`. */
  predicate Validate(doc: string) {
    if |doc| != Size && !IsMasked(doc) then false
    else
      var digits := GetDigits(doc);
      if |digits| != Size || !IsFirstDigitValid(digits[0]) then false
      else ValidateChecksum(digits)
  }

  /** `is_bare`: fifteen characters, all of them digits. */
  predicate IsBare(doc: string) {
    |doc| == Size && |GetDigits(doc)| == Size
  }

  /** `is_masked`: exactly three spaces, at 3, 8 and 13, and fifteen digits. */
  predicate IsMasked(doc: string) {
    var symbols := GetSymbols(doc);
    var digits := GetDigits(doc);
    if |symbols| != 3 || |digits| != Size then false
    else symbols[0] == (3, ' ') && symbols[1] == (8, ' ') && symbols[2] == (13, ' ')
  }

  /** `mask`. */
  function Mask(doc: string): Result<string> {
    if !IsBare(doc) then Err("The given string cannot be masked as CNS!")
    else Ok(doc[0..3] + " " + doc[3..7] + " " + doc[7..11] + " " + doc[11..15])
  }

  /** `generate_first_case`: the first digit, ten random digits, then `generate_last_four_digits`. */
  method GenerateFirstCase(first: nat, rng: seq<nat>) returns (cns: seq<nat>)
    requires first < 10 && |rng| >= 10
    ensures |cns| == 15 && IsDigits(cns)
    ensures cns[..11] == [first] + Drawn(10, rng) && cns[11..] == LastFour(cns[..11])
    ensures CnsSum(cns) % 11 == 0
    ensures (first == 1 || first == 2) ==> ValidateChecksum(cns)
  {
    cns := [first];
    var body := RandomDigitVector(10, rng);
    cns := cns + body;
    var lastFour := LastFour(cns);
    LastFourCompletes(cns);
    cns := cns + lastFour;
    assert cns[..11] == [first] + body && cns[11..] == lastFour;
  }

  /**
   * The loop of `generate_second_case` from the state `(cns, val, idx)`, for at most `fuel`
   * rounds. `None` stands for running out of fuel, and for the underflow of `idx -= 1` at
   * index 0.
   */
  function SecondCaseLoop(cns: seq<nat>, val: nat, idx: nat, fuel: nat): Option<seq<nat>>
    requires |cns| == 15 && idx < 15
    decreases fuel
  {
    if fuel == 0 then None
    else if val == 0 then
      if ValidateChecksum(cns) then Some(cns)
      else
        var diff := 15 - CnsSum(cns) % 11;
        SecondCaseLoop(cns, diff, 15 - diff, fuel - 1)
    else if 15 - idx > val then SecondCaseLoop(cns, val, idx + 1, fuel - 1)
    else if cns[idx] != 9 then SecondCaseLoop(cns[idx := cns[idx] + 1], val - (15 - idx), idx, fuel - 1)
    else if idx == 0 then None
    else SecondCaseLoop(cns[idx := cns[idx] - 1], val + (15 - idx), idx - 1, fuel - 1)
  }

  /** `generate_second_case`: fourteen random digits after the first, then the loop when the sum is off. */
  function SecondCase(first: nat, rng: seq<nat>, fuel: nat): Option<seq<nat>>
    requires |rng| >= 14
  {
    var cns := [first] + Drawn(14, rng);
    var rest := CnsSum(cns) % 11;
    if rest == 0 then Some(cns)
    else SecondCaseLoop(cns, 11 - rest, 15 - (11 - rest), fuel)
  }

  /** `generate_second_case`, running its loop for at most `fuel` rounds. */
  method GenerateSecondCase(first: nat, rng: seq<nat>, fuel: nat) returns (r: Option<seq<nat>>)
    requires |rng| >= 14
    ensures r == SecondCase(first, rng, fuel)
  {
    var cns := [first];
    var body := RandomDigitVector(14, rng);
    cns := cns + body;
    var checksum := CnsSum(cns);
    var rest := checksum % 11;
    if rest == 0 {
      return Some(cns);
    }
    var diff: nat := 11 - rest;
    var val: nat := diff;
    var idx: nat := 15 - val;
    var f := fuel;
    ghost var goal := SecondCaseLoop(cns, val, idx, fuel);
    while f > 0
      invariant |cns| == 15 && idx < 15
      invariant SecondCaseLoop(cns, val, idx, f) == goal
      decreases f
    {
      f := f - 1;
      if val == 0 {
        if ValidateChecksum(cns) {
          return Some(cns);
        } else {
          var checksum := CnsSum(cns);
          var diff: nat := 15 - checksum % 11;
          val := diff;
          idx := 15 - diff;
          continue;
        }
      }
      if 15 - idx > val {
        idx := idx + 1;
        continue;
      }
      if cns[idx] != 9 {
        cns := cns[idx := cns[idx] + 1];
        val := val - (15 - idx);
      } else {
        cns := cns[idx := cns[idx] - 1];
        val := val + (15 - idx);
        if idx == 0 {
          return None;
        }
        idx := idx - 1;
      }
    }
    r := None;
  }

  /**
   * The digits `generate` produces from its draws: the first case, fully determined by the
   * draws, for a first digit 1 or 2, and the fuel-bounded second case otherwise.
   */
  function Generated(draw: nat, rng: seq<nat>, fuel: nat): Option<seq<nat>>
    requires |rng| >= 14
  {
    var first := RandomDigitFromVector(ValidFirstDigits, draw);
    if first == 1 || first == 2 then
      var body := [first] + Drawn(10, rng);
      Some(body + LastFour(body))
    else SecondCase(first, rng, fuel)
  }

  /**
   * `generate`: a first digit drawn from `valid_first_digits`, then the first case for 1
   * and 2 and the second case, with at most `fuel` rounds of its loop, otherwise.
   */
  method Generate(draw: nat, rng: seq<nat>, fuel: nat) returns (r: Option<string>)
    requires |rng| >= 14
    ensures r.Some? <==> Generated(draw, rng, fuel).Some?
    ensures r.Some? ==> GetDigits(r.value) == Generated(draw, rng, fuel).value
    ensures var first := RandomDigitFromVector(ValidFirstDigits, draw);
      (first == 1 || first == 2) ==> r.Some? && GetDigits(r.value)[..11] == [first] + Drawn(10, rng)
    ensures r.Some? ==> IsBare(r.value) && Validate(r.value)
  {
    var first := RandomDigitFromVector(ValidFirstDigits, draw);
    assert first in {1, 2, 7, 8, 9};
    var cns: seq<nat>;
    if first == 1 || first == 2 {
      cns := GenerateFirstCase(first, rng);
      assert cns[0] == first;
      assert cns == cns[..11] + cns[11..];
    } else {
      var second := GenerateSecondCase(first, rng, fuel);
      if second.None? {
        return None;
      }
      SecondCaseSound(first, rng, fuel);
      cns := second.value;
    }
    r := Some(Render(cns));
    RenderedValid(cns);
    RenderDigits(cns);
  }

  /** `generate_masked`: the mask of a generated CNS, which never fails. */
  method GenerateMasked(draw: nat, rng: seq<nat>, fuel: nat) returns (r: Option<string>)
    requires |rng| >= 14
    ensures r.Some? <==> Generated(draw, rng, fuel).Some?
    ensures r.Some? ==> GetDigits(r.value) == Generated(draw, rng, fuel).value
    ensures r.Some? ==> IsMasked(r.value) && Validate(r.value)
  {
    var bare := Generate(draw, rng, fuel);
    if bare.None? {
      return None;
    }
    MaskSpec(bare.value);
    r := Some(Mask(bare.value).value);
    ValidateIff(bare.value);
    ValidateIff(r.value);
  }

  // ================================================================== lemmas

  /** Eleven digits followed by their `generate_last_four_digits` have a weighted sum that is a multiple of 11. */
  lemma LastFourCompletes(body: seq<nat>)
    requires |body| == 11
    ensures CnsSum(body + LastFour(body)) % 11 == 0
  {
    var r := LastFour(body);
    assert r == [0, 0, r[2], r[3]];
    SumWithLastFour(body, r[2], r[3]);
    if r[2] == 1 {
      AddMod11(CnsSum(body), 10);
    }
  }

  /** The last four positions carry the weights 4, 3, 2 and 1. */
  lemma SumWithLastFour(body: seq<nat>, x: nat, c: nat)
    requires |body| == 11
    ensures CnsSum(body + [0, 0, x, c]) == CnsSum(body) + 2 * x + c
  {
    var w := Weights;
    DotSnoc(body, 0, w);
    DotSnoc(body + [0], 0, w);
    DotSnoc(body + [0] + [0], x, w);
    DotSnoc(body + [0] + [0] + [x], c, w);
    assert body + [0] + [0] + [x] + [c] == body + [0, 0, x, c];
  }

  /** The rendering of fifteen digits with a valid first digit that pass `validate_checksum` is a valid bare CNS. */
  lemma RenderedValid(cns: seq<nat>)
    requires |cns| == 15 && IsDigits(cns) && cns[0] in ValidFirstDigits && ValidateChecksum(cns)
    ensures IsBare(Render(cns)) && Validate(Render(cns))
  {
    RenderDigits(cns);
    ValidateIff(Render(cns));
  }

  /** A CNS validates exactly when it is bare or masked, starts with a valid digit, and passes `validate_checksum`. */
  lemma ValidateIff(doc: string)
    ensures Validate(doc) <==>
      (IsBare(doc) || IsMasked(doc)) && GetDigits(doc)[0] in ValidFirstDigits
      && ValidateChecksum(GetDigits(doc))
  {
  }

  /** No string is both bare and masked. */
  lemma BareMaskedExclusive(doc: string)
    ensures !(IsBare(doc) && IsMasked(doc))
  {
    if IsBare(doc) {
      BareFacts(doc);
    }
  }

  /** `mask` fails exactly on strings that are not bare; otherwise it yields a masked CNS with the same digits. */
  lemma MaskSpec(doc: string)
    ensures Mask(doc).Err? <==> !IsBare(doc)
    ensures Mask(doc).Ok? ==>
      var m := Mask(doc).value;
      |m| == 18 && IsMasked(m) && GetDigits(m) == GetDigits(doc) && Unmask(m) == doc
  {
    if IsBare(doc) {
      BareFacts(doc);
      var a, b, c, d := doc[0..3], doc[3..7], doc[7..11], doc[11..15];
      SliceDecimal(doc, 0, 3);
      SliceDecimal(doc, 3, 7);
      SliceDecimal(doc, 7, 11);
      SliceDecimal(doc, 11, 15);
      assert doc == a + b + c + d;
      MaskedParts(a, b, c, d);
      UnmaskRendersDigits(Mask(doc).value);
      UnmaskRendersDigits(doc);
      UnmaskDecimal(doc);
    }
  }

  /** Digit groups of lengths 3, 4, 4 and 4 joined by spaces form a masked CNS with the same digits. */
  lemma MaskedParts(a: string, b: string, c: string, d: string)
    requires AllDecimal(a) && AllDecimal(b) && AllDecimal(c) && AllDecimal(d)
    requires |a| == 3 && |b| == 4 && |c| == 4 && |d| == 4
    ensures var m := a + " " + b + " " + c + " " + d;
      |m| == 18 && IsMasked(m) && GetDigits(m) == GetDigits(a + b + c + d)
  {
    DigitsOfDecimal(a);
    var x := a + [' '] + b;
    var y := x + [' '] + c;
    SeparatorStep(a, ' ', b);
    SeparatorStep(x, ' ', c);
    SeparatorStep(y, ' ', d);
    DigitsAppend(a, b);
    DigitsAppend(a + b, c);
    DigitsAppend(a + b + c, d);
    DigitsOfDecimal(b);
    DigitsOfDecimal(c);
    DigitsOfDecimal(d);
  }

  /**
   * What the loop of `generate_second_case` keeps: the digits stay in 0..9, the first stays
   * 7, 8 or 9, and the sum plus `val` stays a multiple of 11. So a result, when there is one,
   * passes `validate_checksum`, and the recomputing branch is never taken.
   */
  lemma {:induction false} SecondCaseLoopSound(cns: seq<nat>, val: nat, idx: nat, fuel: nat)
    requires |cns| == 15 && idx < 15 && IsDigits(cns) && cns[0] in {7, 8, 9}
    requires (CnsSum(cns) + val) % 11 == 0
    decreases fuel
    ensures var r := SecondCaseLoop(cns, val, idx, fuel);
      r.Some? ==>
        (|r.value| == 15 && IsDigits(r.value) && r.value[0] in {7, 8, 9}
         && CnsSum(r.value) % 11 == 0 && ValidateChecksum(r.value))
  {
    if fuel == 0 || val == 0 {
    } else if 15 - idx > val {
      SecondCaseLoopSound(cns, val, idx + 1, fuel - 1);
    } else if cns[idx] != 9 {
      var next := cns[idx := cns[idx] + 1];
      SumUpdate(cns, idx, cns[idx] + 1);
      SecondCaseLoopSound(next, val - (15 - idx), idx, fuel - 1);
    } else if idx != 0 {
      var next := cns[idx := cns[idx] - 1];
      SumUpdate(cns, idx, cns[idx] - 1);
      SecondCaseLoopSound(next, val + (15 - idx), idx - 1, fuel - 1);
    }
  }

  /** Changing one digit moves the weighted sum by the change times that position's weight. */
  lemma SumUpdate(cns: seq<nat>, idx: nat, v: nat)
    requires |cns| == 15 && idx < 15
    ensures CnsSum(cns[idx := v]) + cns[idx] * (15 - idx) == CnsSum(cns) + v * (15 - idx)
  {
    DotUpdate(cns, Weights, idx, v);
    WeightsDescend();
  }

  /** The weight at position `i` is `15 - i`. */
  lemma WeightsDescend()
    ensures Weights == Descending(15, 15)
    ensures forall i :: 0 <= i < 15 ==> Weights[i] == 15 - i
  {
    var d := Descending(15, 15);
    assert forall i :: 0 <= i < 15 ==> d[i] == 15 - i;
    assert Weights == d;
  }

  /** The second case of `generate` only yields cards that pass `validate_checksum`, first digit included. */
  lemma SecondCaseSound(first: nat, rng: seq<nat>, fuel: nat)
    requires first in {7, 8, 9} && |rng| >= 14
    ensures var r := SecondCase(first, rng, fuel);
      r.Some? ==>
        (|r.value| == 15 && IsDigits(r.value) && r.value[0] in {7, 8, 9}
         && CnsSum(r.value) % 11 == 0 && ValidateChecksum(r.value))
  {
    var cns := [first] + Drawn(14, rng);
    var rest := CnsSum(cns) % 11;
    if rest != 0 {
      AddMod11(CnsSum(cns), 11 - rest);
      SecondCaseLoopSound(cns, 11 - rest, 15 - (11 - rest), fuel);
    }
  }

  /**
   * The underflow of `idx`: with first digit 9 and fourteen drawn nines, the loop walks
   * down from index 6, decrementing each nine, and reaches index 0 still holding 9.
   */
  lemma SecondCaseUnderflow(fuel: nat)
    ensures SecondCase(9, Repeat(9, 14), fuel) == None
  {
    var cns := [9] + Drawn(14, Repeat(9, 14));
    assert cns == Repeat(9, 15);
    DotRepeat(9, 15, Weights);
    WeightsDescend();
    assert Weights[..15] == Weights;
    TotalDescending(15, 15);
    assert CnsSum(cns) == 1080;
    var c6 := cns[6 := 8];
    var c5 := c6[5 := 8];
    var c4 := c5[4 := 8];
    var c3 := c4[3 := 8];
    var c2 := c3[2 := 8];
    var c1 := c2[1 := 8];
    if fuel >= 7 {
      assert SecondCaseLoop(c1, 78, 0, fuel - 6) == None;
      assert SecondCaseLoop(c2, 64, 1, fuel - 5) == None;
      assert SecondCaseLoop(c3, 51, 2, fuel - 4) == None;
      assert SecondCaseLoop(c4, 39, 3, fuel - 3) == None;
      assert SecondCaseLoop(c5, 28, 4, fuel - 2) == None;
      assert SecondCaseLoop(c6, 18, 5, fuel - 1) == None;
    } else {
      SecondCaseNoneWithoutFuel(cns, 9, 6, fuel);
    }
  }

  /** At most six rounds from index 6 of the all-nines card never produce a result. */
  lemma {:induction false} SecondCaseNoneWithoutFuel(cns: seq<nat>, val: nat, idx: nat, fuel: nat)
    requires |cns| == 15 && idx < 15 && fuel <= idx && val > 0
    requires forall k :: 0 <= k <= idx ==> cns[k] == 9
    requires 15 - idx <= val
    decreases fuel
    ensures SecondCaseLoop(cns, val, idx, fuel) == None
  {
    if fuel > 0 {
      SecondCaseNoneWithoutFuel(cns[idx := 8], val + (15 - idx), idx - 1, fuel - 1);
    }
  }

  /** The check digits of the documented first-case card 144 0826 2726 0004. */
  lemma LastFourExample()
    ensures CnsSum([1, 4, 4, 0, 8, 2, 6, 2, 7, 2, 6]) == 392
    ensures LastFour([1, 4, 4, 0, 8, 2, 6, 2, 7, 2, 6]) == [0, 0, 0, 4]
  {
    var w := Weights;
    var b1 := [1];
    var b2 := b1 + [4]; DotSnoc(b1, 4, w);
    var b3 := b2 + [4]; DotSnoc(b2, 4, w);
    var b4 := b3 + [0]; DotSnoc(b3, 0, w);
    var b5 := b4 + [8]; DotSnoc(b4, 8, w);
    var b6 := b5 + [2]; DotSnoc(b5, 2, w);
    var b7 := b6 + [6]; DotSnoc(b6, 6, w);
    var b8 := b7 + [2]; DotSnoc(b7, 2, w);
    var b9 := b8 + [7]; DotSnoc(b8, 7, w);
    var b10 := b9 + [2]; DotSnoc(b9, 2, w);
    var b11 := b10 + [6]; DotSnoc(b10, 6, w);
    assert b11 == [1, 4, 4, 0, 8, 2, 6, 2, 7, 2, 6];
  }

  /** The weighted sum of the documented second-case card 812297346500000. */
  lemma SumExample()
    ensures CnsSum([8, 1, 2, 2, 9, 7, 3, 4, 6, 5, 0, 0, 0, 0, 0]) == 484
  {
    var w := Weights;
    var b1 := [8];
    var b2 := b1 + [1]; DotSnoc(b1, 1, w);
    var b3 := b2 + [2]; DotSnoc(b2, 2, w);
    var b4 := b3 + [2]; DotSnoc(b3, 2, w);
    var b5 := b4 + [9]; DotSnoc(b4, 9, w);
    var b6 := b5 + [7]; DotSnoc(b5, 7, w);
    var b7 := b6 + [3]; DotSnoc(b6, 3, w);
    var b8 := b7 + [4]; DotSnoc(b7, 4, w);
    var b9 := b8 + [6]; DotSnoc(b8, 6, w);
    var b10 := b9 + [5]; DotSnoc(b9, 5, w);
    var b11 := b10 + [0]; DotSnoc(b10, 0, w);
    var b12 := b11 + [0]; DotSnoc(b11, 0, w);
    var b13 := b12 + [0]; DotSnoc(b12, 0, w);
    var b14 := b13 + [0]; DotSnoc(b13, 0, w);
    var b15 := b14 + [0]; DotSnoc(b14, 0, w);
    assert b15 == [8, 1, 2, 2, 9, 7, 3, 4, 6, 5, 0, 0, 0, 0, 0];
  }

  /** The digits of the documented first-case card. */
  lemma SampleDigits()
    ensures IsBare("144082627260004")
    ensures GetDigits("144082627260004") == [1, 4, 4, 0, 8, 2, 6, 2, 7, 2, 6, 0, 0, 0, 4]
  {
    DigitsOfChars("144082627260004", [1, 4, 4, 0, 8, 2, 6, 2, 7, 2, 6, 0, 0, 0, 4]);
  }

  /** The digits of the documented card with a wrong last digit. */
  lemma BadSampleDigits()
    ensures IsBare("144082627260005")
    ensures GetDigits("144082627260005") == [1, 4, 4, 0, 8, 2, 6, 2, 7, 2, 6, 0, 0, 0, 5]
  {
    DigitsOfChars("144082627260005", [1, 4, 4, 0, 8, 2, 6, 2, 7, 2, 6, 0, 0, 0, 5]);
  }

  /** The digits of the documented second-case card. */
  lemma SecondSampleDigits()
    ensures IsBare("812297346500000")
    ensures GetDigits("812297346500000") == [8, 1, 2, 2, 9, 7, 3, 4, 6, 5, 0, 0, 0, 0, 0]
  {
    DigitsOfChars("812297346500000", [8, 1, 2, 2, 9, 7, 3, 4, 6, 5, 0, 0, 0, 0, 0]);
  }

  /** The documented examples of `validate`, one per case. */
  lemma ValidateExamples()
    ensures Validate("144082627260004") && !Validate("144082627260005")
    ensures Validate("812297346500000")
  {
    SampleDigits();
    BadSampleDigits();
    SecondSampleDigits();
    var good, bad := [1, 4, 4, 0, 8, 2, 6, 2, 7, 2, 6, 0, 0, 0, 4], [1, 4, 4, 0, 8, 2, 6, 2, 7, 2, 6, 0, 0, 0, 5];
    assert good[..11] == bad[..11] == [1, 4, 4, 0, 8, 2, 6, 2, 7, 2, 6];
    assert good[11..] == [0, 0, 0, 4] && bad[11..] == [0, 0, 0, 5];
    LastFourExample();
    SumExample();
    ValidateIff("144082627260004");
    ValidateIff("144082627260005");
    ValidateIff("812297346500000");
  }

  /** A shifted mask is not a CNS. */
  lemma ShiftedMaskExample()
    ensures !Validate("14 4082 6272 60004")
  {
    SymbolsComplete("14 4082 6272 60004", 2);
  }

  /** `mask` of the documented card, whose masked form validates. */
  lemma MaskExamples()
    ensures Mask("144082627260004") == Ok("144 0826 2726 0004")
    ensures Validate("144 0826 2726 0004")
  {
    SampleDigits();
    var doc := "144082627260004";
    assert doc[0..3] + " " + doc[3..7] + " " + doc[7..11] + " " + doc[11..15] == "144 0826 2726 0004";
    MaskSpec(doc);
    ValidateExamples();
    ValidateIff(doc);
    ValidateIff("144 0826 2726 0004");
  }
}
