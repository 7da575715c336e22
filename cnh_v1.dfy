/**
 * The older CNH validator (brado/src/cnh/utils.rs). Its `generate_digits` works on the
 * whole digit vector in one function: the first loop runs its weight down to 0, so the
 * tenth digit enters the sum with weight 0 and changes nothing. Its `is_bare` is
 * Cnh.IsBare; its `is_masked` checks the spaces only, and its `mask` panics on a string
 * that is not bare.
 */
module CnhV1 {
  import opened Common
  import Cnh

  /** The weights of the first loop, `i` from 9 down to 0: the current ones and a final 0. */
  const FirstLoopWeights: seq<nat> := [9, 8, 7, 6, 5, 4, 3, 2, 1, 0]

  /** Position `k` of the first loop carries weight `9 - k`, and of the second `k + 1`. */
  lemma LoopWeightsAt()
    ensures forall k :: 0 <= k < 10 ==> FirstLoopWeights[k] == 9 - k
    ensures forall k :: 0 <= k < 9 ==> Cnh.SecondWeights[k] == k + 1
  {
  }

  /** `generate_digits`: both check digits in one pass, from a vector of at least ten digits. */
  method GenerateDigits(cnh: seq<nat>) returns (d10: nat, d11: nat)
    requires |cnh| >= 10
    ensures (d10, d11) == Cnh.CheckDigits(cnh[..9])
  {
    LoopWeightsAt();
    var sum := 0;
    var dsc := 0;
    var i: int := 9;
    while i >= 0
      invariant -1 <= i <= 9
      invariant sum == Dot(cnh[..9 - i], FirstLoopWeights)
    {
      DotPrefix(cnh, FirstLoopWeights, 9 - i);
      sum := sum + cnh[9 - i] * i;
      i := i - 1;
    }
    DotPrefix(cnh, FirstLoopWeights, 9);
    DotSameWeights(cnh[..9], FirstLoopWeights, Cnh.FirstWeights);
    var first := sum % 11;
    if first >= 10 {
      first := 0;
      dsc := 2;
    }
    assert cnh[..9][..9] == cnh[..9];
    assert (first, dsc) == Cnh.FirstDigit(cnh[..9]);
    sum := 0;
    for j := 1 to 10
      invariant sum == Dot(cnh[..j - 1], Cnh.SecondWeights)
    {
      DotPrefix(cnh, Cnh.SecondWeights, j - 1);
      sum := sum + cnh[j - 1] * j;
    }
    var second: int := sum % 11 - dsc;
    if second < 0 {
      second := second + 11;
    } else if second >= 10 {
      second := 0;
    }
    assert second == Cnh.SecondDigit(cnh[..9], dsc);
    d10, d11 := first, second;
  }

  /** `is_masked`: exactly three spaces, at 3, 7 and 11; the digit count is not looked at. */
  predicate IsMasked(doc: string) {
    var symbols := GetSymbols(doc);
    if |symbols| != 3 then false
    else symbols[0] == (3, ' ') && symbols[1] == (7, ' ') && symbols[2] == (11, ' ')
  }

  /** What `validate` computes. */
  predicate Valid(doc: string) {
    if |doc| != 11 && !IsMasked(doc) then false
    else
      var digits := GetDigits(doc);
      if |digits| != 11 || IsRepeated(digits) then false
      else Cnh.CheckDigits(digits[..9]) == (digits[9], digits[10])
  }

  /** `validate`. */
  method Validate(doc: string) returns (b: bool)
    ensures b == Valid(doc)
  {
    if |doc| != 11 && !IsMasked(doc) {
      return false;
    }
    var digits := GetDigits(doc);
    if |digits| != 11 {
      return false;
    }
    if IsRepeated(digits) {
      return false;
    }
    var d10, d11 := GenerateDigits(digits);
    b := (d10, d11) == (digits[9], digits[10]);
  }

  /** `mask`: defined on bare strings only (it panics otherwise), with the current layout. */
  function Mask(doc: string): (m: string)
    requires Cnh.IsBare(doc)
    ensures m == Cnh.Mask(doc)
    ensures IsMasked(m) && GetDigits(m) == GetDigits(doc) && Unmask(m) == doc
  {
    Cnh.MaskSpec(doc);
    doc[0..3] + " " + doc[3..6] + " " + doc[6..9] + " " + doc[9..11]
  }

  // ================================================================== lemmas

  /** The check digits of the current rule depend on the first nine digits only. */
  lemma ChecksumAgrees(digits: seq<nat>)
    requires |digits| == 11
    ensures Cnh.CheckDigits(digits[..9]) == (digits[9], digits[10]) <==> Cnh.ChecksumHolds(digits)
  {
    assert digits[..9][..9] == digits[..9];
    assert Cnh.CheckDigits(digits[..9]) == Cnh.CheckDigits(digits);
  }

  /** The current `is_masked` is this one plus the eleven-digit count. */
  lemma MaskedAgrees(doc: string)
    ensures Cnh.IsMasked(doc) <==> IsMasked(doc) && |GetDigits(doc)| == 11
  {
  }

  /** The older `validate` accepts exactly the strings the current one accepts. */
  lemma ValidAgrees(doc: string)
    ensures Valid(doc) <==> Cnh.Validate(doc)
  {
    var digits := GetDigits(doc);
    if |digits| == 11 {
      ChecksumAgrees(digits);
    }
  }

  /** A masked CNH cut short by its last digit still passes this `is_masked`, but no longer the current one. */
  lemma MaskedShortOfDigits(doc: string)
    requires Cnh.IsBare(doc)
    ensures var m := Mask(doc); IsMasked(m[..13]) && !Cnh.IsMasked(m[..13])
  {
    var m := Mask(doc);
    BareFacts(doc);
    assert m == m[..13] + [m[13]];
    assert m[13] == doc[10];
    SymbolsSnoc(m[..13], m[13]);
  }
}
