/**
 * The flag-driven CNH validator of brado/src/docs/cnh.rs. The caller says whether the
 * document is masked (then its only symbol must be the space, wherever and however often
 * it occurs) and whether a repeated-digit document is acceptable. Its `generate_digits`
 * is the loop of CnhV1.GenerateDigits; a `Document` is its string.
 */
module DocsCnh {
  import opened Common
  import opened LegacyCommon
  import Cnh
  import CnhV1

  /** The symbol set a masked CNH must have. */
  const MaskSymbols: set<char> := {' '}

  /** What `validate(document, is_masked, ignore_repeated)` computes. */
  predicate Valid(doc: string, isMasked: bool, ignoreRepeated: bool) {
    if isMasked && !ValidSymbols(doc, MaskSymbols) then false
    else
      var digits := DigitsFront(doc);
      if |digits| != 11 then false
      else if !ignoreRepeated && IsRepeated(digits) then false
      else
        var (generated10, generated11) := Cnh.CheckDigits(digits[..9]);
        digits[9] == generated10 && digits[10] == generated11
  }

  /** `validate`. */
  method Validate(doc: string, isMasked: bool, ignoreRepeated: bool) returns (b: bool)
    ensures b == Valid(doc, isMasked, ignoreRepeated)
  {
    if isMasked && !ValidSymbols(doc, MaskSymbols) {
      return false;
    }
    var digits := DigitsFront(doc);
    if |digits| != 11 {
      return false;
    }
    if !ignoreRepeated && IsRepeated(digits) {
      return false;
    }
    var generated10, generated11 := CnhV1.GenerateDigits(digits);
    b := digits[9] == generated10 && digits[10] == generated11;
  }

  /** `validate_str`: `validate` on the document built from the string. */
  method ValidateStr(doc: string, isMasked: bool, ignoreRepeated: bool) returns (b: bool)
    ensures b == Valid(doc, isMasked, ignoreRepeated)
    ensures b ==> |GetDigits(doc)| == 11 && Cnh.ChecksumHolds(GetDigits(doc))
  {
    b := Validate(doc, isMasked, ignoreRepeated);
    ValidIff(doc, isMasked, ignoreRepeated);
  }

  // ================================================================== lemmas

  /** The whole rule: the optional symbol-set test, eleven digits, the optional repeated-digit test and the current checksum. */
  lemma ValidIff(doc: string, isMasked: bool, ignoreRepeated: bool)
    ensures Valid(doc, isMasked, ignoreRepeated) <==>
      (isMasked ==> SymbolSet(doc) == MaskSymbols) &&
      |GetDigits(doc)| == 11 &&
      (!ignoreRepeated ==> !IsRepeated(GetDigits(doc))) &&
      Cnh.ChecksumHolds(GetDigits(doc))
  {
    DigitsFrontAgrees(doc);
    var digits := GetDigits(doc);
    if |digits| == 11 {
      CnhV1.ChecksumAgrees(digits);
    }
  }

  /** `ignore_repeated` only switches off the repeated-digit rejection. */
  lemma RepeatedFlag(doc: string, isMasked: bool)
    ensures Valid(doc, isMasked, false) <==> Valid(doc, isMasked, true) && !IsRepeated(GetDigits(doc))
  {
    ValidIff(doc, isMasked, false);
    ValidIff(doc, isMasked, true);
  }

  /** `is_masked` only adds the symbol-set test. */
  lemma MaskedFlag(doc: string, ignoreRepeated: bool)
    ensures Valid(doc, true, ignoreRepeated) <==> Valid(doc, false, ignoreRepeated) && SymbolSet(doc) == MaskSymbols
  {
    ValidIff(doc, true, ignoreRepeated);
    ValidIff(doc, false, ignoreRepeated);
  }

  /**
   * Every CNH the current validator accepts passes here without the mask flag, and a
   * masked one also with it; on bare strings the two validators agree.
   */
  lemma CurrentAgrees(doc: string)
    ensures Cnh.Validate(doc) ==> Valid(doc, false, false)
    ensures Cnh.Validate(doc) && Cnh.IsMasked(doc) ==> Valid(doc, true, false)
    ensures Cnh.IsBare(doc) ==> (Valid(doc, false, false) <==> Cnh.Validate(doc))
  {
    Cnh.ValidateIff(doc);
    ValidIff(doc, false, false);
    ValidIff(doc, true, false);
    if Cnh.IsMasked(doc) {
      SymbolSetOfSymbols(doc);
      var syms := GetSymbols(doc);
      assert syms == [(3, ' '), (7, ' '), (11, ' ')];
      assert (set k | 0 <= k < |syms| :: syms[k].1) == MaskSymbols by {
        assert syms[0].1 == ' ';
      }
    }
  }

  /** The documented CNH passes without the mask flag and fails with it: a bare string has no symbols. */
  lemma BareExample()
    ensures Valid("84718735264", false, false) && !Valid("84718735264", true, false)
  {
    Cnh.ValidateExamples();
    Cnh.SampleDigits();
    CurrentAgrees("84718735264");
    MaskedFlag("84718735264", false);
    BareFacts("84718735264");
    ValidSymbolsEmpty("84718735264");
  }

  /** The masked form of the documented CNH passes with the mask flag. */
  lemma MaskedExample()
    ensures Valid("847 187 352 64", true, false)
  {
    Cnh.MaskExamples();
    Cnh.MaskSpec("84718735264");
    CurrentAgrees("847 187 352 64");
  }

  /** "11111111111" passes the CNH checksum and is rejected only as a repeated digit. */
  lemma RepeatedOnes()
    ensures Valid("11111111111", false, true) && !Valid("11111111111", false, false)
  {
    var ones := Repeat(1, 11);
    DigitsOfChars("11111111111", [1, 1, 1, 1, 1, 1, 1, 1, 1, 1, 1]);
    assert GetDigits("11111111111") == ones;
    OnesChecksum();
    RepeatedIff(ones);
    ValidIff("11111111111", false, true);
    ValidIff("11111111111", false, false);
  }

  /** The eleven-digit vector of ones passes the CNH checksum. */
  lemma OnesChecksum()
    ensures Cnh.ChecksumHolds(Repeat(1, 11))
  {
    var ones := Repeat(1, 11);
    Cnh.RepeatedPassesChecksum(1);
    assert ones[..9] == Repeat(1, 9);
    CnhV1.ChecksumAgrees(ones);
  }
}
