/**
 * The flag-driven CPF validator of brado/src/docs/cpf.rs. The caller says whether the
 * document is masked (then its symbol set must be exactly {'.', '-'}, wherever they
 * stand) and whether a repeated-digit document is acceptable. Its `generate_digit` is
 * the loop of CpfV1.GenerateDigit and its `is_repeated` that of Common; a `Document` is
 * its string.
 */
module DocsCpf {
  import opened Common
  import opened LegacyCommon
  import Cpf
  import CpfV1

  /** The symbol set a masked CPF must have. */
  const MaskSymbols: set<char> := {'.', '-'}

  /** What `validate(document, is_masked, ignore_repeated)` computes. */
  predicate Valid(doc: string, isMasked: bool, ignoreRepeated: bool) {
    if isMasked && !ValidSymbols(doc, MaskSymbols) then false
    else
      var digits := DigitsFront(doc);
      if |digits| != 11 then false
      else if !ignoreRepeated && IsRepeated(digits) then false
      else digits[9] == Cpf.CheckDigit(digits[..9]) && digits[10] == Cpf.CheckDigit(digits[..10])
  }

  /** `validate`. */
  method Validate(doc: string, isMasked: bool, ignoreRepeated: bool) returns (b: bool)
    ensures b == Valid(doc, isMasked, ignoreRepeated)
  {
    if isMasked && !ValidSymbols(doc, MaskSymbols) {
      return false;
    }
    var digits := DigitsFront(doc);
    if |digits| != 11 {
      return false;
    }
    if !ignoreRepeated && IsRepeated(digits) {
      return false;
    }
    var generated10 := CpfV1.GenerateDigit(digits, 10);
    var generated11 := CpfV1.GenerateDigit(digits, 11);
    b := digits[9] == generated10 && digits[10] == generated11;
  }

  /** `validate_str`: `validate` on the document built from the string. */
  method ValidateStr(doc: string, isMasked: bool, ignoreRepeated: bool) returns (b: bool)
    ensures b == Valid(doc, isMasked, ignoreRepeated)
    ensures b ==> |GetDigits(doc)| == 11 && Cpf.ChecksumHolds(GetDigits(doc))
  {
    b := Validate(doc, isMasked, ignoreRepeated);
    ValidIff(doc, isMasked, ignoreRepeated);
  }

  // ================================================================== lemmas

  /** The whole rule: the optional symbol-set test, eleven digits, the optional repeated-digit test and the current checksum. */
  lemma ValidIff(doc: string, isMasked: bool, ignoreRepeated: bool)
    ensures Valid(doc, isMasked, ignoreRepeated) <==>
      (isMasked ==> SymbolSet(doc) == MaskSymbols) &&
      |GetDigits(doc)| == 11 &&
      (!ignoreRepeated ==> !IsRepeated(GetDigits(doc))) &&
      Cpf.ChecksumHolds(GetDigits(doc))
  {
    DigitsFrontAgrees(doc);
    var digits := GetDigits(doc);
    if |digits| == 11 {
      CpfV1.ChecksumAgrees(digits);
    }
  }

  /** `ignore_repeated` only switches off the repeated-digit rejection. */
  lemma RepeatedFlag(doc: string, isMasked: bool)
    ensures Valid(doc, isMasked, false) <==> Valid(doc, isMasked, true) && !IsRepeated(GetDigits(doc))
  {
    ValidIff(doc, isMasked, false);
    ValidIff(doc, isMasked, true);
  }

  /** `is_masked` only adds the symbol-set test. */
  lemma MaskedFlag(doc: string, ignoreRepeated: bool)
    ensures Valid(doc, true, ignoreRepeated) <==> Valid(doc, false, ignoreRepeated) && SymbolSet(doc) == MaskSymbols
  {
    ValidIff(doc, true, ignoreRepeated);
    ValidIff(doc, false, ignoreRepeated);
  }

  /**
   * Every CPF the current validator accepts passes here without the mask flag, and a
   * masked one also with it; on bare strings the two validators agree.
   */
  lemma CurrentAgrees(doc: string)
    ensures Cpf.Validate(doc) ==> Valid(doc, false, false)
    ensures Cpf.Validate(doc) && Cpf.IsMasked(doc) ==> Valid(doc, true, false)
    ensures Cpf.IsBare(doc) ==> (Valid(doc, false, false) <==> Cpf.Validate(doc))
  {
    Cpf.ValidateIff(doc);
    ValidIff(doc, false, false);
    ValidIff(doc, true, false);
    if Cpf.IsMasked(doc) {
      SymbolSetOfSymbols(doc);
      var syms := GetSymbols(doc);
      assert syms == [(3, '.'), (7, '.'), (11, '-')];
      assert (set k | 0 <= k < |syms| :: syms[k].1) == MaskSymbols by {
        assert syms[0].1 == '.' && syms[2].1 == '-';
      }
    }
  }

  /** The documented CPF passes without the mask flag and fails with it: a bare string has no symbols. */
  lemma BareExample()
    ensures Valid("63929247011", false, false) && !Valid("63929247011", true, false)
  {
    Cpf.ValidateExamples();
    Cpf.SampleDigits();
    CurrentAgrees("63929247011");
    MaskedFlag("63929247011", false);
    BareFacts("63929247011");
    ValidSymbolsEmpty("63929247011");
  }

  /** The masked form of the documented CPF passes with the mask flag. */
  lemma MaskedExample()
    ensures Valid("639.292.470-11", true, false)
  {
    Cpf.MaskExample();
    Cpf.MaskedValidates();
    Cpf.MaskSpec("63929247011");
    CurrentAgrees("639.292.470-11");
  }

  /** Eleven ones are a repeated vector that passes the CPF checksum. */
  lemma OnesChecksum()
    ensures Cpf.ChecksumHolds(Repeat(1, 11)) && IsRepeated(Repeat(1, 11))
  {
    var ones := Repeat(1, 11);
    assert ones[..9] == Repeat(1, 9);
    Cpf.RepeatedPassesChecksum(1);
    RepeatedIff(ones);
  }

  /** "11111111111" passes the CPF checksum and is rejected only as a repeated digit. */
  lemma RepeatedOnes()
    ensures Valid("11111111111", false, true) && !Valid("11111111111", false, false)
  {
    DigitsOfChars("11111111111", [1, 1, 1, 1, 1, 1, 1, 1, 1, 1, 1]);
    assert GetDigits("11111111111") == Repeat(1, 11);
    OnesChecksum();
    ValidIff("11111111111", false, true);
    RepeatedFlag("11111111111", false);
  }
}
