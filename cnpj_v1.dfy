/**
 * The older CNPJ validator (brado/src/cnpj/cnpj.rs). Its check-digit loop and
 * `generate_digits` are those of Cnpj.GenerateDigit and Cnpj.GenerateDigits, and its
 * `is_bare` is Cnpj.IsBare; its `is_masked` checks the symbols only, and its `mask`
 * panics on a string that is not bare.
 */
module CnpjV1 {
  import opened Wrappers
  import opened Common
  import Cnpj

  /** `is_masked`: exactly the four symbols of the mask; the digit count is not looked at. */
  predicate IsMasked(doc: string) {
    var symbols := GetSymbols(doc);
    if |symbols| != 4 then false
    else
      symbols[0] == (2, '.') && symbols[1] == (6, '.') && symbols[2] == (10, '/')
      && symbols[3] == (15, '-')
  }

  /** What `validate` computes. */
  predicate Valid(doc: string) {
    if |doc| != 14 && !IsMasked(doc) then false
    else
      var digits := GetDigits(doc);
      if |digits| != 14 then false
      else if exists i :: 0 <= i < 10 && multiset(digits)[i] == 14 then false
      else Cnpj.CheckDigits(digits[..12]) == (digits[12], digits[13])
  }

  /** `validate`, with its loop over the ten digit values. */
  method Validate(doc: string) returns (b: bool)
    ensures b == Valid(doc)
  {
    if |doc| != 14 && !IsMasked(doc) {
      return false;
    }
    var digits := GetDigits(doc);
    if |digits| != 14 {
      return false;
    }
    for i := 0 to 10
      invariant forall j :: 0 <= j < i ==> multiset(digits)[j] != 14
    {
      if multiset(digits)[i] == 14 {
        return false;
      }
    }
    var d13, d14 := Cnpj.GenerateDigits(digits[..12]);
    b := (d13, d14) == (digits[12], digits[13]);
  }

  /** `mask`: defined on bare strings only (it panics otherwise), with the current layout. */
  function Mask(doc: string): (m: string)
    requires Cnpj.IsBare(doc)
    ensures Cnpj.Mask(doc) == Ok(m)
    ensures IsMasked(m) && GetDigits(m) == GetDigits(doc) && Unmask(m) == doc
  {
    Cnpj.MaskSpec(doc);
    doc[0..2] + "." + doc[2..5] + "." + doc[5..8] + "/" + doc[8..12] + "-" + doc[12..14]
  }

  // ================================================================== lemmas

  /** The current `is_masked` is this one plus the fourteen-digit count. */
  lemma MaskedAgrees(doc: string)
    ensures Cnpj.IsMasked(doc) <==> IsMasked(doc) && |GetDigits(doc)| == 14
  {
  }

  /** The older `validate` accepts exactly the strings the current one accepts. */
  lemma ValidAgrees(doc: string)
    ensures Valid(doc) <==> Cnpj.Valid(doc)
  {
  }

  /** A masked CNPJ cut short by its last digit still passes this `is_masked`, but no longer the current one. */
  lemma MaskedShortOfDigits(doc: string)
    requires Cnpj.IsBare(doc)
    ensures var m := Mask(doc); IsMasked(m[..17]) && !Cnpj.IsMasked(m[..17])
  {
    var m := Mask(doc);
    Cnpj.MaskSpec(doc);
    BareFacts(doc);
    assert m == m[..17] + [m[17]];
    assert m[17] == doc[13];
    SymbolsSnoc(m[..17], m[17]);
  }
}
