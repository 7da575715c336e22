/**
 * The oldest CNPJ validator (src/docs/cnpj.rs). It demands that the symbol set be exactly
 * {'.', '/', '-'}, wherever and however often they occur, so a bare CNPJ is rejected; and
 * it weighs the fourteenth digit against the input's thirteenth instead of the computed
 * one. Its `generate_digit` is the loop of Cnpj.GenerateDigit; a `Document` is its string.
 */
module DocsCnpj {
  import opened Common
  import opened LegacyCommon
  import Cnpj

  /** The symbol set every CNPJ must have here. */
  const MaskSymbols: set<char> := {'.', '/', '-'}

  /** What `validate` computes. */
  predicate Valid(doc: string) {
    if !ValidSymbols(doc, MaskSymbols) then false
    else
      var digits := DigitsFront(doc);
      if |digits| != 14 then false
      else if exists i :: 0 <= i < 10 && multiset(digits)[i] == 14 then false
      else
        digits[12] == Cnpj.CheckDigit(digits[..12], Cnpj.Weights13)
        && digits[13] == Cnpj.CheckDigit(digits[..13], Cnpj.Weights14)
  }

  /** `validate`. */
  method Validate(doc: string) returns (b: bool)
    ensures b == Valid(doc)
  {
    if !ValidSymbols(doc, MaskSymbols) {
      return false;
    }
    var digits := DigitsFront(doc);
    if |digits| != 14 {
      return false;
    }
    for i := 0 to 10
      invariant forall j :: 0 <= j < i ==> multiset(digits)[j] != 14
    {
      if multiset(digits)[i] == 14 {
        return false;
      }
    }
    var generated13 := Cnpj.GenerateDigit(digits, 12, Cnpj.Weights13);
    var generated14 := Cnpj.GenerateDigit(digits, 13, Cnpj.Weights14);
    b := digits[12] == generated13 && digits[13] == generated14;
  }

  // ================================================================== lemmas

  /** Weighing the fourteenth digit against the input's thirteenth accepts exactly what the current check accepts. */
  lemma ChecksumAgrees(digits: seq<nat>)
    requires |digits| == 14
    ensures digits[12] == Cnpj.CheckDigit(digits[..12], Cnpj.Weights13)
      && digits[13] == Cnpj.CheckDigit(digits[..13], Cnpj.Weights14)
      <==> Cnpj.ChecksumHolds(digits)
  {
    assert digits[..13] == digits[..12] + [digits[12]];
  }

  /** The whole rule: the exact symbol set, fourteen digits, not one repeated digit, and the current checksum. */
  lemma ValidIff(doc: string)
    ensures Valid(doc) <==>
      SymbolSet(doc) == MaskSymbols && |GetDigits(doc)| == 14 && !IsRepeated(GetDigits(doc))
      && Cnpj.ChecksumHolds(GetDigits(doc))
  {
    DigitsFrontAgrees(doc);
    var digits := GetDigits(doc);
    if |digits| == 14 {
      CountLoopRepeated(digits);
      ChecksumAgrees(digits);
    }
  }

  /** No bare string passes: without symbols the set is empty. */
  lemma BareRejected(doc: string)
    requires Cnpj.IsBare(doc)
    ensures !Valid(doc)
  {
    BareFacts(doc);
    ValidSymbolsEmpty(doc);
  }

  /** A masked CNPJ passes here exactly when it passes the current validator. */
  lemma MaskedAgrees(doc: string)
    requires Cnpj.IsMasked(doc)
    ensures Valid(doc) <==> Cnpj.Valid(doc)
  {
    Cnpj.ValidIff(doc);
    ValidIff(doc);
    SymbolSetOfSymbols(doc);
    var syms := GetSymbols(doc);
    assert (set k | 0 <= k < |syms| :: syms[k].1) == MaskSymbols by {
      assert syms[0].1 == '.' && syms[2].1 == '/' && syms[3].1 == '-';
    }
  }

  /** The documented CNPJ is rejected bare and accepted masked. */
  lemma Examples()
    ensures !Valid("05200851000100") && Valid("05.200.851/0001-00")
  {
    Cnpj.SampleDigits();
    BareRejected("05200851000100");
    Cnpj.MaskedValidates();
    Cnpj.ValidIff("05.200.851/0001-00");
    MaskedAgrees("05.200.851/0001-00");
  }

  /** Putting '.', '/' and '-' after the first three digits of a bare CNPJ keeps its digits and adds exactly those symbols. */
  lemma MisplacedParts(doc: string)
    requires Cnpj.IsBare(doc)
    ensures var m := doc[..1] + ['.'] + doc[1..2] + ['/'] + doc[2..3] + ['-'] + doc[3..];
      GetDigits(m) == GetDigits(doc) && GetSymbols(m) == [(1, '.'), (3, '/'), (5, '-')]
  {
    BareFacts(doc);
    var a, b, c, d := doc[..1], doc[1..2], doc[2..3], doc[3..];
    SliceDecimal(doc, 1, 2);
    SliceDecimal(doc, 2, 3);
    SliceDecimal(doc, 3, 14);
    assert d == doc[3..14];
    DigitsOfDecimal(a);
    var x := a + ['.'] + b;
    var y := x + ['/'] + c;
    SeparatorStep(a, '.', b);
    SeparatorStep(x, '/', c);
    SeparatorStep(y, '-', d);
    assert doc == a + b + c + d;
    DigitsAppend(a, b);
    DigitsAppend(a + b, c);
    DigitsAppend(a + b + c, d);
  }

  /** The symbols may sit anywhere: a bare CNPJ with '.', '/' and '-' put after its first three digits passes here exactly when the CNPJ is valid, while the current validator rejects that string. */
  lemma MisplacedSymbols(doc: string)
    requires Cnpj.IsBare(doc)
    ensures var m := doc[..1] + ['.'] + doc[1..2] + ['/'] + doc[2..3] + ['-'] + doc[3..];
      (Valid(m) <==> Cnpj.Valid(doc)) && !Cnpj.Valid(m)
  {
    var m := doc[..1] + ['.'] + doc[1..2] + ['/'] + doc[2..3] + ['-'] + doc[3..];
    MisplacedParts(doc);
    var syms := GetSymbols(m);
    SymbolSetOfSymbols(m);
    assert (set k | 0 <= k < |syms| :: syms[k].1) == MaskSymbols by {
      assert syms[0].1 == '.' && syms[1].1 == '/' && syms[2].1 == '-';
    }
    ValidIff(m);
    Cnpj.ValidIff(doc);
    Cnpj.ValidIff(m);
  }

  /** The documented CNPJ with its symbols misplaced, "0.5/2-00851000100", passes here but not the current validator. */
  lemma MisplacedExample()
    ensures Valid("0.5/2-00851000100") && !Cnpj.Valid("0.5/2-00851000100")
  {
    var doc := "05200851000100";
    Cnpj.ValidExamples();
    assert doc[..1] == "0" && doc[1..2] == "5" && doc[2..3] == "2" && doc[3..] == "00851000100";
    assert doc[..1] + ['.'] + doc[1..2] + ['/'] + doc[2..3] + ['-'] + doc[3..] == "0.5/2-00851000100";
    MisplacedSymbols(doc);
  }
}
