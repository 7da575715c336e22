/**
 * Cadastro de Pessoa Física (brado/src/cpf.rs): eleven digits, nine of body and
 * two check digits, bare ("63929247011") or masked as "XXX.XXX.XXX-XX".
 */
module Cpf {
  import opened Wrappers
  import opened Common

  /**
   * `generate_digit`: a body of length n is weighted by n + 1 down to 2 and the
   * digit is `(10 * sum) % 11`, 10 becoming 0. Put the other way round: the digit
   * brings the sum up to a multiple of 11, unless that would take a 10.
   */
  function CheckDigit(body: seq<nat>): (d: nat)
    ensures d < 10
    ensures var sum := Dot(body, Descending(|body| + 1, |body|));
      (sum + d) % 11 == 0 || (sum % 11 == 1 && d == 0)
  {
    var sum := Dot(body, Descending(|body| + 1, |body|));
    TenRuleCompletes(sum);
    var result := (sum * 10) % 11;
    if result == 10 then 0 else result
  }

  /** `generate_digits`: the tenth digit from the body, the eleventh from the body followed by the tenth. */
  function CheckDigits(body: seq<nat>): (d: (nat, nat))
    ensures d.0 < 10 && d.1 < 10
  {
    var d10 := CheckDigit(body);
    (d10, CheckDigit(body + [d10]))
  }

  /** The two trailing digits of an eleven-digit vector are the ones `generate_digits` computes from the first nine. */
  predicate ChecksumHolds(digits: seq<nat>)
    requires |digits| == 11
  {
    CheckDigits(digits[..9]) == (digits[9], digits[10])
  }

  /** `validate`. */
  predicate Validate(doc: string) {
    if |doc| != 11 && !IsMasked(doc) then false
    else
      var digits := GetDigits(doc);
      if |digits| != 11 || IsRepeated(digits) then false
      else CheckDigits(digits[..9]) == (digits[9], digits[10])
  }

  /** `is_bare`: eleven characters, all of them digits. */
  predicate IsBare(doc: string) {
    |doc| == 11 && |GetDigits(doc)| == 11
  }

  /** `is_masked`: exactly the three symbols of the mask, at their positions, and eleven digits. */
  predicate IsMasked(doc: string) {
    var symbols := GetSymbols(doc);
    var digits := GetDigits(doc);
    if |symbols| != 3 || |digits| != 11 then false
    else symbols[0] == (3, '.') && symbols[1] == (7, '.') && symbols[2] == (11, '-')
  }

  /** `mask`. */
  function Mask(doc: string): Result<string> {
    if !IsBare(doc) then Err("The given string cannot be masked as CPF!")
    else Ok(doc[0..3] + "." + doc[3..6] + "." + doc[6..9] + "-" + doc[9..11])
  }

  /** `generate`: nine random digits, then the two check digits pushed one after the other. */
  method Generate(rng: seq<nat>) returns (s: string)
    requires |rng| >= 9
    ensures IsBare(s)
    ensures var digits := GetDigits(s);
      ChecksumHolds(digits) && forall i :: 0 <= i < 9 ==> digits[i] == rng[i] % 10
    ensures Validate(s) <==> !IsRepeated(GetDigits(s)[..9])
  {
    var cpf := RandomDigitVector(9, rng);
    ghost var body := cpf;
    cpf := cpf + [CheckDigit(cpf)];
    cpf := cpf + [CheckDigit(cpf)];
    s := Render(cpf);
    RenderDigits(cpf);
    assert cpf[..9] == body;
    RepeatedBody(cpf);
  }

  /** `generate_masked`: the mask of a generated CPF, which never fails. */
  method GenerateMasked(rng: seq<nat>) returns (s: string)
    requires |rng| >= 9
    ensures IsMasked(s) && ChecksumHolds(GetDigits(s))
    ensures Validate(s) <==> !IsRepeated(GetDigits(s)[..9])
  {
    var bare := Generate(rng);
    MaskSpec(bare);
    s := Mask(bare).value;
  }

  // ================================================================== lemmas

  /** A CPF validates exactly when it is bare or masked, not one repeated digit, and its check digits match. */
  lemma ValidateIff(doc: string)
    ensures Validate(doc) <==>
      (IsBare(doc) || IsMasked(doc)) && !IsRepeated(GetDigits(doc)) && ChecksumHolds(GetDigits(doc))
  {
  }

  /** No string is both bare and masked. */
  lemma BareMaskedExclusive(doc: string)
    ensures !(IsBare(doc) && IsMasked(doc))
  {
    if IsBare(doc) {
      BareFacts(doc);
    }
  }

  /** `mask` fails exactly on strings that are not bare; otherwise it yields a masked CPF with the same digits. */
  lemma MaskSpec(doc: string)
    ensures Mask(doc).Err? <==> !IsBare(doc)
    ensures Mask(doc).Ok? ==>
      var m := Mask(doc).value;
      |m| == 14 && IsMasked(m) && GetDigits(m) == GetDigits(doc) && Unmask(m) == doc
  {
    if IsBare(doc) {
      BareFacts(doc);
      var a, b, c, d := doc[0..3], doc[3..6], doc[6..9], doc[9..11];
      SliceDecimal(doc, 0, 3);
      SliceDecimal(doc, 3, 6);
      SliceDecimal(doc, 6, 9);
      SliceDecimal(doc, 9, 11);
      DigitsOfDecimal(a);
      var x := a + ['.'] + b;
      var y := x + ['.'] + c;
      var m := y + ['-'] + d;
      assert Mask(doc).value == m;
      SeparatorStep(a, '.', b);
      SeparatorStep(x, '.', c);
      SeparatorStep(y, '-', d);
      assert doc == a + b + c + d;
      DigitsAppend(a, b);
      DigitsAppend(a + b, c);
      DigitsAppend(a + b + c, d);
      UnmaskRendersDigits(m);
      UnmaskRendersDigits(doc);
      UnmaskDecimal(doc);
    }
  }

  /** Each repeated body gives the same digit twice more, so only the repeated-digit guard rejects such a CPF. */
  lemma RepeatedPassesChecksum(k: nat)
    requires k < 10
    ensures CheckDigits(Repeat(k, 9)) == (k, k)
  {
    RepeatedDigit(k, 9, 54, 49);
    assert Repeat(k, 9) + [k] == Repeat(k, 10);
    RepeatedDigit(k, 10, 65, 59);
  }

  /** `n` copies of `k` weigh `total * k`, and `10 * total` is one more than `11 * q`, so the digit is `k` again. */
  lemma RepeatedDigit(k: nat, n: nat, total: nat, q: nat)
    requires k < 10 && (n, total, q) in {(9, 54, 49), (10, 65, 59)}
    ensures CheckDigit(Repeat(k, n)) == k
  {
    var w := Descending(n + 1, n);
    DotRepeat(k, n, w);
    TotalDescending(n + 1, n);
    assert w[..n] == w;
    assert Dot(Repeat(k, n), w) == total * k;
    ModUnique(total * k * 10, q * k, k);
  }

  /** An eleven-digit vector that passes the checksum is repeated exactly when its body is. */
  lemma RepeatedBody(digits: seq<nat>)
    requires |digits| == 11 && IsDigits(digits) && ChecksumHolds(digits)
    ensures IsRepeated(digits) <==> IsRepeated(digits[..9])
  {
    RepeatedIff(digits);
    RepeatedIff(digits[..9]);
    if IsRepeated(digits[..9]) {
      var k := digits[0];
      assert digits[..9] == Repeat(k, 9);
      RepeatedTail(digits, k);
    }
  }

  /** Behind a body of nine `k`s, the checksum leaves only `k` for the last two places. */
  lemma RepeatedTail(digits: seq<nat>, k: nat)
    requires |digits| == 11 && k < 10 && digits[..9] == Repeat(k, 9)
    requires CheckDigits(digits[..9]) == (digits[9], digits[10])
    ensures forall i :: 0 <= i < 11 ==> digits[i] == k
  {
    RepeatedPassesChecksum(k);
    forall i | 0 <= i < 9
      ensures digits[i] == k
    {
      assert digits[i] == digits[..9][i];
    }
  }

  /** The weighted sums behind the check digits of the documented CPF 639.292.470-11. */
  lemma ExampleSums()
    ensures Dot([6, 3, 9, 2, 9, 2, 4, 7, 0], Descending(10, 9)) == 274
    ensures Dot([6, 3, 9, 2, 9, 2, 4, 7, 0, 1], Descending(11, 10)) == 318
  {
    var w, v := Descending(10, 9), Descending(11, 10);
    var b1 := [6];
    var b2 := b1 + [3]; DotSnoc(b1, 3, w); DotSnoc(b1, 3, v);
    var b3 := b2 + [9]; DotSnoc(b2, 9, w); DotSnoc(b2, 9, v);
    var b4 := b3 + [2]; DotSnoc(b3, 2, w); DotSnoc(b3, 2, v);
    var b5 := b4 + [9]; DotSnoc(b4, 9, w); DotSnoc(b4, 9, v);
    var b6 := b5 + [2]; DotSnoc(b5, 2, w); DotSnoc(b5, 2, v);
    var b7 := b6 + [4]; DotSnoc(b6, 4, w); DotSnoc(b6, 4, v);
    var b8 := b7 + [7]; DotSnoc(b7, 7, w); DotSnoc(b7, 7, v);
    var b9 := b8 + [0]; DotSnoc(b8, 0, w); DotSnoc(b8, 0, v);
    var b10 := b9 + [1]; DotSnoc(b9, 1, v);
    assert b9 == [6, 3, 9, 2, 9, 2, 4, 7, 0];
    assert b10 == [6, 3, 9, 2, 9, 2, 4, 7, 0, 1];
  }

  /** The check digits of the documented CPF 639.292.470-11. */
  lemma CheckDigitsExample()
    ensures CheckDigits([6, 3, 9, 2, 9, 2, 4, 7, 0]) == (1, 1)
  {
    ExampleSums();
    assert [6, 3, 9, 2, 9, 2, 4, 7, 0] + [1] == [6, 3, 9, 2, 9, 2, 4, 7, 0, 1];
  }

  /** The digits of the documented CPF and of its variant with a wrong last digit. */
  lemma SampleDigits()
    ensures IsBare("63929247011") && IsBare("63929247010")
    ensures GetDigits("63929247011") == [6, 3, 9, 2, 9, 2, 4, 7, 0, 1, 1]
    ensures GetDigits("63929247010") == [6, 3, 9, 2, 9, 2, 4, 7, 0, 1, 0]
  {
    DigitsOfChars("63929247011", [6, 3, 9, 2, 9, 2, 4, 7, 0, 1, 1]);
    DigitsOfChars("63929247010", [6, 3, 9, 2, 9, 2, 4, 7, 0, 1, 0]);
  }

  /** The documented examples of `validate`: the check digits decide between a CPF and its last-digit variant. */
  lemma ValidateExamples()
    ensures Validate("63929247011") && !Validate("63929247010")
  {
    SampleDigits();
    var good, bad := [6, 3, 9, 2, 9, 2, 4, 7, 0, 1, 1], [6, 3, 9, 2, 9, 2, 4, 7, 0, 1, 0];
    assert good[..9] == bad[..9] == [6, 3, 9, 2, 9, 2, 4, 7, 0];
    CheckDigitsExample();
    RepeatedIff(good);
    assert good[1] != good[0];
    ValidateIff("63929247011");
    ValidateIff("63929247010");
  }

  /** `mask` of the documented CPF. */
  lemma MaskExample()
    ensures Mask("63929247011") == Ok("639.292.470-11")
  {
    SampleDigits();
    var doc := "63929247011";
    assert doc[0..3] + "." + doc[3..6] + "." + doc[6..9] + "-" + doc[9..11] == "639.292.470-11";
  }

  /** The masked CPF validates and cannot be masked again. */
  lemma MaskedValidates()
    ensures Validate("639.292.470-11") && Mask("639.292.470-11").Err?
  {
    var doc := "63929247011";
    MaskExample();
    MaskSpec(doc);
    ValidateExamples();
    ValidateIff(doc);
    ValidateIff("639.292.470-11");
  }

  /** A mask shifted one place to the left is rejected: "63.929.247-011". */
  lemma ShiftedMaskExample()
    ensures !Validate("63.929.247-011")
  {
    SymbolsComplete("63.929.247-011", 2);
  }
}
