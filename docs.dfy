/**
 * The facade of brado/src/docs.rs: one predicate per document, each delegating to that
 * document's `validate`. The facade does not tell the documents apart: its answers are
 * independent, so one string can pass several of them.
 */
module Docs {
  import opened Common
  import Cpf
  import Cnpj
  import Cnh
  import Cns
  import Nis
  import Eleitoral
  import Renavam
  import Certidao

  /** `is_cpf`: eleven digits, bare or with the three CPF separators. */
  function IsCpf(doc: string): (r: bool)
    ensures r ==> |GetDigits(doc)| == 11 && (|doc| == 11 || |doc| == 14)
  {
    Partition(doc);
    Cpf.Validate(doc)
  }

  /** `is_cnpj`: fourteen digits, bare or with the four CNPJ separators. */
  method IsCnpj(doc: string) returns (r: bool)
    ensures r == Cnpj.Valid(doc)
    ensures r ==> |GetDigits(doc)| == 14 && (|doc| == 14 || |doc| == 18)
  {
    Partition(doc);
    r := Cnpj.Validate(doc);
  }

  /** `is_cnh`: eleven digits, bare or with the three CNH spaces. */
  function IsCnh(doc: string): (r: bool)
    ensures r ==> |GetDigits(doc)| == 11 && (|doc| == 11 || |doc| == 14)
  {
    Partition(doc);
    Cnh.Validate(doc)
  }

  /** `is_cns`: fifteen digits, bare or with the three CNS spaces. */
  function IsCns(doc: string): (r: bool)
    ensures r ==> |GetDigits(doc)| == 15 && (|doc| == 15 || |doc| == 18)
  {
    Partition(doc);
    Cns.Validate(doc)
  }

  /** `is_nis`: eleven digits, bare or with the three NIS separators. */
  function IsNis(doc: string): (r: bool)
    ensures r ==> |GetDigits(doc)| == 11 && (|doc| == 11 || |doc| == 14)
  {
    Partition(doc);
    Nis.Validate(doc)
  }

  /** `is_eleitoral`: twelve digits, bare or with the two spaces of the title. */
  function IsEleitoral(doc: string): (r: bool)
    ensures r ==> |GetDigits(doc)| == 12 && (|doc| == 12 || |doc| == 14)
  {
    Partition(doc);
    Eleitoral.Validate(doc)
  }

  /** `is_renavam`: eleven digits, bare or with the single RENAVAM dash. */
  function IsRenavam(doc: string): (r: bool)
    ensures r ==> |GetDigits(doc)| == 11 && (|doc| == 11 || |doc| == 12)
  {
    Partition(doc);
    Renavam.Validate(doc)
  }

  /** `is_certidao`: 32 digits, bare or with the eight separators of the certificate. */
  function IsCertidao(doc: string): (r: bool)
    ensures r ==> |GetDigits(doc)| == 32 && (|doc| == 32 || |doc| == 40)
  {
    Partition(doc);
    Certidao.Validate(doc)
  }

  // ================================================================== lemmas

  /** NIS and RENAVAM weigh the same ten digits alike and both complete the sum modulo 11, so their check digits agree. */
  lemma NisRenavamCheckDigit(body: seq<nat>)
    requires |body| <= 10
    ensures Nis.CheckDigit(body) == Renavam.CheckDigit(body)
  {
    assert Nis.Multipliers == Renavam.Multipliers;
    CompletesMod11Unique(Dot(body, Nis.Multipliers), Nis.CheckDigit(body), Renavam.CheckDigit(body));
  }

  /** On eleven characters, `is_nis` is `is_renavam` plus the repeated-digit guard that RENAVAM lacks. */
  lemma NisIffRenavam(doc: string)
    requires |doc| == 11
    ensures IsNis(doc) <==> IsRenavam(doc) && !IsRepeated(GetDigits(doc))
  {
    if |GetDigits(doc)| == 11 {
      NisRenavamCheckDigit(GetDigits(doc)[..10]);
    }
  }

  /** The documented CPF also passes `is_cnh`: both check digits of its body come out as 1 under the CNH rule. */
  lemma CpfExampleIsCnh()
    ensures IsCpf("63929247011") && IsCnh("63929247011")
  {
    Cpf.ValidateExamples();
    Cpf.SampleDigits();
    var body := [6, 3, 9, 2, 9, 2, 4, 7, 0];
    CpfBodyCnhFirstSum();
    CpfBodyCnhSecondSum();
    assert body[..9] == body;
    assert Cnh.CheckDigits(body) == (1, 1);
    var digits := [6, 3, 9, 2, 9, 2, 4, 7, 0, 1, 1];
    assert digits[..9] == body;
    Cnh.ValidateIff("63929247011");
    Cpf.ValidateIff("63929247011");
  }

  /** The first CNH-weighted sum of the documented CPF's body. */
  lemma CpfBodyCnhFirstSum()
    ensures Dot([6, 3, 9, 2, 9, 2, 4, 7, 0], Cnh.FirstWeights) == 232
  {
    var w := Cnh.FirstWeights;
    var b1 := [6];
    var b2 := b1 + [3]; DotSnoc(b1, 3, w);
    var b3 := b2 + [9]; DotSnoc(b2, 9, w);
    var b4 := b3 + [2]; DotSnoc(b3, 2, w);
    var b5 := b4 + [9]; DotSnoc(b4, 9, w);
    var b6 := b5 + [2]; DotSnoc(b5, 2, w);
    var b7 := b6 + [4]; DotSnoc(b6, 4, w);
    var b8 := b7 + [7]; DotSnoc(b7, 7, w);
    var b9 := b8 + [0]; DotSnoc(b8, 0, w);
    assert b9 == [6, 3, 9, 2, 9, 2, 4, 7, 0];
  }

  /** The second CNH-weighted sum of the documented CPF's body. */
  lemma CpfBodyCnhSecondSum()
    ensures Dot([6, 3, 9, 2, 9, 2, 4, 7, 0], Cnh.SecondWeights) == 188
  {
    var w := Cnh.SecondWeights;
    var b1 := [6];
    var b2 := b1 + [3]; DotSnoc(b1, 3, w);
    var b3 := b2 + [9]; DotSnoc(b2, 9, w);
    var b4 := b3 + [2]; DotSnoc(b3, 2, w);
    var b5 := b4 + [9]; DotSnoc(b4, 9, w);
    var b6 := b5 + [2]; DotSnoc(b5, 2, w);
    var b7 := b6 + [4]; DotSnoc(b6, 4, w);
    var b8 := b7 + [7]; DotSnoc(b7, 7, w);
    var b9 := b8 + [0]; DotSnoc(b8, 0, w);
    assert b9 == [6, 3, 9, 2, 9, 2, 4, 7, 0];
  }

  /** The documented CNH fails `is_cpf`: under the CPF rule its body would get 4 as tenth digit, not 6. */
  lemma CnhExampleIsNotCpf()
    ensures IsCnh("84718735264") && !IsCpf("84718735264")
  {
    Cnh.ValidateExamples();
    Cnh.SampleDigits();
    var body := [8, 4, 7, 1, 8, 7, 3, 5, 2];
    CnhBodyCpfSum();
    assert Cpf.CheckDigit(body) == 4;
    var digits := [8, 4, 7, 1, 8, 7, 3, 5, 2, 6, 4];
    assert digits[..9] == body;
    Cpf.ValidateIff("84718735264");
  }

  /** The CPF-weighted sum of the documented CNH's body. */
  lemma CnhBodyCpfSum()
    ensures Dot([8, 4, 7, 1, 8, 7, 3, 5, 2], Descending(10, 9)) == 293
  {
    var w := Descending(10, 9);
    var b1 := [8];
    var b2 := b1 + [4]; DotSnoc(b1, 4, w);
    var b3 := b2 + [7]; DotSnoc(b2, 7, w);
    var b4 := b3 + [1]; DotSnoc(b3, 1, w);
    var b5 := b4 + [8]; DotSnoc(b4, 8, w);
    var b6 := b5 + [7]; DotSnoc(b5, 7, w);
    var b7 := b6 + [3]; DotSnoc(b6, 3, w);
    var b8 := b7 + [5]; DotSnoc(b7, 5, w);
    var b9 := b8 + [2]; DotSnoc(b8, 2, w);
    assert b9 == [8, 4, 7, 1, 8, 7, 3, 5, 2];
  }

  /** The documented RENAVAM passes `is_nis` and the documented NIS passes `is_renavam`. */
  lemma NisRenavamExamples()
    ensures IsRenavam("79072338363") && IsNis("79072338363")
    ensures IsNis("40865658047") && IsRenavam("40865658047")
  {
    RenavamExampleIsNis();
    NisExampleIsRenavam();
  }

  lemma RenavamExampleIsNis()
    ensures IsRenavam("79072338363") && IsNis("79072338363")
  {
    Renavam.ValidateExamples();
    Renavam.SampleDigits();
    var digits := [7, 9, 0, 7, 2, 3, 3, 8, 3, 6, 3];
    RepeatedIff(digits);
    assert digits[1] != digits[0];
    NisIffRenavam("79072338363");
  }

  lemma NisExampleIsRenavam()
    ensures IsNis("40865658047") && IsRenavam("40865658047")
  {
    Nis.ValidateExamples();
    Nis.SampleDigits();
    NisIffRenavam("40865658047");
  }

  /** The masks still tell NIS and RENAVAM apart: each masked example fails the other predicate. */
  lemma MaskedNisRenavamDiffer()
    ensures IsNis("408.65658.04-7") && !IsRenavam("408.65658.04-7")
    ensures IsRenavam("7907233836-3") && !IsNis("7907233836-3")
  {
    Nis.MaskExamples();
    Renavam.MaskExamples();
  }

  /** Documents with different digit counts exclude each other: a string passes at most one of the four groups. */
  lemma DigitCountsExclusive(doc: string)
    ensures IsCpf(doc) || IsCnh(doc) || IsNis(doc) || IsRenavam(doc) ==>
      !IsEleitoral(doc) && !Cnpj.Valid(doc) && !IsCns(doc) && !IsCertidao(doc)
    ensures IsEleitoral(doc) ==> !Cnpj.Valid(doc) && !IsCns(doc) && !IsCertidao(doc)
    ensures Cnpj.Valid(doc) ==> !IsCns(doc) && !IsCertidao(doc)
    ensures IsCns(doc) ==> !IsCertidao(doc)
  {
    CnpjDigitCount(doc);
  }

  /** What `is_cnpj` accepts has fourteen digits. */
  lemma CnpjDigitCount(doc: string)
    ensures Cnpj.Valid(doc) ==> |GetDigits(doc)| == 14
  {
  }
}
