/**
 * Certidões de Nascimento, Casamento e Óbito (brado/src/certidao.rs): 32 digits, 30 of
 * registration and two check digits, bare or masked as
 * "XXXXXX XX XX XXXX X XXXXX XXX XXXXXXX-XX". A repeated-digit string is not rejected
 * for that reason alone.
 */
module Certidao {
  import opened Wrappers
  import opened Common

  /**
   * The multiplier `generate_digit` uses for the element at index `i`: it starts at
   * `start` and steps up by one after each element, falling back to 0 once it passes 10.
   */
  function Multiplier(start: nat, i: nat): (m: nat)
    ensures i > 0 ==> m <= 10
  {
    if i == 0 then start
    else
      var next := Multiplier(start, i - 1) + 1;
      if next > 10 then 0 else next
  }

  /** The first `n` multipliers from `start`. */
  function Multipliers(start: nat, n: nat): (ws: seq<nat>)
    ensures |ws| == n && forall i :: 0 <= i < n ==> ws[i] == Multiplier(start, i)
  {
    seq(n, i requires 0 <= i < n => Multiplier(start, i))
  }

  /** The weights `start`, `start + 1`, ... taken modulo 11. */
  function CyclicWeights(start: nat, n: nat): (ws: seq<nat>)
    ensures |ws| == n && forall i :: 0 <= i < n ==> ws[i] == (start + i) % 11
  {
    seq(n, i requires 0 <= i < n => (start + i) % 11)
  }

  /** `generate_digit` as a function of the slice: the multipliers start at 32 minus its length; a remainder of 10 becomes 1. */
  function CheckDigit(body: seq<nat>): (d: nat)
    requires |body| <= 32
    ensures d < 10
    ensures var rest := Dot(body, Multipliers(32 - |body|, |body|)) % 11;
      d == rest || (rest == 10 && d == 1)
  {
    var rest := Dot(body, Multipliers(32 - |body|, |body|)) % 11;
    if rest > 9 then 1 else rest
  }

  /** `generate_digits`: the 31st digit from the 30 of registration, the 32nd from those followed by the 31st. */
  function CheckDigits(body: seq<nat>): (r: (nat, nat))
    requires |body| == 30
    ensures r.0 < 10 && r.1 < 10
  {
    var d30 := CheckDigit(body);
    (d30, CheckDigit(body + [d30]))
  }

  /** The two trailing digits of a 32-digit vector are the ones `generate_digits` computes from the first 30. */
  predicate ChecksumHolds(digits: seq<nat>)
    requires |digits| == 32
  {
    CheckDigits(digits[..30]) == (digits[30], digits[31])
  }

  /** `generate_digit`: one pass over the slice, the multiplier updated after each element. */
  method GenerateDigit(docSlice: seq<nat>) returns (d: nat)
    requires |docSlice| <= 32
    ensures d == CheckDigit(docSlice)
  {
    ghost var ws := Multipliers(32 - |docSlice|, |docSlice|);
    var multiplier := 32 - |docSlice|;
    var sum := 0;
    for i := 0 to |docSlice|
      invariant multiplier == Multiplier(32 - |docSlice|, i)
      invariant sum == Dot(docSlice[..i], ws)
    {
      DotPrefix(docSlice, ws, i);
      sum := sum + docSlice[i] * multiplier;
      multiplier := multiplier + 1;
      multiplier := if multiplier > 10 then 0 else multiplier;
    }
    assert docSlice[..|docSlice|] == docSlice;
    var rest := sum % 11;
    if rest > 9 {
      d := 1;
    } else {
      d := rest;
    }
  }

  /** `generate_digits`. */
  method GenerateDigits(docSlice: seq<nat>) returns (d30: nat, d31: nat)
    requires |docSlice| == 30
    ensures (d30, d31) == CheckDigits(docSlice)
  {
    d30 := GenerateDigit(docSlice);
    d31 := GenerateDigit(docSlice + [d30]);
  }

  /** `validate`. */
  predicate Validate(doc: string) {
    if |doc| != 32 && !IsMasked(doc) then false
    else
      var digits := GetDigits(doc);
      if |digits| != 32 then false
      else CheckDigits(digits[..30]) == (digits[30], digits[31])
  }

  /** `is_bare`: 32 characters, all of them digits. */
  predicate IsBare(doc: string) {
    |doc| == 32 && |GetDigits(doc)| == 32
  }

  /** The symbols of the mask: seven spaces and a dash, at their positions. */
  const MaskSymbols: seq<(nat, char)> :=
    [(6, ' '), (9, ' '), (12, ' '), (17, ' '), (19, ' '), (25, ' '), (29, ' '), (37, '-')]

  /** `is_masked`: exactly the eight symbols of the mask, and 32 digits. */
  predicate IsMasked(doc: string) {
    var symbols := GetSymbols(doc);
    var digits := GetDigits(doc);
    if |symbols| != 8 || |digits| != 32 then false
    else symbols == MaskSymbols
  }

  /** `mask`. */
  function Mask(doc: string): Result<string> {
    if !IsBare(doc) then Err("The given string cannot be masked as Certidão!")
    else Ok(doc[0..6] + " " + doc[6..8] + " " + doc[8..10] + " " + doc[10..14] + " " + doc[14..15]
            + " " + doc[15..20] + " " + doc[20..23] + " " + doc[23..30] + "-" + doc[30..32])
  }

  /** `generate`: 30 random digits, then the two check digits pushed one after the other; every generated certificate validates. */
  method Generate(rng: seq<nat>) returns (s: string)
    requires |rng| >= 30
    ensures IsBare(s) && GetDigits(s)[..30] == Drawn(30, rng) && ChecksumHolds(GetDigits(s))
    ensures Validate(s)
  {
    var certidao := RandomDigitVector(30, rng);
    ghost var body := certidao;
    var d30 := GenerateDigit(certidao);
    certidao := certidao + [d30];
    var d31 := GenerateDigit(certidao);
    certidao := certidao + [d31];
    s := Render(certidao);
    RenderDigits(certidao);
    assert certidao[..30] == body;
    ValidateIff(s);
  }

  /** `generate_masked`: the mask of a generated certificate, which never fails. */
  method GenerateMasked(rng: seq<nat>) returns (s: string)
    requires |rng| >= 30
    ensures IsMasked(s) && GetDigits(s)[..30] == Drawn(30, rng) && Validate(s)
  {
    var bare := Generate(rng);
    MaskSpec(bare);
    s := Mask(bare).value;
    ValidateIff(bare);
    ValidateIff(s);
  }

  // ================================================================== lemmas

  /** From a start of at most 10, the multiplier at index `i` is `start + i` modulo 11. */
  lemma {:induction false} MultiplierCycle(start: nat, i: nat)
    requires start <= 10
    ensures Multiplier(start, i) == (start + i) % 11
  {
    if i > 0 {
      MultiplierCycle(start, i - 1);
      AddMod11(start + i - 1, 1);
    }
  }

  /** For the two slice lengths the generator uses, 30 and 31, the multipliers are the cyclic weights from 2 and from 1. */
  lemma MultipliersCyclic(n: nat)
    requires 22 <= n <= 32
    ensures Multipliers(32 - n, n) == CyclicWeights(32 - n, n)
  {
    var start := 32 - n;
    forall i | 0 <= i < n
      ensures Multiplier(start, i) == (start + i) % 11
    {
      MultiplierCycle(start, i);
    }
  }

  /** Each check digit is the remainder modulo 11 of the slice weighted cyclically, a remainder of 10 becoming 1. */
  lemma CheckDigitCyclic(body: seq<nat>)
    requires 22 <= |body| <= 32
    ensures var rest := Dot(body, CyclicWeights(32 - |body|, |body|)) % 11;
      CheckDigit(body) == if rest == 10 then 1 else rest
  {
    MultipliersCyclic(|body|);
  }

  /** A certificate validates exactly when it is bare or masked and its check digits match. */
  lemma ValidateIff(doc: string)
    ensures Validate(doc) <==> (IsBare(doc) || IsMasked(doc)) && ChecksumHolds(GetDigits(doc))
  {
  }

  /** No string is both bare and masked. */
  lemma BareMaskedExclusive(doc: string)
    ensures !(IsBare(doc) && IsMasked(doc))
  {
    if IsBare(doc) {
      BareFacts(doc);
    }
  }

  /** `mask` fails exactly on strings that are not bare; otherwise it yields a masked certificate with the same digits. */
  lemma MaskSpec(doc: string)
    ensures Mask(doc).Err? <==> !IsBare(doc)
    ensures Mask(doc).Ok? ==>
      var m := Mask(doc).value;
      |m| == 40 && IsMasked(m) && GetDigits(m) == GetDigits(doc) && Unmask(m) == doc
  {
    if IsBare(doc) {
      BareFacts(doc);
      var p := [doc[0..6], doc[6..8], doc[8..10], doc[10..14], doc[14..15],
                doc[15..20], doc[20..23], doc[23..30], doc[30..32]];
      forall k | 0 <= k < 9
        ensures AllDecimal(p[k])
      {
      }
      assert doc == p[0] + p[1] + p[2] + p[3] + p[4] + p[5] + p[6] + p[7] + p[8];
      assert Mask(doc).value == Joined(p);
      MaskedParts(p);
      DigitsJoined(p);
      UnmaskRendersDigits(Mask(doc).value);
      UnmaskRendersDigits(doc);
      UnmaskDecimal(doc);
    }
  }

  /** The nine digit groups of the mask joined by its separators. */
  function Joined(p: seq<string>): string
    requires |p| == 9
  {
    p[0] + " " + p[1] + " " + p[2] + " " + p[3] + " " + p[4] + " " + p[5] + " " + p[6] + " " + p[7] + "-" + p[8]
  }

  /** Digit groups of lengths 6, 2, 2, 4, 1, 5, 3, 7 and 2 joined by the separators carry exactly the mask's symbols. */
  lemma MaskedParts(p: seq<string>)
    requires |p| == 9 && forall k :: 0 <= k < 9 ==> AllDecimal(p[k])
    requires |p[0]| == 6 && |p[1]| == 2 && |p[2]| == 2 && |p[3]| == 4 && |p[4]| == 1
    requires |p[5]| == 5 && |p[6]| == 3 && |p[7]| == 7 && |p[8]| == 2
    ensures |Joined(p)| == 40 && GetSymbols(Joined(p)) == MaskSymbols
    ensures GetDigits(Joined(p)) ==
      GetDigits(p[0]) + GetDigits(p[1]) + GetDigits(p[2]) + GetDigits(p[3]) + GetDigits(p[4]) +
      GetDigits(p[5]) + GetDigits(p[6]) + GetDigits(p[7]) + GetDigits(p[8])
  {
    DigitsOfDecimal(p[0]);
    var x1 := p[0] + [' '] + p[1];
    var x2 := x1 + [' '] + p[2];
    var x3 := x2 + [' '] + p[3];
    var x4 := x3 + [' '] + p[4];
    var x5 := x4 + [' '] + p[5];
    var x6 := x5 + [' '] + p[6];
    var x7 := x6 + [' '] + p[7];
    var x8 := x7 + ['-'] + p[8];
    SeparatorStep(p[0], ' ', p[1]);
    SeparatorStep(x1, ' ', p[2]);
    SeparatorStep(x2, ' ', p[3]);
    SeparatorStep(x3, ' ', p[4]);
    SeparatorStep(x4, ' ', p[5]);
    SeparatorStep(x5, ' ', p[6]);
    SeparatorStep(x6, ' ', p[7]);
    SeparatorStep(x7, '-', p[8]);
    assert x8 == Joined(p);
  }

  /** The digits of nine digit groups, concatenated, are the concatenation of their digits. */
  lemma DigitsJoined(p: seq<string>)
    requires |p| == 9
    ensures GetDigits(p[0] + p[1] + p[2] + p[3] + p[4] + p[5] + p[6] + p[7] + p[8]) ==
      GetDigits(p[0]) + GetDigits(p[1]) + GetDigits(p[2]) + GetDigits(p[3]) + GetDigits(p[4]) +
      GetDigits(p[5]) + GetDigits(p[6]) + GetDigits(p[7]) + GetDigits(p[8])
  {
    var y1 := p[0] + p[1];
    var y2 := y1 + p[2];
    var y3 := y2 + p[3];
    var y4 := y3 + p[4];
    var y5 := y4 + p[5];
    var y6 := y5 + p[6];
    var y7 := y6 + p[7];
    DigitsAppend(p[0], p[1]);
    DigitsAppend(y1, p[2]);
    DigitsAppend(y2, p[3]);
    DigitsAppend(y3, p[4]);
    DigitsAppend(y4, p[5]);
    DigitsAppend(y5, p[6]);
    DigitsAppend(y6, p[7]);
    DigitsAppend(y7, p[8]);
  }

  /** The 30 registration digits of the documented certificate. */
  const ExampleBody: seq<nat> := [2, 1, 9, 2, 4, 2, 0, 1, 5, 5, 2, 0, 2, 3, 1, 0, 6, 3, 0, 4, 2, 4, 3, 1, 1, 5, 8, 1, 8, 5]

  /** Registration digits 0 to 9 of the documented certificate, weighted for its 31st digit. */
  lemma FirstSumHead()
    ensures Dot([2, 1, 9, 2, 4, 2, 0, 1, 5, 5], CyclicWeights(2, 30)) == 150
  {
    var w := CyclicWeights(2, 30);
    var b1 := [2];
    var b2 := b1 + [1]; DotSnoc(b1, 1, w);
    var b3 := b2 + [9]; DotSnoc(b2, 9, w);
    var b4 := b3 + [2]; DotSnoc(b3, 2, w);
    var b5 := b4 + [4]; DotSnoc(b4, 4, w);
    var b6 := b5 + [2]; DotSnoc(b5, 2, w);
    var b7 := b6 + [0]; DotSnoc(b6, 0, w);
    var b8 := b7 + [1]; DotSnoc(b7, 1, w);
    var b9 := b8 + [5]; DotSnoc(b8, 5, w);
    var b10 := b9 + [5]; DotSnoc(b9, 5, w);
    assert b10 == [2, 1, 9, 2, 4, 2, 0, 1, 5, 5];
  }

  /** Registration digits 10 to 19, weighted for the 31st digit. */
  lemma FirstSumMiddle()
    ensures Dot([2, 0, 2, 3, 1, 0, 6, 3, 0, 4], CyclicWeights(2, 30)[10..]) == 131
  {
    var w := CyclicWeights(2, 30)[10..];
    var b1 := [2];
    var b2 := b1 + [0]; DotSnoc(b1, 0, w);
    var b3 := b2 + [2]; DotSnoc(b2, 2, w);
    var b4 := b3 + [3]; DotSnoc(b3, 3, w);
    var b5 := b4 + [1]; DotSnoc(b4, 1, w);
    var b6 := b5 + [0]; DotSnoc(b5, 0, w);
    var b7 := b6 + [6]; DotSnoc(b6, 6, w);
    var b8 := b7 + [3]; DotSnoc(b7, 3, w);
    var b9 := b8 + [0]; DotSnoc(b8, 0, w);
    var b10 := b9 + [4]; DotSnoc(b9, 4, w);
    assert b10 == [2, 0, 2, 3, 1, 0, 6, 3, 0, 4];
  }

  /** Registration digits 20 to 29, weighted for the 31st digit. */
  lemma FirstSumTail()
    ensures Dot([2, 4, 3, 1, 1, 5, 8, 1, 8, 5], CyclicWeights(2, 30)[20..]) == 206
  {
    var w := CyclicWeights(2, 30)[20..];
    var b1 := [2];
    var b2 := b1 + [4]; DotSnoc(b1, 4, w);
    var b3 := b2 + [3]; DotSnoc(b2, 3, w);
    var b4 := b3 + [1]; DotSnoc(b3, 1, w);
    var b5 := b4 + [1]; DotSnoc(b4, 1, w);
    var b6 := b5 + [5]; DotSnoc(b5, 5, w);
    var b7 := b6 + [8]; DotSnoc(b6, 8, w);
    var b8 := b7 + [1]; DotSnoc(b7, 1, w);
    var b9 := b8 + [8]; DotSnoc(b8, 8, w);
    var b10 := b9 + [5]; DotSnoc(b9, 5, w);
    assert b10 == [2, 4, 3, 1, 1, 5, 8, 1, 8, 5];
  }

  /** Digits 0 to 9, weighted for the 32nd digit. */
  lemma SecondSumHead()
    ensures Dot([2, 1, 9, 2, 4, 2, 0, 1, 5, 5], CyclicWeights(1, 31)) == 174
  {
    var w := CyclicWeights(1, 31);
    var b1 := [2];
    var b2 := b1 + [1]; DotSnoc(b1, 1, w);
    var b3 := b2 + [9]; DotSnoc(b2, 9, w);
    var b4 := b3 + [2]; DotSnoc(b3, 2, w);
    var b5 := b4 + [4]; DotSnoc(b4, 4, w);
    var b6 := b5 + [2]; DotSnoc(b5, 2, w);
    var b7 := b6 + [0]; DotSnoc(b6, 0, w);
    var b8 := b7 + [1]; DotSnoc(b7, 1, w);
    var b9 := b8 + [5]; DotSnoc(b8, 5, w);
    var b10 := b9 + [5]; DotSnoc(b9, 5, w);
    assert b10 == [2, 1, 9, 2, 4, 2, 0, 1, 5, 5];
  }

  /** Digits 10 to 19, weighted for the 32nd digit. */
  lemma SecondSumMiddle()
    ensures Dot([2, 0, 2, 3, 1, 0, 6, 3, 0, 4], CyclicWeights(1, 31)[10..]) == 110
  {
    var w := CyclicWeights(1, 31)[10..];
    var b1 := [2];
    var b2 := b1 + [0]; DotSnoc(b1, 0, w);
    var b3 := b2 + [2]; DotSnoc(b2, 2, w);
    var b4 := b3 + [3]; DotSnoc(b3, 3, w);
    var b5 := b4 + [1]; DotSnoc(b4, 1, w);
    var b6 := b5 + [0]; DotSnoc(b5, 0, w);
    var b7 := b6 + [6]; DotSnoc(b6, 6, w);
    var b8 := b7 + [3]; DotSnoc(b7, 3, w);
    var b9 := b8 + [0]; DotSnoc(b8, 0, w);
    var b10 := b9 + [4]; DotSnoc(b9, 4, w);
    assert b10 == [2, 0, 2, 3, 1, 0, 6, 3, 0, 4];
  }

  /** Digits 20 to 30, weighted for the 32nd digit. */
  lemma SecondSumTail()
    ensures Dot([2, 4, 3, 1, 1, 5, 8, 1, 8, 5, 3], CyclicWeights(1, 31)[20..]) == 217
  {
    var w := CyclicWeights(1, 31)[20..];
    var b1 := [2];
    var b2 := b1 + [4]; DotSnoc(b1, 4, w);
    var b3 := b2 + [3]; DotSnoc(b2, 3, w);
    var b4 := b3 + [1]; DotSnoc(b3, 1, w);
    var b5 := b4 + [1]; DotSnoc(b4, 1, w);
    var b6 := b5 + [5]; DotSnoc(b5, 5, w);
    var b7 := b6 + [8]; DotSnoc(b6, 8, w);
    var b8 := b7 + [1]; DotSnoc(b7, 1, w);
    var b9 := b8 + [8]; DotSnoc(b8, 8, w);
    var b10 := b9 + [5]; DotSnoc(b9, 5, w);
    var b11 := b10 + [3]; DotSnoc(b10, 3, w);
    assert b11 == [2, 4, 3, 1, 1, 5, 8, 1, 8, 5, 3];
  }

  /** The weighted sum behind the 31st digit of the documented certificate 219242 01 55 2023 1 06304 243 1158185-36. */
  lemma FirstExampleSum()
    ensures Dot(ExampleBody, CyclicWeights(2, 30)) == 487
  {
    var w := CyclicWeights(2, 30);
    var h, m, t := [2, 1, 9, 2, 4, 2, 0, 1, 5, 5], [2, 0, 2, 3, 1, 0, 6, 3, 0, 4], [2, 4, 3, 1, 1, 5, 8, 1, 8, 5];
    assert ExampleBody == (h + m) + t;
    DotAppend(h + m, t, w);
    DotAppend(h, m, w);
    assert w[|h + m|..] == w[20..];
    FirstSumHead();
    FirstSumMiddle();
    FirstSumTail();
  }

  /** The weighted sum behind its 32nd digit. */
  lemma SecondExampleSum()
    ensures Dot(ExampleBody + [3], CyclicWeights(1, 31)) == 501
  {
    var w := CyclicWeights(1, 31);
    var h, m, t := [2, 1, 9, 2, 4, 2, 0, 1, 5, 5], [2, 0, 2, 3, 1, 0, 6, 3, 0, 4], [2, 4, 3, 1, 1, 5, 8, 1, 8, 5, 3];
    assert ExampleBody + [3] == (h + m) + t;
    DotAppend(h + m, t, w);
    DotAppend(h, m, w);
    assert w[|h + m|..] == w[20..];
    SecondSumHead();
    SecondSumMiddle();
    SecondSumTail();
  }

  /** The check digits of the documented certificate. */
  lemma CheckDigitsExample()
    ensures CheckDigits(ExampleBody) == (3, 6)
  {
    FirstExampleSum();
    SecondExampleSum();
    CheckDigitCyclic(ExampleBody);
    CheckDigitCyclic(ExampleBody + [3]);
  }

  /** The digits of the documented certificate. */
  lemma SampleDigits()
    ensures IsBare("21924201552023106304243115818536")
    ensures GetDigits("21924201552023106304243115818536") == ExampleBody + [3, 6]
  {
    DigitsOfChars("21924201552023106304243115818536", [2, 1, 9, 2, 4, 2, 0, 1, 5, 5, 2, 0, 2, 3, 1, 0, 6, 3, 0, 4, 2, 4, 3, 1, 1, 5, 8, 1, 8, 5, 3, 6]);
  }

  /** The digits of its variant with a wrong last digit. */
  lemma BadSampleDigits()
    ensures IsBare("21924201552023106304243115818535")
    ensures GetDigits("21924201552023106304243115818535") == ExampleBody + [3, 5]
  {
    DigitsOfChars("21924201552023106304243115818535", [2, 1, 9, 2, 4, 2, 0, 1, 5, 5, 2, 0, 2, 3, 1, 0, 6, 3, 0, 4, 2, 4, 3, 1, 1, 5, 8, 1, 8, 5, 3, 5]);
  }

  /** The documented examples of `validate`. */
  lemma ValidateExamples()
    ensures Validate("21924201552023106304243115818536") && !Validate("21924201552023106304243115818535")
  {
    SampleDigits();
    BadSampleDigits();
    assert (ExampleBody + [3, 6])[..30] == (ExampleBody + [3, 5])[..30] == ExampleBody;
    CheckDigitsExample();
    ValidateIff("21924201552023106304243115818536");
    ValidateIff("21924201552023106304243115818535");
  }

  /** The digit groups of the documented certificate joined by the mask's separators. */
  lemma JoinedExample()
    ensures Joined(["219242", "01", "55", "2023", "1", "06304", "243", "1158185", "36"])
      == "219242 01 55 2023 1 06304 243 1158185-36"
  {
    var left := "219242" + " " + "01" + " " + "55" + " " + "2023";
    var right := "06304" + " " + "243" + " " + "1158185" + "-" + "36";
    assert left == "219242 01 55 2023";
    assert right == "06304 243 1158185-36";
  }

  /** `mask` of a bare certificate given by its nine groups joins those groups. */
  lemma MaskOfParts(p: seq<string>)
    requires |p| == 9
    requires |p[0]| == 6 && |p[1]| == 2 && |p[2]| == 2 && |p[3]| == 4 && |p[4]| == 1
    requires |p[5]| == 5 && |p[6]| == 3 && |p[7]| == 7 && |p[8]| == 2
    requires IsBare(p[0] + p[1] + p[2] + p[3] + p[4] + p[5] + p[6] + p[7] + p[8])
    ensures Mask(p[0] + p[1] + p[2] + p[3] + p[4] + p[5] + p[6] + p[7] + p[8]) == Ok(Joined(p))
  {
    var doc := p[0] + p[1] + p[2] + p[3] + p[4] + p[5] + p[6] + p[7] + p[8];
    assert doc[0..6] == p[0];
    assert doc[6..8] == p[1];
    assert doc[8..10] == p[2];
    assert doc[10..14] == p[3];
    assert doc[14..15] == p[4];
    assert doc[15..20] == p[5];
    assert doc[20..23] == p[6];
    assert doc[23..30] == p[7];
    assert doc[30..32] == p[8];
  }

  /** `mask` of the documented certificate. */
  lemma MaskExample()
    ensures Mask("21924201552023106304243115818536") == Ok("219242 01 55 2023 1 06304 243 1158185-36")
  {
    SampleDigits();
    var p := ["219242", "01", "55", "2023", "1", "06304", "243", "1158185", "36"];
    assert p[0] + p[1] + p[2] + p[3] + p[4] + p[5] + p[6] + p[7] + p[8] == "21924201552023106304243115818536";
    MaskOfParts(p);
    JoinedExample();
  }

  /** The masked form of the documented certificate validates. */
  lemma MaskedValidates()
    ensures Validate("219242 01 55 2023 1 06304 243 1158185-36")
  {
    var doc := "21924201552023106304243115818536";
    MaskExample();
    MaskSpec(doc);
    ValidateExamples();
    ValidateIff(doc);
    ValidateIff("219242 01 55 2023 1 06304 243 1158185-36");
  }

  /** With no repeated-digit guard, the string of 32 zeros validates. */
  lemma ZerosValidate()
    ensures Validate(Render(Repeat(0, 32)))
  {
    var digits := Repeat(0, 32);
    RenderDigits(digits);
    assert digits[..30] == Repeat(0, 30);
    DotRepeat(0, 30, Multipliers(2, 30));
    assert Repeat(0, 30) + [0] == Repeat(0, 31);
    DotRepeat(0, 31, Multipliers(1, 31));
    ValidateIff(Render(digits));
  }

  /** A first space one place early is not the mask: "21924 201 55 2023 1 06304 243 1158185-36" is rejected. */
  lemma ShiftedMaskExample()
    ensures !Validate("21924 201 55 2023 1 06304 243 1158185-36")
  {
    var s := "21924 201 55 2023 1 06304 243 1158185-36";
    SymbolsComplete(s, 5);
    assert (5, ' ') !in MaskSymbols;
    ValidateIff(s);
  }
}
