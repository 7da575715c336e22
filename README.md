# brado check-digit engine in Dafny

A model of the check-digit engine of **brado**, a Rust library that validates, masks and
generates Brazilian document numbers. The documents are:

- CPF;
- CNPJ;
- CNH;
- CNS;
- NIS/PIS/PASEP;
- Título Eleitoral;
- the Certidão of birth, marriage or death;
- RENAVAM.

Every document module has the same shape:

- **Digit extraction.** `get_digits` keeps the decimal characters as values 0..9, and `get_symbols` lists the other characters with their positions.
- **Check-digit generator.** A weighted sum is taken modulo 11, and the remainder is mapped in a way specific to the document type.
- **Recognisers.** `is_bare` means an exact length with digits only. `is_masked` means exact symbol positions and the exact digit count.
- **`validate`.** It combines the recognisers, an optional repeated-digit guard and the check digits.
- **`mask`.** It inserts the punctuation.
- **`generate`.** It produces a random body followed by its computed check digits.

The `docs` facade answers `is_cpf`, `is_cnpj` and so on by delegating to each `validate`.

The tree also keeps older revisions of some validators. Each one is a module of its own:

- **`CpfV1`, `CnpjV1`, `CnhV1`.** In these, `is_masked` does not count digits and `mask` panics.
- **`DocsCpf`, `DocsCnh`.** These validators are driven by `is_masked` and `ignore_repeated` flags, and check the set of symbols.
- **`DocsCnpj`.** This oldest CNPJ validator demands the exact symbol set {'.', '/', '-'}.
- **`LegacyCommon`.** These are the older digit and symbol helpers.

The lemmas prove that each older checksum accepts exactly the digit vectors the current one accepts. They also show where the older recognisers differ from the current ones.

One module per source file:

| file | module |
|---|---|
| `wrappers.dfy` | `Wrappers`: `Option` and `Result` (Rust's `Result<String, &str>` of `mask`) |
| `common.dfy` | `Common` (brado/src/common.rs) and the weighted-sum arithmetic the modules share |
| `cpf.dfy`, `cnpj.dfy`, `cnh.dfy`, `cns.dfy`, `nis.dfy`, `eleitoral.dfy`, `certidao.dfy`, `renavam.dfy` | one module per document |
| `docs.dfy` | `Docs` (brado/src/docs.rs) |
| `legacy_common.dfy` | `LegacyCommon` (brado/src/common/utils.rs, brado/src/docs/common.rs) |
| `cpf_v1.dfy`, `docs_cpf.dfy` | brado/src/cpf/cpf.rs, brado/src/docs/cpf.rs |
| `cnpj_v1.dfy`, `docs_cnpj.dfy` | brado/src/cnpj/cnpj.rs, src/docs/cnpj.rs |
| `cnh_v1.dfy`, `docs_cnh.dfy` | brado/src/cnh/utils.rs, brado/src/docs/cnh.rs |

A `&str` is a `string`. A vector of digits (`Vec<u16>` or `Vec<u8>`) is a `seq<nat>`. The weighted sum of a digit vector is `Common.Dot(ds, ws)`.

### How the model is shaped

- **Pure code and loops.**
  - Iterator pipelines and expressions become functions and predicates.
  - Code that accumulates in a loop becomes a method with loop invariants. Examples are `generate_digit` of CNPJ and Certidão, CNH's first and second digit, the older CPF and CNH generators, and the `0..10` counting loops of the CNPJ validators.
  - Code that builds a vector by `push` also becomes a method.
  - Each such method is proved equal to the function that specifies it.
- **Random generation.**
  - Randomness is a parameter: `rng: seq<nat>` holds the raw draws, and each `gen_range(0..n)` is `draw % n`.
  - `Common.Drawn(n, rng)` is the body a `generate` produces.
  - As a result, every `generate` states what it returns.
- **Panicking `mask`.**
  - The `mask` functions that panic are the current CNH one and the older CPF, CNPJ and CNH ones.
  - Each has `requires IsBare(doc)`, the negation of the panic condition.
- **CNS `generate_second_case`.** This loop has no termination argument and can underflow `idx`. It runs with `fuel`, and `None` stands for both running out of fuel and the underflow.

### Behaviour of the code worth knowing

- **CNPJ check digits.**
  - The code maps a remainder below 10 to 0 and 10 to 1 (brado/src/cnpj.rs:81-87), so every check digit is 0 or 1.
  - The usual Receita Federal rule gives 0 for a remainder below 2 and 11 − remainder otherwise; the code does not follow it.
  - `Cnpj.ValidCheckDigitsAtMostOne` and `Cnpj.UsualRuleExample` state the consequence.
- **Certidão and repeated digits.** The Certidão `validate` has no repeated-digit guard, and `Certidao.ZerosValidate` shows an all-zero certificate passes.
- **Oldest CNPJ and bare input.**
  - The oldest CNPJ validator rejects every bare CNPJ, because a bare string has no symbols and the code demands exactly {'.', '/', '-'}.
  - The unit test at src/lib.rs:38-42 expects "05200851000100" to pass. `DocsCnpj.BareRejected` states the code's behaviour.

## Model

| member | source | states |
|---|---|---|
| Common.GetDigits | brado/src/common.rs:40-44 | every extracted value is below 10 and there are never more values than characters |
| Common.DigitsOfDecimal | brado/src/common.rs:40-44 | on a string of decimal characters, one value per character, in order, each the character's value; no symbols |
| Common.DigitsAppend | brado/src/common.rs:40-44 | the digits of a concatenation are the digits of the first part followed by those of the second |
| Common.AllDigitsIff | brado/src/common.rs:40-44 | the digit count equals the length exactly when every character is decimal |
| Common.GetSymbols | brado/src/common.rs:59-67 | each listed pair is the index of a non-digit character and that character, with strictly increasing indices |
| Common.SymbolsComplete | brado/src/common.rs:59-67 | every non-digit character is listed with its index |
| Common.Partition | brado/src/common.rs:40-67 | the digit count and the symbol count add up to the length |
| Common.DigitsExamples | brado/src/common.rs:34-38 | "111" gives [1, 1, 1] and "121" gives [1, 2, 1] |
| Common.SymbolsExamples | brado/src/common.rs:56-57 | "1.1-1" gives [(1, '.'), (3, '-')] |
| Common.Unmask | brado/src/common.rs:80-85 | `unmask`: the digits of the string rendered back as text; characterised by `Common.UnmaskRendersDigits` and `Common.UnmaskIdempotent` |
| Common.Render | brado/src/cpf.rs:194-197 | the `to_string`-and-`join` rendering every `generate` ends with; a vector of digits renders as one decimal character per value and reads back unchanged (`Common.RenderDigits`) |
| Common.NatToString | brado/src/common.rs:80-85 | the decimal rendering of a value is all digits and is one character exactly for values below 10 |
| Common.UnmaskRendersDigits | brado/src/common.rs:80-85 | `unmask` is the decimal rendering of `get_digits` |
| Common.UnmaskIdempotent | brado/src/common.rs:80-85 | `unmask` keeps the digit sequence and applying it twice changes nothing |
| Common.UnmaskDecimal | brado/src/common.rs:80-85 | `unmask` leaves a string of decimal characters unchanged |
| Common.UnmaskExample | brado/src/common.rs:77-78 | "1.1-1" unmasks to "111" |
| Common.IsRepeated | brado/src/common.rs:22-25 | `is_repeated`: the set of values has one element; characterised by `Common.RepeatedIff` |
| Common.Dot | brado/src/cpf.rs:62-66 | the `enumerate().map(d * w).sum()` weighted sum of every check-digit rule; it moves by the change times the weight when one digit changes (`Common.DotUpdate`) and splits over concatenation (`Common.DotAppend`) |
| Common.RepeatedIff | brado/src/common.rs:22-25 | one distinct value exactly when non-empty and every element equals the first; the empty vector is not repeated |
| Common.RepeatedExamples | brado/src/common.rs:16-20 | [1, 1, 1] is repeated, [1, 2, 1] and [] are not |
| Common.CountLoopRepeated | brado/src/cnpj.rs:45-49 | some value 0..9 occurring as often as the vector is long is the same as the vector being repeated |
| Common.RandomDigitVector | brado/src/common.rs:97-104 | exactly `size` values, each below 10, the i-th being the i-th draw modulo 10 |
| Common.RandomDigitFromVector | brado/src/common.rs:117-121 | the result is one of the options, which must not be empty |
| Cpf.Validate | brado/src/cpf.rs:34-50 | `validate`; characterised by `Cpf.ValidateIff` |
| Cpf.IsBare | brado/src/cpf.rs:100-102 | `is_bare`: eleven characters, all digits; never together with `is_masked` (`Cpf.BareMaskedExclusive`) |
| Cpf.IsMasked | brado/src/cpf.rs:127-136 | `is_masked`: the symbols '.', '.', '-' at 3, 7 and 11 and eleven digits; see `Cpf.MaskSpec` |
| Cpf.Mask | brado/src/cpf.rs:164-178 | `mask`: an error on non-bare input, else the masked string; characterised by `Cpf.MaskSpec` |
| Cpf.CheckDigit | brado/src/cpf.rs:59-75 | the digit is 0..9 and brings the weighted sum to a multiple of 11, or is 0 when that would take a 10 |
| Cpf.CheckDigits | brado/src/cpf.rs:52-57 | both digits are 0..9 |
| Cpf.ValidateIff | brado/src/cpf.rs:34-50 | valid exactly when bare or masked, not one repeated digit, and the last two digits are the computed ones |
| Cpf.BareMaskedExclusive | brado/src/cpf.rs:100-136 | no string is both bare and masked |
| Cpf.MaskSpec | brado/src/cpf.rs:164-178 | `mask` fails exactly on non-bare input; otherwise a 14-character masked CPF with the same digits, which unmasks back to the input |
| Cpf.RepeatedPassesChecksum | brado/src/cpf.rs:59-75 | a body of nine equal digits k gets the check digits (k, k), so only the repeated-digit guard rejects it |
| Cpf.RepeatedBody | brado/src/cpf.rs:43 | a vector that passes the checksum is repeated exactly when its body is |
| Cpf.Generate | brado/src/cpf.rs:189-198 | bare, body taken from the draws, checksum holds; valid exactly when the body is not repeated |
| Cpf.GenerateMasked | brado/src/cpf.rs:209-211 | masked with a checksum that holds; valid exactly when the body is not repeated |
| Cpf.CheckDigitsExample | brado/src/cpf.rs:17-21 | the body of 639.292.470-11 gets the check digits (1, 1) |
| Cpf.ValidateExamples | brado/src/cpf.rs:17-29 | "63929247011" is valid and "63929247010" is not |
| Cpf.MaskExample | brado/src/cpf.rs:148-152 | "63929247011" masks to "639.292.470-11" |
| Cpf.MaskedValidates | brado/src/cpf.rs:155-159 | the masked CPF validates, and masking it again fails |
| Cpf.ShiftedMaskExample | brado/tests/cpf.rs:27 | "63.929.247-011", with its mask one place early, is invalid |
| Cnpj.Valid | brado/src/cnpj.rs:32-54 | what `validate` computes; characterised by `Cnpj.ValidIff` |
| Cnpj.IsBare | brado/src/cnpj.rs:115-117 | `is_bare`: fourteen characters, all digits; never together with `is_masked` (`Cnpj.BareMaskedExclusive`) |
| Cnpj.IsMasked | brado/src/cnpj.rs:142-154 | `is_masked`: '.', '.', '/', '-' at 2, 6, 10 and 15 and fourteen digits; see `Cnpj.MaskedParts` |
| Cnpj.Mask | brado/src/cnpj.rs:182-199 | `mask`: an error on non-bare input, else the masked string; characterised by `Cnpj.MaskSpec` |
| Cnpj.CheckDigit | brado/src/cnpj.rs:70-90 | the digit is at most 1, and is 1 exactly when the weighted sum leaves remainder 10 |
| Cnpj.CheckDigits | brado/src/cnpj.rs:56-68 | both check digits are 0 or 1 |
| Cnpj.GenerateDigit | brado/src/cnpj.rs:70-90 | the loop's result is the check digit of the first `max` digits with the given weights |
| Cnpj.GenerateDigits | brado/src/cnpj.rs:56-68 | the pair the method computes is the check-digit pair of the twelve-digit body |
| Cnpj.Validate | brado/src/cnpj.rs:32-54 | the loop over the ten digit values computes the validity predicate |
| Cnpj.ValidIff | brado/src/cnpj.rs:32-54 | valid exactly when bare or masked, not one repeated digit, and the last two digits are the computed ones |
| Cnpj.BareMaskedExclusive | brado/src/cnpj.rs:115-154 | no string is both bare and masked |
| Cnpj.MaskedParts | brado/src/cnpj.rs:142-154 | digit groups of 2, 3, 3, 4 and 2 joined by '.', '.', '/', '-' form a masked CNPJ with the same digits |
| Cnpj.MaskSpec | brado/src/cnpj.rs:182-199 | `mask` fails exactly on non-bare input; otherwise an 18-character masked CNPJ with the same digits that unmasks back |
| Cnpj.GeneratedRepeated | brado/src/cnpj.rs:45-49 | a vector that passes the checksum is repeated exactly when its body is all zeros |
| Cnpj.Generate | brado/src/cnpj.rs:210-219 | bare, body from the draws, checksum holds; valid exactly when the body is not all zeros |
| Cnpj.GenerateMasked | brado/src/cnpj.rs:230-232 | masked with a checksum that holds; valid exactly when the body is not all zeros |
| Cnpj.ValidCheckDigitsAtMostOne | brado/src/cnpj.rs:81-87 | a valid CNPJ has check digits 0 or 1 only |
| Cnpj.UsualRuleExample | brado/src/cnpj.rs:81-87 | "11222333000181" is bare but invalid |
| Cnpj.CheckDigitsExample | brado/src/cnpj.rs:15-19 | the body of 05.200.851/0001-00 gets the check digits (0, 0) |
| Cnpj.ValidExamples | brado/src/cnpj.rs:15-27 | "05200851000100" is valid and "05200851000101" is not |
| Cnpj.MaskExample | brado/src/cnpj.rs:162-171 | "05200851000100" masks to "05.200.851/0001-00" |
| Cnpj.MaskedValidates | brado/src/cnpj.rs:173-181 | the masked CNPJ validates, and masking it again fails |
| Cnpj.ShiftedMaskExample | brado/tests/cnpj.rs:29-33 | "0.520.085/1000-100", with its mask one place early, is not recognised as masked and is invalid |
| Cnh.Validate | brado/src/cnh.rs:34-54 | `validate`; characterised by `Cnh.ValidateIff` |
| Cnh.IsBare | brado/src/cnh.rs:125-127 | `is_bare`: eleven characters, all digits; never together with `is_masked` (`Cnh.BareMaskedExclusive`) |
| Cnh.IsMasked | brado/src/cnh.rs:152-161 | `is_masked`: three spaces at 3, 7 and 11 and eleven digits; see `Cnh.MaskedParts` |
| Cnh.FirstDigit | brado/src/cnh.rs:63-79 | digit 0..9 and discount 0 or 2; the discount is 2 exactly when the remainder is 10, and then the digit is 0; otherwise the digit is the remainder |
| Cnh.SecondDigit | brado/src/cnh.rs:81-100 | at most 10, and 10 exactly when the discount is one more than the remainder; otherwise the digit plus the discount gives back the remainder modulo 11, or it is 0 |
| Cnh.CheckDigits | brado/src/cnh.rs:56-61 | first digit 0..9, second at most 10 |
| Cnh.GenerateFirstDigit | brado/src/cnh.rs:63-79 | the loop computes the first digit and its discount |
| Cnh.GenerateSecondDigit | brado/src/cnh.rs:81-100 | the loop computes the second digit for the given discount |
| Cnh.GenerateDigits | brado/src/cnh.rs:56-61 | only the first nine digits of the argument decide the pair |
| Cnh.ValidateIff | brado/src/cnh.rs:34-54 | valid exactly when bare or masked, not one repeated digit, and the last two digits are the computed ones |
| Cnh.BareMaskedExclusive | brado/src/cnh.rs:125-161 | no string is both bare and masked |
| Cnh.MaskedParts | brado/src/cnh.rs:152-161 | digit groups of 3, 3, 3 and 2 joined by spaces form a masked CNH with the same digits |
| Cnh.MaskSpec | brado/src/cnh.rs:183-195 | the masked form of a bare CNH is 14 characters, masked, with the same digits, and unmasks back |
| Cnh.Mask | brado/src/cnh.rs:183-195 | defined on bare input only; the result is a masked CNH with the same digits |
| Cnh.RenderSplits | brado/src/cnh.rs:206-217 | rendering a final 10 appends the two digits 1 and 0 and makes the string one longer |
| Cnh.Generate | brado/src/cnh.rs:206-217 | the digits are the body, the first digit and the second (as 1, 0 when it is 10); bare, checksum holding and valid iff not repeated when the second is below 10; twelve characters and invalid otherwise |
| Cnh.GenerateMasked | brado/src/cnh.rs:228-230 | when the second digit is below 10: masked, checksum holds, valid iff the body is not repeated |
| Cnh.RepeatedPassesChecksum | brado/src/cnh.rs:56-100 | a body of nine equal digits k gets the check digits (k, k) |
| Cnh.RepeatedBody | brado/src/cnh.rs:47-49 | a vector that passes the checksum is repeated exactly when its body is |
| Cnh.SecondDigitTen | brado/src/cnh.rs:91-97 | the body 000000182 gets the second "digit" 10 |
| Cnh.ValidateExamples | brado/src/cnh.rs:17-29 | "84718735264" is valid and "84718735265" is not |
| Cnh.MaskExamples | brado/src/cnh.rs:173-174 | "84718735264" masks to "847 187 352 64", which validates |
| Cns.Validate | brado/src/cns.rs:37-51 | `validate`; characterised by `Cns.ValidateIff` |
| Cns.IsFirstDigitValid | brado/src/cns.rs:53-59 | `is_first_digit_valid`: membership in `valid_first_digits`, {1, 2, 7, 8, 9} |
| Cns.ValidateChecksum | brado/src/cns.rs:65-76 | `validate_checksum`: `cns_sum` is a multiple of 11; met by every first-case and second-case result (`Cns.GenerateFirstCase`, `Cns.SecondCaseSound`) |
| Cns.CnsSum | brado/src/cns.rs:78-84 | `cns_sum`: the digits weighted by 15 down to 1; see `Cns.SumUpdate` and `Cns.LastFourCompletes` |
| Cns.IsBare | brado/src/cns.rs:131-134 | `is_bare`: fifteen characters, all digits; never together with `is_masked` (`Cns.BareMaskedExclusive`) |
| Cns.IsMasked | brado/src/cns.rs:159-168 | `is_masked`: spaces at 3, 8 and 13 and fifteen digits; see `Cns.MaskedParts` |
| Cns.Mask | brado/src/cns.rs:196-210 | `mask`: an error on non-bare input, else the masked string; characterised by `Cns.MaskSpec` |
| Cns.SecondCase | brado/src/cns.rs:246-257 | the drawn vector when its sum is already a multiple of 11, else the loop; any result passes `validate_checksum` (`Cns.SecondCaseSound`) |
| Cns.SecondCaseLoop | brado/src/cns.rs:258-289 | the loop of `generate_second_case`, bounded by `fuel`; any result passes `validate_checksum` (`Cns.SecondCaseLoopSound`) |
| Cns.Generated | brado/src/cns.rs:221-236 | the digits `generate` returns for given draws; `Cns.Generate` and `Cns.GenerateMasked` return exactly these |
| Cns.LastFour | brado/src/cns.rs:86-106 | [0, 0, x, c] with x at most 1 and c at most 9; x is 1 exactly when the sum leaves 1, and then c is 8; otherwise c completes the sum to a multiple of 11 |
| Cns.LastFourCompletes | brado/src/cns.rs:86-106 | eleven digits followed by their last four have a weighted sum that is a multiple of 11 |
| Cns.SumUpdate | brado/src/cns.rs:78-84 | changing one digit moves `cns_sum` by the change times that position's weight |
| Cns.ValidateIff | brado/src/cns.rs:37-51 | valid exactly when bare or masked, 15 digits, first digit in {1, 2, 7, 8, 9}, and `validate_checksum` holds |
| Cns.RenderedValid | brado/src/cns.rs:37-76 | fifteen digits with a valid first digit that pass `validate_checksum` render as a valid bare CNS |
| Cns.BareMaskedExclusive | brado/src/cns.rs:131-168 | no string is both bare and masked |
| Cns.MaskedParts | brado/src/cns.rs:159-168 | digit groups of 3, 4, 4 and 4 joined by spaces form a masked CNS with the same digits |
| Cns.MaskSpec | brado/src/cns.rs:196-210 | `mask` fails exactly on non-bare input; otherwise an 18-character masked CNS with the same digits that unmasks back |
| Cns.GenerateFirstCase | brado/src/cns.rs:238-244 | first digit, ten drawn digits, then their last four; the sum is a multiple of 11 and, for first digit 1 or 2, `validate_checksum` holds |
| Cns.GenerateSecondCase | brado/src/cns.rs:246-290 | the method's loop computes the fuel-bounded second-case function |
| Cns.SecondCaseLoopSound | brado/src/cns.rs:258-289 | the loop keeps the digits in 0..9, the first digit in {7, 8, 9} and sum plus `val` a multiple of 11, so any result passes `validate_checksum` |
| Cns.SecondCaseSound | brado/src/cns.rs:246-290 | any result of the second case is fifteen digits starting with 7, 8 or 9 that pass `validate_checksum` |
| Cns.SecondCaseUnderflow | brado/src/cns.rs:284-288 | with first digit 9 and fourteen drawn nines the loop reaches `idx == 0` on a 9 and yields no result |
| Cns.Generate | brado/src/cns.rs:221-236 | returns exactly the rendering of `Cns.Generated` for its draws: for first digit 1 or 2 always a result whose first eleven digits are that digit and the drawn ten; any result is a bare valid CNS |
| Cns.GenerateMasked | brado/src/cns.rs:301-303 | a result exactly when `generate` gives one, with the digits of `Cns.Generated`; any result is a masked valid CNS |
| Cns.LastFourExample | brado/src/cns.rs:20-21 | the body of 144 0826 2726 0004 gets the last four [0, 0, 0, 4] |
| Cns.ValidateExamples | brado/src/cns.rs:20-32 | "144082627260004" is valid, "144082627260005" is not; "812297346500000" is valid |
| Cns.ShiftedMaskExample | brado/tests/cns.rs:37 | "14 4082 6272 60004" is invalid |
| Cns.MaskExamples | brado/src/cns.rs:180-184 | "144082627260004" masks to "144 0826 2726 0004", which validates |
| Nis.Validate | brado/src/nis.rs:41-57 | `validate`; characterised by `Nis.ValidateIff` |
| Nis.IsBare | brado/src/nis.rs:99-102 | `is_bare`: eleven characters, all digits; never together with `is_masked` (`Nis.BareMaskedExclusive`) |
| Nis.IsMasked | brado/src/nis.rs:127-136 | `is_masked`: '.', '.', '-' at 3, 9 and 12 and eleven digits; see `Nis.MaskedParts` |
| Nis.Mask | brado/src/nis.rs:164-178 | `mask`: an error on non-bare input, else the masked string; characterised by `Nis.MaskSpec` |
| Nis.CheckDigit | brado/src/nis.rs:59-74 | the digit is 0..9 and brings the weighted sum to a multiple of 11, or is 0 when that would take a 10 |
| Nis.ValidateIff | brado/src/nis.rs:41-57 | valid exactly when bare or masked, not one repeated digit, and the last digit is the computed one |
| Nis.BareMaskedExclusive | brado/src/nis.rs:99-136 | no string is both bare and masked |
| Nis.MaskedParts | brado/src/nis.rs:127-136 | digit groups of 3, 5, 2 and 1 joined by '.', '.', '-' form a masked NIS with the same digits |
| Nis.MaskSpec | brado/src/nis.rs:164-178 | `mask` fails exactly on non-bare input; otherwise a 14-character masked NIS with the same digits that unmasks back |
| Nis.RepeatedBodyDigit | brado/src/nis.rs:59-74 | a body of ten equal digits k gets the check digit k exactly when k is 0 |
| Nis.RepeatedBody | brado/src/nis.rs:50 | a vector that passes the checksum is repeated exactly when its body is all zeros |
| Nis.RepeatedRejected | brado/src/nis.rs:50 | no eleven-times-repeated digit is a valid NIS |
| Nis.Generate | brado/src/nis.rs:189-197 | bare, body from the draws, checksum holds; valid exactly when the body is not all zeros |
| Nis.GenerateMasked | brado/src/nis.rs:208-210 | masked, checksum holds; valid exactly when the body is not all zeros |
| Nis.ValidateExamples | brado/src/nis.rs:24-36 | "40865658047" is valid and "40865658046" is not |
| Nis.MaskExamples | brado/src/nis.rs:148-152 | "40865658047" masks to "408.65658.04-7", which validates |
| Nis.CpfMaskRejected | brado/tests/nis.rs:39 | "408.656.580-47" is invalid |
| Eleitoral.Validate | brado/src/eleitoral.rs:35-51 | `validate`; characterised by `Eleitoral.ValidateIff` |
| Eleitoral.IsBare | brado/src/eleitoral.rs:123-126 | `is_bare`: twelve characters, all digits; never together with `is_masked` (`Eleitoral.BareMaskedExclusive`) |
| Eleitoral.IsMasked | brado/src/eleitoral.rs:151-160 | `is_masked`: spaces at 4 and 9 and twelve digits; see `Eleitoral.MaskSpec` |
| Eleitoral.Mask | brado/src/eleitoral.rs:188-197 | `mask`: an error on non-bare input, else the masked string; characterised by `Eleitoral.MaskSpec` |
| Eleitoral.RestDigit | brado/src/eleitoral.rs:69-74 | the remainder, with 10 mapped to 0 |
| Eleitoral.FirstDigit | brado/src/eleitoral.rs:60-75 | 0..9: the remainder of the weighted sum, or 0 when it is 10 |
| Eleitoral.SecondDigit | brado/src/eleitoral.rs:77-98 | 0..9: the remainder of the state digits and the first digit weighted 7, 8, 9, or 0 when it is 10 |
| Eleitoral.CheckDigits | brado/src/eleitoral.rs:53-58 | the first digit from digits 0..7, the second from digits 8, 9 and the first |
| Eleitoral.StateIdentifier | brado/src/eleitoral.rs:224-228 | two digits, the first 0 or 1, taken from the draws |
| Eleitoral.ValidateIff | brado/src/eleitoral.rs:35-51 | valid exactly when bare or masked and the last two digits are the computed ones; no repeated-digit guard |
| Eleitoral.BareMaskedExclusive | brado/src/eleitoral.rs:123-160 | no string is both bare and masked |
| Eleitoral.MaskSpec | brado/src/eleitoral.rs:188-197 | `mask` fails exactly on non-bare input; otherwise a 14-character masked title with the same digits that unmasks back |
| Eleitoral.RepeatedValidates | brado/src/eleitoral.rs:35-51 | among the twelve-times-repeated digits only zeros validate |
| Eleitoral.Generate | brado/src/eleitoral.rs:208-222 | bare, eight drawn digits, the state identifier, checksum holds and valid |
| Eleitoral.GenerateMasked | brado/src/eleitoral.rs:239-241 | masked, body from the draws, valid |
| Eleitoral.ValidateExamples | brado/src/eleitoral.rs:18-30 | "773537801651" is valid and "773537801650" is not |
| Eleitoral.MaskExamples | brado/src/eleitoral.rs:172-176 | "773537801651" masks to "7735 3780 1651", which validates; "7735 3780 1650" is masked but invalid |
| Eleitoral.ShiftedMaskExample | brado/tests/eleitoral.rs:39 | "773 537 801 651" is invalid |
| Certidao.Validate | brado/src/certidao.rs:32-48 | `validate`; characterised by `Certidao.ValidateIff` |
| Certidao.IsBare | brado/src/certidao.rs:104-106 | `is_bare`: thirty-two characters, all digits; never together with `is_masked` (`Certidao.BareMaskedExclusive`) |
| Certidao.IsMasked | brado/src/certidao.rs:131-147 | `is_masked`: seven spaces and a '-' at their positions and thirty-two digits; see `Certidao.MaskedParts` |
| Certidao.Mask | brado/src/certidao.rs:175-194 | `mask`: an error on non-bare input, else the masked string; characterised by `Certidao.MaskSpec` |
| Certidao.Multiplier | brado/src/certidao.rs:58-68 | after the first element the multiplier never exceeds 10 |
| Certidao.Multipliers | brado/src/certidao.rs:58-68 | the i-th weight is the running multiplier at i |
| Certidao.MultiplierCycle | brado/src/certidao.rs:58-68 | from a start of at most 10 the multiplier at i is (start + i) mod 11 |
| Certidao.MultipliersCyclic | brado/src/certidao.rs:58-68 | for bodies of 22 to 32 digits the weights are the cyclic ones |
| Certidao.CheckDigit | brado/src/certidao.rs:57-79 | 0..9: the remainder, or 1 when it is 10 |
| Certidao.CheckDigitCyclic | brado/src/certidao.rs:57-79 | the check digit computed with the cyclic weights |
| Certidao.CheckDigits | brado/src/certidao.rs:50-55 | both digits 0..9 |
| Certidao.GenerateDigit | brado/src/certidao.rs:57-79 | the loop with its running multiplier computes the check digit |
| Certidao.GenerateDigits | brado/src/certidao.rs:50-55 | the method computes the check-digit pair of the 30-digit body |
| Certidao.ValidateIff | brado/src/certidao.rs:32-48 | valid exactly when bare or masked and the last two digits are the computed ones; no repeated-digit guard |
| Certidao.BareMaskedExclusive | brado/src/certidao.rs:104-147 | no string is both bare and masked |
| Certidao.MaskedParts | brado/src/certidao.rs:131-147 | the nine digit groups joined by seven spaces and a '-' have exactly the mask's symbols |
| Certidao.MaskSpec | brado/src/certidao.rs:175-194 | `mask` fails exactly on non-bare input; otherwise a 40-character masked certificate with the same digits that unmasks back |
| Certidao.Generate | brado/src/certidao.rs:205-215 | bare, body from the draws, checksum holds and valid |
| Certidao.GenerateMasked | brado/src/certidao.rs:226-228 | masked, body from the draws, valid |
| Certidao.ZerosValidate | brado/src/certidao.rs:32-48 | thirty-two zeros are a valid certificate |
| Certidao.CheckDigitsExample | brado/src/certidao.rs:15-16 | the documented body gets the check digits (3, 6) |
| Certidao.ValidateExamples | brado/src/certidao.rs:15-27 | "21924201552023106304243115818536" is valid and "…35" is not |
| Certidao.MaskExample | brado/src/certidao.rs:159-163 | the documented certificate masks to "219242 01 55 2023 1 06304 243 1158185-36" |
| Certidao.MaskedValidates | brado/src/certidao.rs:18-19 | the masked certificate is valid |
| Certidao.ShiftedMaskExample | brado/tests/certidao.rs:39 | "21924 201 55 2023 1 06304 243 1158185-36" is invalid |
| Renavam.Validate | brado/src/renavam.rs:33-49 | `validate`; characterised by `Renavam.ValidateIff` |
| Renavam.IsBare | brado/src/renavam.rs:92-94 | `is_bare`: eleven characters, all digits; never together with `is_masked` (`Renavam.BareMaskedExclusive`) |
| Renavam.IsMasked | brado/src/renavam.rs:119-128 | `is_masked`: a '-' at 10 and eleven digits; see `Renavam.MaskSpec` |
| Renavam.Mask | brado/src/renavam.rs:156-164 | `mask`: an error on non-bare input, else the masked string; characterised by `Renavam.MaskSpec` |
| Renavam.CheckDigit | brado/src/renavam.rs:51-67 | the digit is 0..9 and brings the weighted sum to a multiple of 11, or is 0 when that would take a 10 |
| Renavam.ValidateIff | brado/src/renavam.rs:33-49 | valid exactly when bare or masked and the last digit is the computed one; no repeated-digit guard |
| Renavam.BareMaskedExclusive | brado/src/renavam.rs:92-128 | no string is both bare and masked |
| Renavam.MaskSpec | brado/src/renavam.rs:156-164 | `mask` fails exactly on non-bare input; otherwise a 12-character masked RENAVAM with the same digits that unmasks back |
| Renavam.RepeatedValidates | brado/src/renavam.rs:33-49 | among the eleven-times-repeated digits only zeros validate |
| Renavam.Generate | brado/src/renavam.rs:175-184 | bare, body from the draws, checksum holds and valid |
| Renavam.GenerateMasked | brado/src/renavam.rs:195-197 | masked, body from the draws, valid |
| Renavam.ValidateExamples | brado/src/renavam.rs:16-28 | "79072338363" is valid and "79072338362" is not |
| Renavam.MaskExamples | brado/src/renavam.rs:140-144 | "79072338363" masks to "7907233836-3", which validates; "790723383-63" is invalid |
| Docs.IsCpf | brado/src/docs.rs:39-41 | a CPF has 11 digits in 11 or 14 characters |
| Docs.IsCnpj | brado/src/docs.rs:70-72 | the CNPJ answer, with 14 digits in 14 or 18 characters |
| Docs.IsCnh | brado/src/docs.rs:101-103 | a CNH has 11 digits in 11 or 14 characters |
| Docs.IsCns | brado/src/docs.rs:132-134 | a CNS has 15 digits in 15 or 18 characters |
| Docs.IsNis | brado/src/docs.rs:163-165 | a NIS has 11 digits in 11 or 14 characters |
| Docs.IsEleitoral | brado/src/docs.rs:194-196 | a title has 12 digits in 12 or 14 characters |
| Docs.IsRenavam | brado/src/docs.rs:225-227 | a RENAVAM has 11 digits in 11 or 12 characters |
| Docs.IsCertidao | brado/src/docs.rs:256-258 | a certificate has 32 digits in 32 or 40 characters |
| Docs.DigitCountsExclusive | brado/src/docs.rs:39-258 | documents of different digit counts never pass each other's test |
| Docs.NisRenavamCheckDigit | brado/src/nis.rs:59-74 | the NIS and RENAVAM check digits agree on every body |
| Docs.NisIffRenavam | brado/src/docs.rs:163-227 | an eleven-character string is a NIS exactly when it is a RENAVAM and not one repeated digit |
| Docs.NisRenavamExamples | brado/tests/docs.rs:219-223 | "79072338363" and "40865658047" are both NIS and RENAVAM |
| Docs.MaskedNisRenavamDiffer | brado/src/docs.rs:163-227 | the masked forms are told apart by their masks |
| Docs.CpfExampleIsCnh | brado/tests/docs.rs:95-99 | "63929247011" is both a CPF and a CNH |
| Docs.CnhExampleIsNotCpf | brado/tests/docs.rs:19-23 | "84718735264" is a CNH but not a CPF |
| LegacyCommon.DigitsFront | brado/src/docs/common.rs:6-12 | every value below 10 and no more values than characters |
| LegacyCommon.SymbolsFrom | brado/src/common/utils.rs:18-28 | the older `get_symbols`; equal to the current one (`LegacyCommon.SymbolsFromAgrees`) |
| LegacyCommon.UnmaskFront | brado/src/common/utils.rs:43-50 | the older `unmask`; equal to the current one (`LegacyCommon.UnmaskFrontAgrees`) |
| LegacyCommon.ValidSymbols | brado/src/docs/common.rs:14-25 | `valid_symbols`: the set of symbols equals the expected set, wherever they stand (`LegacyCommon.ValidSymbolsIgnoresPlacement`, `LegacyCommon.ValidSymbolsEmpty`) |
| LegacyCommon.DigitsFrontAgrees | brado/src/common/utils.rs:10-16 | the front-to-back `get_digits` and `to_digit` equal the current `get_digits` |
| LegacyCommon.SymbolsFromAgrees | brado/src/common/utils.rs:18-28 | the older `get_symbols` equals the current one |
| LegacyCommon.UnmaskFrontAgrees | brado/src/common/utils.rs:43-50 | the older `unmask` equals the current one |
| LegacyCommon.SymbolSetOfSymbols | brado/src/common/utils.rs:30-41 | the symbol set is the set of characters `get_symbols` lists |
| LegacyCommon.ValidSymbolsEmpty | brado/src/common/utils.rs:30-41 | the empty symbol set is valid exactly for strings of decimal characters |
| LegacyCommon.ValidSymbolsIgnoresPlacement | brado/src/docs/common.rs:14-25 | "1.2.3" and "12.3" both have the symbol set {'.'} though one has two dots and the other one |
| CpfV1.IsMasked | brado/src/cpf/cpf.rs:50-56 | the older `is_masked`: symbol positions only, no digit count (`CpfV1.MaskedShortOfDigits`) |
| CpfV1.Valid | brado/src/cpf/cpf.rs:3-19 | what the older `validate` computes; equal to the current one (`CpfV1.ValidAgrees`) |
| CpfV1.GenerateDigit | brado/src/cpf/cpf.rs:25-44 | the loop from `max` down to 2 computes the current CPF check digit of the first `max - 1` digits |
| CpfV1.GenerateDigits | brado/src/cpf/cpf.rs:21-23 | the tenth digit over the nine body digits, the eleventh over the input's own first ten |
| CpfV1.ChecksumAgrees | brado/src/cpf/cpf.rs:16-18 | comparing both digits with the input's tenth digit accepts exactly the vectors the current checksum accepts |
| CpfV1.Validate | brado/src/cpf/cpf.rs:3-19 | the method computes the older validity predicate |
| CpfV1.ValidAgrees | brado/src/cpf/cpf.rs:3-19 | the older validator accepts exactly what the current one accepts |
| CpfV1.MaskedAgrees | brado/src/cpf/cpf.rs:50-56 | the current `is_masked` is the older one plus the eleven-digit count |
| CpfV1.MaskedShortOfDigits | brado/src/cpf/cpf.rs:50-56 | "123.456.789-" passes the older `is_masked` but not the current one |
| CpfV1.Mask | brado/src/cpf/cpf.rs:58-69 | on bare input, the same masked string as the current `mask` |
| DocsCpf.Valid | brado/src/docs/cpf.rs:31-61 | what the flag-driven `validate` computes; characterised by `DocsCpf.ValidIff` |
| DocsCpf.Validate | brado/src/docs/cpf.rs:31-61 | the method computes the flag-driven validity predicate |
| DocsCpf.ValidateStr | brado/src/docs/cpf.rs:63-69 | the same answer as `validate`; accepted strings have 11 digits passing the CPF checksum |
| DocsCpf.ValidIff | brado/src/docs/cpf.rs:31-61 | valid exactly when the symbol set is {'.', '-'} if masked is claimed, 11 digits, not repeated unless ignored, and the CPF checksum holds |
| DocsCpf.RepeatedFlag | brado/src/docs/cpf.rs:47-49 | `ignore_repeated` only switches off the repeated-digit rejection |
| DocsCpf.MaskedFlag | brado/src/docs/cpf.rs:36-39 | `is_masked` only adds the symbol-set test |
| DocsCpf.CurrentAgrees | brado/src/docs/cpf.rs:31-61 | what the current validator accepts passes here, masked ones also with the flag; on bare strings the two agree |
| DocsCpf.BareExample | brado/src/docs/cpf.rs:36-39 | "63929247011" passes without the mask flag and fails with it |
| DocsCpf.MaskedExample | brado/src/docs/cpf.rs:36-39 | "639.292.470-11" passes with the mask flag |
| DocsCpf.RepeatedOnes | brado/src/docs/cpf.rs:47-49 | "11111111111" passes only when repeated digits are ignored |
| CnpjV1.IsMasked | brado/src/cnpj/cnpj.rs:65-74 | the older `is_masked`: symbol positions only, no digit count (`CnpjV1.MaskedShortOfDigits`) |
| CnpjV1.Valid | brado/src/cnpj/cnpj.rs:3-25 | what the older `validate` computes; equal to the current one (`CnpjV1.ValidAgrees`) |
| CnpjV1.Validate | brado/src/cnpj/cnpj.rs:3-25 | the loop over the ten digit values computes the older validity predicate |
| CnpjV1.ValidAgrees | brado/src/cnpj/cnpj.rs:3-25 | the older validator accepts exactly what the current one accepts |
| CnpjV1.MaskedAgrees | brado/src/cnpj/cnpj.rs:65-74 | the current `is_masked` is the older one plus the fourteen-digit count |
| CnpjV1.MaskedShortOfDigits | brado/src/cnpj/cnpj.rs:65-74 | a masked CNPJ cut short by its last digit passes the older `is_masked` but not the current one |
| CnpjV1.Mask | brado/src/cnpj/cnpj.rs:76-88 | on bare input, the same masked string as the current `mask` |
| DocsCnpj.Valid | src/docs/cnpj.rs:21-50 | what the oldest `validate` computes; characterised by `DocsCnpj.ValidIff` |
| DocsCnpj.Validate | src/docs/cnpj.rs:21-50 | the method with its counting loop and two `generate_digit` calls computes the oldest validity predicate |
| DocsCnpj.ChecksumAgrees | src/docs/cnpj.rs:40-49 | computing the fourteenth digit over the input's own first thirteen accepts exactly the vectors the current checksum accepts |
| DocsCnpj.ValidIff | src/docs/cnpj.rs:21-50 | valid exactly when the symbol set is {'.', '/', '-'}, 14 digits, not repeated, and the CNPJ checksum holds |
| DocsCnpj.BareRejected | src/docs/cnpj.rs:22-26 | no bare CNPJ is accepted |
| DocsCnpj.MaskedAgrees | src/docs/cnpj.rs:21-50 | on masked CNPJs the oldest and the current validators agree |
| DocsCnpj.MisplacedSymbols | src/docs/cnpj.rs:22-26 | the three symbols placed anywhere still pass when the CNPJ is valid, while the current validator rejects that string |
| DocsCnpj.Examples | src/docs/cnpj.rs:21-50 | "05200851000100" is rejected and "05.200.851/0001-00" accepted |
| DocsCnpj.MisplacedExample | src/docs/cnpj.rs:22-26 | "0.5/2-00851000100" passes here but not the current validator |
| CnhV1.IsMasked | brado/src/cnh/utils.rs:61-67 | the older `is_masked`: space positions only, no digit count (`CnhV1.MaskedShortOfDigits`) |
| CnhV1.Valid | brado/src/cnh/utils.rs:3-23 | what the older `validate` computes; equal to the current one (`CnhV1.ValidAgrees`) |
| CnhV1.GenerateDigits | brado/src/cnh/utils.rs:25-55 | the loops, the first running its weight down to 0, compute the current CNH check digits of the first nine digits |
| CnhV1.ChecksumAgrees | brado/src/cnh/utils.rs:20-22 | the check digits of the first nine digits match exactly when the current checksum holds |
| CnhV1.Validate | brado/src/cnh/utils.rs:3-23 | the method computes the older validity predicate |
| CnhV1.ValidAgrees | brado/src/cnh/utils.rs:3-23 | the older validator accepts exactly what the current one accepts |
| CnhV1.MaskedAgrees | brado/src/cnh/utils.rs:61-67 | the current `is_masked` is the older one plus the eleven-digit count |
| CnhV1.MaskedShortOfDigits | brado/src/cnh/utils.rs:61-67 | a masked CNH cut short by its last digit passes the older `is_masked` but not the current one |
| CnhV1.Mask | brado/src/cnh/utils.rs:69-80 | on bare input, the same masked string as the current `mask` |
| DocsCnh.Valid | brado/src/docs/cnh.rs:37-69 | what the flag-driven `validate` computes; characterised by `DocsCnh.ValidIff` |
| DocsCnh.Validate | brado/src/docs/cnh.rs:37-69 | the method computes the flag-driven validity predicate |
| DocsCnh.ValidateStr | brado/src/docs/cnh.rs:71-77 | the same answer as `validate`; accepted strings have 11 digits passing the CNH checksum |
| DocsCnh.ValidIff | brado/src/docs/cnh.rs:37-69 | valid exactly when the symbol set is {' '} if masked is claimed, 11 digits, not repeated unless ignored, and the CNH checksum holds |
| DocsCnh.RepeatedFlag | brado/src/docs/cnh.rs:55-57 | `ignore_repeated` only switches off the repeated-digit rejection |
| DocsCnh.MaskedFlag | brado/src/docs/cnh.rs:43-47 | `is_masked` only adds the symbol-set test |
| DocsCnh.CurrentAgrees | brado/src/docs/cnh.rs:37-69 | what the current validator accepts passes here, masked ones also with the flag; on bare strings the two agree |
| DocsCnh.BareExample | brado/src/docs/cnh.rs:43-47 | "84718735264" passes without the mask flag and fails with it |
| DocsCnh.MaskedExample | brado/src/docs/cnh.rs:43-47 | "847 187 352 64" passes with the mask flag |
| DocsCnh.RepeatedOnes | brado/src/docs/cnh.rs:55-57 | "11111111111" passes only when repeated digits are ignored |

## Left out

- Random number generation. `thread_rng` is replaced by a sequence of raw draws passed to each `generate`.
  - `random_decimal_vector` and `random_element_from_vector` are used by brado/src/cns.rs but are not part of this model. They are taken to be `Common.RandomDigitVector` and `Common.RandomDigitFromVector`.
  - `to_decimal` is taken to be the ASCII '0'..'9' conversion of `get_digits`.
- The `println!` calls of brado/src/docs/cnh.rs:42 and 63 are console output with no effect on the result.
- The brado-c crate (C bindings over the CPF and CNPJ functions) is not part of this model.
- The `Document` wrappers (brado/src/docs/doc.rs, src/docs/doc.rs) are strings here.
- Module declarations and unit tests (brado/src/lib.rs, src/lib.rs) are left out.
- The u16, i16 and usize arithmetic is unbounded here.
  - Every weighted sum stays far below 2^16.
  - The one overflow that can happen, the `idx -= 1` underflow at brado/src/cns.rs:287, ends the CNS loop with `None`.
- Byte-offset slicing and `format!` become character slicing and concatenation; on bare input the two coincide.
- Cns.GenerateSecondCase: the loop runs for at most `fuel` rounds, and only partial correctness is proved. A run that needs more rounds, and the underflow, both give `None`. The Rust loop has no termination argument and panics on the underflow.
- Cns.Generate: a `None` from the second case is not an outcome of the Rust function, which loops on or panics instead.
- Cnh.Mask, CpfV1.Mask, CnpjV1.Mask and CnhV1.Mask: the panic on non-bare input is a precondition.
- Cnh.GenerateMasked: the Rust function panics when the second check digit is 10, since the generated string is then not bare. The model takes "second digit below 10" as its precondition.
- Certidao.CheckDigit: bodies longer than 32 digits are excluded, because `32 - len` would underflow as a `u16` there.
- Shared code.
  - Several functions of the older revisions are identical to current ones and are modelled once:
    - `is_repeated` in brado/src/common/utils.rs and brado/src/docs/cpf.rs is `Common.IsRepeated`;
    - `generate_digit` in brado/src/docs/cpf.rs is `CpfV1.GenerateDigit`;
    - `generate_digit` and `generate_digits` in brado/src/cnpj/cnpj.rs and `generate_digit` in src/docs/cnpj.rs are `Cnpj.GenerateDigit` and `Cnpj.GenerateDigits`;
    - `generate_digits` in brado/src/docs/cnh.rs is `CnhV1.GenerateDigits`;
    - `is_bare` of the older CPF, CNPJ and CNH is the current one.
  - The `valid_symbols` of brado/src/common/utils.rs and brado/src/docs/common.rs is `LegacyCommon.ValidSymbols`.
  - `to_digit` is `LegacyCommon.DigitsFront`.
- Common.RandomDigitFromVector: a draw selects an option by `draw % |options|`, so uniformity is not modelled.
