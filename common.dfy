/**
 * The helpers every document module shares (brado/src/common.rs): splitting a
 * candidate string into its decimal digits and its other characters, removing
 * the mask, the repeated-digit test and the random digit sources. It also holds
 * the two pieces of arithmetic the modules repeat inline: the weighted
 * positional sum and the decimal rendering of a digit vector.
 *
 * A Rust `&str` is a `string` here (a sequence of chars, indexed the way
 * `chars().enumerate()` counts), and a `Vec<u16>` of digit values a `seq<nat>`.
 */
module Common {

  // ------------------------------------------------------------------ characters

  /** The characters `char::to_digit(10)` maps to a value: ASCII '0' to '9'. */
  predicate IsDecimal(c: char) {
    '0' <= c <= '9'
  }

  function DigitOf(c: char): (d: nat)
    requires IsDecimal(c)
    ensures d < 10
  {
    c as int - '0' as int
  }

  function DigitChar(d: nat): (c: char)
    requires d < 10
    ensures IsDecimal(c) && DigitOf(c) == d
  {
    (d + '0' as int) as char
  }

  lemma DigitCharOf(c: char)
    requires IsDecimal(c)
    ensures DigitChar(DigitOf(c)) == c
  {
  }

  /** Every value of the vector is a decimal digit. */
  predicate IsDigits(ds: seq<nat>) {
    forall i :: 0 <= i < |ds| ==> ds[i] < 10
  }

  /** Every character of the string is a decimal digit character. */
  predicate AllDecimal(s: string) {
    forall i :: 0 <= i < |s| ==> IsDecimal(s[i])
  }

  // ------------------------------------------------------------------ extraction

  /** `get_digits`: the values of the decimal characters of `s`, in order. */
  function GetDigits(s: string): (ds: seq<nat>)
    ensures IsDigits(ds) && |ds| <= |s|
  {
    if s == [] then []
    else
      var c := s[|s| - 1];
      GetDigits(s[..|s| - 1]) + (if IsDecimal(c) then [DigitOf(c)] else [])
  }

  /**
   * `get_symbols`: every character that is not a decimal digit, paired with its
   * index in `s`; the indices point at that very character and increase strictly.
   */
  function GetSymbols(s: string): (syms: seq<(nat, char)>)
    ensures |syms| <= |s|
    ensures forall k :: 0 <= k < |syms| ==>
      syms[k].0 < |s| && s[syms[k].0] == syms[k].1 && !IsDecimal(syms[k].1)
    ensures forall k, l :: 0 <= k < l < |syms| ==> syms[k].0 < syms[l].0
  {
    if s == [] then []
    else
      var c := s[|s| - 1];
      var rest := GetSymbols(s[..|s| - 1]);
      if IsDecimal(c) then rest else rest + [(|s| - 1, c)]
  }

  /** `unmask`: the decimal characters of `s`, each turned into its value and back into text. */
  function Unmask(s: string): string {
    if s == [] then []
    else
      var c := s[|s| - 1];
      Unmask(s[..|s| - 1]) + (if IsDecimal(c) then NatToString(DigitOf(c)) else [])
  }

  /** `to_string` of an unsigned integer: its decimal representation. */
  function NatToString(n: nat): (s: string)
    ensures |s| >= 1 && AllDecimal(s)
    ensures n < 10 <==> |s| == 1
  {
    if n < 10 then [DigitChar(n)] else NatToString(n / 10) + [DigitChar(n % 10)]
  }

  /** `iter().map(|d| d.to_string()).collect::<Vec<String>>().join("")`. */
  function Render(ds: seq<nat>): string {
    if ds == [] then [] else Render(ds[..|ds| - 1]) + NatToString(ds[|ds| - 1])
  }

  /** `HashSet::from_iter(digits)`: the distinct values of a vector. */
  function Values(ds: seq<nat>): set<nat> {
    set d | d in ds
  }

  /** `is_repeated`: the set of values has exactly one element. */
  predicate IsRepeated(ds: seq<nat>) {
    |Values(ds)| == 1
  }

  // ------------------------------------------------------------------ arithmetic

  /** The weighted positional sum `Σ ds[i] * ws[i]` the check-digit rules are built on. */
  function Dot(ds: seq<nat>, ws: seq<nat>): nat
    requires |ds| <= |ws|
  {
    if ds == [] then 0 else Dot(ds[..|ds| - 1], ws) + ds[|ds| - 1] * ws[|ds| - 1]
  }

  /** The sum of a sequence of weights. */
  function Total(ws: seq<nat>): nat {
    if ws == [] then 0 else Total(ws[..|ws| - 1]) + ws[|ws| - 1]
  }

  /** `[hi, hi - 1, ..., hi - n + 1]`: the descending weights of the CPF-family rules. */
  function Descending(hi: nat, n: nat): (ws: seq<nat>)
    requires n <= hi
    ensures |ws| == n
    ensures forall i :: 0 <= i < n ==> ws[i] == hi - i
  {
    if n == 0 then [] else [hi] + Descending(hi - 1, n - 1)
  }

  /** `n` copies of the value `k`. */
  function Repeat(k: nat, n: nat): (ds: seq<nat>)
    ensures |ds| == n && forall i :: 0 <= i < n ==> ds[i] == k
  {
    seq(n, _ => k)
  }

  // ------------------------------------------------------------------ randomness

  /**
   * `random_digit_vector(size)`. The random number generator is a parameter: `rng`
   * holds the raw draws, and `gen_range(0..10)` keeps draw `i` modulo 10.
   */
  method RandomDigitVector(size: nat, rng: seq<nat>) returns (digits: seq<nat>)
    requires |rng| >= size
    ensures |digits| == size && IsDigits(digits)
    ensures forall i :: 0 <= i < size ==> digits[i] == rng[i] % 10
    ensures digits == Drawn(size, rng)
  {
    digits := [];
    for i := 0 to size
      invariant |digits| == i
      invariant forall j :: 0 <= j < i ==> digits[j] == rng[j] % 10
    {
      digits := digits + [rng[i] % 10];
    }
  }

  /** The digits `random_digit_vector(size)` returns for the draws `rng`. */
  function Drawn(size: nat, rng: seq<nat>): (ds: seq<nat>)
    requires |rng| >= size
    ensures |ds| == size && IsDigits(ds)
  {
    seq(size, i requires 0 <= i < size => rng[i] % 10)
  }

  /** `random_digit_from_vector(options)`: `gen_range(0..len)` picks an index from one raw draw. */
  function RandomDigitFromVector(options: seq<nat>, draw: nat): (d: nat)
    requires |options| > 0
    ensures d in options
  {
    options[draw % |options|]
  }

  // ================================================================== lemmas

  lemma {:induction false} RepeatedIff(ds: seq<nat>)
    ensures IsRepeated(ds) <==> |ds| > 0 && forall i :: 0 <= i < |ds| ==> ds[i] == ds[0]
  {
    var values := Values(ds);
    if |ds| > 0 && forall i :: 0 <= i < |ds| ==> ds[i] == ds[0] {
      assert values == {ds[0]};
    }
    if |values| == 1 {
      assert ds[0] in values;
      forall i | 0 <= i < |ds|
        ensures ds[i] == ds[0]
      {
        if ds[i] != ds[0] {
          assert {ds[0], ds[i]} <= values;
          assert |{ds[0], ds[i]}| == 2;
          SubsetCard({ds[0], ds[i]}, values);
        }
      }
    }
  }

  lemma {:induction false} SubsetCard<T>(a: set<T>, b: set<T>)
    requires a <= b
    ensures |a| <= |b|
  {
    if a != {} {
      var x :| x in a;
      SubsetCard(a - {x}, b - {x});
    }
  }

  /** The examples from the library's documentation of `is_repeated`. */
  lemma RepeatedExamples()
    ensures IsRepeated([1, 1, 1]) && !IsRepeated([1, 2, 1]) && !IsRepeated([])
  {
    RepeatedIff([1, 1, 1]);
    RepeatedIff([1, 2, 1]);
    assert [1, 2, 1][1] != [1, 2, 1][0];
    RepeatedIff([]);
  }

  /** A value occurs as often as the sequence is long exactly when every element is that value. */
  lemma {:induction false} CountAllIff(ds: seq<nat>, v: nat)
    ensures multiset(ds)[v] == |ds| <==> forall k :: 0 <= k < |ds| ==> ds[k] == v
  {
    if ds != [] {
      var init := ds[..|ds| - 1];
      CountAllIff(init, v);
      assert ds == init + [ds[|ds| - 1]];
      assert multiset(ds) == multiset(init) + multiset{ds[|ds| - 1]};
      MultisetCountBound(init, v);
    }
  }

  lemma {:induction false} MultisetCountBound(ds: seq<nat>, v: nat)
    ensures multiset(ds)[v] <= |ds|
  {
    if ds != [] {
      var init := ds[..|ds| - 1];
      MultisetCountBound(init, v);
      assert ds == init + [ds[|ds| - 1]];
    }
  }

  /**
   * The older repeated-digit loops (`for i in 0..10`, count of `i` equal to the length)
   * say the same as `is_repeated` on a non-empty digit vector.
   */
  lemma CountLoopRepeated(ds: seq<nat>)
    requires IsDigits(ds) && |ds| > 0
    ensures (exists v :: 0 <= v < 10 && multiset(ds)[v] == |ds|) <==> IsRepeated(ds)
  {
    RepeatedIff(ds);
    CountAllIff(ds, ds[0]);
    if exists v :: 0 <= v < 10 && multiset(ds)[v] == |ds| {
      var v :| 0 <= v < 10 && multiset(ds)[v] == |ds|;
      CountAllIff(ds, v);
    }
  }

  /** `get_digits` distributes over concatenation. */
  lemma {:induction false} DigitsAppend(a: string, b: string)
    ensures GetDigits(a + b) == GetDigits(a) + GetDigits(b)
  {
    if b == [] {
      assert a + b == a;
    } else {
      assert (a + b)[..|a + b| - 1] == a + b[..|b| - 1];
      DigitsAppend(a, b[..|b| - 1]);
    }
  }

  /** Only the digits of a string that holds nothing but digits: it maps character-wise. */
  lemma {:induction false} DigitsOfDecimal(s: string)
    requires AllDecimal(s)
    ensures |GetDigits(s)| == |s|
    ensures forall i :: 0 <= i < |s| ==> GetDigits(s)[i] == DigitOf(s[i])
    ensures GetSymbols(s) == []
  {
    if s != [] {
      DigitsOfDecimal(s[..|s| - 1]);
    }
  }

  /** A string whose characters read as the values `ds`, one by one, has exactly those digits. */
  lemma {:induction false} DigitsOfChars(s: string, ds: seq<nat>)
    requires |s| == |ds|
    requires forall i :: 0 <= i < |s| ==> IsDecimal(s[i]) && DigitOf(s[i]) == ds[i]
    ensures GetDigits(s) == ds
  {
    if s != [] {
      DigitsOfChars(s[..|s| - 1], ds[..|ds| - 1]);
    }
  }

  /** `get_digits` and `get_symbols` split the input: their lengths add up to the char count. */
  lemma {:induction false} Partition(s: string)
    ensures |GetDigits(s)| + |GetSymbols(s)| == |s|
  {
    if s != [] {
      Partition(s[..|s| - 1]);
    }
  }

  /** A string is made of digits only exactly when `get_digits` keeps all of it. */
  lemma {:induction false} AllDigitsIff(s: string)
    ensures |GetDigits(s)| == |s| <==> AllDecimal(s)
  {
    if s != [] {
      AllDigitsIff(s[..|s| - 1]);
    }
  }

  /** Every character that is not a digit is listed by `get_symbols` with its index. */
  lemma {:induction false} SymbolsComplete(s: string, i: nat)
    requires i < |s| && !IsDecimal(s[i])
    ensures (i, s[i]) in GetSymbols(s)
  {
    if i < |s| - 1 {
      SymbolsComplete(s[..|s| - 1], i);
    }
  }

  /** The documented examples of `get_digits`. */
  lemma DigitsExamples()
    ensures GetDigits("111") == [1, 1, 1]
    ensures GetDigits("121") == [1, 2, 1]
  {
    DigitsOfChars("111", [1, 1, 1]);
    DigitsOfChars("121", [1, 2, 1]);
  }

  /** The documented examples of `get_symbols` and `unmask`. */
  lemma SymbolsExamples()
    ensures GetSymbols("1.1-1") == [(1, '.'), (3, '-')]
    ensures GetDigits("1.1-1") == [1, 1, 1]
  {
    var one := "1";
    DigitsOfDecimal(one);
    SeparatorStep(one, '.', one);
    var x := one + ['.'] + one;
    SeparatorStep(x, '-', one);
    assert x + ['-'] + one == "1.1-1";
  }

  lemma UnmaskExample()
    ensures Unmask("1.1-1") == "111"
  {
    SymbolsExamples();
    UnmaskRendersDigits("1.1-1");
    RenderDigits([1, 1, 1]);
    RenderChars([1, 1, 1]);
  }

  lemma SymbolsSnoc(x: string, c: char)
    ensures GetSymbols(x + [c]) == GetSymbols(x) + (if IsDecimal(c) then [] else [(|x|, c)])
    ensures GetDigits(x + [c]) == GetDigits(x) + (if IsDecimal(c) then [DigitOf(c)] else [])
  {
    assert (x + [c])[..|x|] == x;
  }

  /** Appending digits adds no symbol. */
  lemma {:induction false} SymbolsAppendDecimal(x: string, y: string)
    requires AllDecimal(y)
    ensures GetSymbols(x + y) == GetSymbols(x)
  {
    if y != [] {
      var y' := y[..|y| - 1];
      assert x + y == (x + y') + [y[|y| - 1]];
      SymbolsAppendDecimal(x, y');
      SymbolsSnoc(x + y', y[|y| - 1]);
    } else {
      assert x + y == x;
    }
  }

  /**
   * One step of building a mask: a separator followed by a run of digits adds
   * exactly one symbol, at the separator's index, and keeps the digits.
   */
  lemma SeparatorStep(x: string, c: char, y: string)
    requires !IsDecimal(c) && AllDecimal(y)
    ensures GetSymbols(x + [c] + y) == GetSymbols(x) + [(|x|, c)]
    ensures GetDigits(x + [c] + y) == GetDigits(x) + GetDigits(y)
  {
    var xc := x + [c];
    SymbolsSnoc(x, c);
    SymbolsAppendDecimal(xc, y);
    DigitsAppend(xc, y);
    assert GetDigits(xc) == GetDigits(x);
  }

  /** Every slice of a string of digits is a string of digits. */
  lemma SliceDecimal(s: string, i: nat, j: nat)
    requires AllDecimal(s) && i <= j <= |s|
    ensures AllDecimal(s[i..j])
  {
  }

  /** Rendering a vector of digits gives one decimal character per value, and reading it back gives the vector. */
  lemma {:induction false} RenderDigits(ds: seq<nat>)
    requires IsDigits(ds)
    ensures |Render(ds)| == |ds| && AllDecimal(Render(ds))
    ensures GetDigits(Render(ds)) == ds
  {
    if ds != [] {
      var init := ds[..|ds| - 1];
      RenderDigits(init);
      SymbolsSnoc(Render(init), DigitChar(ds[|ds| - 1]));
      assert ds == init + [ds[|ds| - 1]];
    }
  }

  /** Rendering a vector of digits writes each value as its digit character, position by position. */
  lemma {:induction false} RenderChars(ds: seq<nat>)
    requires IsDigits(ds)
    ensures |Render(ds)| == |ds|
    ensures forall i :: 0 <= i < |ds| ==> Render(ds)[i] == DigitChar(ds[i])
  {
    if ds != [] {
      RenderChars(ds[..|ds| - 1]);
    }
  }

  /** `unmask(s)` is the decimal rendering of `get_digits(s)`. */
  lemma {:induction false} UnmaskRendersDigits(s: string)
    ensures Unmask(s) == Render(GetDigits(s))
  {
    if s != [] {
      var c := s[|s| - 1];
      UnmaskRendersDigits(s[..|s| - 1]);
      var init := GetDigits(s[..|s| - 1]);
      if IsDecimal(c) {
        assert GetDigits(s)[..|GetDigits(s)| - 1] == init;
      } else {
        assert GetDigits(s) == init;
      }
    }
  }

  /** `unmask` leaves only digits, one per digit of the input, and removing the mask twice changes nothing. */
  lemma UnmaskIdempotent(s: string)
    ensures AllDecimal(Unmask(s)) && |Unmask(s)| == |GetDigits(s)|
    ensures GetDigits(Unmask(s)) == GetDigits(s)
    ensures Unmask(Unmask(s)) == Unmask(s)
  {
    UnmaskRendersDigits(s);
    RenderDigits(GetDigits(s));
    UnmaskRendersDigits(Unmask(s));
  }

  // ------------------------------------------------------------------ sums

  lemma DotSnoc(ds: seq<nat>, x: nat, ws: seq<nat>)
    requires |ds| < |ws|
    ensures Dot(ds + [x], ws) == Dot(ds, ws) + x * ws[|ds|]
  {
    assert (ds + [x])[..|ds|] == ds;
  }

  /** One more position of a prefix sum: the step a concrete check digit is computed by. */
  lemma DotPrefix(ds: seq<nat>, ws: seq<nat>, k: nat)
    requires k < |ds| && k < |ws|
    ensures Dot(ds[..k + 1], ws) == Dot(ds[..k], ws) + ds[k] * ws[k]
  {
    assert ds[..k + 1][..k] == ds[..k];
  }

  /** Replacing one element changes the sum by the difference times that position's weight. */
  lemma {:induction false} DotUpdate(ds: seq<nat>, ws: seq<nat>, idx: nat, v: nat)
    requires idx < |ds| <= |ws|
    ensures Dot(ds[idx := v], ws) + ds[idx] * ws[idx] == Dot(ds, ws) + v * ws[idx]
  {
    var last := |ds| - 1;
    var upd := ds[idx := v];
    assert upd[..last] == if idx < last then ds[..last][idx := v] else ds[..last];
    if idx < last {
      DotUpdate(ds[..last], ws, idx, v);
    }
  }

  /** A sum over a concatenation splits, the second part weighted from where the first stops. */
  lemma {:induction false} DotAppend(a: seq<nat>, b: seq<nat>, ws: seq<nat>)
    requires |a| + |b| <= |ws|
    ensures Dot(a + b, ws) == Dot(a, ws) + Dot(b, ws[|a|..])
  {
    if b == [] {
      assert a + b == a;
    } else {
      var init := b[..|b| - 1];
      DotAppend(a, init, ws);
      assert (a + b)[..|a + b| - 1] == a + init;
      assert b[..|b| - 1] == init;
    }
  }

  /** The sum only looks at the first `|ds|` weights. */
  lemma {:induction false} DotSameWeights(ds: seq<nat>, ws: seq<nat>, vs: seq<nat>)
    requires |ds| <= |ws| && |ds| <= |vs|
    requires forall i :: 0 <= i < |ds| ==> ws[i] == vs[i]
    ensures Dot(ds, ws) == Dot(ds, vs)
  {
    if ds != [] {
      DotSameWeights(ds[..|ds| - 1], ws, vs);
    }
  }

  /** A sum over a constant vector is that constant times the total of the weights used. */
  lemma {:induction false} DotRepeat(k: nat, n: nat, ws: seq<nat>)
    requires n <= |ws|
    ensures Dot(Repeat(k, n), ws) == k * Total(ws[..n])
  {
    if n > 0 {
      DotRepeat(k, n - 1, ws);
      assert Repeat(k, n)[..n - 1] == Repeat(k, n - 1);
      assert ws[..n][..n - 1] == ws[..n - 1];
    }
  }

  lemma {:induction false} TotalCons(x: nat, ws: seq<nat>)
    ensures Total([x] + ws) == x + Total(ws)
  {
    if ws != [] {
      TotalCons(x, ws[..|ws| - 1]);
      assert ([x] + ws)[..|ws|] == [x] + ws[..|ws| - 1];
    }
  }

  /** The descending weights `hi` down to `hi - n + 1` add up to `n * (2 * hi - n + 1) / 2`. */
  lemma {:induction false} TotalDescending(hi: nat, n: nat)
    requires n <= hi
    ensures 2 * Total(Descending(hi, n)) == n * (2 * hi - n + 1)
  {
    if n > 0 {
      var rest := Descending(hi - 1, n - 1);
      TotalDescending(hi - 1, n - 1);
      TotalCons(hi, rest);
      assert Descending(hi, n) == [hi] + rest;
      GaussStep(hi, n, Total(rest));
    }
  }

  /** The arithmetic of one step of `TotalDescending`. */
  lemma GaussStep(hi: int, n: int, t: int)
    requires 0 < n <= hi && 2 * t == (n - 1) * (2 * hi - n)
    ensures 2 * (hi + t) == n * (2 * hi - n + 1)
  {
    var x := 2 * hi - n;
    assert n * (x + 1) == n * x + n;
    assert n * x == (n - 1) * x + x;
  }

  /**
   * The shared meaning of the modulo-11 rules that map a remainder of 10 to 0: the digit
   * brings `sum` up to a multiple of 11, or is 0 when that would take a 10.
   */
  predicate CompletesMod11(sum: nat, d: nat) {
    d < 10 && ((sum + d) % 11 == 0 || (sum % 11 == 1 && d == 0))
  }

  /** At most one digit completes a given sum, so two rules with that meaning agree. */
  lemma CompletesMod11Unique(sum: nat, d1: nat, d2: nat)
    requires CompletesMod11(sum, d1) && CompletesMod11(sum, d2)
    ensures d1 == d2
  {
    AddMod11(sum, d1);
    AddMod11(sum, d2);
  }

  /** Adding to a number adds to its remainder modulo 11. */
  lemma AddMod11(a: nat, k: nat)
    ensures (a + k) % 11 == (a % 11 + k) % 11
  {
    assert a + k == 11 * (a / 11) + (a % 11 + k);
  }

  /** The remainder modulo 11 read off a quotient-remainder decomposition. */
  lemma ModUnique(a: int, q: int, r: int)
    requires a == 11 * q + r && 0 <= r < 11
    ensures a % 11 == r
  {
  }

  /** The rule "`(10 * sum) % 11`, with 10 read as 0" completes `sum` in the sense of `CompletesMod11`. */
  lemma TenRuleCompletes(sum: nat)
    ensures var d := (sum * 10) % 11; CompletesMod11(sum, if d == 10 then 0 else d)
  {
    var q, r := sum / 11, sum % 11;
    if r == 0 {
      ModUnique(sum * 10, 10 * q, 0);
    } else {
      ModUnique(sum * 10, 10 * q + r - 1, 11 - r);
      if r >= 2 {
        ModUnique(sum + (11 - r), q + 1, 0);
      }
    }
  }

  /** A string of digits is its own unmasking. */
  lemma UnmaskDecimal(s: string)
    requires AllDecimal(s)
    ensures Unmask(s) == s
  {
    UnmaskRendersDigits(s);
    DigitsOfDecimal(s);
    RenderChars(GetDigits(s));
    forall i | 0 <= i < |s|
      ensures Unmask(s)[i] == s[i]
    {
      DigitCharOf(s[i]);
    }
  }

  /** What `is_bare` establishes: the string is all digits, has no symbol, and reads back digit by digit. */
  lemma BareFacts(s: string)
    requires |GetDigits(s)| == |s|
    ensures AllDecimal(s) && GetSymbols(s) == []
    ensures forall i :: 0 <= i < |s| ==> GetDigits(s)[i] == DigitOf(s[i])
  {
    AllDigitsIff(s);
    DigitsOfDecimal(s);
  }
}
