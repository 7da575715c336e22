/**
 * The helpers of the older revisions: brado/src/common/utils.rs (`get_digits`,
 * `get_symbols`, `unmask`, `valid_symbols`) and brado/src/docs/common.rs (`to_digit`,
 * `valid_symbols`). They walk the string from the front with iterator adaptors; the
 * definitions here do the same, and the lemmas show they agree with the current helpers
 * of Common, which build their results from the back. Their `is_repeated` is the one of
 * Common.
 */
module LegacyCommon {
  import opened Common

  /** `get_digits` / `to_digit`: the values of the decimal characters, collected from the front. */
  function DigitsFront(s: string): (ds: seq<nat>)
    ensures IsDigits(ds) && |ds| <= |s|
  {
    if s == [] then []
    else (if IsDecimal(s[0]) then [DigitOf(s[0])] else []) + DigitsFront(s[1..])
  }

  /** `get_symbols` from index `base` on: the non-decimal characters with their positions. */
  function SymbolsFrom(s: string, base: nat): seq<(nat, char)> {
    if s == [] then []
    else (if IsDecimal(s[0]) then [] else [(base, s[0])]) + SymbolsFrom(s[1..], base + 1)
  }

  /** `unmask`: each decimal character rendered back from its value, collected from the front. */
  function UnmaskFront(s: string): string {
    if s == [] then []
    else (if IsDecimal(s[0]) then NatToString(DigitOf(s[0])) else []) + UnmaskFront(s[1..])
  }

  /** The `HashSet` of the characters that are not decimal digits. */
  function SymbolSet(s: string): set<char> {
    set i | 0 <= i < |s| && !IsDecimal(s[i]) :: s[i]
  }

  /** `valid_symbols`: the set of non-decimal characters is exactly `valid`. */
  predicate ValidSymbols(s: string, valid: set<char>) {
    SymbolSet(s) == valid
  }

  // ================================================================== lemmas

  lemma {:induction false} DigitsFrontSnoc(x: string, c: char)
    ensures DigitsFront(x + [c]) == DigitsFront(x) + (if IsDecimal(c) then [DigitOf(c)] else [])
  {
    if x != [] {
      assert (x + [c])[1..] == x[1..] + [c];
      DigitsFrontSnoc(x[1..], c);
    } else {
      assert [c][1..] == [];
    }
  }

  /** The older `get_digits` returns what the current one does. */
  lemma {:induction false} DigitsFrontAgrees(s: string)
    ensures DigitsFront(s) == GetDigits(s)
  {
    if s != [] {
      var init := s[..|s| - 1];
      DigitsFrontAgrees(init);
      DigitsFrontSnoc(init, s[|s| - 1]);
      assert init + [s[|s| - 1]] == s;
    }
  }

  lemma {:induction false} SymbolsFromSnoc(x: string, c: char, base: nat)
    ensures SymbolsFrom(x + [c], base) ==
      SymbolsFrom(x, base) + (if IsDecimal(c) then [] else [(base + |x|, c)])
  {
    if x != [] {
      assert (x + [c])[1..] == x[1..] + [c];
      SymbolsFromSnoc(x[1..], c, base + 1);
    } else {
      assert [c][1..] == [];
    }
  }

  /** The older `get_symbols` returns what the current one does: same characters, same indices. */
  lemma {:induction false} SymbolsFromAgrees(s: string)
    ensures SymbolsFrom(s, 0) == GetSymbols(s)
  {
    if s != [] {
      var init := s[..|s| - 1];
      SymbolsFromAgrees(init);
      SymbolsFromSnoc(init, s[|s| - 1], 0);
      assert init + [s[|s| - 1]] == s;
    }
  }

  lemma {:induction false} UnmaskFrontSnoc(x: string, c: char)
    ensures UnmaskFront(x + [c]) == UnmaskFront(x) + (if IsDecimal(c) then NatToString(DigitOf(c)) else [])
  {
    if x != [] {
      assert (x + [c])[1..] == x[1..] + [c];
      UnmaskFrontSnoc(x[1..], c);
    } else {
      assert [c][1..] == [];
    }
  }

  /** The older `unmask` returns what the current one does, hence the rendering of the digits. */
  lemma {:induction false} UnmaskFrontAgrees(s: string)
    ensures UnmaskFront(s) == Unmask(s)
  {
    if s != [] {
      var init := s[..|s| - 1];
      UnmaskFrontAgrees(init);
      UnmaskFrontSnoc(init, s[|s| - 1]);
      assert init + [s[|s| - 1]] == s;
    }
  }

  /** The symbol set is the set of characters `get_symbols` lists: positions and repetitions are forgotten. */
  lemma SymbolSetOfSymbols(s: string)
    ensures SymbolSet(s) == set k | 0 <= k < |GetSymbols(s)| :: GetSymbols(s)[k].1
  {
    var syms := GetSymbols(s);
    forall c | c in SymbolSet(s)
      ensures exists k :: 0 <= k < |syms| && syms[k].1 == c
    {
      var i :| 0 <= i < |s| && !IsDecimal(s[i]) && s[i] == c;
      SymbolsComplete(s, i);
      var k :| 0 <= k < |syms| && syms[k] == (i, s[i]);
      assert syms[k].1 == c;
    }
    forall k | 0 <= k < |syms|
      ensures syms[k].1 in SymbolSet(s)
    {
      var i := syms[k].0;
      assert s[i] == syms[k].1 && !IsDecimal(s[i]);
    }
  }

  /** `valid_symbols` against the empty set holds exactly for strings of digits only. */
  lemma ValidSymbolsEmpty(s: string)
    ensures ValidSymbols(s, {}) <==> AllDecimal(s)
  {
    if !AllDecimal(s) {
      var i :| 0 <= i < |s| && !IsDecimal(s[i]);
      assert s[i] in SymbolSet(s);
    }
  }

  /** `valid_symbols` ignores how often and where a symbol occurs: "1.2.3" and "12.3" both have the set {'.'}. */
  lemma ValidSymbolsIgnoresPlacement()
    ensures ValidSymbols("1.2.3", {'.'}) && ValidSymbols("12.3", {'.'})
    ensures |GetSymbols("1.2.3")| == 2 && |GetSymbols("12.3")| == 1
  {
    var a, b := "1.2.3", "12.3";
    assert a[1] == '.' && a[3] == '.' && b[2] == '.';
    assert SymbolSet(a) == {'.'};
    assert SymbolSet(b) == {'.'};
    SymbolsFromAgrees(a);
    SymbolsFromAgrees(b);
  }
}
