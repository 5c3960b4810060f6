/**
 * `Tool.random_string` (assist/helpers.py): a prefix followed by a run of
 * characters picked at random from the ASCII letters and digits and then
 * lowercased. The random source is modelled as a nondeterministic pick.
 */
module Helpers {
  import opened Wrappers

  /** `string.ascii_letters + string.digits`: what each character is picked from. */
  predicate IsSymbol(c: char)
  {
    ('a' <= c <= 'z') || ('A' <= c <= 'Z') || ('0' <= c <= '9')
  }

  /** What a picked character can be once lowercased: a lowercase ASCII letter or a digit. */
  predicate IsGenerated(c: char)
  {
    ('a' <= c <= 'z') || ('0' <= c <= '9')
  }

  /** `str.lower` on a symbol: ASCII capitals become small letters, the rest stays. */
  function Lower(c: char): (r: char)
    ensures IsSymbol(c) ==> IsGenerated(r)
    ensures IsGenerated(c) ==> r == c
  {
    if 'A' <= c <= 'Z' then (c as int + 32) as char else c
  }

  /** The prefix used: `test-` when none is given, otherwise the one given, even when empty. */
  function PrefixOrDefault(prefix: Option<string>): string
  {
    match prefix
    case None => "test-"
    case Some(p) => p
  }

  /** How many characters are generated: 16 when no length is given, none for a length below one. */
  function GeneratedLength(maxLen: Option<int>): (r: nat)
    ensures maxLen.None? ==> r == 16
    ensures maxLen.Some? ==> r == if maxLen.value < 0 then 0 else maxLen.value
  {
    match maxLen
    case None => 16
    case Some(n) => if n < 0 then 0 else n
  }

  /**
   * `Tool.random_string(prefix, max_len)`: the prefix exactly as given,
   * then one lowercased random symbol per step of `range(max_len)`.
   */
  method RandomString(prefix: Option<string>, maxLen: Option<int>) returns (r: string)
    ensures |r| == |PrefixOrDefault(prefix)| + GeneratedLength(maxLen)
    ensures r[..|PrefixOrDefault(prefix)|] == PrefixOrDefault(prefix)
    ensures forall i :: |PrefixOrDefault(prefix)| <= i < |r| ==> IsGenerated(r[i])
  {
    var head := PrefixOrDefault(prefix);
    var count := GeneratedLength(maxLen);
    var picked: string := [];
    for i := 0 to count
      invariant |picked| == i
      invariant forall j :: 0 <= j < i ==> IsGenerated(picked[j])
    {
      assert IsSymbol('a');
      var c: char :| IsSymbol(c);
      picked := picked + [Lower(c)];
    }
    r := head + picked;
  }

  /** Every lowercase letter and digit is the lowercase of some symbol, so any of them can be generated. */
  lemma EveryGeneratedReachable(c: char)
    requires IsGenerated(c)
    ensures exists s :: IsSymbol(s) && Lower(s) == c
  {
    assert IsSymbol(c) && Lower(c) == c;
  }

  /** Capital letters are generated as their small counterparts. */
  lemma CapitalLowered(c: char)
    requires 'A' <= c <= 'Z'
    ensures Lower(c) as int == c as int + 32 && IsGenerated(Lower(c))
  {
  }
}
