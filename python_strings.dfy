/**
 * The Python `str` operations the modelled code relies on: `in` between
 * strings, `isspace`/`strip`, `join` and `replace`, over `seq<char>`.
 */
module PyStrings {

  /** `f` occurs in `s` (Python's `f in s` on strings). */
  predicate IsSubstring(f: string, s: string)
  {
    f <= s || (s != [] && IsSubstring(f, s[1..]))
  }

  // ---------------------------------------------------------------------
  // strip
  // ---------------------------------------------------------------------

  /** Python's `str.isspace` for one character: what `strip()` removes. */
  predicate IsSpace(c: char)
    ensures c == ' ' || c == '\t' || c == '\n' || c == '\r' ==> IsSpace(c)
    ensures IsSpace(c) ==> c != '_' && !('0' <= c <= '9') && !('a' <= c <= 'z') && !('A' <= c <= 'Z')
  {
    var n := c as int;
    (9 <= n <= 13) || (28 <= n <= 32) || n == 0x85 || n == 0xA0 || n == 0x1680
    || (0x2000 <= n <= 0x200A) || n == 0x2028 || n == 0x2029 || n == 0x202F
    || n == 0x205F || n == 0x3000
  }

  /** `s.lstrip()`: the suffix left after every leading whitespace character. */
  function StripLeft(s: string): (r: string)
    ensures |r| <= |s| && r == s[|s| - |r|..]
    ensures forall i :: 0 <= i < |s| - |r| ==> IsSpace(s[i])
    ensures r == [] || !IsSpace(r[0])
  {
    if s != [] && IsSpace(s[0]) then
      var rest := s[1..];
      var r := StripLeft(rest);
      assert forall i :: 0 < i < |s| - |r| ==> s[i] == rest[i - 1];
      r
    else s
  }

  /** `s.rstrip()`: the prefix left before every trailing whitespace character. */
  function StripRight(s: string): (r: string)
    ensures |r| <= |s| && r == s[..|r|]
    ensures forall i :: |r| <= i < |s| ==> IsSpace(s[i])
    ensures r == [] || !IsSpace(r[|r| - 1])
  {
    if s != [] && IsSpace(s[|s| - 1]) then StripRight(s[..|s| - 1]) else s
  }

  /** How many whitespace characters `s.lstrip()` removes. */
  function LeadingSpaces(s: string): (n: nat)
    ensures n <= |s| && StripLeft(s) == s[n..]
  {
    |s| - |StripLeft(s)|
  }

  /**
   * `s.strip()`: the slice of `s` that starts after its leading whitespace
   * and stops at its trailing whitespace.
   */
  function Strip(s: string): (r: string)
    ensures r == [] || (!IsSpace(r[0]) && !IsSpace(r[|r| - 1]))
    ensures LeadingSpaces(s) + |r| <= |s| && r == s[LeadingSpaces(s)..LeadingSpaces(s) + |r|]
    ensures SpacesOutside(s, LeadingSpaces(s), LeadingSpaces(s) + |r|)
    ensures forall c :: c in r ==> c in s
  {
    var left := StripLeft(s);
    var r := StripRight(left);
    SliceOfSuffix(s, LeadingSpaces(s), left, r);
    r
  }

  /** Every character of `s` before position `a` and from position `b` on is whitespace. */
  predicate SpacesOutside(s: string, a: int, b: int)
    requires 0 <= a <= b <= |s|
  {
    (forall i :: 0 <= i < a ==> IsSpace(s[i])) && (forall i :: b <= i < |s| ==> IsSpace(s[i]))
  }

  /** A prefix `r` of the suffix `left` of `s` is a slice of `s`, and what follows `r` in `left` follows it in `s`. */
  lemma SliceOfSuffix(s: string, a: int, left: string, r: string)
    requires 0 <= a <= |s| && left == s[a..] && |r| <= |left| && r == left[..|r|]
    requires forall i :: |r| <= i < |left| ==> IsSpace(left[i])
    ensures r == s[a..a + |r|]
    ensures forall i :: a + |r| <= i < |s| ==> IsSpace(s[i])
    ensures forall c :: c in r ==> c in s
  {
    forall c | c in r
      ensures c in s
    {
      var k :| 0 <= k < |r| && r[k] == c;
      assert s[a + k] == c;
    }
    forall i | a + |r| <= i < |s|
      ensures IsSpace(s[i])
    {
      assert s[i] == left[i - a];
    }
  }

  /** A string without surrounding whitespace is left as it is. */
  lemma StripIdle(s: string)
    requires s == [] || (!IsSpace(s[0]) && !IsSpace(s[|s| - 1]))
    ensures Strip(s) == s
  {
    assert StripLeft(s) == s;
    assert StripRight(s) == s;
  }

  /** Stripping twice strips no more than stripping once. */
  lemma StripIdempotent(s: string)
    ensures Strip(Strip(s)) == Strip(s)
  {
    StripIdle(Strip(s));
  }

  // ---------------------------------------------------------------------
  // join
  // ---------------------------------------------------------------------

  /** `separator.join(parts)`. */
  function Join(separator: string, parts: seq<string>): (r: string)
    ensures parts != [] ==> parts[0] <= r
  {
    if parts == [] then ""
    else if |parts| == 1 then parts[0]
    else parts[0] + separator + Join(separator, parts[1..])
  }

  /** Joining one more part appends the separator and the part. */
  lemma {:induction false} JoinAppend(separator: string, parts: seq<string>, part: string)
    requires parts != []
    ensures Join(separator, parts + [part]) == Join(separator, parts) + separator + part
    decreases |parts|
  {
    var all := parts + [part];
    assert all[0] == parts[0];
    if |parts| == 1 {
      assert all[1..] == [part];
    } else {
      assert all[1..] == parts[1..] + [part];
      JoinAppend(separator, parts[1..], part);
    }
  }

  /**
   * A join is empty exactly when every part is empty and no separator
   * stands between two parts.
   */
  lemma {:induction false} JoinEmpty(separator: string, parts: seq<string>)
    ensures Join(separator, parts) == "" <==>
              (forall i :: 0 <= i < |parts| ==> parts[i] == "") && (|parts| <= 1 || separator == "")
  {
    if |parts| > 1 {
      JoinEmpty(separator, parts[1..]);
      assert forall i :: 1 <= i < |parts| ==> parts[1..][i - 1] == parts[i];
    }
  }

  // ---------------------------------------------------------------------
  // replace
  // ---------------------------------------------------------------------

  /** `s.replace("", replacement)`: `replacement` before every character and at the end. */
  function Interleave(s: string, replacement: string): (r: string)
    ensures |r| == |s| + (|s| + 1) * |replacement|
  {
    if s == [] then replacement
    else
      var rest := Interleave(s[1..], replacement);
      assert |replacement + [s[0]] + rest| == |replacement| + 1 + |s[1..]| + (|s[1..]| + 1) * |replacement|;
      replacement + [s[0]] + rest
  }

  /** `s.replace(target, replacement)`: every occurrence of `target`, left to right and not overlapping. */
  function ReplaceAll(s: string, target: string, replacement: string): (r: string)
    ensures target != [] && |s| < |target| ==> r == s
    decreases |s|
  {
    if target == [] then Interleave(s, replacement)
    else if s == [] then []
    else if target <= s then replacement + ReplaceAll(s[|target|..], target, replacement)
    else [s[0]] + ReplaceAll(s[1..], target, replacement)
  }

  /**
   * A replacement as long as its target keeps the length of the text; a
   * shorter one, for a non-empty target, never lengthens it.
   */
  lemma {:induction false} ReplaceLength(s: string, target: string, replacement: string)
    ensures |target| == |replacement| ==> |ReplaceAll(s, target, replacement)| == |s|
    ensures target != [] && |replacement| <= |target| ==> |ReplaceAll(s, target, replacement)| <= |s|
    decreases |s|
  {
    if target != [] && s != [] {
      if target <= s {
        ReplaceLength(s[|target|..], target, replacement);
      } else {
        ReplaceLength(s[1..], target, replacement);
      }
    }
  }

  /** Replacing a string by itself changes nothing. */
  lemma ReplaceSame(s: string, target: string)
    ensures ReplaceAll(s, target, target) == s
  {
    if target == [] {
      InterleaveEmpty(s);
    } else {
      ReplaceSameNonEmpty(s, target);
    }
  }

  lemma {:induction false} ReplaceSameNonEmpty(s: string, target: string)
    requires target != []
    ensures ReplaceAll(s, target, target) == s
    decreases |s|
  {
    if s != [] {
      if target <= s {
        var rest := s[|target|..];
        ReplaceSameNonEmpty(rest, target);
        calc {
          ReplaceAll(s, target, target);
          target + ReplaceAll(rest, target, target);
          target + rest;
          { assert s == target + rest; }
          s;
        }
      } else {
        ReplaceSameNonEmpty(s[1..], target);
        calc {
          ReplaceAll(s, target, target);
          [s[0]] + ReplaceAll(s[1..], target, target);
          [s[0]] + s[1..];
          { assert s == [s[0]] + s[1..]; }
          s;
        }
      }
    }
  }


  lemma {:induction false} InterleaveEmpty(s: string)
    ensures Interleave(s, "") == s
  {
    if s != [] {
      InterleaveEmpty(s[1..]);
      assert [s[0]] + s[1..] == s;
    }
  }

  /** A non-empty string that does not occur is not replaced. */
  lemma {:induction false} ReplaceAbsent(s: string, target: string, replacement: string)
    requires target != [] && !IsSubstring(target, s)
    ensures ReplaceAll(s, target, replacement) == s
    decreases |s|
  {
    if s != [] {
      ReplaceAbsent(s[1..], target, replacement);
      assert [s[0]] + s[1..] == s;
    }
  }
}
