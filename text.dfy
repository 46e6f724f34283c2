/**
 * The Rust standard-library string operations the tool is built from, stated
 * over `string` (a sequence of Unicode scalar values): `str::replace`,
 * `str::split`, `[String]::join`, `str::trim_start`/`trim_end`,
 * `str::contains`/`find`, `str::to_lowercase` (ASCII letters only),
 * `usize::to_string` and `u32::from_str`.
 */
module Text {
  import opened Wrappers

  // ---------------------------------------------------------------- digits

  predicate IsDigit(c: char) { '0' <= c <= '9' }

  predicate AllDigits(s: string) { forall i :: 0 <= i < |s| ==> IsDigit(s[i]) }

  function DigitChar(d: nat): (c: char)
    requires d < 10
    ensures IsDigit(c)
  {
    ('0' as int + d) as char
  }

  function Pow10(k: nat): (p: nat)
    ensures p >= 1
  {
    if k == 0 then 1 else 10 * Pow10(k - 1)
  }

  /** The value of a string of decimal digits, most significant first. */
  function DigitsValue(s: string): (v: nat)
    requires AllDigits(s)
    ensures v < Pow10(|s|)
  {
    if s == [] then 0
    else
      var prefix := DigitsValue(s[..|s| - 1]);
      var d := s[|s| - 1] as int - '0' as int;
      assert prefix * 10 + d < Pow10(|s| - 1) * 10 by {
        assert prefix + 1 <= Pow10(|s| - 1);
        assert (prefix + 1) * 10 <= Pow10(|s| - 1) * 10;
      }
      prefix * 10 + d
  }

  /** `usize::to_string`: decimal digits, no sign, no leading zero. */
  function NatToString(n: nat): (r: string)
    ensures r != [] && AllDigits(r)
    ensures r[0] == '0' ==> n == 0
    ensures n < 10 <==> |r| == 1
  {
    if n < 10 then [DigitChar(n)] else NatToString(n / 10) + [DigitChar(n % 10)]
  }

  /** Reading the digits of `NatToString(n)` gives `n` back. */
  lemma {:induction false} NatToStringRoundTrip(n: nat)
    ensures DigitsValue(NatToString(n)) == n
  {
    if n >= 10 {
      var s := NatToString(n);
      NatToStringRoundTrip(n / 10);
      assert s[..|s| - 1] == NatToString(n / 10);
    }
  }

  lemma NatToStringInjective(m: nat, n: nat)
    requires NatToString(m) == NatToString(n)
    ensures m == n
  {
    NatToStringRoundTrip(m);
    NatToStringRoundTrip(n);
  }

  const U32_LIMIT: nat := 0x1_0000_0000

  /**
   * `str::parse::<u32>`: an optional leading `+`, then at least one ASCII
   * digit and nothing else, with a value below 2^32.
   */
  function ParseU32(s: string): (r: Option<nat>)
    ensures r.Some? ==> r.value < U32_LIMIT
    ensures s == [] || s == "+" ==> r.None?
    ensures AllDigits(s) && 1 <= |s| <= 9 ==> r == Some(DigitsValue(s))
    ensures r.Some? ==> (AllDigits(s) && r.value == DigitsValue(s))
                        || (s[0] == '+' && AllDigits(s[1..]) && r.value == DigitsValue(s[1..]))
  {
    if s == [] then None
    else
      var digits := if s[0] == '+' then s[1..] else s;
      if digits == [] || !AllDigits(digits) then None
      else if |digits| <= 9 then
        Pow10Below(|digits|);
        Some(DigitsValue(digits))
      else if DigitsValue(digits) < U32_LIMIT then Some(DigitsValue(digits))
      else None
  }

  lemma {:induction false} Pow10Below(k: nat)
    requires k <= 9
    ensures Pow10(k) <= Pow10(9) < U32_LIMIT
    decreases 9 - k
  {
    if k < 9 {
      Pow10Below(k + 1);
    }
  }

  // ---------------------------------------------------------------- case

  predicate IsAsciiUpper(c: char) { 'A' <= c <= 'Z' }

  function AsciiLowerChar(c: char): (d: char)
    ensures !IsAsciiUpper(d)
    ensures !IsAsciiUpper(c) ==> d == c
  {
    if IsAsciiUpper(c) then (c as int + 32) as char else c
  }

  /** `str::to_lowercase`, restricted to the ASCII letters. */
  function ToLower(s: string): (r: string)
    ensures |r| == |s|
    ensures forall i :: 0 <= i < |s| ==> r[i] == AsciiLowerChar(s[i])
  {
    if s == [] then [] else [AsciiLowerChar(s[0])] + ToLower(s[1..])
  }

  lemma ToLowerUnchanged(s: string)
    requires forall i :: 0 <= i < |s| ==> !IsAsciiUpper(s[i])
    ensures ToLower(s) == s
  {}

  // ---------------------------------------------------------------- search

  /** `pat` occurs in `s` starting at index `i`. */
  predicate OccursAt(s: string, pat: string, i: nat)
  {
    i + |pat| <= |s| && s[i..i + |pat|] == pat
  }

  function FindFrom(s: string, pat: string, i: nat): (r: Option<nat>)
    requires i <= |s|
    decreases |s| - i
    ensures r.Some? ==> i <= r.value <= |s| && OccursAt(s, pat, r.value)
    ensures r.Some? ==> forall j :: i <= j < r.value ==> !OccursAt(s, pat, j)
    ensures r.None? ==> forall j :: i <= j <= |s| ==> !OccursAt(s, pat, j)
  {
    if OccursAt(s, pat, i) then Some(i)
    else if i == |s| then None
    else FindFrom(s, pat, i + 1)
  }

  /** `str::find`: the index of the first occurrence of `pat` in `s`. */
  function FindFirst(s: string, pat: string): (r: Option<nat>)
    ensures r.Some? ==> r.value <= |s| && OccursAt(s, pat, r.value)
    ensures r.Some? ==> forall j :: 0 <= j < r.value ==> !OccursAt(s, pat, j)
    ensures r.None? <==> forall j :: 0 <= j <= |s| ==> !OccursAt(s, pat, j)
  {
    FindFrom(s, pat, 0)
  }

  /** `str::contains`. */
  predicate Contains(s: string, pat: string)
  {
    FindFirst(s, pat).Some?
  }

  lemma ContainsAt(s: string, pat: string, i: nat)
    requires OccursAt(s, pat, i)
    ensures Contains(s, pat)
  {}

  predicate StartsWith(s: string, prefix: string)
  {
    |prefix| <= |s| && s[..|prefix|] == prefix
  }

  // ---------------------------------------------------------------- replace, split, join

  /** `str::replace` with an empty pattern puts `rep` around every character. */
  function ReplaceEmpty(s: string, rep: string): (r: string)
    ensures |r| == |s| + (|s| + 1) * |rep|
  {
    if s == [] then rep else rep + [s[0]] + ReplaceEmpty(s[1..], rep)
  }

  /**
   * `str::replace`: scan left to right and substitute `rep` for every
   * non-overlapping occurrence of `pat`; the substituted text is not rescanned.
   */
  function Replace(s: string, pat: string, rep: string): (r: string)
    decreases |s|
  {
    if pat == [] then ReplaceEmpty(s, rep)
    else if |s| < |pat| then s
    else if s[..|pat|] == pat then rep + Replace(s[|pat|..], pat, rep)
    else [s[0]] + Replace(s[1..], pat, rep)
  }

  /** One step of `Replace` where the pattern does not start the text. */
  lemma ReplaceStepOver(s: string, pat: string, rep: string)
    requires pat != [] && s != [] && (|s| < |pat| || s[..|pat|] != pat)
    ensures Replace(s, pat, rep) == [s[0]] + Replace(s[1..], pat, rep)
  {
    if |s| < |pat| {
      assert Replace(s, pat, rep) == s;
      assert Replace(s[1..], pat, rep) == s[1..];
    }
  }

  /** One step of `Replace` where the pattern starts the text. */
  lemma ReplaceStepMatch(s: string, pat: string, rep: string)
    requires pat != [] && StartsWith(s, pat)
    ensures Replace(s, pat, rep) == rep + Replace(s[|pat|..], pat, rep)
  {
  }

  /** `str::split` by a non-empty pattern: the pieces between the occurrences. */
  function Split(s: string, pat: string): (parts: seq<string>)
    requires pat != []
    ensures |parts| >= 1
    decreases |s|
  {
    if |s| < |pat| then [s]
    else if s[..|pat|] == pat then [[]] + Split(s[|pat|..], pat)
    else
      var rest := Split(s[1..], pat);
      [[s[0]] + rest[0]] + rest[1..]
  }

  /** `[String]::join`: the parts with `sep` between each two. */
  function Join(parts: seq<string>, sep: string): (r: string)
  {
    if parts == [] then []
    else if |parts| == 1 then parts[0]
    else parts[0] + sep + Join(parts[1..], sep)
  }

  lemma {:induction false} JoinAppend(parts: seq<string>, x: string, sep: string)
    requires parts != []
    ensures Join(parts + [x], sep) == Join(parts, sep) + sep + x
  {
    if |parts| > 1 {
      assert (parts + [x])[1..] == parts[1..] + [x];
      JoinAppend(parts[1..], x, sep);
    }
  }

  /** Replacing is splitting at the pattern and joining with the replacement. */
  lemma {:induction false} ReplaceIsJoinOfSplit(s: string, pat: string, rep: string)
    requires pat != []
    ensures Replace(s, pat, rep) == Join(Split(s, pat), rep)
    decreases |s|
  {
    if |s| < |pat| {
    } else if s[..|pat|] == pat {
      ReplaceIsJoinOfSplit(s[|pat|..], pat, rep);
    } else {
      ReplaceIsJoinOfSplit(s[1..], pat, rep);
    }
  }

  /** Replacing a pattern by itself changes nothing. */
  lemma {:induction false} ReplaceBySelf(s: string, pat: string)
    requires pat != []
    ensures Replace(s, pat, pat) == s
    decreases |s|
  {
    if |s| < |pat| {
    } else if s[..|pat|] == pat {
      ReplaceBySelf(s[|pat|..], pat);
      assert s == s[..|pat|] + s[|pat|..];
    } else {
      ReplaceBySelf(s[1..], pat);
      assert s == [s[0]] + s[1..];
    }
  }

  /** Joining the pieces of a split with the pattern gives the text back. */
  lemma JoinSplitRoundTrip(s: string, pat: string)
    requires pat != []
    ensures Join(Split(s, pat), pat) == s
  {
    ReplaceIsJoinOfSplit(s, pat, pat);
    ReplaceBySelf(s, pat);
  }

  /** With a one-character pattern, replacing rewrites each character on its own. */
  lemma {:induction false} ReplaceChar(s: string, c: char, d: char)
    ensures |Replace(s, [c], [d])| == |s|
    ensures forall i :: 0 <= i < |s| ==> Replace(s, [c], [d])[i] == if s[i] == c then d else s[i]
    decreases |s|
  {
    if s != [] {
      ReplaceChar(s[1..], c, d);
      var r := Replace(s, [c], [d]);
      assert r == [if s[0] == c then d else s[0]] + Replace(s[1..], [c], [d]);
    }
  }

  /** A text without the pattern comes through a replace unchanged. */
  lemma {:induction false} ReplaceAbsent(s: string, pat: string, rep: string)
    requires pat != []
    requires !Contains(s, pat)
    ensures Replace(s, pat, rep) == s
    decreases |s|
  {
    if |s| >= |pat| {
      assert !OccursAt(s, pat, 0);
      assert s[..|pat|] != pat;
      forall j | 0 <= j <= |s[1..]|
        ensures !OccursAt(s[1..], pat, j)
      {
        assert !OccursAt(s, pat, j + 1);
        if j + |pat| <= |s[1..]| {
          assert s[1..][j..j + |pat|] == s[j + 1..j + 1 + |pat|];
        }
      }
      ReplaceAbsent(s[1..], pat, rep);
    }
  }

  /** Dropping the first character keeps a pattern out. */
  lemma AbsentInTail(a: string, pat: string)
    requires a != [] && !Contains(a, pat)
    ensures !Contains(a[1..], pat)
  {
    forall j | 0 <= j <= |a[1..]|
      ensures !OccursAt(a[1..], pat, j)
    {
      assert !OccursAt(a, pat, j + 1);
      if j + |pat| <= |a[1..]| {
        assert a[1..][j..j + |pat|] == a[j + 1..j + 1 + |pat|];
      }
    }
  }

  /** A pattern whose first character does not recur in it does not start a non-empty text without it followed by it. */
  lemma UnborderedNotAtFront(a: string, pat: string)
    requires a != [] && !Contains(a, pat)
    requires forall k :: 0 < k < |pat| ==> pat[k] != pat[0]
    ensures (a + pat)[..|pat|] != pat
  {
    var s := a + pat;
    assert !OccursAt(a, pat, 0);
    if |a| >= |pat| {
      assert s[..|pat|] == a[..|pat|];
    } else {
      assert s[..|pat|][|a|] == pat[0];
    }
  }

  /** The pattern alone is replaced whole. */
  lemma ReplaceOwnPattern(pat: string, rep: string)
    requires pat != []
    ensures Replace(pat, pat, rep) == rep
  {
    assert pat[|pat|..] == [];
    ReplaceStepMatch(pat, pat, rep);
  }

  /** The first character of such a text is passed over, and the rest still lacks the pattern. */
  lemma UnborderedStep(a: string, pat: string, rep: string)
    requires a != [] && !Contains(a, pat)
    requires forall k :: 0 < k < |pat| ==> pat[k] != pat[0]
    ensures Replace(a + pat, pat, rep) == [a[0]] + Replace(a[1..] + pat, pat, rep)
    ensures !Contains(a[1..], pat)
  {
    UnborderedNotAtFront(a, pat);
    AbsentInTail(a, pat);
    assert (a + pat)[1..] == a[1..] + pat;
    ReplaceStepOver(a + pat, pat, rep);
  }

  /**
   * A pattern whose first character does not recur in it, put after a text
   * that does not hold it, is replaced there and only there.
   */
  lemma {:induction false} ReplaceBeforeUnbordered(a: string, pat: string, rep: string)
    requires pat != [] && !Contains(a, pat)
    requires forall k :: 0 < k < |pat| ==> pat[k] != pat[0]
    ensures Replace(a + pat, pat, rep) == a + rep
    decreases |a|
  {
    if a == [] {
      assert a + pat == pat;
      ReplaceOwnPattern(pat, rep);
    } else {
      var t := a[1..];
      UnborderedStep(a, pat, rep);
      ReplaceBeforeUnbordered(t, pat, rep);
      assert a == [a[0]] + t;
      assert a + rep == [a[0]] + (t + rep);
    }
  }

  /** A match that reaches past the end of `a` uses the first character of `b`. */
  lemma StraddleNeedsChar(a: string, b: string, pat: string)
    requires b != [] && |pat| <= |a + b| && (a + b)[..|pat|] == pat
    ensures |pat| <= |a| || b[0] in pat
  {
    if |pat| > |a| {
      assert pat[|a|] == (a + b)[|a|] == b[0];
    }
  }

  /** A character outside the pattern is copied and the scan goes on after it. */
  lemma ReplaceSkipsChar(c: char, s: string, pat: string, rep: string)
    requires pat != [] && c !in pat
    ensures Replace([c] + s, pat, rep) == [c] + Replace(s, pat, rep)
  {
    assert pat[0] in pat;
    assert ([c] + s)[1..] == s;
    if |s| + 1 < |pat| {
      assert Replace(s, pat, rep) == s;
    }
  }

  lemma Regroup(c: string, x: string, y: string)
    ensures c + (x + y) == (c + x) + y
  {
  }

  /** Where `pat` starts `a + b` and `b[0]` is not in it, it starts `a`, and both replaces take the same step. */
  lemma SplitsBeforeMatch(a: string, b: string, pat: string, rep: string)
    requires pat != [] && b != [] && b[0] !in pat && StartsWith(a + b, pat)
    ensures |pat| <= |a|
    ensures Replace(a + b, pat, rep) == rep + Replace(a[|pat|..] + b, pat, rep)
    ensures Replace(a, pat, rep) == rep + Replace(a[|pat|..], pat, rep)
  {
    StraddleNeedsChar(a, b, pat);
    assert a[..|pat|] == pat;
    assert (a + b)[|pat|..] == a[|pat|..] + b;
    ReplaceStepMatch(a + b, pat, rep);
    ReplaceStepMatch(a, pat, rep);
  }

  /** Where `pat` does not start `a + b`, it does not start `a`, and both replaces pass over `a[0]`. */
  lemma SplitsBeforeOver(a: string, b: string, pat: string, rep: string)
    requires pat != [] && a != [] && !StartsWith(a + b, pat)
    ensures Replace(a + b, pat, rep) == [a[0]] + Replace(a[1..] + b, pat, rep)
    ensures Replace(a, pat, rep) == [a[0]] + Replace(a[1..], pat, rep)
  {
    assert (a + b)[1..] == a[1..] + b;
    ReplaceStepOver(a + b, pat, rep);
    if |a| >= |pat| {
      assert a[..|pat|] == (a + b)[..|pat|];
    }
    ReplaceStepOver(a, pat, rep);
  }

  /**
   * When the text after `a` starts with a character outside `pat`, no
   * occurrence can straddle the boundary: `a` and `b` are replaced on their own.
   */
  lemma {:induction false} ReplaceSplitsBefore(a: string, b: string, pat: string, rep: string)
    requires pat != [] && b != [] && b[0] !in pat
    ensures Replace(a + b, pat, rep) == Replace(a, pat, rep) + Replace(b, pat, rep)
    decreases |a|
  {
    if a == [] {
      assert a + b == b;
    } else if StartsWith(a + b, pat) {
      SplitsBeforeMatch(a, b, pat, rep);
      var t := a[|pat|..];
      ReplaceSplitsBefore(t, b, pat, rep);
      Regroup(rep, Replace(t, pat, rep), Replace(b, pat, rep));
    } else {
      SplitsBeforeOver(a, b, pat, rep);
      var t := a[1..];
      ReplaceSplitsBefore(t, b, pat, rep);
      Regroup([a[0]], Replace(t, pat, rep), Replace(b, pat, rep));
    }
  }

  /** Each element of `parts` with `pat` replaced. */
  function ReplaceEach(parts: seq<string>, pat: string, rep: string): (r: seq<string>)
    ensures |r| == |parts|
  {
    seq(|parts|, i requires 0 <= i < |parts| => Replace(parts[i], pat, rep))
  }

  /** A pattern without a newline is replaced line block by line block in a newline-joined text. */
  lemma {:induction false} ReplaceJoinLines(parts: seq<string>, pat: string, rep: string)
    requires pat != [] && '\n' !in pat
    ensures Replace(Join(parts, "\n"), pat, rep) == Join(ReplaceEach(parts, pat, rep), "\n")
  {
    if |parts| > 1 {
      var rest := Join(parts[1..], "\n");
      assert Join(parts, "\n") == parts[0] + ("\n" + rest);
      ReplaceSplitsBefore(parts[0], "\n" + rest, pat, rep);
      ReplaceSkipsChar('\n', rest, pat, rep);
      ReplaceJoinLines(parts[1..], pat, rep);
      assert ReplaceEach(parts, pat, rep)[1..] == ReplaceEach(parts[1..], pat, rep);
    }
  }

  // ---------------------------------------------------------------- trim

  /** `char::is_whitespace`: the Unicode White_Space property. */
  predicate IsWhitespace(c: char)
  {
    ('\t' <= c <= '\r') || c == ' ' || c == '\U{85}' || c == '\U{A0}' || c == '\U{1680}'
    || ('\U{2000}' <= c <= '\U{200A}') || c == '\U{2028}' || c == '\U{2029}'
    || c == '\U{202F}' || c == '\U{205F}' || c == '\U{3000}'
  }

  /** `str::trim_start`: drop the leading whitespace. */
  function TrimStart(s: string): (r: string)
    ensures |r| <= |s| && r == s[|s| - |r|..]
    ensures forall i :: 0 <= i < |s| - |r| ==> IsWhitespace(s[i])
    ensures r == [] || !IsWhitespace(r[0])
  {
    if s != [] && IsWhitespace(s[0]) then TrimStart(s[1..]) else s
  }

  /** `str::trim_end`: drop the trailing whitespace. */
  function TrimEnd(s: string): (r: string)
    ensures |r| <= |s| && r == s[..|r|]
    ensures forall i :: |r| <= i < |s| ==> IsWhitespace(s[i])
    ensures r == [] || !IsWhitespace(r[|r| - 1])
  {
    if s != [] && IsWhitespace(s[|s| - 1]) then TrimEnd(s[..|s| - 1]) else s
  }

  predicate AllWhitespace(s: string) { forall i :: 0 <= i < |s| ==> IsWhitespace(s[i]) }

  /** `r` is `s` with the whitespace before index `k` and after `k + |r|` cut off. */
  predicate TrimmedAt(s: string, r: string, k: nat)
  {
    k + |r| <= |s| && AllWhitespace(s[..k]) && s[k..k + |r|] == r && AllWhitespace(s[k + |r|..])
  }

  /** `str::trim`, written as the source writes it: `trim_start().trim_end()`. */
  function Trim(s: string): (r: string)
    ensures exists k :: TrimmedAt(s, r, k)
    ensures r == [] || (!IsWhitespace(r[0]) && !IsWhitespace(r[|r| - 1]))
  {
    var t := TrimStart(s);
    var r := TrimEnd(t);
    var k := |s| - |t|;
    assert TrimmedAt(s, r, k) by {
      assert t == s[k..];
      assert AllWhitespace(s[..k]) by {
        forall i | 0 <= i < k ensures IsWhitespace(s[..k][i]) {
          assert s[..k][i] == s[i];
        }
      }
      assert s[k..k + |r|] == t[..|r|] == r;
      var tail := s[k + |r|..];
      assert AllWhitespace(tail) by {
        forall i | 0 <= i < |tail| ensures IsWhitespace(tail[i]) {
          assert tail[i] == t[|r| + i];
        }
      }
    }
    r
  }
}
