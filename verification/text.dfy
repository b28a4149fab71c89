/** The fragments of JavaScript's string library the model needs: ASCII case
    mapping, `includes`, `replace` with a string pattern, the `\s` / `trim`
    whitespace class, and the decimal printing of integers. */
module Text {
  import Seqs

  predicate IsDigit(c: char) { '0' <= c <= '9' }

  predicate IsUpperAscii(c: char) { 'A' <= c <= 'Z' }

  predicate IsLowerAscii(c: char) { 'a' <= c <= 'z' }

  predicate AllDigits(s: string) { forall i :: 0 <= i < |s| ==> IsDigit(s[i]) }

  // ---------------------------------------------------------------- case

  /** `toLowerCase` on one character, restricted to the ASCII letters. */
  function LowerChar(c: char): (d: char)
    ensures !IsUpperAscii(d)
    ensures IsUpperAscii(c) ==> d as int == c as int + 32
    ensures !IsUpperAscii(c) ==> d == c
  {
    if IsUpperAscii(c) then (c as int + 32) as char else c
  }

  /** `toUpperCase` on one character, restricted to the ASCII letters. */
  function UpperChar(c: char): (d: char)
    ensures !IsLowerAscii(d)
    ensures IsLowerAscii(c) ==> d as int == c as int - 32
    ensures !IsLowerAscii(c) ==> d == c
  {
    if IsLowerAscii(c) then (c as int - 32) as char else c
  }

  function Lower(s: string): (r: string)
    ensures |r| == |s|
    ensures forall i :: 0 <= i < |s| ==> r[i] == LowerChar(s[i])
  {
    seq(|s|, i requires 0 <= i < |s| => LowerChar(s[i]))
  }

  function Upper(s: string): (r: string)
    ensures |r| == |s|
    ensures forall i :: 0 <= i < |s| ==> r[i] == UpperChar(s[i])
  {
    seq(|s|, i requires 0 <= i < |s| => UpperChar(s[i]))
  }

  /** Lower-casing forgets any earlier upper-casing. */
  lemma LowerOfUpper(s: string)
    ensures Lower(Upper(s)) == Lower(s)
  {
    forall i | 0 <= i < |s|
      ensures Lower(Upper(s))[i] == Lower(s)[i]
    {
      var c := s[i];
      if IsLowerAscii(c) {
        assert UpperChar(c) as int == c as int - 32;
        assert LowerChar(UpperChar(c)) as int == c as int;
      }
    }
  }

  /** Lower-casing twice is lower-casing once. */
  lemma LowerIdempotent(s: string)
    ensures Lower(Lower(s)) == Lower(s)
  {
  }

  // ---------------------------------------------------------------- search

  /** `hay.includes(needle)`: `needle` occurs somewhere in `hay`; the empty
      string occurs everywhere. */
  predicate Contains(hay: string, needle: string) {
    exists i :: 0 <= i <= |hay| && needle <= hay[i..]
  }

  /** Lower-casing creates no space, so a text without one still holds none. */
  lemma LowerKeepsNoSpace(s: string)
    requires ' ' !in s
    ensures !Contains(Lower(s), " ")
  {
    forall i | 0 <= i <= |s| ensures !(" " <= Lower(s)[i..]) {
      if i < |s| {
        assert s[i] != ' ' && Lower(s)[i..][0] == Lower(s)[i];
      }
    }
  }

  lemma ContainsEmpty(hay: string)
    ensures Contains(hay, "")
  {
    assert "" <= hay[0..];
  }

  /** `s.replace(pat, rep)` with a string pattern: only the FIRST occurrence
      of `pat` is replaced; without an occurrence `s` comes back unchanged.
      (`rep` is taken literally; the model never passes a `$` pattern.) */
  function ReplaceFirst(s: string, pat: string, rep: string): (r: string)
    ensures pat <= s ==> r == rep + s[|pat|..]
    ensures |s| > 0 && !(pat <= s) ==> |r| > 0 && r[0] == s[0]
    decreases |s|
  {
    if pat <= s then
      assert s[0..] == s;
      rep + s[|pat|..]
    else if |s| == 0 then s
    else
      [s[0]] + ReplaceFirst(s[1..], pat, rep)
  }

  /** Without an occurrence of the pattern the subject comes back unchanged. */
  lemma {:induction false} ReplaceFirstAbsent(s: string, pat: string, rep: string)
    requires !Contains(s, pat)
    ensures ReplaceFirst(s, pat, rep) == s
    decreases |s|
  {
    assert s[0..] == s;
    if |s| > 0 {
      ContainsTail(s, pat);
      ReplaceFirstAbsent(s[1..], pat, rep);
      assert s == [s[0]] + s[1..];
    }
  }

  /** A pattern at the very front is the occurrence that gets replaced. */
  lemma ReplaceFirstAtFront(s: string, pat: string, rep: string, rest: string)
    requires s == pat + rest
    ensures ReplaceFirst(s, pat, rep) == rep + rest
  {
    assert pat <= s && s[|pat|..] == rest;
  }

  /** An occurrence in the tail of a string is an occurrence in the string. */
  lemma ContainsTail(s: string, pat: string)
    requires |s| > 0
    ensures Contains(s[1..], pat) ==> Contains(s, pat)
  {
    if Contains(s[1..], pat) {
      var i :| 0 <= i <= |s[1..]| && pat <= s[1..][i..];
      assert s[1..][i..] == s[i + 1..];
    }
  }

  /** Every character of the result comes from the subject or from the
      replacement, and a replacement as long as the pattern keeps the length. */
  lemma {:induction false} ReplaceFirstFrom(s: string, pat: string, rep: string)
    ensures forall k :: 0 <= k < |ReplaceFirst(s, pat, rep)| ==>
              ReplaceFirst(s, pat, rep)[k] in s || ReplaceFirst(s, pat, rep)[k] in rep
    ensures |pat| == |rep| ==> |ReplaceFirst(s, pat, rep)| == |s|
    decreases |s|
  {
    var r := ReplaceFirst(s, pat, rep);
    if pat <= s {
      var tail := s[|pat|..];
      assert r == rep + tail;
      forall k | 0 <= k < |r| ensures r[k] in s || r[k] in rep {
        if k < |rep| {
          assert r[k] == rep[k];
        } else {
          assert r[k] == tail[k - |rep|] == s[k - |rep| + |pat|];
        }
      }
    } else if |s| > 0 {
      var t := ReplaceFirst(s[1..], pat, rep);
      assert r == [s[0]] + t;
      ReplaceFirstFrom(s[1..], pat, rep);
      forall k | 0 <= k < |r| ensures r[k] in s || r[k] in rep {
        if k == 0 {
          assert r[0] == s[0];
        } else {
          assert r[k] == t[k - 1];
          assert t[k - 1] in s[1..] || t[k - 1] in rep;
          InTail(s, t[k - 1]);
        }
      }
    }
  }

  /** Whatever occurs in the tail of a string occurs in the string. */
  lemma InTail(s: string, x: char)
    requires |s| > 0
    ensures x in s[1..] ==> x in s
  {
    assert s == [s[0]] + s[1..];
  }

  /** With a one-character pattern, everything after the first occurrence is
      kept verbatim, even further occurrences. */
  lemma {:induction false} ReplaceFirstChar(a: string, c: char, b: string, rep: string)
    requires c !in a
    ensures ReplaceFirst(a + ([c] + b), [c], rep) == a + (rep + b)
    decreases |a|
  {
    if |a| == 0 {
      assert a + ([c] + b) == [c] + b;
      ReplaceFirstAtFront([c] + b, [c], rep, b);
    } else {
      var a' := a[1..];
      assert c !in a' by { assert forall x :: x in a' ==> x in a; }
      ReplaceFirstChar(a', c, b, rep);
      assert a + ([c] + b) == [a[0]] + (a' + ([c] + b));
      ReplaceFirstSkip(a[0], a' + ([c] + b), [c], rep);
      assert a + (rep + b) == [a[0]] + (a' + (rep + b));
    }
  }

  /** A first character that cannot start the pattern is passed over. */
  lemma ReplaceFirstSkip(x: char, t: string, pat: string, rep: string)
    requires |pat| > 0 && pat[0] != x
    ensures ReplaceFirst([x] + t, pat, rep) == [x] + ReplaceFirst(t, pat, rep)
  {
    var s := [x] + t;
    assert !(pat <= s) && s[1..] == t;
  }

  // ---------------------------------------------------------------- whitespace

  /** The characters matched by the regular-expression class `\s` and removed
      by `String.prototype.trim` (WhiteSpace and LineTerminator of ECMAScript). */
  predicate IsJsSpace(c: char) {
    var n := c as int;
    || 9 <= n <= 13 || n == 32 || n == 0xA0 || n == 0x1680
    || 0x2000 <= n <= 0x200A || n == 0x2028 || n == 0x2029 || n == 0x202F
    || n == 0x205F || n == 0x3000 || n == 0xFEFF
  }

  predicate IsVisible(c: char) { !IsJsSpace(c) }

  predicate NoJsSpace(s: string) { forall i :: 0 <= i < |s| ==> !IsJsSpace(s[i]) }

  /** `s.replace(/\s/g, '')`. */
  function RemoveWhitespace(s: string): (r: string)
    ensures NoJsSpace(r)
    ensures NoJsSpace(s) ==> r == s
  {
    Seqs.Filter(s, IsVisible)
  }

  lemma RemoveWhitespaceAppend(a: string, b: string)
    ensures RemoveWhitespace(a + b) == RemoveWhitespace(a) + RemoveWhitespace(b)
  {
    Seqs.FilterAppend(a, b, IsVisible);
  }

  /** A space between two pieces disappears with the rest of the whitespace. */
  lemma RemoveWhitespaceAroundSpace(a: string, b: string)
    requires NoJsSpace(a)
    ensures RemoveWhitespace(a + " " + b) == a + RemoveWhitespace(b)
  {
    var sp := " ";
    RemoveWhitespaceOfSpaces(sp);
    RemoveWhitespaceAppend(a, sp);
    assert RemoveWhitespace(a + sp) == a;
    RemoveWhitespaceAppend(a + sp, b);
  }

  lemma RemoveWhitespaceOfSpaces(s: string)
    requires forall i :: 0 <= i < |s| ==> IsJsSpace(s[i])
    ensures RemoveWhitespace(s) == ""
  {
  }

  function TrimStart(s: string): (r: string)
    ensures |r| == 0 || !IsJsSpace(r[0])
    ensures |s| == 0 || !IsJsSpace(s[0]) ==> r == s
    decreases |s|
  {
    if |s| > 0 && IsJsSpace(s[0]) then TrimStart(s[1..]) else s
  }

  function TrimEnd(s: string): (r: string)
    ensures |r| == 0 || !IsJsSpace(r[|r| - 1])
    ensures |s| == 0 || !IsJsSpace(s[|s| - 1]) ==> r == s
    decreases |s|
  {
    if |s| > 0 && IsJsSpace(s[|s| - 1]) then TrimEnd(s[..|s| - 1]) else s
  }

  /** `s.trim()`: leading and trailing whitespace removed. */
  function Trim(s: string): (r: string)
    ensures |r| == 0 || (!IsJsSpace(r[0]) && !IsJsSpace(r[|r| - 1]))
    ensures NoJsSpace(s) ==> r == s
  {
    var t := TrimStart(s);
    assert |t| > 0 ==> !IsJsSpace(t[0]);
    var r := TrimEnd(t);
    assert |r| > 0 ==> r == t[..|r|] by {
      TrimEndIsPrefix(t);
    }
    r
  }

  /** Trimming a string that starts and ends with a visible character, with
      or without one trailing space, gives that string back. */
  lemma TrimOneTrailingSpace(x: string)
    requires |x| > 0 && !IsJsSpace(x[0]) && !IsJsSpace(x[|x| - 1])
    ensures Trim(x) == x && Trim(x + " ") == x
  {
    var y := x + " ";
    assert y[0] == x[0] && y[..|y| - 1] == x;
    assert TrimStart(y) == y;
    assert TrimEnd(y) == TrimEnd(x);
  }

  /** `trimEnd` keeps a prefix and cuts only whitespace. */
  lemma {:induction false} TrimEndIsPrefix(s: string)
    ensures |TrimEnd(s)| <= |s| && TrimEnd(s) == s[..|TrimEnd(s)|]
    ensures forall k :: |TrimEnd(s)| <= k < |s| ==> IsJsSpace(s[k])
    decreases |s|
  {
    if |s| > 0 && IsJsSpace(s[|s| - 1]) {
      var front := s[..|s| - 1];
      TrimEndIsPrefix(front);
      assert forall k :: 0 <= k < |front| ==> front[k] == s[k];
    }
  }

  /** `trimStart` keeps a suffix and cuts only whitespace. */
  lemma {:induction false} TrimStartIsSuffix(s: string) returns (i: nat)
    ensures i <= |s| && TrimStart(s) == s[i..]
    ensures forall k :: 0 <= k < i ==> IsJsSpace(s[k])
    decreases |s|
  {
    if |s| > 0 && IsJsSpace(s[0]) {
      var j := TrimStartIsSuffix(s[1..]);
      i := j + 1;
      assert s[1..][j..] == s[i..];
      assert forall k :: 1 <= k < i ==> s[k] == s[1..][k - 1];
    } else {
      i := 0;
    }
  }

  /** `trim` keeps the middle `s[i..j]` and cuts only whitespace before `i`
      and after `j`; with `Trim`'s own contract (the kept part neither starts
      nor ends with whitespace) this pins the result down. */
  lemma TrimBounds(s: string) returns (i: nat, j: nat)
    ensures i <= j <= |s| && Trim(s) == s[i..j]
    ensures forall k :: 0 <= k < i ==> IsJsSpace(s[k])
    ensures forall k :: j <= k < |s| ==> IsJsSpace(s[k])
  {
    i := TrimStartIsSuffix(s);
    var t := s[i..];
    TrimEndIsPrefix(t);
    j := i + |TrimEnd(t)|;
    assert Trim(s) == TrimEnd(t);
    assert t[..|TrimEnd(t)|] == s[i..j];
    forall k | j <= k < |s| ensures IsJsSpace(s[k]) {
      assert s[k] == t[k - i];
    }
  }

  // ---------------------------------------------------------------- numbers

  function DigitChar(d: nat): (c: char)
    requires d < 10
    ensures IsDigit(c)
  {
    ('0' as int + d) as char
  }

  function DigitValue(c: char): (d: nat)
    requires IsDigit(c)
    ensures d < 10
  {
    c as int - '0' as int
  }

  /** The natural number a string of decimal digits denotes. */
  function DigitsValue(ds: string): nat
    requires AllDigits(ds)
    decreases |ds|
  {
    if |ds| == 0 then 0
    else DigitsValue(ds[..|ds| - 1]) * 10 + DigitValue(ds[|ds| - 1])
  }

  /** `n.toString()` for a non-negative integer: decimal digits, no leading zero. */
  function NatToString(n: nat): (r: string)
    ensures |r| > 0 && AllDigits(r)
    ensures |r| > 1 ==> r[0] != '0'
    decreases n
  {
    if n < 10 then [DigitChar(n)]
    else
      var r := NatToString(n / 10) + [DigitChar(n % 10)];
      assert r[0] == NatToString(n / 10)[0];
      r
  }

  /** `n.toString()` for an integer (below 10^21 in magnitude, where
      JavaScript switches to exponent notation). */
  function IntToString(n: int): (r: string)
    ensures |r| > 0
    ensures n < 0 ==> r[0] == '-' && AllDigits(r[1..])
    ensures n >= 0 ==> AllDigits(r)
  {
    if n < 0 then "-" + NatToString(-n) else NatToString(n)
  }

  /** Printing then reading digits gives the number back. */
  lemma {:induction false} NatToStringValue(n: nat)
    ensures DigitsValue(NatToString(n)) == n
    decreases n
  {
    var r := NatToString(n);
    if n >= 10 {
      NatToStringValue(n / 10);
      assert r[..|r| - 1] == NatToString(n / 10);
    }
  }

  lemma NatToStringInjective(m: nat, n: nat)
    requires NatToString(m) == NatToString(n)
    ensures m == n
  {
    NatToStringValue(m);
    NatToStringValue(n);
  }
}
