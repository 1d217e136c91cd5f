/** String operations with the meaning Python's `str` gives them, shared by
    the Strudel emitter and the Markdown renderer. */
module Text {
  import opened Options

  /** `sep.join(parts)`. */
  function Join(parts: seq<string>, sep: string): string
  {
    if |parts| == 0 then ""
    else if |parts| == 1 then parts[0]
    else parts[0] + sep + Join(parts[1..], sep)
  }

  /** `s.split(c)` for a one-character separator: the pieces between the occurrences of `c`. */
  function Split(s: string, c: char): (r: seq<string>)
    ensures |r| >= 1
    ensures forall i :: 0 <= i < |r| ==> c !in r[i]
  {
    if |s| == 0 then [""]
    else
      var rest := Split(s[1..], c);
      if s[0] == c then [""] + rest
      else [[s[0]] + rest[0]] + rest[1..]
  }

  /** `s.count(c)` for one character. */
  function Count(s: string, c: char): nat
  {
    if |s| == 0 then 0
    else (if s[0] == c then 1 else 0) + Count(s[1..], c)
  }

  /** `s.startswith(p)`. */
  predicate StartsWith(s: string, p: string)
  {
    |p| <= |s| && s[..|p|] == p
  }

  /** `sub in s` for strings: `sub` occurs somewhere in `s`. */
  predicate Contains(s: string, sub: string)
    decreases |s|
  {
    StartsWith(s, sub) || (|s| > 0 && Contains(s[1..], sub))
  }

  /** `s * n`: `n` copies of `s`, and the empty string when `n <= 0`. */
  function Repeat(s: string, n: int): (r: string)
    ensures n >= 0 ==> |r| == n * |s|
    ensures n <= 0 ==> r == ""
    decreases if n > 0 then n else 0
  {
    if n <= 0 then "" else s + Repeat(s, n - 1)
  }

  // ---------------------------------------------------------------------------
  // Whitespace and `strip()`
  // ---------------------------------------------------------------------------

  /** `c.isspace()`: the characters Python's argument-less `strip()` removes. */
  predicate IsSpace(c: char)
  {
    var n := c as int;
    (9 <= n <= 13) || (28 <= n <= 32) || n == 0x85 || n == 0xA0 || n == 0x1680
    || (0x2000 <= n <= 0x200A) || n == 0x2028 || n == 0x2029 || n == 0x202F
    || n == 0x205F || n == 0x3000
  }

  predicate AllSpace(s: string)
  {
    forall i :: 0 <= i < |s| ==> IsSpace(s[i])
  }

  /** `s.lstrip()`: the suffix left after every leading whitespace character is removed. */
  function StripLeft(s: string): (r: string)
    ensures |r| <= |s| && r == s[|s| - |r|..]
    ensures AllSpace(s[..|s| - |r|])
    ensures |r| > 0 ==> !IsSpace(r[0])
  {
    if |s| > 0 && IsSpace(s[0]) then
      var t := s[1..];
      var r := StripLeft(t);
      assert t[|t| - |r|..] == s[|s| - |r|..];
      assert s[..|s| - |r|] == [s[0]] + t[..|t| - |r|];
      AllSpaceCons(s[0], t[..|t| - |r|]);
      r
    else s
  }

  lemma AllSpaceCons(c: char, s: string)
    requires IsSpace(c) && AllSpace(s)
    ensures AllSpace([c] + s) && AllSpace(s + [c])
  {
    assert forall i :: 1 <= i <= |s| ==> ([c] + s)[i] == s[i - 1];
    assert forall i :: 0 <= i < |s| ==> (s + [c])[i] == s[i];
  }

  /** `s.rstrip()`: the prefix left after every trailing whitespace character is removed. */
  function StripRight(s: string): (r: string)
    ensures |r| <= |s| && r == s[..|r|]
    ensures AllSpace(s[|r|..])
    ensures |r| > 0 ==> !IsSpace(r[|r| - 1])
  {
    if |s| > 0 && IsSpace(s[|s| - 1]) then
      var t := s[..|s| - 1];
      var r := StripRight(t);
      assert t[..|r|] == s[..|r|];
      assert s[|r|..] == t[|r|..] + [s[|s| - 1]];
      AllSpaceCons(s[|s| - 1], t[|r|..]);
      r
    else s
  }

  /** `r` is `s` with a whitespace-only prefix and suffix removed. */
  predicate IsTrimOf(r: string, s: string)
  {
    exists k :: 0 <= k <= |s| - |r| && s[k..k + |r|] == r && AllSpace(s[..k]) && AllSpace(s[k + |r|..])
  }

  /** Neither end of `r` is whitespace. */
  predicate Trimmed(r: string)
  {
    r == "" || (!IsSpace(r[0]) && !IsSpace(r[|r| - 1]))
  }

  /** `s.strip()`: the infix of `s` left when whitespace is removed from both ends. */
  function Strip(s: string): (r: string)
    ensures |r| <= |s|
    ensures r == "" || (!IsSpace(r[0]) && !IsSpace(r[|r| - 1]))
    ensures IsTrimOf(r, s)
  {
    var l := StripLeft(s);
    var r := StripRight(l);
    TrimOfTrim(s, |s| - |l|, l, r);
    r
  }

  /** Stripping the right of the stripped left is a trim of the whole. */
  lemma TrimOfTrim(s: string, k: nat, l: string, r: string)
    requires k <= |s| && l == s[k..] && AllSpace(s[..k])
    requires |r| <= |l| && r == l[..|r|] && AllSpace(l[|r|..])
    requires |l| > 0 ==> !IsSpace(l[0])
    requires |r| > 0 ==> !IsSpace(r[|r| - 1])
    ensures k + |r| <= |s| && s[k..k + |r|] == r && AllSpace(s[k + |r|..])
    ensures IsTrimOf(r, s)
    ensures r == "" || (!IsSpace(r[0]) && !IsSpace(r[|r| - 1]))
  {
    assert s[k..k + |r|] == r;
    assert s[k + |r|..] == l[|r|..];
    if |r| > 0 {
      assert r[0] == l[0];
    }
  }

  /** `strip()` is the only way to trim: any infix with whitespace-only borders
      and no whitespace at its own ends is the stripped string. */
  lemma StripUnique(r: string, s: string)
    requires IsTrimOf(r, s) && Trimmed(r)
    ensures r == Strip(s)
  {
    var k :| 0 <= k <= |s| - |r| && s[k..k + |r|] == r && AllSpace(s[..k]) && AllSpace(s[k + |r|..]);
    var t, j := StripAt(s);
    TrimsAgree(s, r, k, t, j);
  }

  /** Where the stripped string sits in `s`. */
  lemma StripAt(s: string) returns (t: string, j: nat)
    ensures t == Strip(s) && Trimmed(t)
    ensures j + |t| <= |s| && s[j..j + |t|] == t && AllSpace(s[..j]) && AllSpace(s[j + |t|..])
  {
    var l := StripLeft(s);
    t := StripRight(l);
    j := |s| - |l|;
    TrimOfTrim(s, j, l, t);
  }

  lemma TrimsAgree(s: string, r: string, k: nat, t: string, j: nat)
    requires k + |r| <= |s| && s[k..k + |r|] == r && AllSpace(s[..k]) && AllSpace(s[k + |r|..]) && Trimmed(r)
    requires j + |t| <= |s| && s[j..j + |t|] == t && AllSpace(s[..j]) && AllSpace(s[j + |t|..]) && Trimmed(t)
    ensures r == t
  {
    if r != "" && t != "" {
      assert s[k] == r[0] && s[j] == t[0];
      assert s[k + |r| - 1] == r[|r| - 1] && s[j + |t| - 1] == t[|t| - 1];
      VisibleNotBefore(s, k, j);
      VisibleNotBefore(s, j, k);
      VisibleBeforeEnd(s, k + |r| - 1, j + |t|);
      VisibleBeforeEnd(s, j + |t| - 1, k + |r|);
    } else if r != "" {
      NoVisibleInSpaces(s, j, k, r);
    } else if t != "" {
      NoVisibleInSpaces(s, k, j, t);
    }
  }

  /** A visible character lies at or after a whitespace-only prefix. */
  lemma VisibleNotBefore(s: string, a: nat, b: nat)
    requires a < |s| && !IsSpace(s[a]) && b <= |s| && AllSpace(s[..b])
    ensures b <= a
  {
  }

  /** A visible character lies before a whitespace-only suffix. */
  lemma VisibleBeforeEnd(s: string, a: nat, e: nat)
    requires a < |s| && !IsSpace(s[a]) && e <= |s| && AllSpace(s[e..])
    ensures a < e
  {
  }

  /** A string that is whitespace on both sides of `j` holds no trimmed non-empty infix. */
  lemma NoVisibleInSpaces(s: string, j: nat, k: nat, r: string)
    requires j <= |s| && AllSpace(s[..j]) && AllSpace(s[j..])
    requires k + |r| <= |s| && s[k..k + |r|] == r && r != ""
    ensures IsSpace(r[0])
  {
    assert s[k] == r[0];
  }

  /** `strip()` removes only whitespace: a string that neither starts nor ends
      with whitespace is left as it is, and nothing else is stripped to "". */
  lemma StripKeepsTrimmed(s: string)
    requires s == "" || (!IsSpace(s[0]) && !IsSpace(s[|s| - 1]))
    ensures Strip(s) == s
  {
  }

  lemma {:induction false} StripEmptyIffAllSpace(s: string)
    ensures Strip(s) == "" <==> AllSpace(s)
  {
    var l := StripLeft(s);
    assert s == s[..|s| - |l|] + l;
    if l == "" {
      assert AllSpace(s);
    } else {
      assert !IsSpace(l[0]);
      assert StripRight(l) != "";
      assert !IsSpace(s[|s| - |l|]);
    }
  }

  lemma {:induction false} StripLeftAppendSpace(s: string, c: char)
    requires IsSpace(c)
    ensures AllSpace(s) ==> StripLeft(s + [c]) == ""
    ensures !AllSpace(s) ==> StripLeft(s + [c]) == StripLeft(s) + [c]
  {
    if |s| > 0 {
      assert (s + [c])[1..] == s[1..] + [c];
      StripLeftAppendSpace(s[1..], c);
      if IsSpace(s[0]) {
        assert AllSpace(s) <==> AllSpace(s[1..]);
      }
    } else {
      assert StripLeft([c]) == StripLeft([]);
    }
  }

  /** A trailing whitespace character makes no difference to `strip()`. */
  lemma StripAppendSpace(s: string, c: char)
    requires IsSpace(c)
    ensures Strip(s + [c]) == Strip(s)
  {
    StripLeftAppendSpace(s, c);
    StripEmptyIffAllSpace(s);
    if !AllSpace(s) {
      var l := StripLeft(s);
      assert (l + [c])[..|l|] == l;
    }
  }

  /** `strip()` only removes characters. */
  lemma StripKeepsAbsent(s: string, c: char)
    ensures c !in s ==> c !in Strip(s)
  {
    var l := StripLeft(s);
    assert forall i :: 0 <= i < |l| ==> l[i] == s[|s| - |l| + i];
    var r := StripRight(l);
    assert forall i :: 0 <= i < |r| ==> r[i] == l[i];
  }

  // ---------------------------------------------------------------------------
  // Decimal digits: `str(n)` and `int(digits)`
  // ---------------------------------------------------------------------------

  predicate IsDigit(c: char)
  {
    '0' <= c <= '9'
  }

  predicate AllDigits(s: string)
  {
    forall i :: 0 <= i < |s| ==> IsDigit(s[i])
  }

  function DigitValue(c: char): (d: nat)
    requires IsDigit(c)
    ensures d < 10
  {
    c as int - '0' as int
  }

  function DigitChar(d: nat): (c: char)
    requires d < 10
    ensures IsDigit(c) && DigitValue(c) == d
  {
    (d + '0' as int) as char
  }

  /** `int(s)` for a string of decimal digits; the empty string reads as 0. */
  function DecimalValue(s: string): nat
    requires AllDigits(s)
  {
    if |s| == 0 then 0 else DecimalValue(s[..|s| - 1]) * 10 + DigitValue(s[|s| - 1])
  }

  /** `str(n)` for a natural number: its decimal digits, most significant first, without leading zeros. */
  function NatToString(n: nat): (r: string)
    ensures |r| >= 1 && AllDigits(r)
    ensures |r| > 1 ==> r[0] != '0'
  {
    if n < 10 then [DigitChar(n)] else NatToString(n / 10) + [DigitChar(n % 10)]
  }

  /** `str(i)` for any integer. */
  function IntToString(i: int): (r: string)
    ensures |r| >= 1
  {
    if i < 0 then "-" + NatToString(-i) else NatToString(i)
  }

  /** Reads back what `IntToString` writes: an optional minus sign followed by digits. */
  function ParseInt(s: string): Option<int>
  {
    if |s| >= 2 && s[0] == '-' && AllDigits(s[1..]) then Some(0 - DecimalValue(s[1..]) as int)
    else if |s| >= 1 && AllDigits(s) then Some(DecimalValue(s))
    else None
  }

  lemma {:induction false} NatToStringRoundTrip(n: nat)
    ensures DecimalValue(NatToString(n)) == n
  {
    if n >= 10 {
      var s := NatToString(n);
      assert s[..|s| - 1] == NatToString(n / 10);
      NatToStringRoundTrip(n / 10);
    }
  }

  /** `str(i)` is a run of digits, with a leading minus sign for negative `i`. */
  lemma IntToStringChars(i: int)
    ensures forall k :: 0 <= k < |IntToString(i)| ==> IsDigit(IntToString(i)[k]) || IntToString(i)[k] == '-'
    ensures IsDigit(IntToString(i)[0]) <==> i >= 0
  {
    if i < 0 {
      var r := IntToString(i);
      assert r == "-" + NatToString(-i);
      forall k | 0 <= k < |r|
        ensures IsDigit(r[k]) || r[k] == '-'
      {
        if k > 0 {
          assert r[k] == NatToString(-i)[k - 1];
        }
      }
    }
  }

  lemma {:induction false} IntToStringRoundTrip(i: int)
    ensures ParseInt(IntToString(i)) == Some(i)
  {
    if i < 0 {
      NegativeRoundTrip(-i);
    } else {
      NatRoundTrip(i);
    }
  }

  lemma NegativeRoundTrip(n: nat)
    ensures ParseInt("-" + NatToString(n)) == Some(0 - n)
  {
    ParseNegative(NatToString(n));
    NatToStringRoundTrip(n);
  }

  lemma NatRoundTrip(n: nat)
    ensures ParseInt(NatToString(n)) == Some(n)
  {
    ParseDigits(NatToString(n));
    NatToStringRoundTrip(n);
  }

  lemma ParseNegative(digits: string)
    requires |digits| >= 1 && AllDigits(digits)
    ensures ParseInt("-" + digits) == Some(0 - DecimalValue(digits) as int)
  {
    var s := "-" + digits;
    assert s[0] == '-';
    assert s[1..] == digits;
  }

  lemma ParseDigits(digits: string)
    requires |digits| >= 1 && AllDigits(digits)
    ensures ParseInt(digits) == Some(DecimalValue(digits))
  {
    assert IsDigit(digits[0]);
  }

  // ---------------------------------------------------------------------------
  // Facts about `Join`, `Split` and `Count`
  // ---------------------------------------------------------------------------

  lemma {:induction false} CountAppend(a: string, b: string, c: char)
    ensures Count(a + b, c) == Count(a, c) + Count(b, c)
  {
    if |a| > 0 {
      assert (a + b)[1..] == a[1..] + b;
      CountAppend(a[1..], b, c);
    } else {
      assert a + b == b;
    }
  }

  lemma {:induction false} CountZeroIffAbsent(s: string, c: char)
    ensures Count(s, c) == 0 <==> c !in s
  {
    if |s| > 0 {
      CountZeroIffAbsent(s[1..], c);
      assert s == [s[0]] + s[1..];
    }
  }

  /** A character that is in no part and not in the separator is not in the joined string. */
  lemma {:induction false} JoinExcludes(parts: seq<string>, sep: string, c: char)
    requires forall i :: 0 <= i < |parts| ==> c !in parts[i]
    requires c !in sep
    ensures c !in Join(parts, sep)
  {
    if |parts| > 1 {
      JoinExcludes(parts[1..], sep, c);
    }
  }

  lemma {:induction false} SplitWithoutSeparator(s: string, c: char)
    requires c !in s
    ensures Split(s, c) == [s]
  {
    if |s| > 0 {
      SplitWithoutSeparator(s[1..], c);
      assert s == [s[0]] + s[1..];
    }
  }

  lemma {:induction false} SplitAfterPiece(p: string, c: char, s: string)
    requires c !in p
    ensures Split(p + [c] + s, c) == [p] + Split(s, c)
  {
    var t := p + [c] + s;
    if |p| == 0 {
      assert t[1..] == s;
    } else {
      assert t[1..] == p[1..] + [c] + s;
      SplitAfterPiece(p[1..], c, s);
      assert p == [p[0]] + p[1..];
    }
  }

  /** `s.split(c)` undoes `c.join(parts)` when no part contains `c`. */
  lemma {:induction false} SplitJoin(parts: seq<string>, c: char)
    requires |parts| >= 1
    requires forall i :: 0 <= i < |parts| ==> c !in parts[i]
    ensures Split(Join(parts, [c]), c) == parts
  {
    if |parts| == 1 {
      SplitWithoutSeparator(parts[0], c);
    } else {
      SplitJoin(parts[1..], c);
      SplitAfterPiece(parts[0], c, Join(parts[1..], [c]));
      assert parts == [parts[0]] + parts[1..];
    }
  }

  /** When `s` splits into several pieces, it starts with the first piece and a separator. */
  lemma {:induction false} SplitFirstPiece(s: string, c: char)
    requires |Split(s, c)| >= 2
    ensures StartsWith(s, Split(s, c)[0] + [c])
  {
    if s[0] != c {
      var rest := Split(s[1..], c);
      SplitFirstPiece(s[1..], c);
      assert s[..|rest[0]| + 2] == [s[0]] + s[1..][..|rest[0]| + 1];
    }
  }

  /** A join is at least as long as its first part. */
  lemma {:induction false} JoinAtLeastFirst(parts: seq<string>, sep: string)
    requires |parts| >= 1
    ensures |Join(parts, sep)| >= |parts[0]|
  {
    if |parts| > 1 {
      JoinAtLeastFirst(parts[1..], sep);
    }
  }

  lemma JoinTwo(a: string, b: string, sep: string)
    ensures Join([a, b], sep) == a + sep + b
  {
    assert [a, b][1..] == [b];
  }

  lemma JoinCons(p: string, rest: seq<string>, sep: string)
    requires |rest| >= 1
    ensures Join([p] + rest, sep) == p + sep + Join(rest, sep)
  {
    assert ([p] + rest)[1..] == rest;
  }
}
