/**
 * The Python string operations the pipeline relies on, over `seq<char>`:
 * `split` on one separator character, `join`, `replace`, `in`, `startswith`,
 * ASCII `lower`/`upper`, `strip`, `str()` of an integer, `f'{n:06x}'`,
 * `int()` and `float()` of a plain decimal literal.
 */
module Strings {
  import opened Wrappers

  type String = seq<char>

  // ---------------------------------------------------------------- split / join

  /** `s.split(c)`: the pieces between occurrences of `c`; never empty. */
  function Split(s: String, c: char): (r: seq<String>)
    ensures |r| >= 1
    ensures forall i :: 0 <= i < |r| ==> c !in r[i]
  {
    if s == [] then [[]]
    else
      var rest := Split(s[1..], c);
      if s[0] == c then [[]] + rest
      else [[s[0]] + rest[0]] + rest[1..]
  }

  /** `sep.join(parts)`. */
  function Join(parts: seq<String>, sep: String): String
  {
    if parts == [] then []
    else if |parts| == 1 then parts[0]
    else parts[0] + sep + Join(parts[1..], sep)
  }

  /** Joining the pieces of a split with the separator gives back the text. */
  lemma {:induction false} JoinSplit(s: String, c: char)
    ensures Join(Split(s, c), [c]) == s
  {
    if s != [] {
      var rest := Split(s[1..], c);
      JoinSplit(s[1..], c);
      if s[0] != c && |rest| > 1 {
        assert Join(rest, [c]) == rest[0] + [c] + Join(rest[1..], [c]);
      }
    }
  }

  lemma {:induction false} SplitNoSeparator(p: String, c: char)
    requires c !in p
    ensures Split(p, c) == [p]
  {
    if p != [] {
      SplitNoSeparator(p[1..], c);
      assert [p[0]] + p[1..] == p;
    }
  }

  lemma {:induction false} SplitFirstPiece(p: String, t: String, c: char)
    requires c !in p
    ensures Split(p + [c] + t, c) == [p] + Split(t, c)
  {
    if p == [] {
      assert p + [c] + t == [c] + t;
      assert ([c] + t)[1..] == t;
    } else {
      SplitFirstPiece(p[1..], t, c);
      assert (p + [c] + t)[1..] == p[1..] + [c] + t;
      assert [p[0]] + p[1..] == p;
    }
  }

  /** Splitting a join of separator-free pieces gives back the pieces. */
  lemma {:induction false} SplitJoin(parts: seq<String>, c: char)
    requires |parts| >= 1
    requires forall i :: 0 <= i < |parts| ==> c !in parts[i]
    ensures Split(Join(parts, [c]), c) == parts
  {
    if |parts| == 1 {
      SplitNoSeparator(parts[0], c);
    } else {
      SplitJoin(parts[1..], c);
      SplitFirstPiece(parts[0], Join(parts[1..], [c]), c);
      assert [parts[0]] + parts[1..] == parts;
    }
  }

  /** Joining two non-empty lists of pieces is joining their joins. */
  lemma {:induction false} JoinAppend(a: seq<String>, b: seq<String>, sep: String)
    requires |a| >= 1 && |b| >= 1
    ensures Join(a + b, sep) == Join(a, sep) + sep + Join(b, sep)
  {
    if |a| == 1 {
      assert (a + b)[1..] == b;
    } else {
      JoinAppend(a[1..], b, sep);
      assert (a + b)[1..] == a[1..] + b;
    }
  }

  /** Text before a join ends up in its first piece. */
  lemma JoinPrefix(p: String, parts: seq<String>, sep: String)
    requires |parts| >= 1
    ensures p + Join(parts, sep) == Join([p + parts[0]] + parts[1..], sep)
  {
    var q := [p + parts[0]] + parts[1..];
    assert q[1..] == parts[1..];
  }

  /** Text after a join ends up in its last piece. */
  lemma {:induction false} JoinSuffix(parts: seq<String>, p: String, sep: String)
    requires |parts| >= 1
    ensures Join(parts, sep) + p == Join(parts[..|parts| - 1] + [parts[|parts| - 1] + p], sep)
  {
    var q := parts[..|parts| - 1] + [parts[|parts| - 1] + p];
    if |parts| > 1 {
      JoinSuffix(parts[1..], p, sep);
      assert q[1..] == parts[1..][..|parts| - 2] + [parts[1..][|parts| - 2] + p];
    }
  }

  // ---------------------------------------------------------------- searching

  predicate StartsWith(s: String, p: String)
  {
    |p| <= |s| && s[..|p|] == p
  }

  predicate EndsWith(s: String, p: String)
  {
    |p| <= |s| && s[|s| - |p|..] == p
  }

  /** `sub in s`. */
  predicate Contains(s: String, sub: String)
    decreases |s|
  {
    StartsWith(s, sub) || (s != [] && Contains(s[1..], sub))
  }

  /** `s.replace(pat, rep)`: left-to-right, non-overlapping. */
  function Replace(s: String, pat: String, rep: String): String
    requires |pat| > 0
    decreases |s|
  {
    if StartsWith(s, pat) then rep + Replace(s[|pat|..], pat, rep)
    else if s == [] then []
    else [s[0]] + Replace(s[1..], pat, rep)
  }

  /** Every occurrence of character `c` becomes `d`, the other characters stay. */
  function SwapChar(s: String, c: char, d: char): (r: String)
    ensures |r| == |s| && forall i :: 0 <= i < |s| ==> r[i] == (if s[i] == c then d else s[i])
  {
    seq(|s|, i requires 0 <= i < |s| => if s[i] == c then d else s[i])
  }

  /** Replacing a one-character pattern by one character works character by character. */
  lemma {:induction false} ReplaceOneChar(s: String, c: char, d: char)
    ensures Replace(s, [c], [d]) == SwapChar(s, c, d)
  {
    if s != [] {
      ReplaceOneChar(s[1..], c, d);
      assert StartsWith(s, [c]) <==> s[0] == c;
      assert SwapChar(s, c, d) == [if s[0] == c then d else s[0]] + SwapChar(s[1..], c, d);
    }
  }

  /** A text contains every piece it is made from. */
  lemma {:induction false} ContainsMiddle(a: String, b: String, c: String)
    ensures Contains(a + b + c, b)
    decreases |a|
  {
    if a == [] {
      assert (a + b + c)[..|b|] == b;
    } else {
      ContainsMiddle(a[1..], b, c);
      assert (a + b + c)[1..] == a[1..] + b + c;
    }
  }

  /** A text contains whatever its tail contains. */
  lemma {:induction false} ContainsSuffix(a: String, b: String, sub: String)
    requires Contains(b, sub)
    ensures Contains(a + b, sub)
    decreases |a|
  {
    if a != [] {
      ContainsSuffix(a[1..], b, sub);
      assert (a + b)[1..] == a[1..] + b;
    } else {
      assert a + b == b;
    }
  }

  /** `s.replace(c, "")`. */
  function RemoveChar(s: String, c: char): (r: String)
    ensures c !in r
  {
    if s == [] then []
    else if s[0] == c then RemoveChar(s[1..], c)
    else [s[0]] + RemoveChar(s[1..], c)
  }

  /** Replacing a character by nothing removes it. */
  lemma {:induction false} ReplaceRemove(s: String, c: char)
    ensures Replace(s, [c], "") == RemoveChar(s, c)
  {
    if s != [] {
      ReplaceRemove(s[1..], c);
      assert StartsWith(s, [c]) <==> s[0] == c;
    }
  }

  lemma {:induction false} RemoveCharAppend(a: String, b: String, c: char)
    ensures RemoveChar(a + b, c) == RemoveChar(a, c) + RemoveChar(b, c)
  {
    if a != [] {
      RemoveCharAppend(a[1..], b, c);
      assert (a + b)[1..] == a[1..] + b;
    } else {
      assert a + b == b;
    }
  }

  lemma {:induction false} RemoveCharAbsent(s: String, c: char)
    requires c !in s
    ensures RemoveChar(s, c) == s
  {
    if s != [] {
      RemoveCharAbsent(s[1..], c);
      assert [s[0]] + s[1..] == s;
    }
  }

  // ---------------------------------------------------------------- case, whitespace

  function LowerChar(c: char): char
  {
    if 'A' <= c <= 'Z' then (c as int - 'A' as int + 'a' as int) as char else c
  }

  function UpperChar(c: char): char
  {
    if 'a' <= c <= 'z' then (c as int - 'a' as int + 'A' as int) as char else c
  }

  function Lower(s: String): (r: String)
    ensures |r| == |s|
  {
    if s == [] then [] else [LowerChar(s[0])] + Lower(s[1..])
  }

  function Upper(s: String): (r: String)
    ensures |r| == |s|
  {
    if s == [] then [] else [UpperChar(s[0])] + Upper(s[1..])
  }

  /** Lower-casing twice is lower-casing once. */
  lemma {:induction false} LowerIdempotent(s: String)
    ensures Lower(Lower(s)) == Lower(s)
  {
    if s != [] {
      LowerIdempotent(s[1..]);
      assert Lower(s)[1..] == Lower(s[1..]);
    }
  }

  /** Python's `str.isspace` for one character. */
  predicate IsSpace(c: char)
  {
    var n := c as int;
    (9 <= n <= 13) || (28 <= n <= 32) || n == 0x85 || n == 0xA0 || n == 0x1680 ||
    (0x2000 <= n <= 0x200A) || n == 0x2028 || n == 0x2029 || n == 0x202F || n == 0x205F || n == 0x3000
  }

  function LStrip(s: String): String
  {
    if s != [] && IsSpace(s[0]) then LStrip(s[1..]) else s
  }

  function RStrip(s: String): String
  {
    if s != [] && IsSpace(s[|s| - 1]) then RStrip(s[..|s| - 1]) else s
  }

  function Strip(s: String): String
  {
    RStrip(LStrip(s))
  }

  /** Neither the first nor the last character is whitespace. */
  predicate NoEdgeSpace(s: String)
  {
    s == [] || (!IsSpace(s[0]) && !IsSpace(s[|s| - 1]))
  }

  /** Right-stripping drops trailing whitespace and stops at the last other character. */
  lemma {:induction false} RStripTrailing(s: String, t: String)
    requires s == [] || !IsSpace(s[|s| - 1])
    requires forall i :: 0 <= i < |t| ==> IsSpace(t[i])
    ensures RStrip(s + t) == s
  {
    if t == [] {
      assert s + t == s;
    } else {
      var n := |t| - 1;
      assert (s + t)[..|s + t| - 1] == s + t[..n];
      RStripTrailing(s, t[..n]);
    }
  }

  /** Left-stripping drops leading whitespace and stops at the first other character. */
  lemma {:induction false} LStripLeading(t: String, s: String)
    requires s == [] || !IsSpace(s[0])
    requires forall i :: 0 <= i < |t| ==> IsSpace(t[i])
    ensures LStrip(t + s) == s
  {
    if t == [] {
      assert t + s == s;
    } else {
      assert (t + s)[1..] == t[1..] + s;
      LStripLeading(t[1..], s);
    }
  }

  /** Stripping a text padded with whitespace gives back the text. */
  lemma StripPadded(t: String, s: String, u: String)
    requires NoEdgeSpace(s)
    requires forall i :: 0 <= i < |t| ==> IsSpace(t[i])
    requires forall i :: 0 <= i < |u| ==> IsSpace(u[i])
    ensures Strip(t + s + u) == s
  {
    if s == [] {
      assert t + s + u == t + u;
      LStripLeading(t + u, []);
      assert t + u + [] == t + u;
    } else {
      assert t + s + u == t + (s + u);
      LStripLeading(t, s + u);
      RStripTrailing(s, u);
    }
  }

  /** Stripping a text followed by whitespace gives back the text. */
  lemma StripTrailing(s: String, u: String)
    requires NoEdgeSpace(s)
    requires forall i :: 0 <= i < |u| ==> IsSpace(u[i])
    ensures Strip(s + u) == s
  {
    StripPadded([], s, u);
    assert [] + s + u == s + u;
  }

  /** Stripping a text preceded by whitespace gives back the text. */
  lemma StripLeading(t: String, s: String)
    requires NoEdgeSpace(s)
    requires forall i :: 0 <= i < |t| ==> IsSpace(t[i])
    ensures Strip(t + s) == s
  {
    StripPadded(t, s, []);
    assert t + s + [] == t + s;
  }

  /** Lower-casing leaves a text without capitals untouched. */
  lemma {:induction false} LowerNoCapitals(s: String)
    requires forall i :: 0 <= i < |s| ==> !('A' <= s[i] <= 'Z')
    ensures Lower(s) == s
  {
    if s != [] {
      LowerNoCapitals(s[1..]);
      assert [s[0]] + s[1..] == s;
    }
  }

  /** `"".join(s.split())`: every whitespace character removed. */
  function RemoveSpace(s: String): (r: String)
    ensures forall i :: 0 <= i < |r| ==> !IsSpace(r[i])
  {
    if s == [] then []
    else if IsSpace(s[0]) then RemoveSpace(s[1..])
    else [s[0]] + RemoveSpace(s[1..])
  }

  /** A text without whitespace is left as it is. */
  lemma {:induction false} RemoveSpaceNone(s: String)
    requires forall i :: 0 <= i < |s| ==> !IsSpace(s[i])
    ensures RemoveSpace(s) == s
  {
    if s != [] {
      RemoveSpaceNone(s[1..]);
      assert [s[0]] + s[1..] == s;
    }
  }

  // ---------------------------------------------------------------- numbers

  predicate IsDigit(c: char)
  {
    '0' <= c <= '9'
  }

  predicate AllDigits(s: String)
  {
    forall i :: 0 <= i < |s| ==> IsDigit(s[i])
  }

  function DigitChar(n: nat): char
    requires n < 10
  {
    ('0' as int + n) as char
  }

  function DigitsValue(d: String): nat
    requires AllDigits(d)
  {
    if d == [] then 0
    else DigitsValue(d[..|d| - 1]) * 10 + (d[|d| - 1] as int - '0' as int)
  }

  /** `str(n)` for a natural number. */
  function NatToString(n: nat): (r: String)
    ensures |r| >= 1 && AllDigits(r)
  {
    if n < 10 then [DigitChar(n)] else NatToString(n / 10) + [DigitChar(n % 10)]
  }

  /** `str(i)` for an integer. */
  function IntToString(i: int): String
  {
    if i < 0 then "-" + NatToString(-i) else NatToString(i)
  }

  lemma {:induction false} NatToStringValue(n: nat)
    ensures DigitsValue(NatToString(n)) == n
  {
    if n >= 10 {
      NatToStringValue(n / 10);
      var r := NatToString(n);
      assert r[..|r| - 1] == NatToString(n / 10);
    }
  }

  /** Leading zeros never appear in `str(n)`. */
  lemma {:induction false} NatToStringInjective(m: nat, n: nat)
    requires NatToString(m) == NatToString(n)
    ensures m == n
  {
    NatToStringValue(m);
    NatToStringValue(n);
  }

  function HexDigit(n: nat): (c: char)
    requires n < 16
    ensures '0' <= c <= '9' || 'a' <= c <= 'f'
  {
    if n < 10 then ('0' as int + n) as char else ('a' as int + n - 10) as char
  }

  function HexString(n: nat): (r: String)
    ensures |r| >= 1 && ',' !in r
  {
    if n < 16 then [HexDigit(n)] else HexString(n / 16) + [HexDigit(n % 16)]
  }

  /** `f'{n:06x}'`: lower-case hexadecimal, zero-padded to at least six digits. */
  function Hex6(n: nat): (r: String)
    ensures |r| >= 6 && ',' !in r
  {
    var h := HexString(n);
    if |h| < 6 then Zeros(6 - |h|) + h else h
  }

  /** The value of a string of hexadecimal digits. */
  function HexValue(h: String): int
  {
    if h == [] then 0
    else
      var c := h[|h| - 1];
      var d := if '0' <= c <= '9' then c as int - '0' as int else c as int - 'a' as int + 10;
      HexValue(h[..|h| - 1]) * 16 + d
  }

  lemma {:induction false} HexStringValue(n: nat)
    ensures HexValue(HexString(n)) == n
  {
    if n >= 16 {
      HexStringValue(n / 16);
      var r := HexString(n);
      assert r[..|r| - 1] == HexString(n / 16);
    }
  }

  function Zeros(k: nat): (z: String)
    ensures |z| == k
  {
    seq(k, _ => '0')
  }

  lemma {:induction false} HexValueZeros(k: nat)
    ensures HexValue(Zeros(k)) == 0
  {
    if k > 0 {
      HexValueZeros(k - 1);
      assert Zeros(k)[..k - 1] == Zeros(k - 1);
    }
  }

  lemma {:induction false} HexValueLeadingZeros(k: nat, h: String)
    ensures HexValue(Zeros(k) + h) == HexValue(h)
  {
    if h == [] {
      assert Zeros(k) + h == Zeros(k);
      HexValueZeros(k);
    } else {
      HexValueLeadingZeros(k, h[..|h| - 1]);
      assert (Zeros(k) + h)[..k + |h| - 1] == Zeros(k) + h[..|h| - 1];
    }
  }

  /** The six-digit identifier reads back as the counter it was made from. */
  lemma Hex6Value(n: nat)
    ensures HexValue(Hex6(n)) == n
  {
    HexStringValue(n);
    var h := HexString(n);
    if |h| < 6 {
      HexValueLeadingZeros(6 - |h|, h);
      assert Hex6(n) == Zeros(6 - |h|) + h;
    }
  }

  /** Distinct counters give distinct six-digit identifiers. */
  lemma Hex6Injective(m: nat, n: nat)
    requires Hex6(m) == Hex6(n)
    ensures m == n
  {
    Hex6Value(m);
    Hex6Value(n);
  }

  /** `int(s)`: surrounding whitespace, an optional sign and at least one digit. */
  function ParseInt(s: String): (r: Option<int>)
  {
    var t := Strip(s);
    if |t| >= 1 && (t[0] == '-' || t[0] == '+') then
      var d := t[1..];
      if |d| >= 1 && AllDigits(d) then
        var v: int := DigitsValue(d);
        Some(if t[0] == '-' then -v else v)
      else None
    else if |t| >= 1 && AllDigits(t) then Some(DigitsValue(t))
    else None
  }

  function Pow10(e: nat): (r: nat)
    ensures r >= 1
  {
    if e == 0 then 1 else 10 * Pow10(e - 1)
  }

  /** An unsigned decimal: digits, optionally a point and more digits, at least one digit in all. */
  function ParseUnsigned(t: String): Option<real>
  {
    var parts := Split(t, '.');
    if |parts| == 1 && |t| >= 1 && AllDigits(t) then Some(DigitsValue(t) as real)
    else if |parts| == 2 && AllDigits(parts[0]) && AllDigits(parts[1]) && |parts[0]| + |parts[1]| >= 1 then
      Some(DigitsValue(parts[0]) as real + DigitsValue(parts[1]) as real / Pow10(|parts[1]|) as real)
    else None
  }

  /** `float(s)` for a plain decimal literal with optional sign and surrounding whitespace. */
  function ParseReal(s: String): (r: Option<real>)
  {
    var t := Strip(s);
    if |t| >= 1 && (t[0] == '-' || t[0] == '+') then
      match ParseUnsigned(t[1..])
      case Some(v) => Some(if t[0] == '-' then -v else v)
      case None => None
    else ParseUnsigned(t)
  }

  lemma StripDigits(d: String)
    requires |d| >= 1 && AllDigits(d)
    ensures Strip(d) == d
  {
    assert !IsSpace(d[0]) && !IsSpace(d[|d| - 1]);
  }

  /** `int(str(n)) == n`. */
  lemma ParseIntNatToString(n: nat)
    ensures ParseInt(NatToString(n)) == Some(n)
  {
    StripDigits(NatToString(n));
    NatToStringValue(n);
  }

  /** `float(str(n)) == n` for a natural number. */
  lemma ParseRealNatToString(n: nat)
    ensures ParseReal(NatToString(n)) == Some(n as real)
  {
    var t := NatToString(n);
    StripDigits(t);
    NatToStringValue(n);
    assert '.' !in t by {
      forall i | 0 <= i < |t| ensures t[i] != '.' {
        assert IsDigit(t[i]);
      }
    }
    SplitNoSeparator(t, '.');
  }
}
