/** The parts of java.lang.String, Integer and Boolean that the crawler relies on,
    with Java's own conventions: indices are `int` and -1 means "not found",
    `trim` removes every character up to U+0020, `split` drops trailing empty
    strings, and `int` arithmetic wraps at 32 bits. Case conversion is ASCII only,
    so it keeps the length of a string and the positions of its characters. */
module Strings {
  import opened Wrappers

  const INT_MIN: int := -0x8000_0000
  const INT_MAX: int := 0x7fff_ffff

  predicate IsInt32(x: int) {
    INT_MIN <= x <= INT_MAX
  }

  /** Java `int` arithmetic: the 32-bit two's-complement value congruent to `x`. */
  function Wrap32(x: int): (r: int)
    ensures IsInt32(r)
    ensures (r - x) % 0x1_0000_0000 == 0
    ensures IsInt32(x) ==> r == x
  {
    (x - INT_MIN) % 0x1_0000_0000 + INT_MIN
  }

  // ---------------------------------------------------------------- trim

  /** The characters String.trim removes: every code point up to the space. */
  predicate IsTrimmed(c: char) {
    c <= ' '
  }

  function TrimStart(s: string): (r: string)
    ensures |r| <= |s| && r == s[|s| - |r|..]
    ensures forall i :: 0 <= i < |s| - |r| ==> IsTrimmed(s[i])
    ensures r == [] || !IsTrimmed(r[0])
  {
    if s != [] && IsTrimmed(s[0]) then TrimStart(s[1..]) else s
  }

  function TrimEnd(s: string): (r: string)
    ensures |r| <= |s| && r == s[..|r|]
    ensures forall i :: |r| <= i < |s| ==> IsTrimmed(s[i])
    ensures r == [] || !IsTrimmed(r[|r| - 1])
  {
    if s != [] && IsTrimmed(s[|s| - 1]) then TrimEnd(s[..|s| - 1]) else s
  }

  /** `r` is the infix of `s` from `i` on, and only trimmed characters lie around it. */
  predicate TrimmedWindow(s: string, i: int, r: string) {
    && 0 <= i && i + |r| <= |s| && r == s[i..i + |r|]
    && (forall k :: 0 <= k < i ==> IsTrimmed(s[k]))
    && (forall k :: i + |r| <= k < |s| ==> IsTrimmed(s[k]))
  }

  /** String.trim: the longest infix that neither starts nor ends with a trimmed character. */
  function Trim(s: string): (r: string)
    ensures |r| <= |s|
    ensures TrimmedWindow(s, |s| - |TrimStart(s)|, r)
    ensures r == [] || (!IsTrimmed(r[0]) && !IsTrimmed(r[|r| - 1]))
    ensures r == [] <==> forall i :: 0 <= i < |s| ==> IsTrimmed(s[i])
  {
    var t := TrimStart(s);
    assert t == [] ==> forall i :: 0 <= i < |s| ==> IsTrimmed(s[i]);
    TrimWindow(s);
    TrimEnd(t)
  }

  /** Trim's result is the window of `s` between the characters TrimStart and TrimEnd drop. */
  lemma TrimWindow(s: string)
    ensures TrimmedWindow(s, |s| - |TrimStart(s)|, TrimEnd(TrimStart(s)))
  {
    var t := TrimStart(s);
    var r := TrimEnd(t);
    var i := |s| - |t|;
    assert t == s[i..];
    assert r == t[..|r|];
    assert r == s[i..i + |r|] by {
      forall j | 0 <= j < |r|
        ensures r[j] == s[i + j]
      {
        assert r[j] == t[j];
      }
    }
    forall k | i + |r| <= k < |s|
      ensures IsTrimmed(s[k])
    {
      assert s[k] == t[k - i];
    }
    assert TrimmedWindow(s, i, r);
  }

  /** Trimming adds no character. */
  lemma TrimKeepsOut(s: string, c: char)
    requires c !in s
    ensures c !in Trim(s)
  {
    var i := |s| - |TrimStart(s)|;
    assert Trim(s) == s[i..i + |Trim(s)|];
  }

  /** Trimming twice is trimming once. */
  lemma TrimIdempotent(s: string)
    ensures Trim(Trim(s)) == Trim(s)
  {
    var r := Trim(s);
    assert TrimStart(r) == r;
  }

  // ---------------------------------------------------------------- prefixes and suffixes

  predicate StartsWith(s: string, p: string) {
    |p| <= |s| && s[..|p|] == p
  }

  predicate EndsWith(s: string, p: string) {
    |p| <= |s| && s[|s| - |p|..] == p
  }

  /** String.startsWith(p, k): `p` occurs in `s` at index `k`. */
  predicate StartsWithAt(s: string, p: string, k: int) {
    0 <= k && k + |p| <= |s| && s[k..k + |p|] == p
  }

  // ---------------------------------------------------------------- searching

  /** The smallest index at or after `k` where `p` occurs, or -1. */
  function ScanUp(s: string, p: string, k: nat): (r: int)
    requires k <= |s|
    ensures r == -1 || (k <= r <= |s| && StartsWithAt(s, p, r))
    decreases |s| - k
  {
    if StartsWithAt(s, p, k) then k
    else if k == |s| then -1
    else ScanUp(s, p, k + 1)
  }

  /** ScanUp skips no occurrence, and -1 means there is none from `k` on. */
  lemma {:induction false} ScanUpSpec(s: string, p: string, k: nat)
    requires k <= |s|
    ensures ScanUp(s, p, k) == -1 ==> forall j :: k <= j <= |s| ==> !StartsWithAt(s, p, j)
    ensures forall j :: k <= j < ScanUp(s, p, k) ==> !StartsWithAt(s, p, j)
    decreases |s| - k
  {
    if !StartsWithAt(s, p, k) && k < |s| {
      ScanUpSpec(s, p, k + 1);
    }
  }

  /** The largest index at or before `k` where `p` occurs, or -1. */
  function ScanDown(s: string, p: string, k: nat): (r: int)
    requires k <= |s|
    ensures r == -1 || (0 <= r <= k && StartsWithAt(s, p, r))
  {
    if StartsWithAt(s, p, k) then k
    else if k == 0 then -1
    else ScanDown(s, p, k - 1)
  }

  /** ScanDown skips no occurrence, and -1 means there is none up to `k`. */
  lemma {:induction false} ScanDownSpec(s: string, p: string, k: nat)
    requires k <= |s|
    ensures ScanDown(s, p, k) == -1 ==> forall j :: 0 <= j <= k ==> !StartsWithAt(s, p, j)
    ensures ScanDown(s, p, k) != -1 ==> forall j :: ScanDown(s, p, k) < j <= k ==> !StartsWithAt(s, p, j)
  {
    if !StartsWithAt(s, p, k) && k > 0 {
      ScanDownSpec(s, p, k - 1);
    }
  }

  /** Where String.indexOf(p, from) starts looking: `from` clamped into `[0, |s|]`. */
  function SearchStart(len: nat, from: int): (k: nat)
    ensures k <= len
  {
    if from < 0 then 0 else if from > len then len else from
  }

  /** String.indexOf(p, from): the smallest k >= min(max(from, 0), |s|) with `p` at k, or -1. */
  function IndexOfFrom(s: string, p: string, from: int): (r: int)
    ensures r == -1 || (SearchStart(|s|, from) <= r && StartsWithAt(s, p, r))
  {
    ScanUp(s, p, SearchStart(|s|, from))
  }

  /** IndexOfFrom finds the first occurrence: none is skipped, and -1 means there is none. */
  lemma IndexOfFromSpec(s: string, p: string, from: int)
    ensures var r := IndexOfFrom(s, p, from);
      (r == -1 <==> forall j :: SearchStart(|s|, from) <= j <= |s| ==> !StartsWithAt(s, p, j))
      && forall j :: SearchStart(|s|, from) <= j < r ==> !StartsWithAt(s, p, j)
  {
    ScanUpSpec(s, p, SearchStart(|s|, from));
  }

  /** String.indexOf(p). */
  function IndexOf(s: string, p: string): int {
    IndexOfFrom(s, p, 0)
  }

  /** String.lastIndexOf(p): the largest k with `p` at k, or -1. */
  function LastIndexOf(s: string, p: string): (r: int)
    ensures r == -1 || StartsWithAt(s, p, r)
  {
    ScanDown(s, p, |s|)
  }

  /** LastIndexOf finds the last occurrence: none lies beyond it, and -1 means there is none. */
  lemma LastIndexOfSpec(s: string, p: string)
    ensures var r := LastIndexOf(s, p);
      (r == -1 <==> forall j :: 0 <= j <= |s| ==> !StartsWithAt(s, p, j))
      && forall j :: r < j <= |s| ==> !StartsWithAt(s, p, j)
  {
    ScanDownSpec(s, p, |s|);
  }

  /** A one-character needle occurs at `j` exactly when that character is at `j`. */
  lemma CharAt(s: string, c: char, j: int)
    ensures StartsWithAt(s, [c], j) <==> (0 <= j < |s| && s[j] == c)
  {
    if 0 <= j < |s| {
      assert s[j..j + 1] == [s[j]];
    }
  }

  /** String.contains(p). */
  predicate Contains(s: string, p: string) {
    IndexOf(s, p) >= 0
  }

  // ---------------------------------------------------------------- case

  function UpperChar(c: char): char {
    if 'a' <= c <= 'z' then (c as int - 32) as char else c
  }

  function LowerChar(c: char): char {
    if 'A' <= c <= 'Z' then (c as int + 32) as char else c
  }

  function ToUpper(s: string): (r: string)
    ensures |r| == |s|
    ensures forall i :: 0 <= i < |s| ==> r[i] == UpperChar(s[i])
  {
    seq(|s|, i requires 0 <= i < |s| => UpperChar(s[i]))
  }

  function ToLower(s: string): (r: string)
    ensures |r| == |s|
    ensures forall i :: 0 <= i < |s| ==> r[i] == LowerChar(s[i])
  {
    seq(|s|, i requires 0 <= i < |s| => LowerChar(s[i]))
  }

  /** String.equalsIgnoreCase on ASCII text: the same length, and the characters
      agree position by position up to letter case. */
  function EqualsIgnoreCase(a: string, b: string): (e: bool)
    ensures e <==> |a| == |b| && forall i :: 0 <= i < |a| ==> UpperChar(a[i]) == UpperChar(b[i])
  {
    ToUpper(a) == ToUpper(b)
  }

  /** Boolean.parseBoolean: true exactly for "true" in any letter case (false for null). */
  function ParseBoolean(s: Option<string>): (b: bool)
    ensures b <==> s.Some? && |s.value| == 4 && forall i :: 0 <= i < 4 ==> UpperChar(s.value[i]) == "TRUE"[i]
  {
    s.Some? && EqualsIgnoreCase(s.value, "true")
  }

  // ---------------------------------------------------------------- decimal numbers

  predicate IsDigit(c: char) {
    '0' <= c <= '9'
  }

  predicate AllDigits(s: string) {
    forall i :: 0 <= i < |s| ==> IsDigit(s[i])
  }

  function DigitChar(d: nat): (c: char)
    requires d < 10
    ensures IsDigit(c)
  {
    ('0' as int + d) as char
  }

  /** The decimal digits of `n`, most significant first, without leading zeros. */
  function NatToString(n: nat): (r: string)
    ensures |r| >= 1 && AllDigits(r)
  {
    if n < 10 then [DigitChar(n)] else NatToString(n / 10) + [DigitChar(n % 10)]
  }

  /** Integer.toString / string concatenation of an int: a '-' exactly for a negative
      value, then at least one digit. */
  function IntToString(i: int): (r: string)
    ensures |r| >= 1
    ensures r[0] == '-' <==> i < 0
    ensures AllDigits(if i < 0 then r[1..] else r) && (i < 0 ==> |r| >= 2)
  {
    if i < 0 then "-" + NatToString(-i) else NatToString(i)
  }

  function DigitsValue(s: string): nat
    requires AllDigits(s)
  {
    if s == [] then 0 else DigitsValue(s[..|s| - 1]) * 10 + (s[|s| - 1] as int - '0' as int)
  }

  /** Integer.parseInt: an optional sign and at least one digit, within the int range. */
  function ParseInt(s: string): (r: Result<int>)
    ensures r.Success? ==> IsInt32(r.value)
    ensures r.Failure? ==> r.error == NumberFormat(s)
  {
    var signed := |s| > 0 && (s[0] == '-' || s[0] == '+');
    var digits := if signed then s[1..] else s;
    if digits == [] || !AllDigits(digits) then Failure(NumberFormat(s))
    else
      var v: int := if signed && s[0] == '-' then -(DigitsValue(digits) as int) else DigitsValue(digits);
      if IsInt32(v) then Success(v) else Failure(NumberFormat(s))
  }

  lemma {:induction false} DigitsValueOfNat(n: nat)
    ensures DigitsValue(NatToString(n)) == n
  {
    if n >= 10 {
      DigitsValueOfNat(n / 10);
      var s := NatToString(n);
      assert s[..|s| - 1] == NatToString(n / 10);
    }
  }

  /** Integer.parseInt(Integer.toString(i)) == i for every Java int. */
  lemma ParseIntOfIntToString(i: int)
    requires IsInt32(i)
    ensures ParseInt(IntToString(i)) == Success(i)
  {
    if i < 0 {
      DigitsValueOfNat(-i);
      var s := IntToString(i);
      assert s[1..] == NatToString(-i);
    } else {
      DigitsValueOfNat(i);
      assert NatToString(i)[0] != '-' && NatToString(i)[0] != '+';
    }
  }

  // ---------------------------------------------------------------- split, join, replace

  /** The pieces of `s` between the occurrences of `sep`, keeping every empty piece. */
  function SplitAll(s: string, sep: char): (r: seq<string>)
    ensures |r| >= 1
    ensures forall i :: 0 <= i < |r| ==> sep !in r[i]
  {
    if s == [] then [""]
    else
      var rest := SplitAll(s[..|s| - 1], sep);
      var c := s[|s| - 1];
      if c == sep then rest + [""]
      else rest[..|rest| - 1] + [rest[|rest| - 1] + [c]]
  }

  function DropTrailingEmpty(xs: seq<string>): (r: seq<string>)
    ensures |r| <= |xs| && r == xs[..|r|]
    ensures r == [] || r[|r| - 1] != ""
    ensures forall i :: |r| <= i < |xs| ==> xs[i] == ""
  {
    if xs != [] && xs[|xs| - 1] == "" then DropTrailingEmpty(xs[..|xs| - 1]) else xs
  }

  /** String.split on a one-character literal separator: `[s]` when `sep` does not
      occur, otherwise the pieces without the trailing empty ones. */
  function Split(s: string, sep: char): (r: seq<string>)
    ensures forall i :: 0 <= i < |r| ==> sep !in r[i]
    ensures r <= SplitAll(s, sep)
    ensures forall i :: |r| <= i < |SplitAll(s, sep)| ==> SplitAll(s, sep)[i] == ""
    ensures sep in s ==> r == [] || r[|r| - 1] != ""
  {
    if sep !in s then SplitAllWithoutSep(s, sep); [s] else DropTrailingEmpty(SplitAll(s, sep))
  }

  /** A string without the separator is one piece. */
  lemma {:induction false} SplitAllWithoutSep(s: string, sep: char)
    requires sep !in s
    ensures SplitAll(s, sep) == [s]
  {
    if s != [] {
      var init := s[..|s| - 1];
      assert s == init + [s[|s| - 1]];
      assert sep !in init;
      SplitAllWithoutSep(init, sep);
    }
  }

  /** The strings of `xs` with `d` between consecutive ones (String.join). */
  function Join(xs: seq<string>, d: string): string {
    if xs == [] then ""
    else if |xs| == 1 then xs[0]
    else Join(xs[..|xs| - 1], d) + d + xs[|xs| - 1]
  }

  /** Every occurrence of the character `c` replaced by `rep`. */
  function ReplaceChar(s: string, c: char, rep: string): string {
    if s == [] then ""
    else ReplaceChar(s[..|s| - 1], c, rep) + (if s[|s| - 1] == c then rep else [s[|s| - 1]])
  }

  /** Replacing a separator by `d` joins the pieces between the separators with `d`. */
  lemma {:induction false} ReplaceCharIsJoin(s: string, c: char, d: string)
    ensures ReplaceChar(s, c, d) == Join(SplitAll(s, c), d)
  {
    if s != [] {
      var init, last := s[..|s| - 1], s[|s| - 1];
      ReplaceCharIsJoin(init, c, d);
      var rest := SplitAll(init, c);
      if last == c {
        assert (rest + [""])[..|rest|] == rest;
      } else {
        var front := rest[..|rest| - 1];
        var pieces := front + [rest[|rest| - 1] + [last]];
        assert pieces[..|pieces| - 1] == front;
        if |rest| > 1 {
          assert rest == front + [rest[|rest| - 1]];
          assert rest[..|rest| - 1] == front;
        }
      }
    }
  }

  /** Joining the pieces with the separator gives back the string. */
  lemma SplitAllJoin(s: string, c: char)
    ensures Join(SplitAll(s, c), [c]) == s
  {
    ReplaceCharIsJoin(s, c, [c]);
    ReplaceCharIdentity(s, c);
  }

  lemma {:induction false} ReplaceCharIdentity(s: string, c: char)
    ensures ReplaceChar(s, c, [c]) == s
  {
    if s != [] {
      ReplaceCharIdentity(s[..|s| - 1], c);
      assert s == s[..|s| - 1] + [s[|s| - 1]];
    }
  }

  // ---------------------------------------------------------------- hashing

  /** String.hashCode: s[0]*31^(n-1) + ... + s[n-1], in 32-bit int arithmetic. */
  function StringHash(s: string): (h: int)
    ensures IsInt32(h)
  {
    if s == [] then 0 else Wrap32(31 * StringHash(s[..|s| - 1]) + s[|s| - 1] as int)
  }
}
