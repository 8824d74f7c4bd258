/** The few string operations the sources rely on: trimming, ASCII lower case, decimal digits. */
module Text {

  /** The code points with the Unicode property White_Space, which `trim` removes. */
  predicate IsWhitespace(c: char) {
    var u := c as int;
    || 0x09 <= u <= 0x0D || u == 0x20 || u == 0x85 || u == 0xA0 || u == 0x1680
    || 0x2000 <= u <= 0x200A || u == 0x2028 || u == 0x2029 || u == 0x202F || u == 0x205F || u == 0x3000
  }

  function TrimStart(s: string): string {
    if s != "" && IsWhitespace(s[0]) then TrimStart(s[1..]) else s
  }

  function TrimEnd(s: string): string {
    if s != "" && IsWhitespace(s[|s| - 1]) then TrimEnd(s[..|s| - 1]) else s
  }

  function Trim(s: string): string {
    TrimEnd(TrimStart(s))
  }

  predicate IsBlank(s: string) {
    forall i :: 0 <= i < |s| ==> IsWhitespace(s[i])
  }

  /** No white space at either end. */
  predicate IsTight(s: string) {
    s != "" ==> !IsWhitespace(s[0]) && !IsWhitespace(s[|s| - 1])
  }

  lemma {:induction false} TrimStartSplits(s: string) returns (a: string)
    ensures IsBlank(a) && s == a + TrimStart(s)
    ensures TrimStart(s) != "" ==> !IsWhitespace(TrimStart(s)[0])
  {
    if s != "" && IsWhitespace(s[0]) {
      a := TrimStartSplits(s[1..]);
      a := [s[0]] + a;
    } else {
      a := "";
    }
  }

  lemma {:induction false} TrimEndSplits(s: string) returns (b: string)
    ensures IsBlank(b) && s == TrimEnd(s) + b
    ensures TrimEnd(s) != "" ==> !IsWhitespace(TrimEnd(s)[|TrimEnd(s)| - 1])
  {
    if s != "" && IsWhitespace(s[|s| - 1]) {
      b := TrimEndSplits(s[..|s| - 1]);
      b := b + [s[|s| - 1]];
    } else {
      b := "";
    }
  }

  /** `s` is `t` with white space around it. */
  ghost predicate Pads(s: string, t: string) {
    exists a, b :: IsBlank(a) && IsBlank(b) && s == a + t + b
  }

  lemma TrimPads(s: string)
    ensures Pads(s, Trim(s)) && IsTight(Trim(s))
  {
    var a := TrimStartSplits(s);
    var t := TrimStart(s);
    var b := TrimEndSplits(t);
    assert s == a + Trim(s) + b;
    assert Trim(s) != "" ==> Trim(s)[0] == t[0];
  }

  lemma BlankPrefix(s: string, a: string, t: string, c: string, rest: string)
    requires s == a + t && t != "" && !IsWhitespace(t[0]) && s == c + rest && IsBlank(c)
    ensures |c| <= |a|
  {
    assert s[|a|] == t[0];
    assert forall k :: 0 <= k < |c| ==> s[k] == c[k];
  }

  lemma BlankSuffix(s: string, t: string, b: string, rest: string, d: string)
    requires s == t + b && t != "" && !IsWhitespace(t[|t| - 1]) && s == rest + d && IsBlank(d)
    ensures |d| <= |b|
  {
    assert s[|t| - 1] == t[|t| - 1];
    assert forall k :: |rest| <= k < |s| ==> s[k] == d[k - |rest|];
  }

  lemma PaddedOnce(s: string, t: string, u: string)
    requires Pads(s, t) && IsTight(t) && Pads(s, u) && IsTight(u) && t != ""
    ensures t == u
  {
    var a, b :| IsBlank(a) && IsBlank(b) && s == a + t + b;
    var c, d :| IsBlank(c) && IsBlank(d) && s == c + u + d;
    NotBlank(s, a, t, b);
    NothingBetween(s, c, u, d);
    hide IsBlank, IsWhitespace;
    SameEnds(s, a, t, b, c, u, d);
    SameEnds(s, c, u, d, a, t, b);
    assert t == s[|a|..|s| - |b|] && u == s[|c|..|s| - |d|];
  }

  lemma NothingBetween(s: string, c: string, u: string, d: string)
    requires IsBlank(c) && IsBlank(d) && s == c + u + d
    ensures u == "" ==> IsBlank(s)
  {
  }

  lemma NotBlank(s: string, a: string, t: string, b: string)
    requires t != "" && IsTight(t) && s == a + t + b
    ensures !IsBlank(s)
  {
    assert s[|a|] == t[0];
  }

  lemma SameEnds(s: string, a: string, t: string, b: string, c: string, u: string, d: string)
    requires t != "" && IsTight(t) && s == a + t + b && s == c + u + d && IsBlank(c) && IsBlank(d)
    ensures |c| <= |a| && |d| <= |b|
  {
    assert s == a + (t + b) == (a + t) + b && s == c + (u + d) == (c + u) + d;
    assert (t + b)[0] == t[0] && (a + t)[|a + t| - 1] == t[|t| - 1];
    hide IsBlank, IsWhitespace;
    BlankPrefix(s, a, t + b, c, u + d);
    BlankSuffix(s, a + t, b, c + u, d);
  }

  /** Trimming removes exactly the white space at the ends. */
  lemma TrimIff(s: string, t: string)
    ensures Trim(s) == t <==> Pads(s, t) && IsTight(t)
  {
    TrimPads(s);
    if Pads(s, t) && IsTight(t) && Trim(s) != "" {
      PaddedOnce(s, Trim(s), t);
    } else if Pads(s, t) && IsTight(t) && t != "" {
      PaddedOnce(s, t, Trim(s));
    }
  }

  function LowerChar(c: char): char {
    if 'A' <= c <= 'Z' then (c as int + 32) as char else c
  }

  function Lower(s: string): string {
    seq(|s|, i requires 0 <= i < |s| => LowerChar(s[i]))
  }

  /** A string without upper-case ASCII letters is its own lower-case form. */
  lemma LowerFixes(s: string)
    requires forall i :: 0 <= i < |s| ==> !('A' <= s[i] <= 'Z')
    ensures Lower(s) == s
  {
  }

  predicate IsUpper(c: char) {
    'A' <= c <= 'Z'
  }

  /** The characters differ in case at most. */
  predicate SameLetter(c: char, d: char) {
    c == d || (IsUpper(c) && c as int + 32 == d as int) || (IsUpper(d) && d as int + 32 == c as int)
  }

  /** Strings have the same lower-case form exactly if they differ at most in the case of ASCII letters, and that form
      has no upper-case ones. */
  lemma SameLowerIff(s: string, t: string)
    ensures Lower(s) == Lower(t) <==> |s| == |t| && forall i :: 0 <= i < |s| ==> SameLetter(s[i], t[i])
    ensures forall i :: 0 <= i < |Lower(s)| ==> !IsUpper(Lower(s)[i])
  {
    if Lower(s) == Lower(t) {
      assert |Lower(s)| == |s| && |Lower(t)| == |t|;
      forall i | 0 <= i < |s| ensures SameLetter(s[i], t[i]) {
        assert Lower(s)[i] == Lower(t)[i];
      }
    }
  }

  function Digit(d: nat): (c: char)
    requires d < 10
    ensures '0' <= c <= '9'
  {
    ('0' as int + d) as char
  }

  /** The shortest decimal notation of n. */
  function Decimal(n: nat): (s: string)
    ensures |s| >= 1
    ensures forall i :: 0 <= i < |s| ==> '0' <= s[i] <= '9'
  {
    if n < 10 then [Digit(n)] else Decimal(n / 10) + [Digit(n % 10)]
  }

  /** The number a string of digits stands for. */
  function Reading(s: string): nat
    requires forall i :: 0 <= i < |s| ==> '0' <= s[i] <= '9'
  {
    if s == "" then 0 else 10 * Reading(s[..|s| - 1]) + (s[|s| - 1] as int - '0' as int)
  }

  /** Decimal notation stands for its number, and has no leading zero unless it is one. */
  lemma {:induction false} DecimalReadsBack(n: nat)
    ensures Reading(Decimal(n)) == n && (n > 0 ==> Decimal(n)[0] != '0')
  {
    if n >= 10 {
      DecimalReadsBack(n / 10);
      assert Decimal(n)[..|Decimal(n)| - 1] == Decimal(n / 10);
    } else {
      assert Decimal(n) == [Digit(n)] && [Digit(n)][..0] == "";
    }
  }

  /** The order of strings by code points, which for UTF-8 is also the order of their bytes. */
  predicate Less(a: string, b: string) {
    b != "" && (a == "" || a[0] < b[0] || (a[0] == b[0] && Less(a[1..], b[1..])))
  }

  lemma {:induction false} LessIsIrreflexive(a: string)
    ensures !Less(a, a)
  {
    if a != "" {
      LessIsIrreflexive(a[1..]);
    }
  }

  lemma {:induction false} LessIsTotal(a: string, b: string)
    ensures a == b || Less(a, b) || Less(b, a)
    ensures !(Less(a, b) && Less(b, a)) && !Less(a, a)
  {
    LessIsIrreflexive(a);
    if a != "" && b != "" && a[0] == b[0] {
      LessIsTotal(a[1..], b[1..]);
      assert a[1..] == b[1..] ==> a == [a[0]] + a[1..] == b;
    }
  }
}
