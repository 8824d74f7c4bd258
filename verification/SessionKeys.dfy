/** The composite keys of the turn table and where they fall in byte order. */
module SessionKeys {
  import opened Common
  import opened Text

  const LIMIT: nat := 10_000_000_000

  function Zeros(k: nat): (s: string)
    ensures |s| == k && forall i :: 0 <= i < k ==> s[i] == '0'
  {
    if k == 0 then "" else ['0'] + Zeros(k - 1)
  }

  /** Decimal notation, padded with zeros to ten digits; longer numbers keep all their digits. */
  function Padded(i: nat): (s: string)
    ensures forall k :: 0 <= k < |s| ==> '0' <= s[k] <= '9'
  {
    var d := Decimal(i);
    if |d| < 10 then Zeros(10 - |d|) + d else d
  }

  function SessionPrefix(sid: string): string {
    sid + ['\0']
  }

  function TurnKey(sid: string, i: nat): string {
    SessionPrefix(sid) + Padded(i)
  }

  function UpperBound(sid: string): string {
    SessionPrefix(sid) + "9999999999"
  }

  predicate LessEq(a: string, b: string) {
    a == b || Less(a, b)
  }

  /** The keys a range scan for this session visits. */
  predicate InScan(sid: string, key: string) {
    LessEq(SessionPrefix(sid), key) && LessEq(key, UpperBound(sid))
  }

  lemma {:induction false} LessWithPrefix(p: string, a: string, b: string)
    ensures Less(p + a, p + b) <==> Less(a, b)
  {
    if p == "" {
      assert p + a == a && p + b == b;
    } else {
      LessWithPrefix(p[1..], a, b);
      assert (p + a)[1..] == p[1..] + a && (p + b)[1..] == p[1..] + b;
    }
  }

  /** Whatever lies between two strings with a common prefix has that prefix. */
  lemma {:induction false} BetweenHasPrefix(p: string, a: string, k: string, b: string)
    requires LessEq(p + a, k) && LessEq(k, p + b)
    ensures p <= k
  {
    if p != "" {
      assert (p + a)[1..] == p[1..] + a && (p + b)[1..] == p[1..] + b;
      assert k != "" && k[0] == p[0];
      BetweenHasPrefix(p[1..], a, k[1..], b);
      assert k == [k[0]] + k[1..] && p == [p[0]] + p[1..];
    }
  }

  /** A scan visits exactly the keys that start with the prefix and continue with at most ten nines. */
  lemma InScanMeans(sid: string, key: string)
    ensures InScan(sid, key) <==>
            SessionPrefix(sid) <= key && LessEq(key[|sid| + 1..], "9999999999")
  {
    var p := SessionPrefix(sid);
    assert p + "" == p;
    if InScan(sid, key) {
      BetweenHasPrefix(p, "", key, "9999999999");
    }
    if p <= key {
      var rest := key[|sid| + 1..];
      assert key == p + rest;
      LessWithPrefix(p, "", rest);
      LessWithPrefix(p, rest, "9999999999");
    }
  }

  /** The last k decimal digits of n. */
  function LastDigits(n: nat, k: nat): (s: string)
    ensures |s| == k
  {
    if k == 0 then "" else LastDigits(n / 10, k - 1) + [Digit(n % 10)]
  }

  function Power10(k: nat): nat {
    if k == 0 then 1 else 10 * Power10(k - 1)
  }

  lemma {:induction false} ZeroDigits(k: nat)
    ensures LastDigits(0, k) == Zeros(k)
  {
    if k > 0 {
      ZeroDigits(k - 1);
      assert Zeros(k - 1) + ['0'] == Zeros(k);
    }
  }

  lemma {:induction false} PaddingIsLastDigits(n: nat, k: nat)
    requires k >= 1 && n < Power10(k)
    ensures |Decimal(n)| <= k && Zeros(k - |Decimal(n)|) + Decimal(n) == LastDigits(n, k)
  {
    if n < 10 {
      ZeroDigits(k - 1);
    } else {
      PaddingIsLastDigits(n / 10, k - 1);
      var d := Decimal(n / 10);
      assert Zeros(k - 1 - |d|) + (d + [Digit(n % 10)]) == (Zeros(k - 1 - |d|) + d) + [Digit(n % 10)];
    }
  }

  lemma PaddedIsLastDigits(i: nat)
    requires i < LIMIT
    ensures Padded(i) == LastDigits(i, 10)
  {
    assert Power10(4) == 10_000;
    assert Power10(8) == 100_000_000;
    assert Power10(10) == LIMIT;
    PaddingIsLastDigits(i, 10);
    assert |Decimal(i)| == 10 ==> Zeros(0) + Decimal(i) == Decimal(i);
  }

  lemma {:induction false} LessAtTheEnd(a: string, x: char, b: string, y: char)
    requires |a| == |b|
    ensures Less(a + [x], b + [y]) <==> Less(a, b) || (a == b && x < y)
  {
    if a == "" {
      assert a + [x] == [x] && b + [y] == [y];
    } else {
      assert (a + [x])[1..] == a[1..] + [x] && (b + [y])[1..] == b[1..] + [y];
      LessAtTheEnd(a[1..], x, b[1..], y);
      assert a == [a[0]] + a[1..] && b == [b[0]] + b[1..];
    }
  }

  /** Digit strings of equal length sort like the numbers they denote. */
  lemma {:induction false} DigitOrder(i: nat, j: nat, k: nat)
    requires i < Power10(k) && j < Power10(k)
    ensures Less(LastDigits(i, k), LastDigits(j, k)) <==> i < j
    ensures LastDigits(i, k) == LastDigits(j, k) <==> i == j
  {
    if k > 0 {
      var a, b := LastDigits(i / 10, k - 1), LastDigits(j / 10, k - 1);
      DigitOrder(i / 10, j / 10, k - 1);
      LessAtTheEnd(a, Digit(i % 10), b, Digit(j % 10));
      assert (a + [Digit(i % 10)])[..k - 1] == a && (b + [Digit(j % 10)])[..k - 1] == b;
      assert a + [Digit(i % 10)] == b + [Digit(j % 10)] ==> Digit(i % 10) == Digit(j % 10) by {
        assert (a + [Digit(i % 10)])[k - 1] == Digit(i % 10) && (b + [Digit(j % 10)])[k - 1] == Digit(j % 10);
      }
    }
  }

  lemma PaddedOrder(i: nat, j: nat)
    requires i < LIMIT && j < LIMIT
    ensures |Padded(i)| == 10
    ensures Less(Padded(i), Padded(j)) <==> i < j
    ensures Padded(i) == Padded(j) <==> i == j
  {
    PaddedIsLastDigits(i);
    PaddedIsLastDigits(j);
    assert Power10(4) == 10_000;
    assert Power10(8) == 100_000_000;
    assert Power10(10) == LIMIT;
    DigitOrder(i, j, 10);
  }

  /** Keys of one session sort by turn index. */
  lemma KeysSortByIndex(sid: string, i: nat, j: nat)
    requires i < LIMIT && j < LIMIT
    ensures Less(TurnKey(sid, i), TurnKey(sid, j)) <==> i < j
  {
    LessWithPrefix(SessionPrefix(sid), Padded(i), Padded(j));
    PaddedOrder(i, j);
  }

  /** Key and index can be read back from a key: the digits after the last NUL are the index. */
  lemma KeysAreDistinct(s: string, i: nat, t: string, j: nat)
    requires i < LIMIT && j < LIMIT && TurnKey(s, i) == TurnKey(t, j)
    ensures s == t && i == j
  {
    PaddedOrder(i, j);
    PaddedOrder(j, i);
    var k := TurnKey(s, i);
    assert k[..|s| + 1] == SessionPrefix(s) && k[|s| + 1..] == Padded(i);
    assert k[..|t| + 1] == SessionPrefix(t) && k[|t| + 1..] == Padded(j);
    assert SessionPrefix(s)[..|s|] == s && SessionPrefix(t)[..|t|] == t;
  }

  lemma {:induction false} NinesAreLast(s: string, nines: string)
    requires |s| == |nines| && forall k :: 0 <= k < |s| ==> s[k] <= '9' && nines[k] == '9'
    ensures LessEq(s, nines)
  {
    if s != "" {
      assert s[0] <= '9' && nines[0] == '9';
      NinesAreLast(s[1..], nines[1..]);
      assert s == [s[0]] + s[1..] && nines == [nines[0]] + nines[1..];
    }
  }

  /** Every key of a session with at most ten digits is visited by the session's own scan. */
  lemma OwnKeysInScan(sid: string, i: nat)
    requires i < LIMIT
    ensures InScan(sid, TurnKey(sid, i))
  {
    hide InScan, LessEq, Padded, Less;
    var key := TurnKey(sid, i);
    InScanMeans(sid, key);
    PaddedOrder(i, i);
    NinesAreLast(Padded(i), "9999999999");
    assert SessionPrefix(sid) <= key && key[|sid| + 1..] == Padded(i);
  }

  function LeadingDigit(n: nat): char {
    if n < 10 then Digit(n) else LeadingDigit(n / 10)
  }

  lemma {:induction false} DecimalStartsWith(n: nat)
    ensures Decimal(n) != "" && Decimal(n)[0] == LeadingDigit(n)
  {
    if n >= 10 {
      DecimalStartsWith(n / 10);
    }
  }

  /** The bound on indices is exact: the first index with eleven digits sorts before its predecessor. */
  lemma OrderEndsAtLimit(sid: string)
    ensures Less(TurnKey(sid, LIMIT), TurnKey(sid, LIMIT - 1))
  {
    DecimalStartsWith(LIMIT);
    DecimalStartsWith(LIMIT - 1);
    LengthOfDecimal(LIMIT, 11);
    LengthOfDecimal(LIMIT - 1, 10);
    LessWithPrefix(SessionPrefix(sid), Padded(LIMIT), Padded(LIMIT - 1));
    assert LeadingDigit(10_000_000_000) == '1' && LeadingDigit(9_999_999_999) == '9';
  }

  lemma {:induction false} LengthOfDecimal(n: nat, k: nat)
    requires k >= 1 && n < Power10(k) && (k > 1 ==> n >= Power10(k - 1))
    ensures |Decimal(n)| == k
  {
    if k > 1 {
      LengthOfDecimal(n / 10, k - 1);
    }
  }

  /** A session's prefix can only be a prefix of another session's key by being one of its id. */
  lemma PrefixReachesId(sid: string, t: string, i: nat)
    requires t != sid && SessionPrefix(sid) <= TurnKey(t, i)
    ensures SessionPrefix(sid) <= t
  {
    var key := TurnKey(t, i);
    assert key[|sid|] == SessionPrefix(sid)[|sid|] == '\0';
    assert forall k :: |t| < k < |key| ==> key[k] == Padded(i)[k - |t| - 1];
    assert key[..|sid|] == SessionPrefix(sid)[..|sid|] == sid;
    assert key[..|t|] == SessionPrefix(t)[..|t|] == t;
    assert SessionPrefix(sid) == key[..|sid| + 1];
  }

  /** When a scan for one session runs into another's keys: exactly when the other id continues the first id and
      a NUL with something that still sorts below the upper bound. */
  lemma ForeignKeyInScan(sid: string, t: string, i: nat)
    requires i < LIMIT && t != sid
    ensures InScan(sid, TurnKey(t, i)) <==>
            SessionPrefix(sid) <= t && LessEq(t[|sid| + 1..] + ['\0'] + Padded(i), "9999999999")
  {
    var key := TurnKey(t, i);
    InScanMeans(sid, key);
    if SessionPrefix(sid) <= key {
      PrefixReachesId(sid, t, i);
    }
    if SessionPrefix(sid) <= t {
      assert SessionPrefix(sid) <= key;
      assert key[|sid| + 1..] == t[|sid| + 1..] + ['\0'] + Padded(i);
    }
  }

  /** Sessions whose ids contain no NUL are never touched by another session's scan. */
  lemma NulFreeKeysStayOut(sid: string, t: string, i: nat)
    requires i < LIMIT && t != sid && '\0' !in t
    ensures !InScan(sid, TurnKey(t, i))
  {
    ForeignKeyInScan(sid, t, i);
    assert SessionPrefix(sid)[|sid|] == '\0';
  }
}
