/** Channel messages, the bytes that get signed, and why a signature pins the message down. */
module SigningBytes {
  import opened Common

  type Byte = x: int | 0 <= x < 256
  type U64 = x: int | 0 <= x < 0x1_0000_0000_0000_0000
  type I64 = x: int | -0x8000_0000_0000_0000 <= x < 0x8000_0000_0000_0000

  const U64_MAX: U64 := 0xFFFF_FFFF_FFFF_FFFF
  const NANOS := 1_000_000_000

  predicate IsAscii(s: string) {
    forall i :: 0 <= i < |s| ==> s[i] as int < 128
  }

  /** Channel ids are "chan_" and hexadecimal digits, hence plain ASCII. */
  type ChannelId = s: string | IsAscii(s)

  /** An instant in nanoseconds whose whole seconds fit the signed 64-bit timestamp. */
  type Instant = t: int | -0x8000_0000_0000_0000 * NANOS <= t < 0x8000_0000_0000_0000 * NANOS

  datatype ChannelUpdate = ChannelUpdate(channelId: ChannelId, nonce: U64, local: U64, remote: U64, timestamp: Instant)

  datatype CloseRequest = CloseRequest(
    channelId: ChannelId, finalLocal: U64, finalRemote: U64, nonce: U64, timestamp: Instant,
    requester: string, signature: Signature)

  /** An ideal signature: whose key made it, over which bytes. */
  datatype Signature = Signature(key: string, bytes: seq<Byte>)

  datatype SignedUpdate = SignedUpdate(update: ChannelUpdate, signature: Signature, signer: string)

  function AsBytes(s: string): (b: seq<Byte>)
    requires IsAscii(s)
    ensures |b| == |s|
  {
    seq(|s|, i requires 0 <= i < |s| => s[i] as int)
  }

  function LittleEndian(n: nat, k: nat): (b: seq<Byte>)
    ensures |b| == k
  {
    if k == 0 then [] else [n % 256] + LittleEndian(n / 256, k - 1)
  }

  function Power256(k: nat): (p: nat)
    ensures p > 0
  {
    if k == 0 then 1 else 256 * Power256(k - 1)
  }

  function Eight(x: U64): (b: seq<Byte>)
    ensures |b| == 8
  {
    LittleEndian(x, 8)
  }

  /** Two's complement of the whole seconds of an instant, rounding towards the past. */
  function Seconds(t: Instant): I64 {
    t / NANOS
  }

  function Timestamp(t: Instant): (b: seq<Byte>)
    ensures |b| == 8
  {
    Eight(if Seconds(t) < 0 then Seconds(t) + 0x1_0000_0000_0000_0000 else Seconds(t))
  }

  function UpdateBytes(u: ChannelUpdate): seq<Byte> {
    AsBytes(u.channelId) + Eight(u.nonce) + Eight(u.local) + Eight(u.remote) + Timestamp(u.timestamp)
  }

  function CloseBytes(c: CloseRequest): seq<Byte> {
    AsBytes("close:") + AsBytes(c.channelId) + Eight(c.finalLocal) + Eight(c.finalRemote) + Eight(c.nonce)
    + Timestamp(c.timestamp)
  }

  function Sign(u: ChannelUpdate, key: string, signer: string): SignedUpdate {
    SignedUpdate(u, Signature(key, UpdateBytes(u)), signer)
  }

  predicate Verifies(s: SignedUpdate, key: string) {
    s.signature == Signature(key, UpdateBytes(s.update))
  }

  predicate CloseVerifies(c: CloseRequest, key: string) {
    c.signature == Signature(key, CloseBytes(c))
  }

  lemma {:induction false} LittleEndianInjective(a: nat, b: nat, k: nat)
    requires a < Power256(k) && b < Power256(k)
    requires LittleEndian(a, k) == LittleEndian(b, k)
    ensures a == b
  {
    if k > 0 {
      var x, y := LittleEndian(a, k), LittleEndian(b, k);
      assert x[0] == a % 256 && y[0] == b % 256;
      assert x[1..] == LittleEndian(a / 256, k - 1) && y[1..] == LittleEndian(b / 256, k - 1);
      LittleEndianInjective(a / 256, b / 256, k - 1);
    }
  }

  /** The i-th byte counts the multiples of 256 to the i. */
  lemma {:induction false} LittleEndianAt(n: nat, k: nat, i: nat)
    requires i < k
    ensures LittleEndian(n, k)[i] == (n / Power256(i)) % 256
  {
    if i > 0 {
      LittleEndianAt(n / 256, k - 1, i - 1);
      assert LittleEndian(n, k)[i] == LittleEndian(n / 256, k - 1)[i - 1];
      DivideTwice(n, 256, Power256(i - 1));
    }
  }

  lemma Grouped(a: nat, b: nat, q: nat, r: nat, t: nat)
    ensures a * (q * b + r) + t == (a * b) * q + (a * r + t)
  {
    assert a * (q * b) == (a * b) * q;
  }

  lemma Below(a: nat, b: nat, r: nat, t: nat)
    requires r < b && t < a
    ensures a * r + t < a * b
  {
    assert a * (r + 1) <= a * b;
  }

  lemma DivideTwice(n: nat, a: nat, b: nat)
    requires a > 0 && b > 0
    ensures a * b > 0 && n / a / b == n / (a * b)
  {
    MulMono(a, 1, b);
    DividesIn(n, a, b, n / a, n % a, n / a / b, n / a % b);
  }

  lemma DividesIn(n: nat, a: nat, b: nat, m: nat, t: nat, q: nat, r: nat)
    requires n == a * m + t && t < a && m == q * b + r && r < b && a * b > 0
    ensures n / (a * b) == q
  {
    Grouped(a, b, q, r, t);
    Below(a, b, r, t);
    QuotientIs(n, a * b, q, a * r + t);
  }

  lemma QuotientIs(n: nat, d: nat, q: nat, r: nat)
    requires d > 0 && n == d * q + r && r < d
    ensures n / d == q
  {
    var m := n / d;
    Closer(d, m, n % d, q, r);
    Closer(d, q, r, m, n % d);
  }

  lemma Closer(d: nat, m: nat, s: nat, q: nat, r: nat)
    requires d * m + s == d * q + r && s < d
    ensures q <= m
  {
    if m < q {
      MulMono(d, m + 1, q);
    }
  }

  lemma MulMono(d: nat, x: nat, y: nat)
    requires x <= y
    ensures d * x <= d * y
  {
  }

  lemma EightAt(x: U64, i: nat)
    requires i < 8
    ensures Eight(x)[i] == (x / Power256(i)) % 256
  {
    LittleEndianAt(x, 8, i);
  }

  /** An instant falls into the second it is counted for, before 1970 too. */
  lemma SecondsMeans(t: Instant)
    ensures Seconds(t) * 1_000_000_000 <= t < (Seconds(t) + 1) * 1_000_000_000
  {
  }

  lemma TimestampAt(t: Instant, i: nat)
    requires i < 8
    ensures Timestamp(t)[i] == ((Seconds(t) % 0x1_0000_0000_0000_0000) / Power256(i)) % 256
  {
    hide Eight, Power256, Seconds;
    EightAt(if Seconds(t) < 0 then Seconds(t) + 0x1_0000_0000_0000_0000 else Seconds(t), i);
  }

  /** The wire format of an update: the id, then nonce, both balances and the time, lowest byte first. */
  lemma UpdateLayout(u: ChannelUpdate, i: nat)
    requires i < 8
    ensures var b, n := UpdateBytes(u), |u.channelId|;
            && |b| == n + 32 && (forall k :: 0 <= k < n ==> b[k] == u.channelId[k] as int)
            && b[n + i] == (u.nonce / Power256(i)) % 256
            && b[n + 8 + i] == (u.local / Power256(i)) % 256
            && b[n + 16 + i] == (u.remote / Power256(i)) % 256
            && b[n + 24 + i] == ((Seconds(u.timestamp) % 0x1_0000_0000_0000_0000) / Power256(i)) % 256
  {
    hide Eight, Power256, Seconds, Timestamp;
    EightAt(u.nonce, i);
    EightAt(u.local, i);
    EightAt(u.remote, i);
    TimestampAt(u.timestamp, i);
  }

  /** The wire format of a close request: the same behind the word "close:", the nonce after the balances. */
  lemma CloseLayout(c: CloseRequest, i: nat)
    requires i < 8
    ensures var b, n := CloseBytes(c), 6 + |c.channelId|;
            && |b| == n + 32 && (forall k :: 0 <= k < n ==> b[k] == ("close:" + c.channelId)[k] as int)
            && b[n + i] == (c.finalLocal / Power256(i)) % 256
            && b[n + 8 + i] == (c.finalRemote / Power256(i)) % 256
            && b[n + 16 + i] == (c.nonce / Power256(i)) % 256
            && b[n + 24 + i] == ((Seconds(c.timestamp) % 0x1_0000_0000_0000_0000) / Power256(i)) % 256
  {
    hide Eight, Power256, Seconds, Timestamp;
    EightAt(c.nonce, i);
    EightAt(c.finalLocal, i);
    EightAt(c.finalRemote, i);
    TimestampAt(c.timestamp, i);
  }

  lemma EightInjective(a: U64, b: U64)
    requires Eight(a) == Eight(b)
    ensures a == b
  {
    assert Power256(4) == 0x1_0000_0000;
    assert Power256(6) == 0x1_0000_0000_0000;
    assert Power256(8) == 0x1_0000_0000_0000_0000;
    LittleEndianInjective(a, b, 8);
  }

  lemma TimestampInjective(a: Instant, b: Instant)
    requires Timestamp(a) == Timestamp(b)
    ensures Seconds(a) == Seconds(b)
  {
    EightInjective(if Seconds(a) < 0 then Seconds(a) + 0x1_0000_0000_0000_0000 else Seconds(a),
                   if Seconds(b) < 0 then Seconds(b) + 0x1_0000_0000_0000_0000 else Seconds(b));
  }

  lemma AsBytesInjective(a: string, b: string)
    requires IsAscii(a) && IsAscii(b) && AsBytes(a) == AsBytes(b)
    ensures a == b
  {
    assert |a| == |b|;
    forall i | 0 <= i < |a| ensures a[i] == b[i] {
      assert AsBytes(a)[i] == AsBytes(b)[i];
    }
  }

  /** Concatenations with equally long tails split at the same place. */
  lemma SplitTail(a: seq<Byte>, x: seq<Byte>, b: seq<Byte>, y: seq<Byte>)
    requires |x| == |y| && a + x == b + y
    ensures a == b && x == y
  {
    assert |a| == |b|;
    assert a == (a + x)[..|a|] && b == (b + y)[..|b|];
    assert x == (a + x)[|a|..] && y == (b + y)[|b|..];
  }

  /** Equal update bytes mean the same id, nonce, balances and whole-second time. */
  lemma UpdateBytesInjective(u: ChannelUpdate, v: ChannelUpdate)
    requires UpdateBytes(u) == UpdateBytes(v)
    ensures u.channelId == v.channelId && u.nonce == v.nonce && u.local == v.local && u.remote == v.remote
    ensures Seconds(u.timestamp) == Seconds(v.timestamp)
  {
    var a, b := AsBytes(u.channelId), AsBytes(v.channelId);
    SplitTail(a + Eight(u.nonce) + Eight(u.local) + Eight(u.remote), Timestamp(u.timestamp),
              b + Eight(v.nonce) + Eight(v.local) + Eight(v.remote), Timestamp(v.timestamp));
    SplitTail(a + Eight(u.nonce) + Eight(u.local), Eight(u.remote),
              b + Eight(v.nonce) + Eight(v.local), Eight(v.remote));
    SplitTail(a + Eight(u.nonce), Eight(u.local), b + Eight(v.nonce), Eight(v.local));
    SplitTail(a, Eight(u.nonce), b, Eight(v.nonce));
    AsBytesInjective(u.channelId, v.channelId);
    EightInjective(u.nonce, v.nonce);
    EightInjective(u.local, v.local);
    EightInjective(u.remote, v.remote);
    TimestampInjective(u.timestamp, v.timestamp);
  }

  /** Equal close bytes mean the same id, nonce, balances and whole-second time. */
  lemma CloseBytesInjective(c: CloseRequest, d: CloseRequest)
    requires CloseBytes(c) == CloseBytes(d)
    ensures c.channelId == d.channelId && c.nonce == d.nonce
    ensures c.finalLocal == d.finalLocal && c.finalRemote == d.finalRemote
    ensures Seconds(c.timestamp) == Seconds(d.timestamp)
  {
    var p := AsBytes("close:");
    var a, b := p + AsBytes(c.channelId), p + AsBytes(d.channelId);
    SplitTail(a + Eight(c.finalLocal) + Eight(c.finalRemote) + Eight(c.nonce), Timestamp(c.timestamp),
              b + Eight(d.finalLocal) + Eight(d.finalRemote) + Eight(d.nonce), Timestamp(d.timestamp));
    SplitTail(a + Eight(c.finalLocal) + Eight(c.finalRemote), Eight(c.nonce),
              b + Eight(d.finalLocal) + Eight(d.finalRemote), Eight(d.nonce));
    SplitTail(a + Eight(c.finalLocal), Eight(c.finalRemote), b + Eight(d.finalLocal), Eight(d.finalRemote));
    SplitTail(a, Eight(c.finalLocal), b, Eight(d.finalLocal));
    SplitTail(p, AsBytes(c.channelId), p, AsBytes(d.channelId));
    AsBytesInjective(c.channelId, d.channelId);
    EightInjective(c.nonce, d.nonce);
    EightInjective(c.finalLocal, d.finalLocal);
    EightInjective(c.finalRemote, d.finalRemote);
    TimestampInjective(c.timestamp, d.timestamp);
  }

  /** An update shares its bytes with some close request exactly when its channel id starts with "close:". */
  lemma UpdateLooksLikeClose(u: ChannelUpdate)
    ensures (exists c :: UpdateBytes(u) == CloseBytes(c)) <==> "close:" <= u.channelId
  {
    if c :| UpdateBytes(u) == CloseBytes(c) {
      assert |UpdateBytes(u)| == |u.channelId| + 32 && |CloseBytes(c)| == |c.channelId| + 38;
      forall i | 0 <= i < 6 ensures u.channelId[i] == "close:"[i] {
        assert UpdateBytes(u)[i] == AsBytes(u.channelId)[i];
        assert CloseBytes(c)[i] == AsBytes("close:")[i];
      }
    }
    if "close:" <= u.channelId {
      var rest := u.channelId[6..];
      assert AsBytes(u.channelId) == AsBytes("close:") + AsBytes(rest);
      var c := CloseRequest(rest, u.nonce, u.local, u.remote, u.timestamp, "", Signature("", []));
      assert UpdateBytes(u) == CloseBytes(c);
    }
  }

  /** Generated ids start with "chan_", so for them the two kinds of message never share bytes. */
  lemma UpdateIsNotClose(u: ChannelUpdate, c: CloseRequest)
    requires "chan_" <= u.channelId
    ensures UpdateBytes(u) != CloseBytes(c)
  {
    UpdateLooksLikeClose(u);
    assert u.channelId[1] == 'h';
  }

  /** A signature made for one update verifies for another only if they agree on everything but fractions of a
      second. */
  lemma VerifiedIsSigned(made: ChannelUpdate, key: string, got: SignedUpdate, key': string)
    requires got.signature == Sign(made, key, got.signer).signature && Verifies(got, key')
    ensures key' == key && Seconds(got.update.timestamp) == Seconds(made.timestamp)
    ensures got.update == made.(timestamp := got.update.timestamp)
  {
    UpdateBytesInjective(got.update, made);
  }
}
