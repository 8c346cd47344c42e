/** Bytes on the wire: little-endian integers, 32-byte topics and the packets that name them. */
module Wire {
  type Byte = b: nat | b < 256

  type Bytes = seq<Byte>

  const U32: nat := 0x1_0000_0000

  type ClientId = n: nat | n < U32

  const TOPIC_LEN: nat := 32

  // ---------------------------------------------------------------- integers

  function LE32(n: nat): (r: Bytes)
    requires n < U32
    ensures |r| == 4
  {
    [n % 256, n / 256 % 256, n / 65536 % 256, n / 16777216]
  }

  function FromLE32(b: Bytes): (n: nat)
    requires |b| == 4
    ensures n < U32
  {
    b[0] as int + 256 * (b[1] as int) + 65536 * (b[2] as int) + 16777216 * (b[3] as int)
  }

  lemma {:induction false} LE32RoundTrip(n: nat)
    requires n < U32
    ensures FromLE32(LE32(n)) == n
  {
    assert n == 256 * (n / 256) + n % 256;
    assert n / 256 == 256 * (n / 65536) + n / 256 % 256;
    assert n / 65536 == 256 * (n / 16777216) + n / 65536 % 256;
  }

  function LE16(n: nat): (r: Bytes)
    requires n < 65536
    ensures |r| == 2
  {
    [n % 256, n / 256]
  }

  /** The least significant byte comes first. */
  lemma {:induction false} LittleEndian(n: nat)
    requires n < U32
    ensures var b := LE32(n);
            n == b[0] as int + 0x100 * b[1] as int + 0x1_0000 * b[2] as int + 0x100_0000 * b[3] as int
    ensures n < 65536 ==> n == LE16(n)[0] as int + 0x100 * LE16(n)[1] as int
  {
    LE32RoundTrip(n);
  }

  /** The four bytes of an id that the source keeps in 32 bits. */
  function Word(n: nat): (r: Bytes)
    ensures |r| == 4
    ensures n < U32 ==> r == LE32(n)
  {
    LE32(n % U32)
  }

  function FromLE16(b: Bytes): (n: nat)
    requires |b| == 2
    ensures n < 65536
  {
    b[0] as int + 256 * (b[1] as int)
  }

  /** A datagram longer than the receive buffer loses its tail. */
  function Receive(packet: Bytes, buffer: nat): Bytes {
    if |packet| <= buffer then packet else packet[..buffer]
  }

  /** The ids a list holds from `offset` on, at most `count`, one every `stride` bytes. */
  function IdsFrom(packet: Bytes, offset: nat, count: nat, stride: nat): (r: seq<ClientId>)
    requires stride >= 4
    decreases count
  {
    if count == 0 || offset + stride > |packet| then []
    else [FromLE32(packet[offset..offset + 4])] + IdsFrom(packet, offset + stride, count - 1, stride)
  }

  // ---------------------------------------------------------------- topics

  function Zeros(n: nat): (r: Bytes)
    ensures |r| == n && forall i :: 0 <= i < n ==> r[i] == 0
  {
    seq(n, _ => 0)
  }

  /** The first 32 bytes of the text, padded with zeros. */
  function TopicOf(text: Bytes): (r: Bytes)
    ensures |r| == TOPIC_LEN
  {
    if |text| < TOPIC_LEN then text + Zeros(TOPIC_LEN - |text|) else text[..TOPIC_LEN]
  }

  /** Decimal digits in ASCII, most significant first. */
  function Decimal(n: nat): (r: Bytes)
    ensures r != [] && forall i :: 0 <= i < |r| ==> 48 <= r[i] < 58
  {
    if n < 10 then [48 + n] else Decimal(n / 10) + [48 + n % 10]
  }

  /** "shard:" in ASCII. */
  const SHARD_PREFIX: Bytes := [115, 104, 97, 114, 100, 58]

  function ShardTopic(n: nat): (r: Bytes)
    ensures |r| == TOPIC_LEN
  {
    TopicOf(SHARD_PREFIX + Decimal(n))
  }

  /** The buffer the source fills: a zeroed 32-byte array, overwritten with at most 32 bytes. */
  method StringToTopic(text: Bytes) returns (topic: Bytes)
    ensures topic == TopicOf(text)
  {
    var buf := new Byte[TOPIC_LEN](_ => 0);
    var len := if |text| < TOPIC_LEN then |text| else TOPIC_LEN;
    for i := 0 to len
      invariant buf[..] == text[..i] + Zeros(TOPIC_LEN - i)
    {
      buf[i] := text[i];
      assert text[..i + 1] == text[..i] + [text[i]];
    }
    topic := buf[..];
    assert text[..len] == if |text| < TOPIC_LEN then text else text[..TOPIC_LEN];
  }

  lemma {:induction false} DecimalInjective(m: nat, n: nat)
    requires Decimal(m) == Decimal(n)
    ensures m == n
  {
    var a, b := Decimal(m), Decimal(n);
    assert a[|a| - 1] == 48 + m % 10 && b[|b| - 1] == 48 + n % 10;
    if m >= 10 && n >= 10 {
      assert a[..|a| - 1] == Decimal(m / 10) && b[..|b| - 1] == Decimal(n / 10);
      DecimalInjective(m / 10, n / 10);
    }
  }

  /** What a row of decimal digits says, most significant first. */
  ghost function DecimalValue(digits: Bytes): int {
    if digits == [] then 0
    else 10 * DecimalValue(digits[..|digits| - 1]) + digits[|digits| - 1] - 48
  }

  /** The decimal digits say the number, without leading zeros. */
  lemma {:induction false} DecimalReads(n: nat)
    ensures DecimalValue(Decimal(n)) == n
    ensures n > 0 ==> Decimal(n)[0] != 48
  {
    var d := Decimal(n);
    if n < 10 {
      assert d[..|d| - 1] == [];
      assert DecimalValue([]) == 0;
    } else {
      DecimalReads(n / 10);
      assert d[..|d| - 1] == Decimal(n / 10);
    }
  }

  /** A topic is 32 bytes: the text, cut or padded with zeros. */
  lemma {:induction false} TopicBytes(text: Bytes, i: nat)
    requires i < 32
    ensures |TopicOf(text)| == 32 && TopicOf(text)[i] == if i < |text| then text[i] else 0
  {
  }

  ghost function Power10(k: nat): nat {
    if k == 0 then 1 else 10 * Power10(k - 1)
  }

  lemma {:induction false} DecimalLength(n: nat, k: nat)
    requires k > 0 && n < Power10(k)
    ensures |Decimal(n)| <= k
  {
    if n >= 10 {
      assert k > 1 by { assert Power10(1) == 10 * Power10(0) == 10; }
      DecimalLength(n / 10, k - 1);
    }
  }

  /** The topic of a shard reads "shard:" and then the decimal digits of the id. */
  lemma {:induction false} ShardTopicText(n: nat, i: nat)
    requires n < U32 && i < 32
    ensures ShardTopic(n)[i] ==
            if i < 6 then "shard:"[i] as int
            else if i - 6 < |Decimal(n)| then Decimal(n)[i - 6]
            else 0
    ensures |Decimal(n)| <= 10 && DecimalValue(Decimal(n)) == n && (n > 0 ==> Decimal(n)[0] != 48)
  {
    assert Power10(10) > U32;
    DecimalLength(n, 10);
    DecimalReads(n);
    TopicBytes(SHARD_PREFIX + Decimal(n), i);
  }

  /** Two zero-padded texts without zero bytes are equal only if the texts are. */
  lemma {:induction false} PaddingInjective(a: Bytes, b: Bytes)
    requires |a| < TOPIC_LEN && |b| < TOPIC_LEN
    requires forall i :: 0 <= i < |a| ==> a[i] != 0
    requires forall i :: 0 <= i < |b| ==> b[i] != 0
    requires TopicOf(a) == TopicOf(b)
    ensures a == b
  {
    assert forall i :: 0 <= i < TOPIC_LEN ==> (i < |a| <==> TopicOf(a)[i] != 0);
    assert forall i :: 0 <= i < TOPIC_LEN ==> (i < |b| <==> TopicOf(b)[i] != 0);
    assert |a| < |b| <==> TopicOf(b)[|a|] != 0;
    assert |b| < |a| <==> TopicOf(a)[|b|] != 0;
    assert a == TopicOf(a)[..|a|] && b == TopicOf(b)[..|b|];
  }

  /** No two shards share a topic: no id is truncated, and the padding cannot confuse two ids. */
  lemma {:induction false} ShardTopicInjective(m: nat, n: nat)
    requires m < U32 && n < U32 && ShardTopic(m) == ShardTopic(n)
    ensures m == n
  {
    assert Power10(10) > U32;
    DecimalLength(m, 10);
    DecimalLength(n, 10);
    var a, b := SHARD_PREFIX + Decimal(m), SHARD_PREFIX + Decimal(n);
    assert forall i :: 0 <= i < |a| ==> a[i] == if i < 6 then SHARD_PREFIX[i] else Decimal(m)[i - 6];
    assert forall i :: 0 <= i < |b| ==> b[i] == if i < 6 then SHARD_PREFIX[i] else Decimal(n)[i - 6];
    PaddingInjective(a, b);
    assert Decimal(m) == a[6..] && Decimal(n) == b[6..];
    DecimalInjective(m, n);
  }
}
