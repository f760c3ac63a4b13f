/**
 Base-128 varints as the sing-box client reads and writes them.

 `Encode` is the reference encoding of the Protocol Buffers document ("Base 128 Varints"); `Scan` is
 the meaning of a byte range read as one varint; `ReadVarint` is the cursor loop of the client.
 */
module Varint {
  type Byte = b: int | 0 <= b < 256

  const TWO_32 := 0x1_0000_0000
  const TWO_64 := 0x1_0000_0000_0000_0000
  const MAX_GROUPS := 10

  datatype Scanned =
    | Stuck(next: nat)                // -1, with the cursor where the loop left it
    | Got(value: nat, next: nat)

  function Pow128(k: nat): (p: nat)
    ensures p > 0
  {
    if k == 0 then 1 else 128 * Pow128(k - 1)
  }

  /** The shortest base-128 encoding, least significant group first. */
  function Encode(v: nat): (bytes: seq<Byte>)
    ensures |bytes| > 0
  {
    if v < 128 then [v] else [v % 128 + 128] + Encode(v / 128)
  }

  /**
   Byte i of an encoding carries the i-th base-128 digit; every byte but the last has the continuation bit, and
   no encoding ends with a zero digit except that of 0.
   */
  lemma {:induction false} EncodeDigits(v: nat, i: nat)
    requires i < |Encode(v)|
    ensures Encode(v)[i] % 128 == v / Pow128(i) % 128
    ensures Encode(v)[i] >= 128 <==> i < |Encode(v)| - 1
    ensures i == |Encode(v)| - 1 && v > 0 ==> Encode(v)[i] > 0
    decreases v
  {
    if v >= 128 && i > 0 {
      EncodeDigits(v / 128, i - 1);
      DivTwice(v, Pow128(i - 1));
    }
  }

  lemma DivTwice(v: nat, p: nat)
    requires p > 0
    ensures v / 128 / p == v / (128 * p)
  {
    var q := v / 128 / p;
    assert v / 128 == q * p + v / 128 % p;
    assert v == (128 * p) * q + (128 * (v / 128 % p) + v % 128);
    QuotientIs(v, 128 * p, q, 128 * (v / 128 % p) + v % 128);
  }

  lemma QuotientIs(v: nat, d: nat, q: nat, r: nat)
    requires v == d * q + r && r < d
    ensures v / d == q
  {
    var k := v / d;
    assert d * k + v % d == d * q + r;
    assert d * (k - q) == d * k - d * q;
    Multiple(d, k - q);
  }

  lemma Multiple(d: int, x: int)
    requires d >= 0
    ensures x >= 1 ==> d * x >= d
    ensures x <= -1 ==> d * x <= -d
  {
  }

  /** The groups from `pos` on, at most `left` of them, before reduction to 64 bits. */
  function ScanGroups(buf: seq<Byte>, end: nat, pos: nat, left: nat): (r: Scanned)
    requires end <= |buf|
    ensures pos <= end ==> pos <= r.next <= end
    decreases left, pos
  {
    if left == 0 || pos >= end then Stuck(pos)
    else if buf[pos] < 128 then Got(buf[pos], pos + 1)
    else
      match ScanGroups(buf, end, pos + 1, left - 1)
      case Stuck(p) => Stuck(p)
      case Got(v, p) => Got(buf[pos] - 128 + 128 * v, p)
  }

  function Scan(buf: seq<Byte>, end: nat, pos: nat): (r: Scanned)
    requires end <= |buf|
    ensures pos <= end ==> pos <= r.next <= end
    ensures r.Got? ==> r.value < TWO_64 && pos < r.next
  {
    ScanProgress(buf, end, pos, MAX_GROUPS);
    match ScanGroups(buf, end, pos, MAX_GROUPS)
    case Stuck(p) => Stuck(p)
    case Got(v, p) => Got(v % TWO_64, p)
  }

  lemma ScanProgress(buf: seq<Byte>, end: nat, pos: nat, left: nat)
    requires end <= |buf|
    ensures ScanGroups(buf, end, pos, left).Got? ==> pos < ScanGroups(buf, end, pos, left).next <= pos + left
    decreases left
  {
  }

  /** `Encode` needs one group for every seven bits. */
  lemma {:induction false} EncodeLength(v: nat, k: nat)
    requires v < Pow128(k) && k > 0
    ensures |Encode(v)| <= k
    decreases k
  {
    if v >= 128 {
      EncodeLength(v / 128, k - 1);
    }
  }

  lemma {:induction false} ScanGroupsOfEncode(buf: seq<Byte>, end: nat, pos: nat, left: nat, v: nat)
    requires pos + |Encode(v)| <= end <= |buf|
    requires buf[pos..pos + |Encode(v)|] == Encode(v)
    requires |Encode(v)| <= left
    ensures ScanGroups(buf, end, pos, left) == Got(v, pos + |Encode(v)|)
    decreases v
  {
    assert buf[pos] == Encode(v)[0];
    if v >= 128 {
      var rest := Encode(v / 128);
      assert buf[pos + 1..pos + 1 + |rest|] == Encode(v)[1..];
      ScanGroupsOfEncode(buf, end, pos + 1, left - 1, v / 128);
    }
  }

  /**
   Decoding inverts encoding for every uint64 wherever the encoding sits in a buffer, and consumes
   exactly its bytes.
   */
  lemma ScanInvertsEncode(buf: seq<Byte>, end: nat, pos: nat, v: nat)
    requires v < TWO_64
    requires pos + |Encode(v)| <= end <= |buf|
    requires buf[pos..pos + |Encode(v)|] == Encode(v)
    ensures Scan(buf, end, pos) == Got(v, pos + |Encode(v)|)
  {
    PowersUsed();
    EncodeLength(v, MAX_GROUPS);
    ScanGroupsOfEncode(buf, end, pos, MAX_GROUPS, v);
  }

  lemma PowersUsed()
    ensures Pow128(9) == 0x8000_0000_0000_0000
    ensures TWO_64 == 2 * Pow128(9) && TWO_64 < Pow128(10)
  {
    assert Pow128(2) == 16384;
    assert Pow128(4) == 0x1000_0000;
    assert Pow128(6) == 0x400_0000_0000;
    assert Pow128(8) == 0x100_0000_0000_0000;
  }

  /** A scan stops at its own last byte, so it does not see what lies behind it. */
  lemma {:induction false} ScanGroupsLocal(a: seq<Byte>, endA: nat, b: seq<Byte>, endB: nat, pos: nat, left: nat)
    requires endA <= |a| && endB <= |b|
    requires ScanGroups(a, endA, pos, left).Got?
    requires ScanGroups(a, endA, pos, left).next <= endB
    requires forall i :: pos <= i < ScanGroups(a, endA, pos, left).next ==> a[i] == b[i]
    ensures ScanGroups(b, endB, pos, left) == ScanGroups(a, endA, pos, left)
    decreases left
  {
    assert pos < ScanGroups(a, endA, pos, left).next by { ScanProgress(a, endA, pos, left); }
    if a[pos] >= 128 {
      ScanGroupsLocal(a, endA, b, endB, pos + 1, left - 1);
    }
  }

  /**
   `read_varint`. `weight` is `1 << shift`. The groups already collected are below `weight`, so OR-ing
   in the shifted group is addition; the shift drops what does not fit in 64 bits.
   */
  method ReadVarint(buf: seq<Byte>, len: nat, start: nat) returns (ok: bool, value: nat, pos: nat)
    requires len <= |buf|
    ensures var s := Scan(buf, len, start);
            pos == s.next && ok == s.Got? && (ok ==> value == s.value)
  {
    pos := start;
    value := 0;
    var result: nat, shift, weight := 0, 0, 1;
    ghost var left: nat, k := MAX_GROUPS, 0;
    AccumulatedIsScanned(buf, len, start, left, 0, 1);
    ghost var whole := Accumulate(buf, len, start, left, 0, 1);
    assert Scan(buf, len, start) == if whole.Stuck? then whole else Got(whole.value % TWO_64, whole.next);
    while shift < 64 && pos < len
      invariant shift == 7 * k && left + k == MAX_GROUPS && weight == Pow128(k)
      invariant left > 0 ==> result < weight && whole == Accumulate(buf, len, pos, left, result, weight)
      invariant left == 0 ==> whole == Stuck(pos)
      decreases left
    {
      var byte := buf[pos];
      GroupFits(result, byte, weight, k);
      pos := pos + 1;
      result := result + byte % 128 * weight % TWO_64;
      if byte < 128 {
        ok, value := true, result;
        return;
      }
      shift, weight, left, k := shift + 7, weight * 128, left - 1, k + 1;
    }
    ok := false;
    assert whole == Stuck(pos);
  }

  /** The loop of `ReadVarint` as a function: `low` collected so far, the next group weighs `weight`. */
  ghost function Accumulate(buf: seq<Byte>, end: nat, pos: nat, left: nat, low: nat, weight: nat): (r: Scanned)
    requires end <= |buf|
    decreases left, pos
  {
    if left == 0 || pos >= end then Stuck(pos)
    else
      var sum := low + buf[pos] % 128 * weight;
      if buf[pos] < 128 then Got(sum, pos + 1) else Accumulate(buf, end, pos + 1, left - 1, sum, weight * 128)
  }

  ghost function Shifted(s: Scanned, low: nat, weight: nat): (r: Scanned)
  {
    match s
    case Stuck(p) => Stuck(p)
    case Got(v, p) => Got(low + weight * v, p)
  }

  lemma {:induction false} AccumulatedIsScanned(buf: seq<Byte>, end: nat, pos: nat, left: nat, low: nat, weight: nat)
    requires end <= |buf|
    ensures Accumulate(buf, end, pos, left, low, weight) == Shifted(ScanGroups(buf, end, pos, left), low, weight)
    decreases left
  {
    if left > 0 && pos < end && buf[pos] >= 128 {
      AccumulatedIsScanned(buf, end, pos + 1, left - 1, low + buf[pos] % 128 * weight, weight * 128);
      ShiftOne(buf, end, pos, left, low, weight);
    }
  }

  /** One group moves from the unread part to the collected part. */
  lemma ShiftOne(buf: seq<Byte>, end: nat, pos: nat, left: nat, low: nat, weight: nat)
    requires pos < end <= |buf| && left > 0 && buf[pos] >= 128
    ensures Shifted(ScanGroups(buf, end, pos, left), low, weight)
         == Shifted(ScanGroups(buf, end, pos + 1, left - 1), low + buf[pos] % 128 * weight, weight * 128)
  {
    match ScanGroups(buf, end, pos + 1, left - 1)
    case Stuck(_) =>
    case Got(v, p) =>
      assert low + weight * (buf[pos] - 128 + 128 * v)
          == low + (buf[pos] - 128) * weight + weight * 128 * v;
  }

  lemma GroupFits(low: nat, byte: Byte, weight: nat, k: nat)
    requires k < MAX_GROUPS && weight == Pow128(k) && low < weight
    ensures k < 9 ==> byte % 128 * weight % TWO_64 == byte % 128 * weight
    ensures k < 9 ==> low + byte % 128 * weight < weight * 128
    ensures low + byte % 128 * weight % TWO_64 == (low + byte % 128 * weight) % TWO_64
  {
    PowersUsed();
    var group := byte % 128;
    if k < 9 {
      PowMonotone(k, 8);
      assert group * weight <= 127 * weight;
    } else {
      assert group * weight == group / 2 * TWO_64 + group % 2 * weight;
    }
  }

  lemma {:induction false} PowMonotone(j: nat, k: nat)
    requires j <= k
    ensures Pow128(j) <= Pow128(k)
    decreases k - j
  {
    if j < k {
      PowMonotone(j + 1, k);
    }
  }
}
