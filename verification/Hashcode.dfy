/** `blocks/hashcode.go`: the Java string hash in wrapping 32-bit arithmetic, the partition of a
    key, and the correction for keys that were partitioned by the hash of a Cascading tuple. */
module Hashcode {
  import opened Bytes

  const TWO_31 := 0x8000_0000
  const TWO_32 := 0x1_0000_0000
  const MAX_INT32 := 0x7fff_ffff

  type Int32 = x: int | -0x8000_0000 <= x < 0x8000_0000 witness 0

  /** Truncation of an unbounded integer to 32 bits, two's complement. */
  function Wrap32(x: int): Int32 {
    var m := x % TWO_32;
    if m < TWO_31 then m else m - TWO_32
  }

  /** `x & math.MaxInt32`: clearing the sign bit of a two's complement word. */
  function ClearSign(x: Int32): nat {
    if x >= 0 then x else x + TWO_31
  }

  function Pow31(n: nat): nat {
    if n == 0 then 1 else 31 * Pow31(n - 1)
  }

  /** The closed form of the Java SE API specification of `String.hashCode`,
      s[0]*31^(n-1) + s[1]*31^(n-2) + ... + s[n-1], before truncation. */
  function JavaSum(s: Str): nat {
    if s == [] then 0 else s[0] * Pow31(|s| - 1) + JavaSum(s[1..])
  }

  /** The specified hash. */
  function JavaHash(s: Str): Int32 {
    Wrap32(JavaSum(s))
  }

  /** Horner's rule for the closed form. */
  lemma {:induction false} JavaSumSnoc(s: Str, b: Byte)
    ensures JavaSum(s + [b]) == 31 * JavaSum(s) + b
  {
    if s == [] {
      assert s + [b] == [b];
    } else {
      assert (s + [b])[1..] == s[1..] + [b];
      JavaSumSnoc(s[1..], b);
      var p := Pow31(|s| - 1);
      assert Pow31(|s|) == 31 * p;
      assert s[0] * (31 * p) == 31 * (s[0] * p);
    }
  }

  /** Truncation takes away a multiple of 2^32 ... */
  lemma WrapTakes(x: int) returns (q: int)
    ensures Wrap32(x) == x - q * TWO_32
  {
    q := if x % TWO_32 < TWO_31 then x / TWO_32 else x / TWO_32 + 1;
  }

  /** ... and does not see one. */
  lemma WrapIgnores(x: int, q: int)
    ensures Wrap32(x + q * TWO_32) == Wrap32(x)
  {
  }

  /** One wrapping step of the loop keeps agreeing with the unbounded sum. */
  lemma WrapStep(v: Int32, total: int, b: Byte)
    requires v == Wrap32(total)
    ensures Wrap32(Wrap32(v * 31) + b) == Wrap32(31 * total + b)
  {
    var q := WrapTakes(total);
    var r := WrapTakes(v * 31);
    WrapIgnores(31 * total + b, -31 * q - r);
  }

  method HashCode(bytes: Str) returns (v: Int32)
    ensures v == JavaHash(bytes)
  {
    v := 0;
    for i := 0 to |bytes|
      invariant v == JavaHash(bytes[..i])
    {
      assert bytes[..i + 1] == bytes[..i] + [bytes[i]];
      JavaSumSnoc(bytes[..i], bytes[i]);
      WrapStep(v, JavaSum(bytes[..i]), bytes[i]);
      v := Wrap32(Wrap32(v * 31) + bytes[i]);
    }
    assert bytes[..|bytes|] == bytes;
  }

  /** The sum from left to right, without powers. */
  function Horner(s: Str, sum: nat): nat
    decreases |s|
  {
    if s == [] then sum else Horner(s[1..], 31 * sum + s[0])
  }

  lemma {:induction false} HornerExtends(s: Str, t: Str)
    ensures Horner(t, JavaSum(s)) == JavaSum(s + t)
    decreases |t|
  {
    hide JavaSum;
    if t == [] {
      assert s + t == s;
    } else {
      JavaSumSnoc(s, t[0]);
      HornerExtends(s + [t[0]], t[1..]);
      assert s + [t[0]] + t[1..] == s + t;
    }
  }

  lemma HornerIsSum(s: Str)
    ensures Horner(s, 0) == JavaSum(s)
  {
    HornerExtends([], s);
    assert [] + s == s;
  }

  /** The hash of a text that wraps around, and of one that stays positive. */
  lemma KnownHashes()
    ensures JavaHash([102, 111, 111, 98, 97, 114, 98, 97, 122]) == -1165917330
    ensures JavaHash([102, 111, 111, 32, 98, 97, 114, 32, 98, 97, 122]) == 1892173108
  {
    hide JavaSum;
    HornerIsSum([102, 111, 111, 98, 97, 114, 98, 97, 122]);
    HornerIsSum([102, 111, 111, 32, 98, 97, 114, 32, 98, 97, 122]);
    assert Horner([102, 111, 111, 98, 97, 114, 98, 97, 122], 0) == 90150197625710;
    assert Horner([102, 111, 111, 32, 98, 97, 114, 32, 98, 97, 122], 0) == 86632524499404084;
  }

  // ---------------------------------------------------------------- partitions

  /** Hadoop's `HashPartitioner` on a hash code. */
  function HashPartition(hc: Int32, total: nat): (p: nat)
    requires total > 0
    ensures p < total
  {
    ClearSign(hc) % total
  }

  /** `alternatePathologicalKeyPartition`; None stands for its -1. */
  function AlternatePathological(hc: Int32, total: nat): (r: Option<nat>)
    requires total > 0
    ensures r.Some? ==> r.value < total
  {
    if hc > MAX_INT32 - 32 then
      var tupleHC := ClearSign(Wrap32(hc + 31)) % total;
      var rotate := total - 31 % total;
      Some((tupleHC + rotate) % total)
    else
      None
  }

  /** The pair that `KeyPartition` computes from the hash of a key. */
  function NormalPartition(key: Str, total: nat): (p: nat)
    requires total > 0
    ensures p < total
  {
    HashPartition(JavaHash(key), total)
  }

  function AlternateOfHash(hc: Int32, total: nat): (p: nat)
    requires total > 0
    ensures p < total
  {
    match AlternatePathological(hc, total)
    case None => HashPartition(hc, total)
    case Some(p) => p
  }

  function AlternatePartition(key: Str, total: nat): (p: nat)
    requires total > 0
    ensures p < total
  {
    AlternateOfHash(JavaHash(key), total)
  }

  method KeyPartition(key: Str, total: nat) returns (normal: nat, alternate: nat)
    requires total > 0
    ensures normal == NormalPartition(key, total) && alternate == AlternatePartition(key, total)
    ensures normal == (JavaSum(key) % TWO_31) % total
  {
    NormalClosedForm(key, total);
    var hc := HashCode(key);
    normal := ClearSign(hc) % total;
    var alt := AlternatePathological(hc, total);
    if alt.None? {
      alternate := normal;
    } else {
      alternate := alt.value;
    }
  }

  // ---------------------------------------------------------------- Cascading

  /** `cascading.tuple.Tuple#hashCode` of a one-element tuple: (31 * 1) + item.hashCode. */
  function TupleHash(hc: Int32): Int32 {
    Wrap32(Wrap32(31 * 1) + hc)
  }

  /** The partition a Cascading job puts a key into. */
  function TuplePartition(hc: Int32, total: nat): (p: nat)
    requires total > 0
    ensures p < total
  {
    ClearSign(TupleHash(hc)) % total
  }

  /** The hashes the comment of the source names but its guard leaves out. */
  predicate InGap(hc: Int32) {
    -31 <= hc <= -1
  }

  lemma ModAdd(x: int, y: int, n: int)
    requires n > 0
    ensures (x % n + y) % n == (x + y) % n
  {
    var q := x / n;
    assert x == q * n + x % n;
    ModShift(x % n + y, q, n);
  }

  lemma MulBound(d: int, n: int)
    requires n > 0
    ensures d >= 1 ==> d * n >= n
    ensures d <= -1 ==> d * n <= -n
  {
  }

  lemma ModShift(x: int, q: int, n: int)
    requires n > 0
    ensures (x + q * n) % n == x % n
  {
    var y := x + q * n;
    var d := y / n - x / n - q;
    assert y % n - x % n == -(d * n) by {
      assert y == n * (y / n) + y % n;
      assert x == n * (x / n) + x % n;
      assert n * (y / n) - n * (x / n) - q * n == d * n;
    }
    MulBound(d, n);
  }

  /** (31 % n) taken away by rotating the other way round. */
  lemma RotateBack(t: nat, n: nat)
    requires n > 0
    ensures (t % n + (n - 31 % n)) % n == (t - 31) % n
  {
    ModAdd(t, n - 31 % n, n);
    assert 31 == (31 / n) * n + 31 % n;
    var k := 31 / n + 1;
    assert k * n == (31 / n) * n + n;
    assert t + (n - 31 % n) == (t - 31) + k * n;
    ModShift(t - 31, k, n);
  }

  /** Outside the gap the tuple hash is exactly 31 above the key's own, before the modulus. */
  lemma TupleShift(hc: Int32)
    requires !InGap(hc) && hc <= MAX_INT32 - 32
    ensures ClearSign(TupleHash(hc)) == ClearSign(hc) + 31
  {
  }

  lemma ModTake31(t: int, n: int)
    requires n > 0
    ensures (t % n - 31) % n == (t - 31) % n
  {
    ModAdd(t, -31, n);
  }

  /** Rotating a tuple partition back by 31, the way the source does it. */
  lemma RotationTakes31(t: nat, n: nat)
    requires n > 0
    ensures (t % n + (n - 31 % n)) % n == (t % n - 31) % n
  {
    RotateBack(t, n);
    ModTake31(t, n);
  }

  lemma TupleHashIsShift(hc: Int32)
    ensures TupleHash(hc) == Wrap32(hc + 31)
  {
  }

  /** Near the top of the range the source takes the tuple's partition and rotates it back. */
  lemma PathologicalUndoesTuple(hc: Int32, total: nat)
    requires total > 0 && hc > MAX_INT32 - 32
    ensures AlternateOfHash(hc, total) == (TuplePartition(hc, total) - 31) % total
  {
    TupleHashIsShift(hc);
    RotationTakes31(ClearSign(TupleHash(hc)), total);
  }

  lemma OrdinaryUndoesTuple(hc: Int32, total: nat)
    requires total > 0 && !InGap(hc) && hc <= MAX_INT32 - 32
    ensures AlternateOfHash(hc, total) == (TuplePartition(hc, total) - 31) % total
  {
    TupleShift(hc);
    ModTake31(ClearSign(hc) + 31, total);
  }

  predicate Divides(n: nat, m: nat)
    requires n > 0
  {
    m % n == 0
  }

  lemma ModEqualIff(x: int, d: nat, n: nat)
    requires n > 0
    ensures (x + d) % n == x % n <==> Divides(n, d)
  {
    var r, s := d % n, x % n;
    ModAdd(d, x, n);
    ModAdd(x, r, n);
    assert (x + d) % n == (s + r) % n;
    WrapOnce(s, r, n);
  }

  lemma WrapOnce(s: nat, r: nat, n: nat)
    requires s < n && r < n
    ensures (s + r) % n == if s + r < n then s + r else s + r - n
  {
    if s + r >= n {
      ModShift(s + r - n, 1, n);
    }
  }

  lemma GapHash(hc: Int32)
    requires InGap(hc)
    ensures ClearSign(TupleHash(hc)) == hc + 31 && ClearSign(hc) == hc + TWO_31
  {
  }

  /** Inside the gap the guard is missing, and the law holds exactly for divisors of 2^31. */
  lemma GapUndoesTupleIff(hc: Int32, total: nat)
    requires total > 0 && InGap(hc)
    ensures AlternateOfHash(hc, total) == (TuplePartition(hc, total) - 31) % total
       <==> Divides(total, TWO_31)
  {
    GapHash(hc);
    ModTake31(hc + 31, total);
    ModEqualIff(hc, TWO_31, total);
  }

  /** The law on all inputs: it holds if and only if the hash is outside the gap or the number of
      partitions divides 2^31. */
  lemma AlternateLaw(hc: Int32, total: nat)
    requires total > 0
    ensures AlternateOfHash(hc, total) == (TuplePartition(hc, total) - 31) % total
       <==> !InGap(hc) || Divides(total, TWO_31)
  {
    if InGap(hc) {
      GapUndoesTupleIff(hc, total);
    } else if hc > MAX_INT32 - 32 {
      PathologicalUndoesTuple(hc, total);
    } else {
      OrdinaryUndoesTuple(hc, total);
    }
  }

  /** Keys that a Cascading job groups into one file share an alternate partition, unless exactly one of
      them is in the gap and the number of partitions does not divide 2^31. */
  lemma GroupedKeysShareAlternate(a: Str, b: Str, total: nat)
    requires total > 0
    requires TuplePartition(JavaHash(a), total) == TuplePartition(JavaHash(b), total)
    ensures AlternatePartition(a, total) == AlternatePartition(b, total)
       <==> Divides(total, TWO_31) || (InGap(JavaHash(a)) <==> InGap(JavaHash(b)))
  {
    hide JavaHash;
    var x, y := JavaHash(a), JavaHash(b);
    AlternateLaw(x, total);
    AlternateLaw(y, total);
    if InGap(x) && InGap(y) {
      GapAlternate(x, total);
      GapAlternate(y, total);
    }
  }

  /** In the gap the alternate partition is determined by the tuple's partition, but another one. */
  lemma GapAlternate(hc: Int32, total: nat)
    requires total > 0 && InGap(hc)
    ensures AlternateOfHash(hc, total) == (TuplePartition(hc, total) + (TWO_31 - 31)) % total
  {
    GapHash(hc);
    ModAdd(hc + 31, TWO_31 - 31, total);
  }

  /** A key with a given closed form: its base-31 digits. */
  function KeyWithSum(t: nat): Str {
    if t < 31 then [t] else KeyWithSum(t / 31) + [t % 31]
  }

  lemma {:induction false} KeyWithSumCorrect(t: nat)
    ensures JavaSum(KeyWithSum(t)) == t
  {
    if t < 31 {
      assert JavaSum([t]) == t * Pow31(0) + JavaSum([]);
    } else {
      KeyWithSumCorrect(t / 31);
      JavaSumSnoc(KeyWithSum(t / 31), t % 31);
    }
  }

  /** Every 32-bit word is the hash of some key, so the gap is inhabited. */
  lemma HashIsOnto(hc: Int32)
    ensures exists key: Str :: JavaHash(key) == hc
  {
    var t := hc % TWO_32;
    KeyWithSumCorrect(t);
    WrapIgnores(hc, -(hc / TWO_32));
    assert JavaHash(KeyWithSum(t)) == hc;
  }

  /** A key whose alternate partition is wrong exists exactly when the number of partitions does
      not divide 2^31. */
  lemma WrongAlternateExistsIff(total: nat)
    requires total > 0
    ensures (exists key: Str :: AlternatePartition(key, total) != (TuplePartition(JavaHash(key), total) - 31) % total)
       <==> !Divides(total, TWO_31)
  {
    if !Divides(total, TWO_31) {
      HashIsOnto(-1);
      var key: Str :| JavaHash(key) == -1;
      AlternateLaw(JavaHash(key), total);
    } else {
      forall key: Str
        ensures AlternatePartition(key, total) == (TuplePartition(JavaHash(key), total) - 31) % total
      {
        AlternateLaw(JavaHash(key), total);
      }
    }
  }

  // ---------------------------------------------------------------- the two partitions of a key

  lemma ClearedWrap(x: nat)
    ensures ClearSign(Wrap32(x)) == x % TWO_31
  {
    var q := x / TWO_32;
    var m := x % TWO_32;
    if m < TWO_31 {
      assert x == m + (2 * q) * TWO_31;
    } else {
      assert x == (m - TWO_31) + (2 * q + 1) * TWO_31;
    }
  }

  /** The normal partition, from the unbounded sum. */
  lemma NormalClosedForm(key: Str, total: nat)
    requires total > 0
    ensures NormalPartition(key, total) == (JavaSum(key) % TWO_31) % total
  {
    hide JavaSum, Wrap32, ClearSign;
    ClearedWrap(JavaSum(key));
  }

  /** The two partitions of a key differ exactly if its hash is one of the 31 largest words and the
      number of partitions does not divide 2^31. */
  lemma PartitionsDifferIff(key: Str, total: nat)
    requires total > 0
    ensures NormalPartition(key, total) != AlternatePartition(key, total)
       <==> JavaHash(key) > MAX_INT32 - 31 && !Divides(total, TWO_31)
  {
    hide JavaHash;
    var hc := JavaHash(key);
    if hc > MAX_INT32 - 32 {
      PathologicalUndoesTuple(hc, total);
      TupleNearTheTop(hc);
      ModTake31(ClearSign(TupleHash(hc)), total);
      if hc > MAX_INT32 - 31 {
        ModEqualIff(hc - TWO_31, TWO_31, total);
      }
    }
  }

  lemma TupleNearTheTop(hc: Int32)
    requires hc > MAX_INT32 - 32
    ensures ClearSign(TupleHash(hc)) == if hc == MAX_INT32 - 31 then hc + 31 else hc + 31 - TWO_31
  {
  }

  const PATHOLOGICAL: Str := [0x70, 0x17, 0xad, 0x78, 0x8c, 0x5e, 0x85, 0xf1, 0x43, 0x27, 0xf8, 0x67]

  lemma FirstHalf()
    ensures Horner([0x70, 0x17, 0xad, 0x78, 0x8c, 0x5e], 0) == 3232979492
  {
  }

  lemma SecondHalf()
    ensures Horner([0x85, 0xf1, 0x43, 0x27, 0xf8, 0x67], 3232979492) == 2869281203779796963
  {
  }

  lemma PathologicalHash()
    ensures JavaHash(PATHOLOGICAL) == 2147483619
  {
    hide JavaSum, Horner;
    var first: Str, rest: Str := [0x70, 0x17, 0xad, 0x78, 0x8c, 0x5e], [0x85, 0xf1, 0x43, 0x27, 0xf8, 0x67];
    HornerIsSum(first);
    HornerExtends(first, rest);
    assert first + rest == PATHOLOGICAL;
    FirstHalf();
    SecondHalf();
  }

  /** A key with two partitions, out of 20: its own and that of the keys it is grouped with. */
  lemma KnownPartitions()
    ensures NormalPartition(PATHOLOGICAL, 20) == 19 && AlternatePartition(PATHOLOGICAL, 20) == 11
  {
    hide JavaHash;
    PathologicalHash();
  }
}
