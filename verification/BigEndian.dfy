/** Minimal big-endian byte strings, used for RLP length prefixes and RLP integers. */
module BigEndian {
  import opened Primitives

  /** The big-endian bytes of n without leading zeros; zero is the empty string. */
  function ToBytes(n: nat): (b: ByteString) {
    if n == 0 then [] else ToBytes(n / 256) + [n % 256]
  }

  function FromBytes(b: ByteString): (n: nat) {
    if b == [] then 0 else 256 * FromBytes(b[..|b| - 1]) + b[|b| - 1]
  }

  function Pow256(k: nat): (p: nat)
    ensures p > 0
  {
    if k == 0 then 1 else 256 * Pow256(k - 1)
  }

  lemma {:induction false} Pow256Widths()
    ensures Pow256(4) == 0x1_0000_0000
    ensures Pow256(8) == U64_LIMIT
    ensures Pow256(16) == U128_LIMIT
  {
    assert Pow256(2) == 0x1_0000;
    assert Pow256(4) == 0x1_0000_0000;
    assert Pow256(6) == 0x1_0000_0000_0000;
    assert Pow256(8) == U64_LIMIT;
    assert Pow256(10) == U64_LIMIT * 0x1_0000;
    assert Pow256(12) == U64_LIMIT * 0x1_0000_0000;
    assert Pow256(14) == U64_LIMIT * 0x1_0000_0000_0000;
  }

  lemma {:induction false} FromToBytes(n: nat)
    ensures FromBytes(ToBytes(n)) == n
  {
    if n > 0 {
      FromToBytes(n / 256);
      assert ToBytes(n)[..|ToBytes(n)| - 1] == ToBytes(n / 256);
    }
  }

  lemma {:induction false} ToBytesInjective(m: nat, n: nat)
    requires ToBytes(m) == ToBytes(n)
    ensures m == n
  {
    FromToBytes(m);
    FromToBytes(n);
  }

  /** A value below 256^k needs at most k bytes. */
  lemma {:induction false} ToBytesWidth(n: nat, k: nat)
    requires n < Pow256(k)
    ensures |ToBytes(n)| <= k
  {
    if n > 0 {
      ToBytesWidth(n / 256, k - 1);
    }
  }

  lemma {:induction false} U64Width(n: u64)
    ensures |ToBytes(n)| <= 8
  {
    Pow256Widths();
    ToBytesWidth(n, 8);
  }

  lemma {:induction false} U128Width(n: u128)
    ensures |ToBytes(n)| <= 16
  {
    Pow256Widths();
    ToBytesWidth(n, 16);
  }

  lemma {:induction false} FromBytesBound(b: ByteString)
    ensures FromBytes(b) < Pow256(|b|)
  {
    if b != [] {
      FromBytesBound(b[..|b| - 1]);
    }
  }

  lemma {:induction false} ToBytesMonotone(m: nat, n: nat)
    requires m <= n
    ensures |ToBytes(m)| <= |ToBytes(n)|
  {
    if m > 0 {
      ToBytesMonotone(m / 256, n / 256);
    }
  }

  /** Re-encoding a length field never needs more bytes than it was read from. */
  lemma {:induction false} MinimalBytes(b: ByteString)
    ensures |ToBytes(FromBytes(b))| <= |b|
  {
    FromBytesBound(b);
    ToBytesWidth(FromBytes(b), |b|);
  }

  /** The first byte of a minimal byte string is not zero. */
  lemma {:induction false} NoLeadingZero(n: nat)
    requires n > 0
    ensures |ToBytes(n)| > 0 && ToBytes(n)[0] != 0
  {
    if n >= 256 {
      NoLeadingZero(n / 256);
    }
  }

  /** Number of significant bits: the word size minus the leading zero count. */
  function BitLength(n: nat): (bits: nat) {
    if n == 0 then 0 else 1 + BitLength(n / 2)
  }

  lemma {:induction false} BitLengthOfByte(n: nat)
    requires 0 < n < 256
    ensures 1 <= BitLength(n) <= 8
  {
    BitLengthWithin(n, 8, 256);
  }

  lemma {:induction false} BitLengthWithin(n: nat, k: nat, limit: nat)
    requires k <= 8 && limit == [1, 2, 4, 8, 16, 32, 64, 128, 256][k] && n < limit
    ensures BitLength(n) <= k
  {
    if n > 0 {
      BitLengthWithin(n / 2, k - 1, limit / 2);
    }
  }

  lemma {:induction false} BitLengthStep(n: nat)
    requires n >= 256
    ensures BitLength(n) == 8 + BitLength(n / 256)
  {
    assert n / 2 / 2 == n / 4 && n / 4 / 2 / 2 == n / 16 && n / 16 / 2 / 2 == n / 64 && n / 64 / 2 / 2 == n / 256;
    assert BitLength(n) == 2 + BitLength(n / 4);
    assert BitLength(n / 4) == 2 + BitLength(n / 16);
    assert BitLength(n / 16) == 2 + BitLength(n / 64);
    assert BitLength(n / 64) == 2 + BitLength(n / 256);
  }

  /** Rounding the bit length up to bytes counts exactly the minimal bytes. */
  lemma {:induction false} BitLengthCountsBytes(n: nat)
    ensures (BitLength(n) + 7) / 8 == |ToBytes(n)|
  {
    if n >= 256 {
      BitLengthStep(n);
      BitLengthCountsBytes(n / 256);
    } else if n > 0 {
      BitLengthOfByte(n);
      assert ToBytes(n / 256) == [];
    }
  }
}
