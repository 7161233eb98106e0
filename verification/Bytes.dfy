/** Byte strings as the hashing code sees them: 32-byte digests and keys, little-endian
    integers, and Rust's lexicographic order on byte arrays. */
module Bytes {
  import opened Common

  type Byte = b: int | 0 <= b < 256
  type Bytes = seq<Byte>

  const ZERO32: Bytes :=
    [0, 0, 0, 0, 0, 0, 0, 0, 0, 0, 0, 0, 0, 0, 0, 0, 0, 0, 0, 0, 0, 0, 0, 0, 0, 0, 0, 0, 0, 0, 0, 0]

  type Digest = d: Bytes | |d| == 32 witness ZERO32

  /** A public key is any 32 bytes; it shares its representation with a digest. */
  type Pubkey = Digest

  const ZERO_DIGEST: Digest := ZERO32

  /** The low `width` bytes of `n`, least significant first. */
  function LeBytes(n: nat, width: nat): (b: Bytes)
    ensures |b| == width
    decreases width
  {
    if width == 0 then [] else [n % 256] + LeBytes(n / 256, width - 1)
  }

  function FromLe(b: Bytes): (n: nat)
    ensures n < Pow256(|b|)
  {
    if b == [] then 0 else b[0] + 256 * FromLe(b[1..])
  }

  function Pow256(width: nat): (n: nat)
    ensures n > 0
  {
    if width == 0 then 1 else 256 * Pow256(width - 1)
  }

  lemma MulStep(d: nat, p: nat, q: nat)
    requires p < q
    ensures d * p + d <= d * q
  {
    assert d * q - d * p - d == d * (q - p - 1) >= 0;
  }

  /** There is one quotient. */
  lemma OneQuotient(d: nat, p: nat, x: nat, q: nat, y: nat)
    requires d * p + x == d * q + y && x < d && y < d
    ensures p == q
  {
    if p < q {
      MulStep(d, p, q);
    } else if q < p {
      MulStep(d, q, p);
    }
  }

  lemma Regroup(m: nat, low: nat, b: nat, q: nat, r: nat)
    requires m == b * q + r && r < b && low < 256
    ensures 256 * m + low == (256 * b) * q + (256 * r + low) && 256 * r + low < 256 * b
  {
    assert (256 * b) * q == 256 * (b * q);
  }

  lemma Divides(n: nat, d: nat)
    requires d > 0
    ensures n == d * (n / d) + n % d && n % d < d
  {
  }

  lemma QuotientIs(n: nat, d: nat, q: nat, rest: nat)
    requires n == d * q + rest && rest < d
    ensures n / d == q
  {
    Divides(n, d);
    OneQuotient(d, q, rest, n / d, n % d);
  }

  lemma DivDiv(n: nat, b: nat, d: nat, m: nat, q: nat)
    requires b > 0 && d == 256 * b && m == n / 256 && q == m / b
    ensures n / d == q
  {
    Divides(m, b);
    Regroup(m, n % 256, b, q, m % b);
    QuotientIs(n, d, q, 256 * (m % b) + n % 256);
  }

  /** Byte `i` is digit `i` of the number in base 256, least significant first. */
  lemma {:induction false} LeByteAt(n: nat, width: nat, i: nat)
    requires i < width
    ensures LeBytes(n, width)[i] == n / Pow256(i) % 256
    decreases i
  {
    if i == 0 {
    } else {
      LeByteAt(n / 256, width - 1, i - 1);
      var b := Pow256(i - 1);
      DivDiv(n, b, Pow256(i), n / 256, n / 256 / b);
    }
  }

  /** Little-endian encoding loses nothing as long as the number fits. */
  lemma {:induction false} LeRoundTrip(n: nat, width: nat)
    requires n < Pow256(width)
    ensures FromLe(LeBytes(n, width)) == n
    decreases width
  {
    if width == 0 {
    } else {
      LeRoundTrip(n / 256, width - 1);
      assert LeBytes(n, width)[1..] == LeBytes(n / 256, width - 1);
    }
  }

  lemma U64FitsEightBytes()
    ensures Pow256(8) == U64_MAX + 1
  {
    calc {
      Pow256(8);
      256 * 256 * Pow256(6);
      256 * 256 * 256 * 256 * Pow256(4);
      256 * 256 * 256 * 256 * 256 * 256 * Pow256(2);
      U64_MAX + 1;
    }
  }

  lemma LeU64Injective(m: U64, n: U64)
    requires LeBytes(m, 8) == LeBytes(n, 8)
    ensures m == n
  {
    U64FitsEightBytes();
    LeRoundTrip(m, 8);
    LeRoundTrip(n, 8);
  }

  /** `u64::from_le_bytes`. */
  function U64FromLe(b: Bytes): U64
    requires |b| == 8
  {
    U64FitsEightBytes();
    FromLe(b)
  }

  /** Rust's `<=` on byte arrays: lexicographic. */
  predicate LexLe(a: Bytes, b: Bytes) {
    if a == [] then true
    else if b == [] then false
    else if a[0] != b[0] then a[0] < b[0]
    else LexLe(a[1..], b[1..])
  }

  /** Of two different strings of one length the first has the smaller byte where they part. */
  lemma {:induction false} LexLeParts(a: Bytes, b: Bytes) returns (i: nat)
    requires LexLe(a, b) && |a| == |b| && a != b
    ensures i < |a| && a[i] < b[i] && a[..i] == b[..i]
  {
    if a[0] != b[0] {
      i := 0;
    } else {
      assert a == [a[0]] + a[1..] && b == [b[0]] + b[1..];
      var j := LexLeParts(a[1..], b[1..]);
      i := j + 1;
      assert a[..i] == [a[0]] + a[1..][..j] && b[..i] == [b[0]] + b[1..][..j];
    }
  }

  lemma {:induction false} LexLeTotal(a: Bytes, b: Bytes)
    ensures LexLe(a, b) || LexLe(b, a)
  {
    if a == [] || b == [] {
    } else {
      LexLeTotal(a[1..], b[1..]);
    }
  }

  lemma {:induction false} LexLeAntisymmetric(a: Bytes, b: Bytes)
    requires LexLe(a, b) && LexLe(b, a)
    ensures a == b
  {
    if a == [] || b == [] {
    } else {
      LexLeAntisymmetric(a[1..], b[1..]);
      assert a == [a[0]] + a[1..] && b == [b[0]] + b[1..];
    }
  }
}
