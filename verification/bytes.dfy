/** Octets, big-endian 32-bit words and the byte-wise order used by index keys. */
module Bytes {

  type byte = x: int | 0 <= x < 256

  const TWO32: int := 0x1_0000_0000

  /** encoding/binary.BigEndian.PutUint32 on a fresh four-byte slice. */
  function BigEndian32(n: nat): (r: seq<byte>)
    requires n < TWO32
    ensures |r| == 4
  {
    [n / 0x100_0000, n / 0x1_0000 % 256, n / 256 % 256, n % 256]
  }

  /** encoding/binary.BigEndian.Uint32. */
  function FromBigEndian32(s: seq<byte>): (n: nat)
    requires |s| == 4
    ensures n < TWO32
  {
    var a: int, b: int, c: int, d: int := s[0], s[1], s[2], s[3];
    a * 0x100_0000 + b * 0x1_0000 + c * 256 + d
  }

  lemma BigEndian32RoundTrip(n: nat)
    requires n < TWO32
    ensures FromBigEndian32(BigEndian32(n)) == n
  {
    assert n / 0x1_0000 == n / 256 / 256;
    assert n / 0x100_0000 == n / 256 / 256 / 256;
  }

  /** bytes.Compare(a, b) < 0. */
  predicate LexLess(a: seq<byte>, b: seq<byte>) {
    b != [] && (a == [] || a[0] < b[0] || (a[0] == b[0] && LexLess(a[1..], b[1..])))
  }

  lemma {:induction false} LexLessIrreflexive(a: seq<byte>)
    ensures !LexLess(a, a)
  {
    if a != [] { LexLessIrreflexive(a[1..]); }
  }

  lemma {:induction false} LexLessAsymmetric(a: seq<byte>, b: seq<byte>)
    requires LexLess(a, b)
    ensures !LexLess(b, a)
  {
    if a != [] && a[0] == b[0] { LexLessAsymmetric(a[1..], b[1..]); }
  }

  lemma {:induction false} LexLessPrefix(p: seq<byte>, a: seq<byte>, b: seq<byte>)
    requires LexLess(a, b)
    ensures LexLess(p + a, p + b)
  {
    if p == [] {
      assert p + a == a && p + b == b;
    } else {
      LexLessPrefix(p[1..], a, b);
      assert (p + a)[1..] == p[1..] + a && (p + b)[1..] == p[1..] + b;
    }
  }

  lemma {:induction false} LexLessExtend(a: seq<byte>, b: seq<byte>, x: seq<byte>, y: seq<byte>)
    requires |a| == |b| && LexLess(a, b)
    ensures LexLess(a + x, b + y)
  {
    if a[0] == b[0] {
      LexLessExtend(a[1..], b[1..], x, y);
      assert (a + x)[1..] == a[1..] + x && (b + y)[1..] == b[1..] + y;
    }
  }

  lemma BigEndian32Order(m: nat, n: nat)
    requires m < n < TWO32
    ensures LexLess(BigEndian32(m), BigEndian32(n))
  {
    var a, b := BigEndian32(m), BigEndian32(n);
    BigEndian32RoundTrip(m);
    BigEndian32RoundTrip(n);
    if a[0] == b[0] {
      assert LexLess(a[1..], b[1..]) by {
        if a[1] == b[1] {
          assert LexLess(a[1..][1..], b[1..][1..]) by {
            if a[2] == b[2] {
              assert LexLess(a[1..][1..][1..], b[1..][1..][1..]);
            }
          }
        }
      }
    }
  }
}
