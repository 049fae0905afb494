/** Byte strings, their lexicographic order, and big-endian integers. */
module Bytes {
  import opened Orders

  type byte = x: int | 0 <= x < 256
  type u32 = x: int | 0 <= x < 0x1_0000_0000
  type u64 = x: int | 0 <= x < 0x1_0000_0000_0000_0000

  /** bytes.Compare(a, b) < 0 */
  predicate Less(a: seq<byte>, b: seq<byte>) {
    b != [] && (a == [] || a[0] < b[0] || (a[0] == b[0] && Less(a[1..], b[1..])))
  }

  lemma LessIrreflexive(a: seq<byte>)
    ensures !Less(a, a)
  {
  }

  lemma {:induction false} LessTransitive(a: seq<byte>, b: seq<byte>, c: seq<byte>)
    requires Less(a, b) && Less(b, c)
    ensures Less(a, c)
  {
    if a != [] && a[0] == b[0] == c[0] {
      LessTransitive(a[1..], b[1..], c[1..]);
    }
  }

  lemma {:induction false} LessTotal(a: seq<byte>, b: seq<byte>)
    ensures a == b || Less(a, b) || Less(b, a)
  {
    if a != [] && b != [] && a[0] == b[0] {
      LessTotal(a[1..], b[1..]);
      assert a == [a[0]] + a[1..] && b == [b[0]] + b[1..];
    }
  }

  lemma LessIsStrictOrder()
    ensures StrictOrder(Less)
  {
    forall x: seq<byte> ensures !Less(x, x) {
      LessIrreflexive(x);
    }
    forall x, y, z: seq<byte> | Less(x, y) && Less(y, z) ensures Less(x, z) {
      LessTransitive(x, y, z);
    }
  }

  // ---- big-endian integers (encoding/binary) ----

  function PutU32(n: u32): (s: seq<byte>)
    ensures |s| == 4
  {
    [n / 0x100_0000, n / 0x1_0000 % 256, n / 256 % 256, n % 256]
  }

  function U32(s: seq<byte>): u32
    requires |s| == 4
  {
    var a: int, b: int, c: int := s[0], s[1], s[2];
    a * 0x100_0000 + b * 0x1_0000 + c * 256 + s[3]
  }

  lemma U32RoundTrip(n: u32)
    ensures U32(PutU32(n)) == n
  {
    assert n == n / 256 * 256 + n % 256;
    assert n / 256 == n / 256 / 256 * 256 + n / 256 % 256;
    assert n / 256 / 256 == n / 0x1_0000;
    assert n / 0x1_0000 == n / 0x1_0000 / 256 * 256 + n / 0x1_0000 % 256;
    assert n / 0x1_0000 / 256 == n / 0x100_0000;
  }

  function PutU64(n: u64): (s: seq<byte>)
    ensures |s| == 8
  {
    PutU32(n / 0x1_0000_0000) + PutU32(n % 0x1_0000_0000)
  }

  function U64(s: seq<byte>): u64
    requires |s| == 8
  {
    U32(s[..4]) * 0x1_0000_0000 + U32(s[4..])
  }

  lemma U64RoundTrip(n: u64)
    ensures U64(PutU64(n)) == n
  {
    U32RoundTrip(n / 0x1_0000_0000);
    U32RoundTrip(n % 0x1_0000_0000);
    assert PutU64(n)[..4] == PutU32(n / 0x1_0000_0000);
    assert PutU64(n)[4..] == PutU32(n % 0x1_0000_0000);
  }

  lemma U32Bytes(s: seq<byte>)
    requires |s| == 4
    ensures PutU32(U32(s)) == s
  {
    var a: int, b: int, c: int, d: int := s[0], s[1], s[2], s[3];
    var x, y := a * 256 + b, (a * 256 + b) * 256 + c;
    var n: int := U32(s);
    assert n == y * 256 + d;
    Digit(y, d);
    Digit(x, c);
    Digit(a, b);
    assert n / 0x1_0000 == n / 256 / 256 && n / 0x100_0000 == n / 256 / 256 / 256;
  }

  lemma Digit(q: int, d: int)
    requires 0 <= d < 256
    ensures (q * 256 + d) / 256 == q && (q * 256 + d) % 256 == d
  {
  }

  lemma U64Bytes(s: seq<byte>)
    requires |s| == 8
    ensures PutU64(U64(s)) == s
  {
    hide U32, PutU32;
    U32Bytes(s[..4]);
    U32Bytes(s[4..]);
    var high: int, low: int := U32(s[..4]), U32(s[4..]);
    assert U64(s) / 0x1_0000_0000 == high && U64(s) % 0x1_0000_0000 == low;
    assert s == s[..4] + s[4..];
  }

  /** The bytes are the digits of the number, the most significant first: their order is that of the numbers. */
  lemma BigEndian(m: u32, n: u32)
    ensures Less(PutU32(m), PutU32(n)) <==> m < n
  {
    var s, t := PutU32(m), PutU32(n);
    U32RoundTrip(m);
    U32RoundTrip(n);
    var a: int, b: int, c: int, d: int := s[0], s[1], s[2], s[3];
    var e: int, f: int, g: int, h: int := t[0], t[1], t[2], t[3];
    assert m == a * 0x100_0000 + b * 0x1_0000 + c * 256 + d;
    assert n == e * 0x100_0000 + f * 0x1_0000 + g * 256 + h;
    Less4(s, t);
  }

  lemma Less4(s: seq<byte>, t: seq<byte>)
    requires |s| == 4 && |t| == 4
    ensures Less(s, t) <==>
            || s[0] < t[0]
            || (s[0] == t[0] && (s[1] < t[1] || (s[1] == t[1] && (s[2] < t[2] || (s[2] == t[2] && s[3] < t[3])))))
  {
    assert Less(s, t) <==> s[0] < t[0] || (s[0] == t[0] && Less(s[1..], t[1..]));
    var u, v := s[1..], t[1..];
    assert Less(u, v) <==> u[0] < v[0] || (u[0] == v[0] && Less(u[1..], v[1..]));
    var w, x := u[1..], v[1..];
    assert Less(w, x) <==> w[0] < x[0] || (w[0] == x[0] && Less(w[1..], x[1..]));
    var y, z := w[1..], x[1..];
    assert Less(y, z) <==> y[0] < z[0] || (y[0] == z[0] && Less(y[1..], z[1..]));
    assert !Less(y[1..], z[1..]);
  }

  /** a and b agree on their first n bytes, and there a ends or has the smaller byte. */
  predicate PrecedesAt(a: seq<byte>, b: seq<byte>, n: nat) {
    n <= |a| && n < |b| && a[..n] == b[..n] && (n == |a| || a[n] < b[n])
  }

  lemma PrecedesOneLater(a: seq<byte>, b: seq<byte>, n: nat)
    requires a != [] && b != [] && a[0] == b[0]
    ensures PrecedesAt(a, b, n + 1) <==> PrecedesAt(a[1..], b[1..], n)
  {
    if n < |a| && n < |b| {
      assert a[..n + 1] == [a[0]] + a[1..][..n] && b[..n + 1] == [b[0]] + b[1..][..n];
      assert a[1..][..n] == a[..n + 1][1..] && b[1..][..n] == b[..n + 1][1..];
    }
  }

  /** bytes.Compare: the first difference decides, and a proper prefix comes first. */
  lemma {:induction false} LessExactly(a: seq<byte>, b: seq<byte>)
    ensures Less(a, b) <==> exists n: nat :: PrecedesAt(a, b, n)
  {
    if a != [] && b != [] && a[0] == b[0] {
      LessExactly(a[1..], b[1..]);
      if Less(a, b) {
        var n: nat :| PrecedesAt(a[1..], b[1..], n);
        PrecedesOneLater(a, b, n);
      }
      if n: nat :| PrecedesAt(a, b, n) {
        PrecedesOneLater(a, b, n - 1);
      }
    } else {
      if Less(a, b) {
        assert PrecedesAt(a, b, 0);
      }
      if n: nat :| PrecedesAt(a, b, n) {
        assert n == 0 || a[..n][0] == b[..n][0];
      }
    }
  }
}
