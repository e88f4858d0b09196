/** Unsigned integers as the target stores them: little-endian, in a fixed number of bytes. */
module LittleEndian {
  import opened Common

  function Pow256(n: nat): (p: nat)
    ensures p > 0
  {
    if n == 0 then 1 else 256 * Pow256(n - 1)
  }

  function Encode(v: nat, n: nat): (b: Bytes)
    ensures |b| == n
  {
    seq(n, i requires 0 <= i < n => v / Pow256(i) % 256)
  }

  function Decode(b: Bytes): (v: nat)
    ensures v < Pow256(|b|)
  {
    if |b| == 0 then 0 else b[0] + 256 * Decode(b[1..])
  }

  lemma TimesMonotone(a: nat, b: nat, m: nat)
    requires a <= b
    ensures a * m <= b * m
  {
    assert b * m == a * m + (b - a) * m;
  }

  /** The quotient is the only number whose multiple of `b` starts the stretch `a` lies in. */
  lemma DivisionUnique(a: nat, b: nat, q: nat)
    requires b > 0 && q * b <= a < (q + 1) * b
    ensures a / b == q
  {
    var p := a / b;
    assert p * b <= a < (p + 1) * b;
    if p < q {
      TimesMonotone(p + 1, q, b);
    } else if q < p {
      TimesMonotone(q + 1, p, b);
    }
  }

  lemma DivideTwice(v: nat, p: nat)
    requires p > 0
    ensures v / (256 * p) == v / 256 / p
  {
    var q := v / 256 / p;
    assert q * p <= v / 256 < (q + 1) * p;
    assert q * (256 * p) == 256 * (q * p);
    assert (q + 1) * (256 * p) == 256 * ((q + 1) * p);
    DivisionUnique(v, 256 * p, q);
  }

  lemma EncodeTail(v: nat, n: nat)
    requires n > 0
    ensures Encode(v, n)[0] == v % 256 && Encode(v, n)[1..] == Encode(v / 256, n - 1)
  {
    assert Pow256(0) == 1;
    forall i | 0 <= i < n - 1 ensures Encode(v, n)[1..][i] == Encode(v / 256, n - 1)[i] {
      DivideTwice(v, Pow256(i));
    }
  }

  lemma {:induction false} DecodeEncode(v: nat, n: nat)
    requires v < Pow256(n)
    ensures Decode(Encode(v, n)) == v
  {
    if n != 0 {
      DecodeEncode(v / 256, n - 1);
      EncodeTail(v, n);
    }
  }

  lemma Widths()
    ensures Pow256(1) == 256 && Pow256(4) == TWO32 && Pow256(8) == TWO64
  {
    assert Pow256(2) == 65536;
    assert Pow256(3) == 0x100_0000;
    assert Pow256(4) == TWO32;
    assert Pow256(5) == 256 * TWO32;
    assert Pow256(6) == 65536 * TWO32;
    assert Pow256(7) == 0x100_0000 * TWO32;
  }

  /** The low byte comes first. */
  lemma DecodeFour(b: Bytes)
    requires |b| >= 4
    ensures Decode(b) == b[0] + 0x100 * b[1] + 0x1_0000 * b[2] + 0x100_0000 * b[3] + TWO32 * Decode(b[4..])
  {
    assert Decode(b) == b[0] + 256 * Decode(b[1..]);
    assert Decode(b[1..]) == b[1] + 256 * Decode(b[1..][1..]) && b[1..][1..] == b[2..];
    assert Decode(b[2..]) == b[2] + 256 * Decode(b[2..][1..]) && b[2..][1..] == b[3..];
    assert Decode(b[3..]) == b[3] + 256 * Decode(b[3..][1..]) && b[3..][1..] == b[4..];
  }

  lemma PowerValues()
    ensures Pow256(0) == 1 && Pow256(1) == 0x100 && Pow256(2) == 0x1_0000 && Pow256(3) == 0x100_0000
  {
    assert Pow256(1) == 256 * Pow256(0);
    assert Pow256(2) == 256 * Pow256(1);
  }

  /** A 32-bit number in four bytes, low byte first, and in eight, with zeros on top. */
  lemma EncodeWord(v: nat)
    requires v < TWO32
    ensures Encode(v, 4) == [v % 256, v / 0x100 % 256, v / 0x1_0000 % 256, v / 0x100_0000 % 256]
    ensures Encode(v, 8)
            == [v % 256, v / 0x100 % 256, v / 0x1_0000 % 256, v / 0x100_0000 % 256, 0, 0, 0, 0]
  {
    PowerValues();
    forall i | 4 <= i < 8 ensures v / Pow256(i) == 0 {
      PowerGrows(4, i);
      DivisionUnique(v, Pow256(i), 0);
    }
  }

  lemma {:induction false} PowerGrows(m: nat, n: nat)
    requires m <= n
    ensures Pow256(m) <= Pow256(n) && (m == 4 ==> TWO32 <= Pow256(n))
  {
    Widths();
    if m < n {
      PowerGrows(m, n - 1);
    }
  }

  lemma LowByte(a: Byte, x: nat)
    ensures (a + 256 * x) % 256 == a && (a + 256 * x) / 256 == x
  {
  }

  lemma WordBytes(a: Byte, b: Byte, c: Byte, d: Byte)
    ensures var v := a + 0x100 * b + 0x1_0000 * c + 0x100_0000 * d;
            v < TWO32 && v % 256 == a && v / 0x100 % 256 == b && v / 0x1_0000 % 256 == c && v / 0x100_0000 % 256 == d
  {
    var z := c + 256 * d;
    var y := b + 256 * z;
    var v := a + 256 * y;
    LowByte(a, y);
    LowByte(b, z);
    LowByte(c, d);
    DivideTwice(v, 0x100);
    DivideTwice(v, 0x1_0000);
    DivideTwice(y, 0x100);
  }
}
