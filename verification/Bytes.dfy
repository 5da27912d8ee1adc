/** Octets and the little-endian numbers that the Version 0 protocol is made of. */
module Bytes {
  type byte = x: int | 0 <= x < 0x100
  type uint16 = x: int | 0 <= x < 0x1_0000
  type uint64 = x: int | 0 <= x < 0x1_0000_0000_0000_0000

  datatype Option<+T> = None | Some(value: T)

  function Zeros(n: nat): (s: seq<byte>)
    ensures |s| == n && forall i | 0 <= i < n :: s[i] == 0
  {
    seq<byte>(n, _ => 0)
  }

  /** The `width` lowest bytes of `n`, least significant first. */
  function LittleEndian(n: nat, width: nat): (s: seq<byte>)
    ensures |s| == width
  {
    if width == 0 then [] else [n % 0x100] + LittleEndian(n / 0x100, width - 1)
  }

  /** The number that a little-endian byte sequence stands for. */
  function FromLittleEndian(s: seq<byte>): nat {
    if s == [] then 0 else s[0] + 0x100 * FromLittleEndian(s[1..])
  }

  /** How many numbers `width` bytes can hold. */
  function Capacity(width: nat): nat {
    if width == 0 then 1 else 0x100 * Capacity(width - 1)
  }

  lemma {:induction false} EncodeThenDecode(n: nat, width: nat)
    requires n < Capacity(width)
    ensures FromLittleEndian(LittleEndian(n, width)) == n
  {
    if width > 0 {
      EncodeThenDecode(n / 0x100, width - 1);
    }
  }

  lemma Digits(low: byte, high: nat)
    ensures (low + 0x100 * high) % 0x100 == low && (low + 0x100 * high) / 0x100 == high
  {
  }

  lemma {:induction false} DecodeThenEncode(s: seq<byte>)
    ensures FromLittleEndian(s) < Capacity(|s|)
    ensures LittleEndian(FromLittleEndian(s), |s|) == s
  {
    if s != [] {
      DecodeThenEncode(s[1..]);
      Digits(s[0], FromLittleEndian(s[1..]));
      assert s == [s[0]] + s[1..];
    }
  }

  lemma Multiple(d: nat, m: nat)
    requires 0 < m
    ensures d * m >= d
  {
  }

  lemma Distribute(d: int, a: int, b: int)
    ensures d * (a + b) == d * a + d * b
  {
  }

  /** Quotient and remainder are unique. */
  lemma QuotientIs(n: nat, d: nat, q: nat, r: nat)
    requires r < d && n == d * q + r
    ensures n / d == q
  {
    var k, t := n / d, n % d;
    assert n == d * k + t;
    if k < q {
      Distribute(d, k, q - k);
      Multiple(d, q - k);
    } else if q < k {
      Distribute(d, q, k - q);
      Multiple(d, k - q);
    }
  }

  lemma DivideTwice(n: nat, b: nat)
    requires 0 < b
    ensures n / (0x100 * b) == (n / 0x100) / b
  {
    var q, r := n / 0x100, n % 0x100;
    var p, t := q / b, q % b;
    assert q == b * p + t;
    assert n == 0x100 * q + r == 0x100 * (b * p) + 0x100 * t + r;
    Associates(b, p);
    QuotientIs(n, 0x100 * b, p, 0x100 * t + r);
  }

  lemma Associates(b: int, p: int)
    ensures 0x100 * (b * p) == (0x100 * b) * p
  {
  }

  lemma {:induction false} CapacityIsPositive(width: nat)
    ensures Capacity(width) > 0
  {
    if width > 0 { CapacityIsPositive(width - 1); }
  }

  /** Byte `i` of an encoded number is its digit for 256 to the power of `i`. */
  lemma {:induction false} DigitAt(n: nat, width: nat, i: nat)
    requires i < width
    ensures Capacity(i) > 0 && LittleEndian(n, width)[i] == (n / Capacity(i)) % 0x100
  {
    CapacityIsPositive(i);
    if i > 0 {
      DigitAt(n / 0x100, width - 1, i - 1);
      DivideTwice(n, Capacity(i - 1));
    }
  }

  lemma WidthsOfTheProtocol()
    ensures Capacity(2) == 0x1_0000
    ensures Capacity(8) == 0x1_0000_0000_0000_0000
  {
    assert Capacity(4) == 0x1_0000_0000;
  }

  lemma Associative<T>(a: seq<T>, b: seq<T>, c: seq<T>)
    ensures (a + b) + c == a + (b + c)
  {
  }

  /** All byte strings of a list, one after the other. */
  function Flatten(parts: seq<seq<byte>>): seq<byte> {
    if parts == [] then [] else parts[0] + Flatten(parts[1..])
  }

  lemma {:induction false} FlattenAppend(a: seq<seq<byte>>, b: seq<seq<byte>>)
    ensures Flatten(a + b) == Flatten(a) + Flatten(b)
  {
    if a == [] {
      assert a + b == b;
    } else {
      FlattenAppend(a[1..], b);
      assert (a + b)[1..] == a[1..] + b;
      Associative(a[0], Flatten(a[1..]), Flatten(b));
    }
  }
}
