/** Results of fallible operations, fixed-width integers and big-endian bytes. */
module Wire {

  datatype Option<+T> = None | Some(value: T)

  datatype Result<+T, +E> = Ok(value: T) | Err(error: E)

  type byte = x: int | 0 <= x < 0x100
  type u16 = x: int | 0 <= x < 0x1_0000
  type u32 = x: int | 0 <= x < 0x1_0000_0000
  type u64 = x: int | 0 <= x < 0x1_0000_0000_0000_0000

  type i64 = x: int | -0x8000_0000_0000_0000 <= x < 0x8000_0000_0000_0000

  const U16_MAX: u16 := 0xFFFF
  const U64_MAX: u64 := 0xFFFF_FFFF_FFFF_FFFF
  const TWO64 := 0x1_0000_0000_0000_0000
  const TWO128 := 0x1_0000_0000_0000_0000_0000_0000_0000_0000

  function Min(a: int, b: int): int { if a <= b then a else b }

  function Max(a: int, b: int): int { if a >= b then a else b }

  /** What is left of a number in 64 bits. */
  function Wrap(x: int): u64 { x % TWO64 }

  lemma WrapExact(x: int)
    ensures 0 <= x < TWO64 ==> Wrap(x) == x
  {
  }

  lemma WrapAdd(x: int, y: int)
    ensures Wrap(Wrap(x) + y) == Wrap(x + y)
  {
  }

  function Pow256(width: nat): (p: nat)
    ensures p > 0
  {
    if width == 0 then 1 else 256 * Pow256(width - 1)
  }

  /** The low `width` bytes of `n`, most significant first. */
  function Be(n: nat, width: nat): (s: seq<byte>)
    ensures |s| == width
  {
    if width == 0 then [] else Be(n / 256, width - 1) + [n % 256]
  }

  function FromBe(s: seq<byte>): nat {
    if s == [] then 0 else 256 * FromBe(s[..|s| - 1]) + s[|s| - 1]
  }

  /** The big-endian number in the two bytes at `pos`. */
  function U16At(buf: seq<byte>, pos: nat): u16
    requires pos + 2 <= |buf|
  {
    (buf[pos] as int) * 256 + buf[pos + 1]
  }

  lemma {:induction false} BeRoundTrip(n: nat, width: nat)
    requires n < Pow256(width)
    ensures FromBe(Be(n, width)) == n
  {
    if width > 0 {
      BeRoundTrip(n / 256, width - 1);
      assert Be(n, width)[..width - 1] == Be(n / 256, width - 1);
    }
  }

  lemma {:induction false} FromBeRoundTrip(s: seq<byte>)
    ensures FromBe(s) < Pow256(|s|) && Be(FromBe(s), |s|) == s
  {
    if s != [] {
      FromBeRoundTrip(s[..|s| - 1]);
      assert s == s[..|s| - 1] + [s[|s| - 1]];
    }
  }

  /** Most significant byte first. */
  lemma {:induction false} BeHighByte(n: nat, width: nat)
    requires n < Pow256(width + 1)
    ensures Be(n, width + 1) == [n / Pow256(width)] + Be(n % Pow256(width), width)
  {
    if width > 0 {
      BeHighByte(n / 256, width - 1);
      var p := Pow256(width - 1);
      SplitDigits(n, p);
      assert n / 256 / p == n / (256 * p) && n % (256 * p) / 256 == n / 256 % p && n % (256 * p) % 256 == n % 256;
    }
  }

  lemma SplitDigits(n: nat, p: nat)
    requires p > 0
    ensures n / 256 / p == n / (256 * p) && n % (256 * p) / 256 == n / 256 % p && n % (256 * p) % 256 == n % 256
  {
    var q, r := n / 256 / p, n / 256 % p;
    assert n == 256 * (p * q + r) + n % 256;
    assert n == (256 * p) * q + (256 * r + n % 256);
    Euclid(n, 256 * p, q, 256 * r + n % 256);
    Euclid(256 * r + n % 256, 256, r, n % 256);
  }

  lemma Euclid(n: nat, d: nat, q: nat, r: nat)
    requires n == d * q + r && r < d
    ensures n / d == q && n % d == r
  {
    var q' := n / d;
    assert n == d * q' + n % d;
    assert d * (q' - q) == d * q' - d * q;
    AtLeastOnce(d, q' - q);
  }

  lemma NotNegative(d: nat, m: nat)
    ensures d * m >= 0
  {
  }

  lemma AtLeastOnce(d: nat, k: int)
    ensures (k >= 1 ==> d * k >= d) && (k <= -1 ==> d * k + d <= 0)
  {
    if k >= 1 {
      NotNegative(d, k - 1);
      assert d * k == d * (k - 1) + d;
    } else if k <= -1 {
      NotNegative(d, -k - 1);
      assert d * k == -(d * (-k - 1)) - d;
    }
  }

  /** In figures: the first byte weighs most. */
  lemma BigEndian()
    ensures Be(0x0102, 2) == [1, 2] && Be(0x01020304, 4) == [1, 2, 3, 4]
    ensures Be(0x0102030405060708, 8) == [1, 2, 3, 4, 5, 6, 7, 8]
    ensures U16At([9, 1, 2], 1) == 0x0102 && TWO64 * TWO64 == TWO128 && U64_MAX == TWO64 - 1
  {
    Widths();
    hide Be, Pow256;
    assert Be(0, 0) == [];
    BeStep(1, 0);
    BeStep(0x0102, 1);
    BeStep(0x010203, 2);
    BeStep(0x01020304, 3);
    BeStep(0x0102030405, 4);
    BeStep(0x010203040506, 5);
    BeStep(0x01020304050607, 6);
    BeStep(0x0102030405060708, 7);
  }

  lemma BeStep(n: nat, width: nat)
    ensures Be(n, width + 1) == Be(n / 256, width) + [n % 256]
  {
  }

  lemma Widths()
    ensures Pow256(1) == 0x100 && Pow256(2) == 0x1_0000
    ensures Pow256(4) == 0x1_0000_0000 && Pow256(8) == TWO64
  {
  }
}
