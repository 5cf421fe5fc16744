/** Byte strings, and the big-endian numbers that every format of the program is built from. */
module Bytes {

  type byte = b: int | 0 <= b < 256

  type bytes = seq<byte>

  const TWO_TO_32: nat := 0x1_0000_0000

  datatype Option<+T> = None | Some(value: T)

  datatype Result<+T, +E> = Ok(value: T) | Err(error: E)

  function Pow256(n: nat): (p: nat)
    ensures p > 0
  {
    if n == 0 then 1 else 256 * Pow256(n - 1)
  }

  /** The unsigned big-endian value of a byte string, as big.Int.SetBytes computes it. */
  function Value(b: bytes): nat {
    if b == [] then 0 else 256 * Value(b[..|b| - 1]) + b[|b| - 1]
  }

  /** The low `len` bytes of `n`, most significant first. */
  function Fixed(n: nat, len: nat): (b: bytes)
    ensures |b| == len
  {
    if len == 0 then [] else Fixed(n / 256, len - 1) + [n % 256]
  }

  /** The shortest big-endian form of `n`, empty for zero, as big.Int.Bytes computes it. */
  function Minimal(n: nat): bytes {
    if n == 0 then [] else Minimal(n / 256) + [n % 256]
  }

  lemma Pow256Of4()
    ensures Pow256(4) == TWO_TO_32
  {
    assert Pow256(1) == 256;
    assert Pow256(2) == 0x1_0000;
    assert Pow256(3) == 0x100_0000;
  }

  /** A 32-bit number by the digits of its base-256 form. */
  lemma FourDigits(n: nat)
    requires n < TWO_TO_32
    ensures Fixed(n, 4) == [n / 0x100_0000, n / 0x1_0000 % 256, n / 0x100 % 256, n % 256]
  {
    assert Fixed(n / 0x100_0000, 1) == [n / 0x100_0000];
    assert n / 256 / 256 / 256 == n / 0x100_0000;
    assert Fixed(n / 0x1_0000, 2) == [n / 0x100_0000, n / 0x1_0000 % 256];
    assert n / 256 / 256 == n / 0x1_0000;
    assert Fixed(n / 0x100, 3) == [n / 0x100_0000, n / 0x1_0000 % 256, n / 0x100 % 256];
  }

  lemma {:induction false} ValueBound(b: bytes)
    ensures Value(b) < Pow256(|b|)
  {
    if b == [] {
    } else {
      ValueBound(b[..|b| - 1]);
    }
  }

  lemma {:induction false} FixedOfValue(b: bytes)
    ensures Fixed(Value(b), |b|) == b
  {
    if b == [] {
    } else {
      FixedOfValue(b[..|b| - 1]);
      assert b == b[..|b| - 1] + [b[|b| - 1]];
    }
  }

  lemma {:induction false} ValueOfFixed(n: nat, len: nat)
    requires n < Pow256(len)
    ensures Value(Fixed(n, len)) == n
  {
    if len == 0 {
    } else {
      ValueOfFixed(n / 256, len - 1);
      assert Fixed(n, len)[..len - 1] == Fixed(n / 256, len - 1);
    }
  }

  /** Leading zero bytes do not change the value. */
  lemma {:induction false} ValueOfLeadingZero(b: bytes)
    ensures Value([0] + b) == Value(b)
  {
    if b == [] {
      assert ([0] + b)[..0] == [];
    } else {
      ValueOfLeadingZero(b[..|b| - 1]);
      assert ([0] + b)[..|b|] == [0] + b[..|b| - 1];
    }
  }

  lemma {:induction false} ValueOfMinimal(n: nat)
    ensures Value(Minimal(n)) == n
    ensures n > 0 ==> Minimal(n) != [] && Minimal(n)[0] != 0
    decreases n
  {
    if n == 0 {
    } else {
      ValueOfMinimal(n / 256);
      assert Minimal(n)[..|Minimal(n)| - 1] == Minimal(n / 256);
    }
  }

  lemma ValuePositive(b: bytes)
    requires b != [] && b[0] != 0
    ensures Value(b) > 0
  {
    if |b| > 1 {
      ValuePositive(b[..|b| - 1]);
    }
  }

  /** A byte string with no leading zero is the shortest form of its own value. */
  lemma {:induction false} MinimalOfValue(b: bytes)
    requires b != [] ==> b[0] != 0
    ensures Minimal(Value(b)) == b
  {
    if b == [] {
    } else {
      var front, last := b[..|b| - 1], b[|b| - 1];
      MinimalOfValue(front);
      ValuePositive(b);
      assert Value(b) / 256 == Value(front) && Value(b) % 256 == last;
      assert b == front + [last];
    }
  }

  lemma {:induction false} MinimalLength(n: nat, len: nat)
    requires n < Pow256(len)
    ensures |Minimal(n)| <= len
    decreases n
  {
    if n == 0 {
    } else {
      MinimalLength(n / 256, len - 1);
    }
  }
}
