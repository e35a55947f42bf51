/** Big-endian numerals of a fixed number of bytes. */
module BigEndian {
  import opened Wrappers

  type Bytes = seq<bv8>

  /** The byte with a given value, by counting up to it. */
  function Octet(n: nat): (b: bv8)
    requires n < 256
    ensures b as nat == n
  {
    if n == 0 then 0 else Successor(Octet(n - 1))
  }

  function Successor(b: bv8): (c: bv8)
    ensures b as nat < 255 ==> c as nat == b as nat + 1
  {
    b + 1
  }

  function Byte(n: nat): (b: bv8)
    ensures b as nat == n % 256
  {
    Octet(n % 256)
  }

  /** The low `k` bytes of `n`, most significant first. */
  function ToBytes(n: nat, k: nat): (s: Bytes)
    ensures |s| == k
  {
    if k == 0 then [] else ToBytes(n / 256, k - 1) + [Byte(n)]
  }

  function FromBytes(s: Bytes): nat {
    if s == [] then 0 else FromBytes(s[..|s| - 1]) * 256 + s[|s| - 1] as nat
  }

  function Pow256(k: nat): (p: nat)
    ensures p > 0
  {
    if k == 0 then 1 else 256 * Pow256(k - 1)
  }

  /** A right shift by `k` bytes. */
  function Shifted(n: nat, k: nat): nat { if k == 0 then n else Shifted(n, k - 1) / 256 }

  lemma {:induction false} FromToBytes(n: nat, k: nat)
    requires n < Pow256(k)
    ensures FromBytes(ToBytes(n, k)) == n
  {
    if k == 0 {
    } else {
      Quotient(n, k);
      hide Byte, Pow256, FromBytes;
      FromToBytes(n / 256, k - 1);
      FromConcat(ToBytes(n / 256, k - 1), Byte(n));
      assert n == n / 256 * 256 + n % 256;
    }
  }

  lemma Quotient(n: nat, k: nat)
    requires k > 0 && n < Pow256(k)
    ensures n / 256 < Pow256(k - 1)
  {}

  lemma {:induction false} FromBytesBound(s: Bytes)
    ensures FromBytes(s) < Pow256(|s|)
  {
    if s == [] {
    } else {
      FromBytesBound(s[..|s| - 1]);
    }
  }

  lemma Two()
    ensures Pow256(2) == 65536
  {
    assert Pow256(1) == 256;
  }

  lemma Eight()
    ensures Pow256(8) == TWO64
  {
    Two();
    assert Pow256(4) == 256 * Pow256(3) == 256 * (256 * Pow256(2));
    assert Pow256(6) == 256 * Pow256(5) == 256 * (256 * Pow256(4));
    assert Pow256(8) == 256 * Pow256(7) == 256 * (256 * Pow256(6));
  }

  lemma FromTwo(s: Bytes)
    requires |s| == 2
    ensures FromBytes(s) == s[0] as nat * 256 + s[1] as nat
  {
    assert s[..1] == [s[0]];
    assert [s[0]][..0] == [];
    assert FromBytes([s[0]]) == s[0] as nat;
  }

  lemma {:induction false} FromConcat(a: Bytes, b: bv8)
    ensures FromBytes(a + [b]) == FromBytes(a) * 256 + b as nat
  {
    assert (a + [b])[..|a|] == a;
  }
}
