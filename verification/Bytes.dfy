/** Bytes in memory: little-endian integers of a fixed width, as an x86 host lays them out. */
module Bytes {
  type byte = x: int | 0 <= x < 256

  function Pow256(n: nat): (p: nat)
    ensures p > 0
  {
    if n == 0 then 1 else 256 * Pow256(n - 1)
  }

  function LE(v: nat, n: nat): (s: seq<byte>)
    ensures |s| == n
  {
    if n == 0 then [] else [v % 256] + LE(v / 256, n - 1)
  }

  function FromLE(s: seq<byte>): (v: nat)
    ensures v < Pow256(|s|)
  {
    if s == [] then 0 else s[0] as int + 256 * FromLE(s[1..])
  }

  lemma {:induction false} ReadBack(v: nat, n: nat)
    requires v < Pow256(n)
    ensures FromLE(LE(v, n)) == v
  {
    if n > 0 {
      ReadBack(v / 256, n - 1);
      assert LE(v, n)[1..] == LE(v / 256, n - 1);
    }
  }

  lemma {:induction false} WriteBack(s: seq<byte>)
    ensures LE(FromLE(s), |s|) == s
  {
    if s != [] {
      WriteBack(s[1..]);
      assert s == [s[0]] + s[1..];
      assert FromLE(s) % 256 == s[0] && FromLE(s) / 256 == FromLE(s[1..]);
    }
  }

  /** The first byte is the lowest and the last weighs most. */
  lemma {:induction false} LastWeighsMost(s: seq<byte>, b: byte)
    ensures FromLE(s + [b]) == FromLE(s) + b as int * Pow256(|s|)
  {
    if s == [] {
      assert FromLE([] + [b]) == b as int + 256 * FromLE([]);
      assert ([] + [b])[1..] == [];
    } else {
      LastWeighsMost(s[1..], b);
      assert (s + [b])[1..] == s[1..] + [b];
      assert 256 * (b as int * Pow256(|s| - 1)) == b as int * (256 * Pow256(|s| - 1));
    }
  }
}
