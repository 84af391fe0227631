/** Little-endian numbers and matching inside byte strings. */
module Bytes {
  import opened Common

  function Pow256(k: nat): (r: nat)
    ensures r >= 1
  {
    if k == 0 then 1 else 256 * Pow256(k - 1)
  }

  function LE(n: nat, k: nat): (r: seq<Byte>)
    ensures |r| == k
  {
    if k == 0 then [] else [n % 256] + LE(n / 256, k - 1)
  }

  /** The digits of a number in base 256, the lowest first. */
  lemma {:induction false} LEDigits(n: nat, k: nat, i: nat)
    requires i < k
    ensures LE(n, k)[i] == n / Pow256(i) % 256
  {
    if i > 0 {
      LEDigits(n / 256, k - 1, i - 1);
      DivTwice(n, Pow256(i - 1));
    }
  }

  lemma DivTwice(n: nat, p: nat)
    requires p > 0
    ensures n / 256 / p == n / (256 * p)
  {
    var q := n / 256 / p;
    assert n == 256 * (n / 256) + n % 256 && n / 256 == p * q + n / 256 % p;
    assert n == (256 * p) * q + (256 * (n / 256 % p) + n % 256);
    assert 256 * (n / 256 % p) + n % 256 < 256 * p;
    QuotientIs(n, 256 * p, q, 256 * (n / 256 % p) + n % 256);
  }

  lemma NoMultiple(d: int, x: int)
    requires -d < d * x < d
    ensures x == 0
  {
  }

  lemma QuotientIs(n: nat, d: nat, q: nat, r: nat)
    requires n == d * q + r && r < d
    ensures n / d == q
  {
    assert n == d * (n / d) + n % d;
    NoMultiple(d, n / d - q);
  }

  function FromLE(bs: seq<Byte>): nat {
    if bs == [] then 0 else bs[0] + 256 * FromLE(bs[1..])
  }

  lemma {:induction false} FromLEInverts(n: nat, k: nat)
    requires n < Pow256(k)
    ensures FromLE(LE(n, k)) == n
  {
    if k > 0 {
      FromLEInverts(n / 256, k - 1);
      assert LE(n, k)[1..] == LE(n / 256, k - 1);
      assert n % 256 + 256 * (n / 256) == n;
    }
  }

  lemma {:induction false} LEInverts(bs: seq<Byte>)
    ensures FromLE(bs) < Pow256(|bs|) && LE(FromLE(bs), |bs|) == bs
  {
    if bs != [] {
      LEInverts(bs[1..]);
      LECons(bs[0], FromLE(bs[1..]), |bs| - 1);
      assert bs == [bs[0]] + bs[1..];
    }
  }

  /** One more byte in front. */
  lemma LECons(b: Byte, n: nat, k: nat)
    requires n < Pow256(k)
    ensures b + 256 * n < Pow256(k + 1) && LE(b + 256 * n, k + 1) == [b] + LE(n, k)
  {
    assert (b + 256 * n) % 256 == b && (b + 256 * n) / 256 == n;
  }

  lemma Powers()
    ensures Pow256(4) == 0x1_0000_0000 && Pow256(8) == U64_LIMIT
  {
    assert Pow256(2) == 65536 && Pow256(6) == 0x1_0000_0000_0000;
  }

  /** `s` occurs in `data` at `pos`. */
  predicate At(data: seq<Byte>, pos: nat, s: seq<Byte>) {
    pos + |s| <= |data| && data[pos..pos + |s|] == s
  }

  lemma AtSplit(data: seq<Byte>, pos: nat, a: seq<Byte>, b: seq<Byte>)
    ensures At(data, pos, a + b) <==> At(data, pos, a) && At(data, pos + |a|, b)
  {
    if pos + |a| + |b| <= |data| {
      var d := data[pos..pos + |a| + |b|];
      assert d[..|a|] == data[pos..pos + |a|] && d[|a|..] == data[pos + |a|..pos + |a| + |b|];
      assert d == d[..|a|] + d[|a|..];
      assert (a + b)[..|a|] == a && (a + b)[|a|..] == b;
    }
  }
}
