/**
 Base32 without padding, section 6 of RFC 4648 (announce_auth.rs, `base32_decode` and the
 test encoder `b32_encode`): shift registers in a wrapping 32-bit word, against the plain
 meaning, a bit string read in groups of five.
 */
module Base32 {
  import opened Common
  import opened Text

  function Pow2(k: nat): (r: nat)
    ensures r >= 1
  {
    if k == 0 then 1 else 2 * Pow2(k - 1)
  }

  function Shr(n: nat, k: nat): nat { if k == 0 then n else Shr(n / 2, k - 1) }

  const WORD: nat := 0x1_0000_0000

  /** The `k` low bits, most significant first. */
  function LowBits(n: nat, k: nat): (r: seq<nat>)
    ensures |r| == k
  {
    if k == 0 then [] else LowBits(n / 2, k - 1) + [n % 2]
  }

  function BytesBits(bs: seq<Byte>): (r: seq<nat>)
    ensures |r| == 8 * |bs|
  {
    if bs == [] then [] else BytesBits(bs[..|bs| - 1]) + LowBits(bs[|bs| - 1], 8)
  }

  type Symbol = v: int | 0 <= v < 32

  function SymbolsBits(vs: seq<Symbol>): (r: seq<nat>)
    ensures |r| == 5 * |vs|
  {
    if vs == [] then [] else SymbolsBits(vs[..|vs| - 1]) + LowBits(vs[|vs| - 1], 5)
  }

  /** The symbols spell the bytes, followed by fewer than five zero bits. */
  predicate Spells(vs: seq<Symbol>, bs: seq<Byte>) {
    0 <= 5 * |vs| - 8 * |bs| < 5
    && SymbolsBits(vs) == BytesBits(bs) + Repeat(0, 5 * |vs| - 8 * |bs|)
  }

  // ----- Bits of a register -----

  lemma {:induction false} LowBitsShift(n: nat, v: nat, a: nat, b: nat)
    requires v < Pow2(b)
    ensures LowBits(n * Pow2(b) + v, a + b) == LowBits(n, a) + LowBits(v, b)
  {
    if b == 0 {
      assert n * 1 + v == n;
    } else {
      Half(n, v, Pow2(b - 1));
      LowBitsShift(n, v / 2, a, b - 1);
    }
  }

  lemma Half(n: nat, v: nat, p: nat)
    ensures (n * (2 * p) + v) / 2 == n * p + v / 2 && (n * (2 * p) + v) % 2 == v % 2
  {
    assert n * (2 * p) == 2 * (n * p);
  }

  lemma {:induction false} LowBitsMod(n: nat, m: nat, k: nat)
    requires k <= m
    ensures LowBits(n % Pow2(m), k) == LowBits(n, k)
    decreases k
  {
    if k > 0 {
      ModHalf(n, Pow2(m - 1));
      LowBitsMod(n / 2, m - 1, k - 1);
    }
  }

  lemma ModHalf(n: nat, p: nat)
    requires p > 0
    ensures (n % (2 * p)) / 2 == (n / 2) % p && (n % (2 * p)) % 2 == n % 2
  {
    var q, r := n / (2 * p), n % (2 * p);
    assert n == 2 * (p * q) + r by {
      assert 2 * p * q == 2 * (p * q);
    }
    assert n / 2 == p * q + r / 2;
    ModUnique(n / 2, p, q, r / 2);
  }

  lemma ModUnique(x: nat, p: nat, q: nat, r: nat)
    requires p > 0 && x == p * q + r && r < p
    ensures x % p == r
  {
    MulLe(p, x / p + 1, q);
    MulLe(p, q + 1, x / p);
  }

  lemma MulLe(p: nat, a: nat, b: nat)
    ensures a <= b ==> p * a <= p * b
  {
  }

  lemma {:induction false} LowBitsSplit(n: nat, a: nat, b: nat)
    ensures LowBits(n, a + b) == LowBits(Shr(n, b), a) + LowBits(n, b)
    decreases b
  {
    if b > 0 {
      LowBitsSplit(n / 2, a, b - 1);
    }
  }

  lemma {:induction false} LowBitsZero(n: nat, k: nat)
    ensures LowBits(n, k) == Repeat(0, k) <==> n % Pow2(k) == 0
    decreases k
  {
    if k > 0 {
      LowBitsZero(n / 2, k - 1);
      ModHalf(n, Pow2(k - 1));
      var init, last := LowBits(n / 2, k - 1), n % 2;
      assert Repeat(0, k) == Repeat(0, k - 1) + [0];
      if LowBits(n, k) == Repeat(0, k) {
        assert LowBits(n, k)[..k - 1] == init && LowBits(n, k)[k - 1] == last;
        assert init == Repeat(0, k - 1);
      }
    }
  }

  lemma {:induction false} LowBitsInjective(m: nat, n: nat, k: nat)
    requires m < Pow2(k) && n < Pow2(k) && LowBits(m, k) == LowBits(n, k)
    ensures m == n
    decreases k
  {
    if k > 0 {
      assert LowBits(m, k)[..k - 1] == LowBits(m / 2, k - 1) && LowBits(m, k)[k - 1] == m % 2;
      assert LowBits(n, k)[..k - 1] == LowBits(n / 2, k - 1) && LowBits(n, k)[k - 1] == n % 2;
      LowBitsInjective(m / 2, n / 2, k - 1);
    }
  }

  // ----- A spelling has one meaning, and a meaning one spelling -----

  lemma {:induction false} BytesBitsInjective(a: seq<Byte>, b: seq<Byte>)
    requires BytesBits(a) == BytesBits(b)
    ensures a == b
    decreases |a|
  {
    assert |a| == |b|;
    if a != [] {
      var n := |a| - 1;
      var ia, ib := BytesBits(a[..n]), BytesBits(b[..n]);
      var la, lb := LowBits(a[n], 8), LowBits(b[n], 8);
      LastBits(ia, la, ib, lb);
      Pow8();
      LowBitsInjective(a[n], b[n], 8);
      BytesBitsInjective(a[..n], b[..n]);
      assert a == a[..n] + [a[n]] && b == b[..n] + [b[n]];
    }
  }

  lemma LastBits(ia: seq<nat>, la: seq<nat>, ib: seq<nat>, lb: seq<nat>)
    requires ia + la == ib + lb && |la| == |lb|
    ensures ia == ib && la == lb
  {
    assert ia == (ia + la)[..|ia|] && ib == (ib + lb)[..|ib|];
    assert la == (ia + la)[|ia|..] && lb == (ib + lb)[|ib|..];
  }

  lemma Pow8()
    ensures Pow2(5) == 32 && Pow2(8) == 256
  {
    assert Pow2(4) == 16 && Pow2(6) == 64;
  }

  lemma {:induction false} SymbolsBitsInjective(a: seq<Symbol>, b: seq<Symbol>)
    requires SymbolsBits(a) == SymbolsBits(b)
    ensures a == b
    decreases |a|
  {
    assert |a| == |b|;
    if a != [] {
      var n := |a| - 1;
      var ia, ib := SymbolsBits(a[..n]), SymbolsBits(b[..n]);
      var la, lb := LowBits(a[n], 5), LowBits(b[n], 5);
      LastBits(ia, la, ib, lb);
      Pow8();
      LowBitsInjective(a[n], b[n], 5);
      SymbolsBitsInjective(a[..n], b[..n]);
      assert a == a[..n] + [a[n]] && b == b[..n] + [b[n]];
    }
  }

  /** The relation is a bijection between accepted symbol strings and byte strings. */
  lemma SpellsUnique(va: seq<Symbol>, a: seq<Byte>, vb: seq<Symbol>, b: seq<Byte>)
    requires Spells(va, a) && Spells(vb, b)
    ensures va == vb <==> a == b
  {
    if va == vb {
      LastBits(BytesBits(a), Repeat(0, 5 * |va| - 8 * |a|), BytesBits(b), Repeat(0, 5 * |vb| - 8 * |b|));
      BytesBitsInjective(a, b);
    } else if a == b {
      SymbolsBitsInjective(va, vb);
    }
  }

  // ----- Characters -----

  function SymbolValue(c: char): Option<Symbol> {
    if 'A' <= c <= 'Z' then Some(c as int - 'A' as int)
    else if 'a' <= c <= 'z' then Some(c as int - 'a' as int)
    else if '2' <= c <= '7' then Some(c as int - '2' as int + 26)
    else None
  }

  function SymbolChar(v: Symbol): (c: char)
    ensures SymbolValue(c) == Some(v) && LowerChar(c) == c
  {
    if v < 26 then ('a' as int + v) as char else ('2' as int + (v - 26)) as char
  }

  const ALPHABET: string := "abcdefghijklmnopqrstuvwxyz234567"

  lemma AlphabetChar(v: Symbol)
    ensures |ALPHABET| == 32 && SymbolChar(v) == ALPHABET[v]
  {
    assert ALPHABET[..26] == "abcdefghijklmnopqrstuvwxyz" && ALPHABET[26..] == "234567";
  }

  /** The alphabet; upper-case letters are read as lower-case ones. */
  lemma AlphabetIs(v: Symbol, c: char)
    ensures |ALPHABET| == 32 && SymbolChar(v) == ALPHABET[v]
    ensures SymbolValue(c) == Some(v) <==> LowerChar(c) == ALPHABET[v]
  {
    AlphabetChar(v);
  }

  predicate AllSymbols(s: string) { forall i :: 0 <= i < |s| ==> SymbolValue(s[i]).Some? }

  function Symbols(s: string): (r: seq<Symbol>)
    requires AllSymbols(s)
    ensures |r| == |s|
  {
    seq(|s|, i requires 0 <= i < |s| => SymbolValue(s[i]).value)
  }

  /** The part in front of the first padding character. */
  function Unpadded(s: string): (r: string)
    ensures |r| <= |s| && r == s[..|r|] && (forall i :: 0 <= i < |r| ==> r[i] != '=')
    ensures |r| < |s| ==> s[|r|] == '='
  {
    if s == "" || s[0] == '=' then "" else [s[0]] + Unpadded(s[1..])
  }

  // ----- The shift registers -----

  /** Pushing five bits keeps the twelve or fewer live bits of the wrapping register. */
  lemma PushFive(buffer: nat, bits: nat, v: Symbol)
    requires bits <= 7
    ensures LowBits((buffer * 32 + v) % WORD, bits + 5) == LowBits(buffer, bits) + LowBits(v, 5)
  {
    Pow8();
    LowBitsShift(buffer, v, bits, 5);
    WordKeeps(buffer * 32 + v, bits + 5);
  }

  /** The wrapping register keeps its low bits. */
  lemma WordKeeps(n: nat, k: nat)
    requires k <= 32
    ensures LowBits(n % WORD, k) == LowBits(n, k)
  {
    Pow32();
    LowBitsMod(n, 32, k);
  }

  lemma FiveOfWord(n: nat, k: nat)
    requires k <= 5
    ensures LowBits(n % WORD % 32, k) == LowBits(n, k)
  {
    WordKeeps(n, k);
    Pow8();
    LowBitsMod(n % WORD, 5, k);
  }

  lemma Pow32()
    ensures Pow2(32) == WORD
  {
    assert Pow2(8) == 256 by { Pow8(); }
    assert Pow2(12) == 4096 && Pow2(16) == 65536 && Pow2(20) == 1048576;
    assert Pow2(24) == 16777216 && Pow2(28) == 268435456;
  }

  /** The top eight live bits are the next byte. */
  lemma PopEight(buffer: nat, bits: nat)
    requires bits >= 8
    ensures LowBits(buffer, bits) == LowBits(Shr(buffer, bits - 8) % 256, 8) + LowBits(buffer, bits - 8)
  {
    Pow8();
    LowBitsSplit(buffer, 8, bits - 8);
    LowBitsMod(Shr(buffer, bits - 8), 8, 8);
  }

  lemma SymbolsBitsSnoc(vs: seq<Symbol>, v: Symbol)
    ensures SymbolsBits(vs + [v]) == SymbolsBits(vs) + LowBits(v, 5)
  {
    assert (vs + [v])[..|vs|] == vs;
  }

  lemma BytesBitsSnoc(bs: seq<Byte>, b: Byte)
    ensures BytesBits(bs + [b]) == BytesBits(bs) + LowBits(b, 8)
  {
    assert (bs + [b])[..|bs|] == bs;
  }

  /** Nothing is spelled when five or more bits are left over, or a left-over bit is set. */
  lemma TailDecides(vs: seq<Symbol>, out: seq<Byte>, rest: seq<nat>)
    requires SymbolsBits(vs) == BytesBits(out) + rest && |rest| <= 7
    ensures |rest| < 5 && rest == Repeat(0, |rest|) ==> Spells(vs, out)
    ensures |rest| >= 5 || rest != Repeat(0, |rest|) ==> forall bs :: !Spells(vs, bs)
  {
    if |rest| >= 5 || rest != Repeat(0, |rest|) {
      forall bs ensures !Spells(vs, bs) {
        if Spells(vs, bs) {
          RestIsPadding(vs, out, rest, bs);
        }
      }
    }
  }

  lemma RestIsPadding(vs: seq<Symbol>, out: seq<Byte>, rest: seq<nat>, bs: seq<Byte>)
    requires SymbolsBits(vs) == BytesBits(out) + rest && |rest| <= 7 && Spells(vs, bs)
    ensures |rest| < 5 && rest == Repeat(0, |rest|)
  {
    SameEnd(BytesBits(out), |out|, rest, BytesBits(bs), |bs|, 5 * |vs| - 8 * |bs|);
  }

  /** Whole bytes in front of fewer than eight bits: the bits behind them are the same. */
  lemma SameEnd(a: seq<nat>, m: nat, rest: seq<nat>, b: seq<nat>, n: nat, pad: nat)
    requires |a| == 8 * m && |b| == 8 * n && |rest| < 8 && pad < 8 && a + rest == b + Repeat(0, pad)
    ensures rest == Repeat(0, pad)
  {
    assert |a + rest| == |b + Repeat(0, pad)|;
    LastBits(a, rest, b, Repeat(0, pad));
  }

  lemma {:induction false} UnpaddedIs(s: string, k: nat)
    requires k <= |s| && (forall i :: 0 <= i < k ==> s[i] != '=') && (k < |s| ==> s[k] == '=')
    ensures Unpadded(s) == s[..k]
  {
    if k > 0 {
      UnpaddedIs(s[1..], k - 1);
      assert s[..k] == [s[0]] + s[1..][..k - 1];
    }
  }

  /** Decoder state: the symbols so far are the bytes so far and the live bits. */
  predicate Reading(vs: seq<Symbol>, out: seq<Byte>, buffer: nat, bits: nat) {
    SymbolsBits(vs) == BytesBits(out) + LowBits(buffer, bits)
  }

  lemma ReadSymbol(vs: seq<Symbol>, out: seq<Byte>, buffer: nat, bits: nat, v: Symbol)
    requires Reading(vs, out, buffer, bits) && bits <= 7
    ensures Reading(vs + [v], out, (buffer * 32 + v) % WORD, bits + 5)
  {
    PushFive(buffer, bits, v);
    SymbolsBitsSnoc(vs, v);
    Regroup(BytesBits(out), LowBits(buffer, bits), LowBits(v, 5));
  }

  lemma ReadByte(vs: seq<Symbol>, out: seq<Byte>, buffer: nat, bits: nat)
    requires Reading(vs, out, buffer, bits) && bits >= 8
    ensures Reading(vs, out + [Shr(buffer, bits - 8) % 256], buffer, bits - 8)
  {
    var b: Byte := Shr(buffer, bits - 8) % 256;
    PopEight(buffer, bits);
    BytesBitsSnoc(out, b);
    Regroup(BytesBits(out), LowBits(b, 8), LowBits(buffer, bits - 8));
  }

  lemma ReadEnd(vs: seq<Symbol>, out: seq<Byte>, buffer: nat, bits: nat)
    requires Reading(vs, out, buffer, bits) && bits <= 7
    ensures bits < 5 && buffer % Pow2(bits) == 0 ==> Spells(vs, out)
    ensures bits >= 5 || buffer % Pow2(bits) != 0 ==> forall bs :: !Spells(vs, bs)
  {
    TailDecides(vs, out, LowBits(buffer, bits));
    LowBitsZero(buffer, bits);
  }

  /** The first characters of the input are these symbols, and none is padding. */
  predicate Named(input: string, vs: seq<Symbol>) {
    |vs| <= |input| && forall j :: 0 <= j < |vs| ==> input[j] != '=' && SymbolValue(input[j]) == Some(vs[j])
  }

  lemma NamedEnd(input: string, vs: seq<Symbol>)
    requires Named(input, vs) && (|vs| < |input| ==> input[|vs|] == '=')
    ensures AllSymbols(Unpadded(input)) && Symbols(Unpadded(input)) == vs
  {
    UnpaddedIs(input, |vs|);
  }

  /** Succeeds exactly on spellings, with the bytes spelled. */
  method Base32Decode(input: string) returns (r: Option<seq<Byte>>)
    ensures r.Some? ==> AllSymbols(Unpadded(input)) && Spells(Symbols(Unpadded(input)), r.value)
    ensures r.None? && AllSymbols(Unpadded(input)) ==> forall bs :: !Spells(Symbols(Unpadded(input)), bs)
  {
    var out, buffer, bits, i, vs := ReadSymbols(input);
    if i < |input| && input[i] != '=' {
      BadSymbol(input, i);
      return None;
    }
    NamedEnd(input, vs);
    ReadEnd(vs, out, buffer, bits);
    if bits >= 5 || buffer % Pow2(bits) != 0 {
      return None;
    }
    return Some(out);
  }

  /** The loop of the decoder, up to padding, a bad character or the end. */
  method ReadSymbols(input: string) returns (out: seq<Byte>, buffer: nat, bits: nat, i: nat, ghost vs: seq<Symbol>)
    ensures Named(input, vs) && i == |vs| && Reading(vs, out, buffer, bits) && bits <= 7
    ensures i < |input| ==> input[i] == '=' || SymbolValue(input[i]).None?
  {
    out, buffer, bits, i, vs := [], 0, 0, 0, [];
    while i < |input| && input[i] != '='
      invariant Named(input, vs) && i == |vs| && Reading(vs, out, buffer, bits) && bits <= 7
    {
      var v := SymbolValue(input[i]);
      if v.None? {
        return;
      }
      NamedSnoc(input, vs, v.value);
      out, buffer, bits := PushSymbol(vs, out, buffer, bits, v.value);
      vs := vs + [v.value];
      i := i + 1;
    }
  }

  lemma NamedSnoc(input: string, vs: seq<Symbol>, v: Symbol)
    requires Named(input, vs) && |vs| < |input| && input[|vs|] != '=' && SymbolValue(input[|vs|]) == Some(v)
    ensures Named(input, vs + [v])
  {
  }

  /** One symbol goes into the register, and a byte comes out once there are eight bits. */
  method PushSymbol(ghost vs: seq<Symbol>, out0: seq<Byte>, buffer0: nat, bits0: nat, v: Symbol)
    returns (out: seq<Byte>, buffer: nat, bits: nat)
    requires Reading(vs, out0, buffer0, bits0) && bits0 <= 7
    ensures Reading(vs + [v], out, buffer, bits) && bits <= 7
  {
    ReadSymbol(vs, out0, buffer0, bits0, v);
    out, buffer, bits := out0, (buffer0 * 32 + v) % WORD, bits0 + 5;
    if bits >= 8 {
      ReadByte(vs + [v], out, buffer, bits);
      bits := bits - 8;
      out := out + [Shr(buffer, bits) % 256];
    }
  }

  lemma BadSymbol(input: string, i: nat)
    requires i < |input| && SymbolValue(input[i]).None? && (forall j :: 0 <= j <= i ==> input[j] != '=')
    ensures !AllSymbols(Unpadded(input))
  {
    var u := Unpadded(input);
    assert i < |u| && u[i] == input[i];
  }

  lemma PushEight(buffer: nat, bits: nat, b: Byte)
    requires bits <= 4
    ensures LowBits((buffer * 256 + b) % WORD, bits + 8) == LowBits(buffer, bits) + LowBits(b, 8)
  {
    Pow8();
    LowBitsShift(buffer, b, bits, 8);
    WordKeeps(buffer * 256 + b, bits + 8);
  }

  lemma PopFive(buffer: nat, bits: nat)
    requires bits >= 5
    ensures LowBits(buffer, bits) == LowBits(Shr(buffer, bits - 5) % 32, 5) + LowBits(buffer, bits - 5)
  {
    Pow8();
    LowBitsSplit(buffer, 5, bits - 5);
    LowBitsMod(Shr(buffer, bits - 5), 5, 5);
  }

  /** The last symbol: the left-over bits, moved up and filled with zeros. */
  lemma LastSymbol(buffer: nat, bits: nat, fill: nat)
    requires bits + fill <= 5
    ensures LowBits(buffer * Pow2(fill) % WORD % 32, bits + fill) == LowBits(buffer, bits) + Repeat(0, fill)
  {
    ShiftZeros(buffer, bits, fill);
    FiveOfWord(buffer * Pow2(fill), bits + fill);
  }

  lemma ShiftZeros(n: nat, a: nat, b: nat)
    ensures LowBits(n * Pow2(b), a + b) == LowBits(n, a) + Repeat(0, b)
  {
    LowBitsShift(n, 0, a, b);
    LowBitsZero(0, b);
  }

  /** Encoder state: the bytes so far are the symbols so far and the live bits. */
  predicate Spelling(bs: seq<Byte>, s: string, buffer: nat, bits: nat) {
    Plain(s) && BytesBits(bs) == SymbolsBits(Symbols(s)) + LowBits(buffer, bits)
  }

  lemma SpellByte(bs: seq<Byte>, s: string, buffer: nat, bits: nat, b: Byte)
    requires Spelling(bs, s, buffer, bits) && bits <= 4
    ensures Spelling(bs + [b], s, (buffer * 256 + b) % WORD, bits + 8)
  {
    PushEight(buffer, bits, b);
    BytesBitsSnoc(bs, b);
    Regroup(SymbolsBits(Symbols(s)), LowBits(buffer, bits), LowBits(b, 8));
  }

  lemma SpellSymbol(bs: seq<Byte>, s: string, buffer: nat, bits: nat)
    requires Spelling(bs, s, buffer, bits) && bits >= 5
    ensures Spelling(bs, s + [SymbolChar(Shr(buffer, bits - 5) % 32)], buffer, bits - 5)
  {
    var v: Symbol := Shr(buffer, bits - 5) % 32;
    PopFive(buffer, bits);
    PlainSnoc(s, v);
    Regroup(SymbolsBits(Symbols(s)), LowBits(v, 5), LowBits(buffer, bits - 5));
  }

  lemma SpellLast(bs: seq<Byte>, s: string, buffer: nat, bits: nat)
    requires Spelling(bs, s, buffer, bits) && 0 < bits < 5
    ensures var t := s + [SymbolChar(buffer * Pow2(5 - bits) % WORD % 32)];
      Plain(t) && Spells(Symbols(t), bs)
  {
    var v: Symbol := buffer * Pow2(5 - bits) % WORD % 32;
    LastSymbol(buffer, bits, 5 - bits);
    PlainSnoc(s, v);
    Regroup(SymbolsBits(Symbols(s)), LowBits(buffer, bits), Repeat(0, 5 - bits));
  }

  /** The inner loop of the encoder: all full groups of five bits become symbols. */
  method EmitSymbols(ghost bs: seq<Byte>, s0: string, buffer: nat, bits0: nat) returns (s: string, bits: nat)
    requires Spelling(bs, s0, buffer, bits0)
    ensures bits <= 4 && Spelling(bs, s, buffer, bits)
  {
    s, bits := s0, bits0;
    while bits >= 5
      invariant Spelling(bs, s, buffer, bits)
    {
      SpellSymbol(bs, s, buffer, bits);
      bits := bits - 5;
      s := s + [SymbolChar(Shr(buffer, bits) % 32)];
    }
  }

  /** The encoder spells every byte string, in lower case and without padding. */
  method Base32Encode(bytes: seq<Byte>) returns (s: string)
    ensures AllSymbols(s) && Spells(Symbols(s), bytes)
    ensures Lower(s) == s && Unpadded(s) == s
  {
    var buffer, bits;
    s, buffer, bits := EncodeWhole(bytes);
    if bits > 0 {
      SpellLast(bytes, s, buffer, bits);
      s := s + [SymbolChar(buffer * Pow2(5 - bits) % WORD % 32)];
    }
    PlainMeans(s);
  }

  /** The outer loop of the encoder. */
  method EncodeWhole(bytes: seq<Byte>) returns (s: string, buffer: nat, bits: nat)
    ensures bits <= 4 && Spelling(bytes, s, buffer, bits)
  {
    s, buffer, bits := "", 0, 0;
    ghost var done: seq<Byte> := [];
    for i := 0 to |bytes|
      invariant bits <= 4 && done == bytes[..i] && Spelling(done, s, buffer, bits)
    {
      s, buffer, bits := PushByte(done, s, buffer, bits, bytes[i]);
      done := done + [bytes[i]];
    }
    assert bytes[..|bytes|] == bytes;
  }

  /** One byte goes into the register, and the symbols that are complete come out. */
  method PushByte(ghost done: seq<Byte>, s0: string, buffer0: nat, bits0: nat, b: Byte)
    returns (s: string, buffer: nat, bits: nat)
    requires Spelling(done, s0, buffer0, bits0) && bits0 <= 4
    ensures Spelling(done + [b], s, buffer, bits) && bits <= 4
  {
    SpellByte(done, s0, buffer0, bits0, b);
    buffer := (buffer0 * 256 + b) % WORD;
    s, bits := EmitSymbols(done + [b], s0, buffer, bits0 + 8);
  }

  predicate Plain(s: string) { forall i :: 0 <= i < |s| ==> SymbolValue(s[i]).Some? && LowerChar(s[i]) == s[i] }

  lemma PlainSnoc(s: string, v: Symbol)
    requires Plain(s)
    ensures Plain(s + [SymbolChar(v)])
    ensures SymbolsBits(Symbols(s + [SymbolChar(v)])) == SymbolsBits(Symbols(s)) + LowBits(v, 5)
  {
    assert Symbols(s + [SymbolChar(v)]) == Symbols(s) + [v];
    SymbolsBitsSnoc(Symbols(s), v);
  }

  lemma PlainMeans(s: string)
    requires Plain(s)
    ensures Lower(s) == s && Unpadded(s) == s
  {
    UnpaddedIs(s, |s|);
    assert s[..|s|] == s;
  }

  /** Decoding inverts encoding, for every byte string. */
  method EncodeThenDecode(bytes: seq<Byte>) returns (s: string, r: Option<seq<Byte>>)
    ensures r == Some(bytes)
  {
    s := Base32Encode(bytes);
    r := Base32Decode(s);
    SpellsUnique(Symbols(s), bytes, Symbols(s), r.value);
  }

  /** Every accepted string without padding re-encodes to its lower-case form. */
  method DecodeThenEncode(input: string) returns (r: Option<seq<Byte>>, s: string)
    ensures r.Some? && Unpadded(input) == input ==> s == Lower(input)
  {
    r := Base32Decode(input);
    s := "";
    if r.Some? {
      s := Base32Encode(r.value);
      if Unpadded(input) == input {
        SpellsUnique(Symbols(s), r.value, Symbols(input), r.value);
        SameSymbols(s, input);
      }
    }
  }

  lemma SameSymbols(a: string, b: string)
    requires AllSymbols(a) && AllSymbols(b) && Symbols(a) == Symbols(b)
    ensures Lower(a) == Lower(b)
  {
    forall i | 0 <= i < |a| ensures LowerChar(a[i]) == LowerChar(b[i]) {
      assert Symbols(a)[i] == Symbols(b)[i];
    }
  }
}
