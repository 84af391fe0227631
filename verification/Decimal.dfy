/** Decimal printing (`format!("{n}")`) and parsing (`str::parse::<u64>`). */
module Decimal {
  import opened Common

  predicate IsDigit(c: char) { '0' <= c <= '9' }

  predicate AllDigits(s: string) { forall i :: 0 <= i < |s| ==> IsDigit(s[i]) }

  function DigitValue(c: char): (d: nat)
    requires IsDigit(c)
    ensures d < 10
  {
    c as int - '0' as int
  }

  function DigitChar(d: nat): (c: char)
    requires d < 10
    ensures IsDigit(c) && DigitValue(c) == d
  {
    ('0' as int + d) as char
  }

  function Value(s: string): nat
    requires AllDigits(s)
  {
    if s == "" then 0 else Value(s[..|s| - 1]) * 10 + DigitValue(s[|s| - 1])
  }

  /** Printing and reading back is the identity; a printed number has no sign or space. */
  function Print(n: nat): (s: string)
    ensures s != "" && AllDigits(s) && Value(s) == n
  {
    if n < 10 then [DigitChar(n)] else Print(n / 10) + [DigitChar(n % 10)]
  }

  /** A printed number has no leading zero. */
  lemma {:induction false} PrintIsShortest(n: nat)
    ensures n == 0 ==> Print(n) == "0"
    ensures n > 0 ==> Print(n)[0] != '0'
  {
    if n >= 10 {
      PrintIsShortest(n / 10);
      assert Print(n)[0] == Print(n / 10)[0];
    } else if n > 0 {
      assert DigitValue('0') == 0;
    }
  }

  /** Unsigned 64-bit parse: an optional '+', at least one digit, no overflow. */
  function ParseU64(s: string): (r: Option<nat>)
    ensures r.Some? ==> r.value < U64_LIMIT
  {
    var t := if s != "" && s[0] == '+' then s[1..] else s;
    if t != "" && AllDigits(t) && Value(t) < U64_LIMIT then Some(Value(t)) else None
  }

  /** What is accepted: digits within the range, with or without a plus sign, and nothing else. */
  lemma ParseIs(s: string)
    ensures s != "" && AllDigits(s) && Value(s) < U64_LIMIT ==>
      ParseU64(s) == Some(Value(s)) && ParseU64("+" + s) == Some(Value(s))
    ensures ParseU64(s).Some? ==>
      (s != "" && AllDigits(s)) || (|s| > 1 && s[0] == '+' && AllDigits(s[1..]))
  {
    assert ("+" + s)[1..] == s;
  }

  function Pow10(k: nat): (r: nat)
    ensures r >= 1
  {
    if k == 0 then 1 else 10 * Pow10(k - 1)
  }

  lemma MulTen(v: nat, p: nat)
    ensures (v * p) * 10 == v * (10 * p)
  {
  }

  lemma MulAtLeast(v: nat, p: nat)
    requires p >= 1
    ensures v * p >= v
    ensures v > 0 ==> v * p >= p
  {
  }

  lemma Distribute(v: nat, p: nat, w: nat, d: nat, q: nat)
    requires q == 10 * p
    ensures (v * p + w) * 10 + d == v * q + (w * 10 + d)
  {
  }

  lemma {:induction false} ValueConcat(a: string, b: string)
    requires AllDigits(a) && AllDigits(b)
    ensures AllDigits(a + b)
    ensures Value(a + b) == Value(a) * Pow10(|b|) + Value(b)
  {
    if b == "" {
      assert a + b == a;
    } else {
      var b', c := b[..|b| - 1], b[|b| - 1];
      ValueConcat(a, b');
      assert b == b' + [c] && a + b == a + b' + [c];
      ValueSnoc(a + b', c);
      ValueSnoc(b', c);
      MulTen(Value(a), Pow10(|b'|));
      assert Pow10(|b|) == 10 * Pow10(|b'|);
      Distribute(Value(a), Pow10(|b'|), Value(b'), DigitValue(c), Pow10(|b|));
    }
  }

  lemma ValueSnoc(s: string, c: char)
    requires AllDigits(s) && IsDigit(c)
    ensures AllDigits(s + [c]) && Value(s + [c]) == Value(s) * 10 + DigitValue(c)
  {
    assert (s + [c])[..|s|] == s;
  }

  /** Putting digits in front never lowers the value, and keeps it only for zeros. */
  lemma ValuePrefixed(a: string, b: string)
    requires AllDigits(a) && AllDigits(b)
    ensures AllDigits(a + b) && Value(a + b) >= Value(b)
    ensures Value(a) == 0 ==> Value(a + b) == Value(b)
    ensures Value(a) > 0 ==> Value(a + b) >= Pow10(|b|) + Value(b)
  {
    ValueConcat(a, b);
    MulAtLeast(Value(a), Pow10(|b|));
  }

  /** A prefix of a digit string never has the larger value. */
  lemma ValueOfPrefix(s: string, k: nat)
    requires AllDigits(s) && k <= |s|
    ensures AllDigits(s[..k]) && Value(s[..k]) <= Value(s)
  {
    ValueConcat(s[..k], s[k..]);
    assert s[..k] + s[k..] == s;
    MulAtLeast(Value(s[..k]), Pow10(|s[k..]|));
  }
}
