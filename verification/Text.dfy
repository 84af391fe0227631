/** Rust string primitives on lines and separators. */
module Text {
  /** Position of the first `c`, or the length when there is none. */
  function IndexOf(s: string, c: char): (i: nat)
    ensures i <= |s| && (i < |s| ==> s[i] == c)
    ensures forall j :: 0 <= j < i ==> s[j] != c
  {
    if s == "" || s[0] == c then 0 else 1 + IndexOf(s[1..], c)
  }

  predicate Has(s: string, c: char) { exists i :: 0 <= i < |s| && s[i] == c }

  /** `char::is_whitespace`. */
  predicate IsSpace(c: char) {
    var n := c as int;
    9 <= n <= 13 || n == 32 || n == 0x85 || n == 0xA0 || n == 0x1680 || 0x2000 <= n <= 0x200A
    || n == 0x2028 || n == 0x2029 || n == 0x202F || n == 0x205F || n == 0x3000
  }

  function TrimStart(s: string): string {
    if s == "" || !IsSpace(s[0]) then s else TrimStart(s[1..])
  }

  function TrimEnd(s: string): string {
    if s == "" || !IsSpace(s[|s| - 1]) then s else TrimEnd(s[..|s| - 1])
  }

  predicate AllSpace(s: string) { forall i :: 0 <= i < |s| ==> IsSpace(s[i]) }

  lemma {:induction false} TrimStartSkips(l: string, s: string)
    requires AllSpace(l) && s != "" && !IsSpace(s[0])
    ensures TrimStart(l + s) == s
  {
    if l == "" {
      assert l + s == s;
    } else {
      TrimStartSkips(l[1..], s);
      assert (l + s)[1..] == l[1..] + s;
    }
  }

  lemma {:induction false} TrimEndSkips(s: string, r: string)
    requires AllSpace(r) && s != "" && !IsSpace(s[|s| - 1])
    ensures TrimEnd(s + r) == s
  {
    if r == "" {
      assert s + r == s;
    } else {
      TrimEndSkips(s, r[..|r| - 1]);
      assert (s + r)[..|s + r| - 1] == s + r[..|r| - 1];
    }
  }

  lemma {:induction false} TrimmedFront(s: string)
    ensures var r := TrimStart(s); |r| <= |s| && (r != "" ==> !IsSpace(r[0])) && AllSpace(s[..|s| - |r|])
  {
    if s != "" && IsSpace(s[0]) {
      var r := TrimStart(s);
      TrimmedFront(s[1..]);
      assert s[..|s| - |r|] == [s[0]] + s[1..][..|s| - 1 - |r|];
    }
  }

  lemma {:induction false} TrimmedBack(s: string)
    ensures var r := TrimEnd(s); |r| <= |s| && (r != "" ==> !IsSpace(r[|r| - 1])) && AllSpace(s[|r|..])
  {
    if s != "" && IsSpace(s[|s| - 1]) {
      var r := TrimEnd(s);
      TrimmedBack(s[..|s| - 1]);
      assert s[|r|..] == s[..|s| - 1][|r|..] + [s[|s| - 1]];
    }
  }

  /** `to_ascii_lowercase`. */
  function Lower(s: string): (r: string)
    ensures |r| == |s|
  {
    seq(|s|, i requires 0 <= i < |s| => LowerChar(s[i]))
  }

  function LowerChar(c: char): char {
    if 'A' <= c <= 'Z' then (c as int - 'A' as int + 'a' as int) as char else c
  }

  /** Lines put together with newlines. */
  function Join(ls: seq<string>): string {
    if ls == [] then "" else if |ls| == 1 then ls[0] else ls[0] + "\n" + Join(ls[1..])
  }

  lemma {:induction false} JoinSnoc(ls: seq<string>, l: string)
    requires ls != []
    ensures Join(ls + [l]) == Join(ls) + "\n" + l
  {
    if |ls| == 1 {
      assert (ls + [l])[1..] == [l];
    } else {
      JoinSnoc(ls[1..], l);
      assert (ls + [l])[1..] == ls[1..] + [l];
    }
  }

  /** What follows the last newline. */
  function Tail(s: string): (t: string)
    ensures !Has(t, '\n') && |t| <= |s|
  {
    if s == "" || s[|s| - 1] == '\n' then "" else Tail(s[..|s| - 1]) + [s[|s| - 1]]
  }

  /** The newline-terminated lines, without their newline. */
  function Terminated(s: string): seq<string> {
    if s == "" then []
    else if s[|s| - 1] == '\n' then Terminated(s[..|s| - 1]) + [Tail(s[..|s| - 1])]
    else Terminated(s[..|s| - 1])
  }

  function StripCr(l: string): string {
    if l != "" && l[|l| - 1] == '\r' then l[..|l| - 1] else l
  }

  function Unterminated(s: string): seq<string> { if Tail(s) == "" then [] else [Tail(s)] }

  /** `str::lines`: a carriage return is dropped only in front of a newline, and an
      empty last line is not a line. */
  function Lines(s: string): seq<string> { StripAll(Terminated(s)) + Unterminated(s) }

  function StripAll(ls: seq<string>): (r: seq<string>)
    ensures |r| == |ls|
  {
    seq(|ls|, i requires 0 <= i < |ls| => StripCr(ls[i]))
  }

  /** Appending newline-free text only extends the last line. */
  lemma {:induction false} AppendToTail(s: string, t: string)
    requires !Has(t, '\n')
    ensures Tail(s + t) == Tail(s) + t && Terminated(s + t) == Terminated(s)
  {
    if t == "" {
      assert s + t == s;
    } else {
      var t', c := t[..|t| - 1], t[|t| - 1];
      assert c != '\n';
      assert forall i :: 0 <= i < |t'| ==> t'[i] == t[i];
      AppendToTail(s, t');
      OneMore(s + t', c);
      assert s + t == s + t' + [c] && Tail(s) + t == Tail(s) + t' + [c];
    }
  }

  lemma OneMore(s: string, c: char)
    requires c != '\n'
    ensures Tail(s + [c]) == Tail(s) + [c] && Terminated(s + [c]) == Terminated(s)
  {
    assert (s + [c])[..|s|] == s;
  }

  lemma NewlineEndsLine(s: string)
    ensures Tail(s + "\n") == "" && Terminated(s + "\n") == Terminated(s) + [Tail(s)]
  {
    assert (s + "\n")[..|s|] == s;
  }

  /** Text after a newline has its own lines, listed after those before it. */
  lemma {:induction false} AfterNewline(s: string, t: string)
    ensures Tail(s + "\n" + t) == Tail(t)
    ensures Terminated(s + "\n" + t) == Terminated(s) + [Tail(s)] + Terminated(t)
  {
    if t == "" {
      assert s + "\n" + t == s + "\n";
      NewlineEndsLine(s);
    } else {
      var t', c := t[..|t| - 1], t[|t| - 1];
      AfterNewline(s, t');
      GrowBoth(s + "\n" + t', t', Terminated(s) + [Tail(s)], c);
      assert t == t' + [c] && s + "\n" + t == s + "\n" + t' + [c];
    }
  }

  /** Two texts with the same last line, and lines that differ only in front, grow alike. */
  lemma GrowBoth(s: string, t: string, front: seq<string>, c: char)
    requires Tail(s) == Tail(t) && Terminated(s) == front + Terminated(t)
    ensures Tail(s + [c]) == Tail(t + [c]) && Terminated(s + [c]) == front + Terminated(t + [c])
  {
    OneMoreChar(s, c);
    OneMoreChar(t, c);
  }

  lemma OneMoreChar(s: string, c: char)
    ensures Tail(s + [c]) == if c == '\n' then "" else Tail(s) + [c]
    ensures Terminated(s + [c]) == Terminated(s) + if c == '\n' then [Tail(s)] else []
  {
    assert (s + [c])[..|s|] == s;
  }

  /** Every terminated line is the last line of some prefix of the text. */
  lemma {:induction false} TerminatedIsPrefixTail(s: string, i: nat) returns (k: nat)
    requires i < |Terminated(s)|
    ensures k <= |s| && Tail(s[..k]) == Terminated(s)[i]
  {
    var s' := s[..|s| - 1];
    if s[|s| - 1] == '\n' && i == |Terminated(s)| - 1 {
      k := |s'|;
    } else {
      k := TerminatedIsPrefixTail(s', i);
      assert s'[..k] == s[..k];
    }
  }

  lemma StripFirst(h: string, ls: seq<string>)
    requires StripCr(h) == h
    ensures StripAll([h] + ls) == [h] + StripAll(ls)
  {
  }

  /** The first line of a text comes off the front. */
  lemma FirstLine(h: string, body: string)
    requires !Has(h, '\n') && StripCr(h) == h
    ensures Lines(h + "\n" + body) == [h] + Lines(body)
  {
    NoNewline(h);
    AfterNewline(h, body);
    StripFirst(h, Terminated(body));
    LinesAre(h + "\n" + body, body, [h]);
  }

  /** One carriage return in front of a newline belongs to the line break; any other stays. */
  lemma CrLfEndsLine(h: string, body: string)
    requires !Has(h, '\n')
    ensures Lines(h + "\r\n" + body) == [h] + Lines(body)
  {
    var l := h + "\r";
    assert l[|h|] == '\r' && forall i :: 0 <= i < |h| ==> l[i] == h[i];
    assert h + "\r\n" + body == l + "\n" + body;
    NoNewline(l);
    AfterNewline(l, body);
    assert StripCr(l) == h;
    StripEach([l], Terminated(body));
  }

  lemma StripEach(a: seq<string>, b: seq<string>)
    ensures StripAll(a + b) == StripAll(a) + StripAll(b)
  {
  }

  lemma LinesAre(s: string, t: string, front: seq<string>)
    requires Tail(s) == Tail(t) && Terminated(s) == front + Terminated(t)
    requires StripAll(front + Terminated(t)) == front + StripAll(Terminated(t))
    ensures Lines(s) == front + Lines(t)
  {
  }

  lemma NoNewline(t: string)
    requires !Has(t, '\n')
    ensures Tail(t) == t && Terminated(t) == []
  {
    AppendToTail("", t);
    assert "" + t == t;
  }

  lemma SingleLine(t: string)
    requires !Has(t, '\n')
    ensures Lines(t) == if t == "" then [] else [t]
  {
    NoNewline(t);
  }
}
