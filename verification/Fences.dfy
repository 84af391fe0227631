/**
 Code fences in the README pipeline (readme.rs): printing a code body as a fence wide enough
 for it, and the fence branch of the block scanner that reads it back.
 */
module Fences {
  import opened Common
  import opened Text

  lemma {:induction false} TrimStartIs(s: string)
    ensures var r := TrimStart(s); |r| <= |s| && s == s[..|s| - |r|] + r
  {
    if s != "" && IsSpace(s[0]) {
      TrimStartIs(s[1..]);
      var r := TrimStart(s);
      var k := |s| - |r|;
      assert s[k..] == s[1..][k - 1..] == r;
    }
  }

  lemma {:induction false} TrimEndIs(s: string)
    ensures var r := TrimEnd(s); |r| <= |s| && s == r + s[|r|..]
  {
    if s != "" && IsSpace(s[|s| - 1]) {
      TrimEndIs(s[..|s| - 1]);
      assert s == s[..|s| - 1] + [s[|s| - 1]];
    }
  }

  function Trim(s: string): string { TrimEnd(TrimStart(s)) }

  predicate IsBlank(s: string) { Trim(s) == "" }

  lemma {:induction false} TrimEndFirst(t: string)
    requires t != "" && !IsSpace(t[0])
    ensures TrimEnd(t) != ""
  {
    if IsSpace(t[|t| - 1]) {
      TrimEndFirst(t[..|t| - 1]);
    }
  }

  lemma BlankIff(s: string)
    ensures IsBlank(s) <==> AllSpace(s)
  {
    var t := TrimStart(s);
    TrimStartIs(s);
    TrimmedFront(s);
    if t != "" {
      assert s[|s| - |t|] == t[0];
      TrimEndFirst(t);
    } else {
      assert s[..|s|] == s;
    }
  }

  /** How many `c` a text starts with. */
  function LeadRun(s: string, c: char): (n: nat)
    ensures n <= |s|
  {
    if s == "" || s[0] != c then 0 else 1 + LeadRun(s[1..], c)
  }

  lemma {:induction false} LeadRunIs(s: string, c: char)
    ensures var n := LeadRun(s, c); (forall i :: 0 <= i < n ==> s[i] == c) && (n < |s| ==> s[n] != c)
  {
    if s != "" && s[0] == c {
      LeadRunIs(s[1..], c);
      var n := LeadRun(s, c);
      assert forall i :: 0 <= i < n ==> s[i] == if i == 0 then s[0] else s[1..][i - 1];
    }
  }

  ghost predicate RunFrom(s: string, c: char, i: int, n: nat) {
    0 <= i && i + n <= |s| && forall j :: i <= j < i + n ==> s[j] == c
  }

  /** Somewhere `n` copies of `c` in a row. */
  ghost predicate HasRun(s: string, c: char, n: nat) { exists i :: RunFrom(s, c, i, n) }

  /** How many `c` a text ends with. */
  function TrailRun(s: string, c: char): (n: nat)
    ensures n <= |s| && (forall j :: |s| - n <= j < |s| ==> s[j] == c) && (n < |s| ==> s[|s| - n - 1] != c)
  {
    if s == "" || s[|s| - 1] != c then 0 else 1 + TrailRun(s[..|s| - 1], c)
  }

  lemma RunSnoc(s: string, x: char, c: char, n: nat)
    ensures HasRun(s + [x], c, n) <==> HasRun(s, c, n) || TrailRun(s + [x], c) >= n
  {
    var t := s + [x];
    if HasRun(t, c, n) {
      var i :| RunFrom(t, c, i, n);
      if i + n <= |s| {
        assert forall j :: i <= j < i + n ==> s[j] == t[j];
        assert RunFrom(s, c, i, n);
      }
    }
    if HasRun(s, c, n) {
      var i :| RunFrom(s, c, i, n);
      assert RunFrom(t, c, i, n);
    }
    if TrailRun(t, c) >= n {
      assert RunFrom(t, c, |t| - n, n);
    }
  }

  lemma TrailSnoc(s: string, x: char, c: char)
    ensures TrailRun(s + [x], c) == if x == c then TrailRun(s, c) + 1 else 0
  {
    assert (s + [x])[..|s|] == s;
  }

  ghost predicate RunState(s: string, c: char, cur: nat, best: nat) {
    cur == TrailRun(s, c) && HasRun(s, c, best) && !HasRun(s, c, best + 1)
  }

  lemma RunStep(s: string, x: char, c: char, cur: nat, best: nat)
    requires RunState(s, c, cur, best)
    ensures var cur' := if x == c then cur + 1 else 0; RunState(s + [x], c, cur', Max(best, cur'))
  {
    TrailSnoc(s, x, c);
    TrailBelow(s, c, best + 1);
    if x == c && cur == best {
      LongerRun(s, x, c, best);
    } else {
      SameRun(s, x, c, best);
    }
  }

  /** The run at the end becomes the longest. */
  lemma LongerRun(s: string, x: char, c: char, best: nat)
    requires TrailRun(s + [x], c) == best + 1 && !HasRun(s, c, best + 1)
    ensures HasRun(s + [x], c, best + 1) && !HasRun(s + [x], c, best + 2)
  {
    RunSnoc(s, x, c, best + 1);
    RunSnoc(s, x, c, best + 2);
    ShorterRun(s, c, best + 1, best + 2);
  }

  lemma SameRun(s: string, x: char, c: char, best: nat)
    requires TrailRun(s + [x], c) <= best && HasRun(s, c, best) && !HasRun(s, c, best + 1)
    ensures HasRun(s + [x], c, best) && !HasRun(s + [x], c, best + 1)
  {
    RunSnoc(s, x, c, best);
    RunSnoc(s, x, c, best + 1);
  }

  method LongestRun(s: string, c: char) returns (best: nat)
    ensures HasRun(s, c, best) && !HasRun(s, c, best + 1)
  {
    best := 0;
    var cur: nat := 0;
    assert RunFrom("", c, 0, 0) && s[..0] == "";
    for k := 0 to |s|
      invariant RunState(s[..k], c, cur, best)
    {
      assert s[..k + 1] == s[..k] + [s[k]];
      RunStep(s[..k], s[k], c, cur, best);
      if s[k] == c {
        cur := cur + 1;
        best := Max(best, cur);
      } else {
        cur := 0;
      }
    }
    assert s[..|s|] == s;
  }

  lemma ShorterRun(s: string, c: char, m: nat, n: nat)
    requires m <= n
    ensures HasRun(s, c, n) ==> HasRun(s, c, m)
  {
    if HasRun(s, c, n) {
      var i :| RunFrom(s, c, i, n);
      assert RunFrom(s, c, i, m);
    }
  }

  lemma TrailBelow(s: string, c: char, n: nat)
    ensures !HasRun(s, c, n) ==> TrailRun(s, c) < n
  {
    if TrailRun(s, c) >= n {
      assert RunFrom(s, c, |s| - n, n);
    }
  }

  // ----- Opening and closing lines -----

  datatype Opening = Opening(mark: char, len: nat, info: string)

  function FenceOpen(line: string): Option<Opening> {
    var indent := LeadRun(line, ' ');
    if indent > 3 || indent == |line| then None
    else
      var t := line[indent..];
      var c := t[0];
      var len := LeadRun(t, c);
      var info := Trim(t[len..]);
      if (c != '`' && c != '~') || len < 3 || (c == '`' && Has(info, '`')) then None
      else Some(Opening(c, len, info))
  }

  predicate FenceClose(line: string, mark: char, len: nat) {
    var t := Trim(line);
    LeadRun(t, mark) >= len && IsBlank(t[LeadRun(t, mark)..])
  }

  /** The first word of an info string. */
  function FirstWord(info: string): Option<string> {
    var t := TrimStart(info);
    if t == "" then None else Some(t[..WordLen(t)])
  }

  function WordLen(t: string): (n: nat)
    ensures n <= |t|
  {
    if t == "" || IsSpace(t[0]) then 0 else 1 + WordLen(t[1..])
  }

  // ----- Which lines open and close a fence -----

  /** A line opens a fence exactly when, after at most three spaces, it has three or more backticks
      or tildes in a row; behind backticks no other backtick may follow. */
  lemma OpensIff(indent: nat, mark: char, n: nat, rest: string)
    requires n > 0 && mark != ' ' && (rest != "" ==> rest[0] != mark)
    ensures FenceOpen(Repeat(' ', indent) + (Repeat(mark, n) + rest)) ==
      if indent <= 3 && n >= 3 && (mark == '~' || (mark == '`' && !Has(Trim(rest), '`')))
      then Some(Opening(mark, n, Trim(rest))) else None
  {
    var t := Repeat(mark, n) + rest;
    var line := Repeat(' ', indent) + t;
    assert t[0] == mark;
    LeadRunOf(Repeat(' ', indent), t, ' ');
    LeadRunOf(Repeat(mark, n), rest, mark);
    assert line[indent..] == t && t[n..] == rest;
  }

  lemma SpacesNeverOpen(indent: nat)
    ensures FenceOpen(Repeat(' ', indent)).None?
  {
    LeadRunOf(Repeat(' ', indent), "", ' ');
    assert Repeat(' ', indent) + "" == Repeat(' ', indent);
  }

  lemma AroundTrim(line: string) returns (l: string, r: string)
    ensures line == l + Trim(line) + r && AllSpace(l) && AllSpace(r)
  {
    var s := TrimStart(line);
    TrimStartIs(line);
    TrimmedFront(line);
    TrimEndIs(s);
    TrimmedBack(s);
    l, r := line[..|line| - |s|], s[|TrimEnd(s)|..];
    Regroup(l, Trim(line), r);
  }

  lemma LeadingRun(t: string, mark: char)
    ensures t == Repeat(mark, LeadRun(t, mark)) + t[LeadRun(t, mark)..]
  {
    LeadRunIs(t, mark);
  }

  /** A closing line holds a run of the mark that is long enough, and white space around it; and
      every such line closes. */
  lemma ClosingLine(line: string, mark: char, len: nat) returns (before: string, n: nat, after: string)
    requires len > 0 && FenceClose(line, mark, len)
    ensures line == before + Repeat(mark, n) + after && n >= len && IsBlank(before) && IsBlank(after)
  {
    var t, r := Trim(line), "";
    before, r := AroundTrim(line);
    n := LeadRun(t, mark);
    LeadingRun(t, mark);
    after := t[n..] + r;
    SpaceAfter(t[n..], r);
    BlankIff(before);
    Regroup(before, Repeat(mark, n), after);
    Regroup(Repeat(mark, n), t[n..], r);
    Regroup(before, t, r);
  }

  lemma SpaceAfter(a: string, b: string)
    requires IsBlank(a) && AllSpace(b)
    ensures IsBlank(a + b)
  {
    BlankIff(a);
    BlankIff(a + b);
  }

  lemma RunCloses(before: string, mark: char, n: nat, after: string, len: nat)
    requires !IsSpace(mark) && n >= len > 0 && IsBlank(before) && IsBlank(after)
    ensures FenceClose(before + Repeat(mark, n) + after, mark, len)
  {
    var run := Repeat(mark, n);
    BlankIff(before);
    BlankIff(after);
    Regroup(before, run, after);
    TrimStartSkips(before, run + after);
    TrimEndSkips(run, after);
    LeadRunOf(run, "", mark);
    assert run + "" == run && run[n..] == "";
  }

  // ----- The block scanner's fence branch -----

  datatype Code = Code(lang: Option<string>, code: string)

  /** Line `end` is the first from `from` on that closes the fence, or there is none. */
  predicate Encloses(lines: seq<string>, from: nat, end: nat, o: Opening)
    requires from <= end <= |lines|
  {
    (forall k :: from <= k < end ==> !FenceClose(lines[k], o.mark, o.len))
    && (end < |lines| ==> FenceClose(lines[end], o.mark, o.len))
  }

  /** The lines from `from` to the first that closes the fence, or to the end. */
  method FenceBody(lines: seq<string>, from: nat, o: Opening) returns (body: string, i: nat)
    requires from <= |lines|
    ensures from <= i <= |lines| && body == Join(lines[from..i]) && Encloses(lines, from, i, o)
  {
    body := "";
    i := from;
    while i < |lines| && !FenceClose(lines[i], o.mark, o.len)
      invariant from <= i <= |lines| && body == Collected(lines, from, i)
      invariant forall k :: from <= k < i ==> !FenceClose(lines[k], o.mark, o.len)
    {
      BodySnoc(lines, from, i);
      body := body + lines[i] + "\n";
      i := i + 1;
    }
    LastNewline(lines, from, i);
    if body != "" {
      body := body[..|body| - 1];
    }
  }

  /** The body as it is collected, with a newline behind every line. */
  function Collected(lines: seq<string>, from: nat, i: nat): string
    requires from <= i <= |lines|
  {
    if i == from then "" else Join(lines[from..i]) + "\n"
  }

  lemma LastNewline(lines: seq<string>, from: nat, i: nat)
    requires from <= i <= |lines|
    ensures var b := Collected(lines, from, i); Join(lines[from..i]) == if b != "" then b[..|b| - 1] else b
  {
  }

  lemma BodySnoc(lines: seq<string>, from: nat, i: nat)
    requires from <= i < |lines|
    ensures Collected(lines, from, i + 1) == Collected(lines, from, i) + lines[i] + "\n"
  {
    assert lines[from..i + 1] == lines[from..i] + [lines[i]];
    if i > from {
      JoinSnoc(lines[from..i], lines[i]);
    }
  }

  /** The fence branch at line `at`: the code block and where scanning goes on, one past the
      closing fence (or past the end, for a fence that is never closed). */
  method ParseFence(lines: seq<string>, at: nat) returns (r: Option<Code>, next: nat)
    requires at < |lines|
    ensures r.None? <==> FenceOpen(lines[at]).None?
    ensures r.Some? ==>
      at + 1 < next <= |lines| + 1
      && var o := FenceOpen(lines[at]).value;
      r.value == Code(FirstWord(o.info), Join(lines[at + 1..next - 1]))
      && Encloses(lines, at + 1, next - 1, o)
  {
    var o := FenceOpen(lines[at]);
    if o.None? {
      return None, at;
    }
    var body, i := FenceBody(lines, at + 1, o.value);
    return Some(Code(FirstWord(o.value.info), body)), i + 1;
  }

  // ----- Printing, then parsing -----

  /** A language tag as `split_whitespace` yields it, without backticks. */
  predicate IsTag(lang: string) { forall i :: 0 <= i < |lang| ==> !IsSpace(lang[i]) && lang[i] != '`' }

  /** A line as `str::lines` yields it. */
  predicate IsLine(l: string) { !Has(l, '\n') && StripCr(l) == l }

  method PrintFence(lang: string, body: string) returns (text: string, fence: string)
    ensures text == fence + lang + "\n" + body + "\n" + fence
    ensures |fence| >= 3 && fence == Repeat('`', |fence|) && !HasRun(body, '`', |fence|)
  {
    var longest := LongestRun(body, '`');
    fence := Repeat('`', Max(3, longest + 1));
    ShorterRun(body, '`', longest + 1, |fence|);
    text := fence + lang + "\n" + body + "\n" + fence;
  }

  lemma RunInside(a: string, b: string, d: string, c: char, n: nat)
    requires HasRun(b, c, n)
    ensures HasRun(a + b + d, c, n)
  {
    var i :| RunFrom(b, c, i, n);
    assert RunFrom(a + b + d, c, |a| + i, n);
  }

  lemma {:induction false} LineRun(ls: seq<string>, k: nat, c: char, n: nat)
    requires k < |ls| && HasRun(ls[k], c, n)
    ensures HasRun(Join(ls), c, n)
  {
    if |ls| > 1 {
      if k == 0 {
        RunInside("", ls[0], "\n" + Join(ls[1..]), c, n);
        assert "" + ls[0] + ("\n" + Join(ls[1..])) == Join(ls);
      } else {
        LineRun(ls[1..], k - 1, c, n);
        RunInside(ls[0] + "\n", Join(ls[1..]), "", c, n);
        assert ls[0] + "\n" + Join(ls[1..]) + "" == Join(ls);
      }
    }
  }

  /** A closing line contains a run as long as the fence. */
  lemma CloseHasRun(l: string, mark: char, len: nat)
    requires FenceClose(l, mark, len)
    ensures HasRun(l, mark, len)
  {
    var t, off := Trim(l), |l| - |TrimStart(l)|;
    TrimInside(l);
    LeadRunIs(t, mark);
    assert RunFrom(t, mark, 0, len);
    RunInside(l[..off], t, l[off + |t|..], mark, len);
  }

  lemma TrimInside(l: string)
    ensures var t, off := Trim(l), |l| - |TrimStart(l)|;
      off >= 0 && off + |t| <= |l| && l == l[..off] + t + l[off + |t|..]
  {
    var s := TrimStart(l);
    TrimStartIs(l);
    TrimEndIs(s);
    var off, t := |l| - |s|, TrimEnd(s);
    Sandwich(l[..off], t, s[|t|..], l);
  }

  lemma Sandwich(a: string, b: string, d: string, l: string)
    requires l == a + (b + d)
    ensures l == a + b + d && l[|a| + |b|..] == d
  {
  }

  lemma FenceCloses(n: nat)
    ensures FenceClose(Repeat('`', n), '`', n)
  {
    var f := Repeat('`', n);
    LeadRunOf(f, "", '`');
    assert f + "" == f && f[n..] == "";
    assert TrimStart(f) == f && TrimEnd(f) == f;
  }

  lemma {:induction false} LeadRunOf(a: string, b: string, c: char)
    requires (forall i :: 0 <= i < |a| ==> a[i] == c) && (b != "" ==> b[0] != c)
    ensures LeadRun(a + b, c) == |a|
  {
    if a == "" {
      assert a + b == b;
    } else {
      LeadRunOf(a[1..], b, c);
      assert (a + b)[1..] == a[1..] + b;
    }
  }

  lemma TagOpens(fence: string, lang: string)
    requires |fence| >= 3 && fence == Repeat('`', |fence|) && IsTag(lang)
    ensures FenceOpen(fence + lang) == Some(Opening('`', |fence|, lang))
  {
    var line := fence + lang;
    assert line[0] == '`' && LeadRun(line, ' ') == 0 && line[0..] == line;
    LeadRunOf(fence, lang, '`');
    assert line[|fence|..] == lang;
    assert TrimStart(lang) == lang && TrimEnd(lang) == lang;
  }

  lemma {:induction false} TagIsWord(lang: string)
    requires IsTag(lang)
    ensures FirstWord(lang) == if lang == "" then None else Some(lang)
  {
    if lang != "" {
      WordLenTag(lang);
      assert lang[..|lang|] == lang;
    }
  }

  lemma {:induction false} WordLenTag(t: string)
    requires IsTag(t)
    ensures WordLen(t) == |t|
  {
    if t != "" {
      WordLenTag(t[1..]);
    }
  }

  lemma {:induction false} LinesOfBody(ls: seq<string>, last: string)
    requires ls != [] && (forall i :: 0 <= i < |ls| ==> IsLine(ls[i])) && !Has(last, '\n') && last != ""
    ensures Lines(Join(ls) + "\n" + last) == ls + [last]
  {
    if |ls| == 1 {
      FirstLine(ls[0], last);
      SingleLine(last);
    } else {
      LinesOfBody(ls[1..], last);
      FirstLine(ls[0], Join(ls[1..]) + "\n" + last);
      assert Join(ls) + "\n" + last == ls[0] + "\n" + (Join(ls[1..]) + "\n" + last);
      assert ls == [ls[0]] + ls[1..];
    }
  }

  lemma LinesOfFence(fence: string, lang: string, ls: seq<string>)
    requires ls != [] && (forall i :: 0 <= i < |ls| ==> IsLine(ls[i])) && IsTag(lang)
    requires fence != "" && fence == Repeat('`', |fence|)
    ensures Lines(fence + lang + "\n" + Join(ls) + "\n" + fence) == [fence + lang] + ls + [fence]
  {
    OpeningIsLine(fence, lang);
    LinesOfBody(ls, fence);
    LinesOfParts(fence + lang, Join(ls), fence, ls);
  }

  lemma LinesOfParts(h: string, body: string, last: string, ls: seq<string>)
    requires IsLine(h) && Lines(body + "\n" + last) == ls + [last]
    ensures Lines(h + "\n" + body + "\n" + last) == [h] + ls + [last]
  {
    FirstLine(h, body + "\n" + last);
    assert h + "\n" + body + "\n" + last == h + "\n" + (body + "\n" + last);
  }

  lemma OpeningIsLine(fence: string, lang: string)
    requires IsTag(lang) && fence == Repeat('`', |fence|)
    ensures IsLine(fence + lang) && IsLine(fence)
  {
    assert forall i :: 0 <= i < |lang| ==> !IsSpace(lang[i]);
    assert IsSpace('\n') && IsSpace('\r');
    assert forall i :: 0 <= i < |fence + lang| ==> (fence + lang)[i] != '\n' && (fence + lang)[i] != '\r';
  }

  /** No line of the body closes the fence. */
  lemma BodyStaysOpen(ls: seq<string>, k: nat, len: nat)
    requires k < |ls| && !HasRun(Join(ls), '`', len)
    ensures !FenceClose(ls[k], '`', len)
  {
    if FenceClose(ls[k], '`', len) {
      CloseHasRun(ls[k], '`', len);
      LineRun(ls, k, '`', len);
    }
  }

  /** The fence line closes it, and so the body ends there. */
  lemma FenceEndsAfterBody(fence: string, lang: string, ls: seq<string>, lines: seq<string>, end: nat)
    requires |fence| >= 3 && fence == Repeat('`', |fence|) && !HasRun(Join(ls), '`', |fence|)
    requires lines == [fence + lang] + ls + [fence]
    requires 1 <= end <= |lines| && Encloses(lines, 1, end, Opening('`', |fence|, lang))
    ensures end == |ls| + 1 && lines[1..end] == ls
  {
    FenceCloses(|fence|);
    assert lines[|ls| + 1] == fence;
    if end < |ls| + 1 {
      assert lines[end] == ls[end - 1];
      BodyStaysOpen(ls, end - 1, |fence|);
    }
  }

  /**
   Printing a code body as a fence and parsing the text gives back the body, verbatim, for
   every list of lines: no line of the body can close its own fence.
   */
  method PrintThenParse(lang: string, ls: seq<string>) returns (r: Option<Code>, next: nat, count: nat)
    requires ls != [] && (forall i :: 0 <= i < |ls| ==> IsLine(ls[i])) && IsTag(lang)
    ensures r == Some(Code(if lang == "" then None else Some(lang), Join(ls)))
    ensures next == count == |ls| + 2
  {
    var text, fence := PrintFence(lang, Join(ls));
    var lines := Lines(text);
    LinesOfFence(fence, lang, ls);
    TagOpens(fence, lang);
    TagIsWord(lang);
    assert lines[0] == fence + lang;
    r, next := ParseFence(lines, 0);
    FenceEndsAfterBody(fence, lang, ls, lines, next - 1);
    count := |lines|;
  }
}
