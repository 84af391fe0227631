/**
 Inline code in the README pipeline (readme.rs): `backtick_span` prints a body between
 backticks, and the backtick branch of `walk_inline` reads it back.
 */
module InlineCode {
  import opened Common
  import opened Text
  import opened Fences

  datatype Span = Literal(text: string) | CodeSpan(text: string)

  /** A run of exactly `n` backticks at `j`, starting at or after `from`. */
  ghost predicate IsClose(s: string, from: nat, n: nat, j: int) {
    from <= j && RunFrom(s, '`', j, n)
    && (j + n < |s| ==> s[j + n] != '`')
    && (j > from ==> s[j - 1] != '`')
  }

  ghost predicate FirstClose(s: string, from: nat, n: nat, j: int) {
    IsClose(s, from, n, j) && forall k :: k < j ==> !IsClose(s, from, n, k)
  }

  ghost predicate NoClose(s: string, from: nat, n: nat) { forall k :: !IsClose(s, from, n, k) }

  /** `find_code_close`: the first such run. */
  method FindCodeClose(s: string, from: nat, n: nat) returns (r: Option<nat>)
    requires n > 0
    ensures r.Some? ==> FirstClose(s, from, n, r.value)
    ensures r.None? ==> NoClose(s, from, n)
  {
    var i := from;
    while i < |s|
      invariant from <= i && (i <= |s| || i == from)
      invariant from < i < |s| && s[i] == '`' ==> s[i - 1] != '`'
      invariant forall k :: k < i ==> !IsClose(s, from, n, k)
    {
      if s[i] == '`' {
        var run := RunAt(s, i);
        RunHere(s, i);
        if run == n {
          return Some(i);
        }
        NoCloseInRun(s, from, n, i, run);
        i := i + run;
      } else {
        assert !IsClose(s, from, n, i);
        i := i + 1;
      }
    }
    return None;
  }

  /** How many backticks there are from `a` on. */
  function RunAt(s: string, a: nat): nat
    requires a <= |s|
  {
    LeadRun(s[a..], '`')
  }

  lemma RunHere(s: string, i: nat)
    requires i < |s| && s[i] == '`'
    ensures RunAt(s, i) > 0 && RunFrom(s, '`', i, RunAt(s, i))
    ensures i + RunAt(s, i) < |s| ==> s[i + RunAt(s, i)] != '`'
  {
    var run := RunAt(s, i);
    LeadRunIs(s[i..], '`');
    assert s[i..][0] == '`';
    assert forall j :: i <= j < i + run ==> s[j] == s[i..][j - i];
    assert i + run < |s| ==> s[i + run] == s[i..][run];
  }

  lemma NoCloseInRun(s: string, from: nat, n: nat, i: nat, run: nat)
    requires n > 0 && from <= i && run > 0 && run != n && RunFrom(s, '`', i, run)
    requires i + run < |s| ==> s[i + run] != '`'
    ensures forall k :: i <= k < i + run ==> !IsClose(s, from, n, k)
  {
  }

  /** One space of padding goes when both ends have it and something else is inside. */
  function TrimCodePadding(s: string): string {
    if |s| >= 2 && s[0] == ' ' && s[|s| - 1] == ' ' && !IsBlank(s) then s[1..|s| - 1] else s
  }

  /** One space goes from both ends when both have one and the text is not all white space; any
      other text stays. */
  lemma PaddingIs(s: string)
    ensures (exists i :: 0 <= i < |s| && !IsSpace(s[i])) && s[0] == ' ' && s[|s| - 1] == ' ' ==>
      s == " " + TrimCodePadding(s) + " "
    ensures (forall i :: 0 <= i < |s| ==> IsSpace(s[i])) || s[0] != ' ' || s[|s| - 1] != ' ' ==>
      TrimCodePadding(s) == s
  {
    BlankIff(s);
    if !IsBlank(s) && s[0] == ' ' && s[|s| - 1] == ' ' {
      assert IsSpace(' ') && |s| >= 2;
      assert s == " " + s[1..|s| - 1] + " ";
    }
  }

  method BacktickSpan(body: string) returns (text: string, ghost n: nat)
    ensures IsBlank(body) ==> text == ""
    ensures !IsBlank(body) ==> n > 0 && !HasRun(body, '`', n)
    ensures !IsBlank(body) && n == 1 ==> text == "`" + body + "`"
    ensures !IsBlank(body) && n > 1 ==>
      HasRun(body, '`', 1) && text == Repeat('`', n) + " " + body + " " + Repeat('`', n)
  {
    n := 0;
    if IsBlank(body) {
      return "", 0;
    }
    var longest := LongestRun(body, '`');
    if longest == 0 {
      return "`" + body + "`", 1;
    }
    ShorterRun(body, '`', 1, longest);
    var fence := Repeat('`', longest + 1);
    return fence + " " + body + " " + fence, longest + 1;
  }

  // ----- What a text is read as -----

  /** A run of backticks starts at `i`. */
  predicate OpensRun(s: string, i: nat) { i < |s| && s[i] == '`' && (i > 0 ==> s[i - 1] != '`') }

  /** From `a` to `b`: a run of backticks, a body, and the first closing run. */
  ghost predicate SpanAt(s: string, a: nat, b: nat) {
    OpensRun(s, a) && b <= |s|
    && var n := RunAt(s, a);
       n > 0 && a + n < b - n && FirstClose(s, a + n, n, b - n)
  }

  ghost function SpanBody(s: string, a: nat, b: nat): string
    requires SpanAt(s, a, b)
  {
    s[a + RunAt(s, a)..b - RunAt(s, a)]
  }

  ghost predicate SpanStarts(s: string, a: nat) { exists b: nat :: SpanAt(s, a, b) }

  /** The run at `i` lies before `b` and is never closed. */
  ghost predicate Unclosed(s: string, i: nat, b: nat)
    requires i <= |s|
  {
    i + RunAt(s, i) <= b && NoClose(s, i + RunAt(s, i), RunAt(s, i))
  }

  /** No code span starts between `a` and `b`. */
  ghost predicate StaysLiteral(s: string, a: nat, b: nat) {
    forall i: nat :: a <= i < b && OpensRun(s, i) ==> Unclosed(s, i, b)
  }

  /** What the text from `a` to `b` is read as. */
  ghost predicate ReadsAt(s: string, a: nat, b: nat, span: Span) {
    a < b <= |s|
    && match span
       case Literal(text) => text == s[a..b] && StaysLiteral(s, a, b)
       case CodeSpan(text) => SpanAt(s, a, b) && text == TrimCodePadding(SpanBody(s, a, b))
  }

  /** The spans read the text up to `end`, each from one cut to the next, and no two literals are
      neighbours. */
  ghost predicate Parses(s: string, end: nat, cuts: seq<nat>, spans: seq<Span>) {
    |cuts| == |spans| + 1 && cuts[0] == 0 && cuts[|spans|] == end
    && (forall j :: 0 <= j < |spans| ==> ReadsAt(s, cuts[j], cuts[j + 1], spans[j]))
    && (forall j :: 0 < j < |spans| ==> spans[j - 1].CodeSpan? || spans[j].CodeSpan?)
  }

  lemma ParsesMore(s: string, end: nat, cuts: seq<nat>, spans: seq<Span>, next: nat, span: Span)
    requires Parses(s, end, cuts, spans) && ReadsAt(s, end, next, span)
    requires span.CodeSpan? || spans == [] || spans[|spans| - 1].CodeSpan?
    ensures Parses(s, next, cuts + [next], spans + [span])
  {
    var c, x := cuts + [next], spans + [span];
    forall j | 0 <= j < |x| ensures ReadsAt(s, c[j], c[j + 1], x[j]) {
      if j < |spans| {
        assert c[j] == cuts[j] && c[j + 1] == cuts[j + 1] && x[j] == spans[j];
      }
    }
  }

  // ----- A text has one reading -----

  lemma LiteralHasNoSpan(s: string, a: nat, b: nat, k: nat)
    requires StaysLiteral(s, a, b) && a <= k < b
    ensures !SpanStarts(s, k)
  {
    forall c: nat ensures !SpanAt(s, k, c) {
    }
  }

  lemma CloseUnique(s: string, from: nat, n: nat, j: int, j': int)
    requires FirstClose(s, from, n, j) && FirstClose(s, from, n, j')
    ensures j == j'
  {
  }

  /** Two spans read from the same place are the same, given that a code span or the end follows
      a literal. */
  lemma SameNext(s: string, a: nat, b: nat, x: Span, b': nat, x': Span)
    requires ReadsAt(s, a, b, x) && ReadsAt(s, a, b', x')
    requires x.Literal? && b < |s| ==> SpanStarts(s, b)
    requires x'.Literal? && b' < |s| ==> SpanStarts(s, b')
    ensures b == b' && x == x'
  {
    if x.CodeSpan? && x'.CodeSpan? {
      SameSpan(s, a, b, b');
    } else {
      SameLiteral(s, a, b, x, b', x');
    }
  }

  lemma SameSpan(s: string, a: nat, b: nat, b': nat)
    requires SpanAt(s, a, b) && SpanAt(s, a, b')
    ensures b == b'
  {
    var n := RunAt(s, a);
    CloseUnique(s, a + n, n, b - n, b' - n);
  }

  lemma SameLiteral(s: string, a: nat, b: nat, x: Span, b': nat, x': Span)
    requires ReadsAt(s, a, b, x) && ReadsAt(s, a, b', x') && (x.Literal? || x'.Literal?)
    requires x.Literal? && b < |s| ==> SpanStarts(s, b)
    requires x'.Literal? && b' < |s| ==> SpanStarts(s, b')
    ensures b == b' && x == x'
  {
    CodeStarts(s, a, b, x);
    CodeStarts(s, a, b', x');
    if x.Literal? {
      LiteralHasNoSpan(s, a, b, a);
      if b' < b {
        LiteralHasNoSpan(s, a, b, b');
      }
    }
    if x'.Literal? {
      LiteralHasNoSpan(s, a, b', a);
      if b < b' {
        LiteralHasNoSpan(s, a, b', b);
      }
    }
  }

  lemma CodeStarts(s: string, a: nat, b: nat, x: Span)
    requires ReadsAt(s, a, b, x)
    ensures x.CodeSpan? ==> SpanStarts(s, a)
  {
  }

  /** After a literal that is not the end of the text comes a code span. */
  lemma CodeFollows(s: string, cuts: seq<nat>, spans: seq<Span>, k: nat)
    requires Parses(s, |s|, cuts, spans) && k < |spans|
    ensures spans[k].Literal? && cuts[k + 1] < |s| ==> SpanStarts(s, cuts[k + 1])
  {
    if k + 1 < |spans| {
      assert spans[k + 1 - 1].CodeSpan? || spans[k + 1].CodeSpan?;
      CodeStarts(s, cuts[k + 1], cuts[k + 2], spans[k + 1]);
    }
  }

  lemma SameStep(s: string, cuts: seq<nat>, spans: seq<Span>, cuts': seq<nat>, spans': seq<Span>, k: nat)
    requires Parses(s, |s|, cuts, spans) && Parses(s, |s|, cuts', spans')
    requires k < |spans| && k < |spans'| && cuts[k] == cuts'[k]
    ensures cuts[k + 1] == cuts'[k + 1] && spans[k] == spans'[k]
  {
    CodeFollows(s, cuts, spans, k);
    CodeFollows(s, cuts', spans', k);
    SameNext(s, cuts[k], cuts[k + 1], spans[k], cuts'[k + 1], spans'[k]);
  }

  lemma CutInside(s: string, cuts: seq<nat>, spans: seq<Span>, k: nat)
    requires Parses(s, |s|, cuts, spans) && k <= |spans|
    ensures k < |spans| <==> cuts[k] < |s|
  {
    if k < |spans| {
      assert ReadsAt(s, cuts[k], cuts[k + 1], spans[k]);
    }
  }

  lemma {:induction false} SameFirst(
    s: string, cuts: seq<nat>, spans: seq<Span>, cuts': seq<nat>, spans': seq<Span>, k: nat)
    requires Parses(s, |s|, cuts, spans) && Parses(s, |s|, cuts', spans') && k <= |spans|
    ensures k <= |spans'| && cuts[k] == cuts'[k] && forall j :: 0 <= j < k ==> spans[j] == spans'[j]
    decreases k
  {
    if k > 0 {
      SameFirst(s, cuts, spans, cuts', spans', k - 1);
      CutInside(s, cuts, spans, k - 1);
      CutInside(s, cuts', spans', k - 1);
      SameStep(s, cuts, spans, cuts', spans', k - 1);
    }
  }

  /** Every text has at most one reading. */
  lemma OneReading(s: string, cuts: seq<nat>, spans: seq<Span>, cuts': seq<nat>, spans': seq<Span>)
    requires Parses(s, |s|, cuts, spans) && Parses(s, |s|, cuts', spans')
    ensures spans == spans'
  {
    SameFirst(s, cuts, spans, cuts', spans', |spans|);
    SameFirst(s, cuts', spans', cuts, spans, |spans'|);
  }

  // ----- The walker -----

  /**
   The walker with its backtick branch; every other character is literal. `cuts` says where each
   span was read: literals are kept verbatim and hide no span, a code span reaches to the first
   closing run, and nothing is left out.
   */
  method WalkInline(s: string) returns (spans: seq<Span>, ghost cuts: seq<nat>)
    ensures Parses(s, |s|, cuts, spans)
  {
    spans, cuts := [], [0];
    var lit := "";
    ghost var start := 0;
    var i := 0;
    while i < |s|
      invariant i <= |s| && Walking(s, start, i, cuts, spans, lit)
      invariant i < |s| && s[i] == '`' ==> OpensRun(s, i)
      decreases |s| - i
    {
      var next, code := NextPiece(s, i);
      if code.Some? {
        spans, cuts := PushCode(s, start, i, next, cuts, spans, lit, code.value);
        lit, start := "", next;
      } else {
        LiteralGrows(s, start, i, next, cuts, spans, lit);
        lit := lit + s[i..next];
      }
      i := next;
    }
    spans, cuts := Flush(s, start, i, cuts, spans, lit);
  }

  /** The text is read up to `start`, and from there to `i` it is literal so far. */
  ghost predicate Walking(s: string, start: nat, i: nat, cuts: seq<nat>, spans: seq<Span>, lit: string) {
    start <= i <= |s| && lit == s[start..i] && StaysLiteral(s, start, i)
    && Parses(s, start, cuts, spans) && (spans == [] || spans[|spans| - 1].CodeSpan?)
  }

  lemma LiteralGrows(s: string, a: nat, i: nat, next: nat, cuts: seq<nat>, spans: seq<Span>, lit: string)
    requires Walking(s, a, i, cuts, spans, lit) && i < next <= |s| && StaysLiteral(s, i, next)
    ensures Walking(s, a, next, cuts, spans, lit + s[i..next])
  {
    StaysGrows(s, a, i, next);
    assert s[a..next] == s[a..i] + s[i..next];
  }

  lemma StaysGrows(s: string, a: nat, i: nat, next: nat)
    requires a <= i < next <= |s| && StaysLiteral(s, a, i) && StaysLiteral(s, i, next)
    ensures StaysLiteral(s, a, next)
  {
    forall k: nat | a <= k < next && OpensRun(s, k) ensures Unclosed(s, k, next) {
      if k < i {
        assert Unclosed(s, k, i);
      }
    }
  }

  /** Literal text collected so far becomes a span of its own. */
  method Flush(
    ghost s: string, ghost start: nat, ghost i: nat, ghost cuts0: seq<nat>, spans0: seq<Span>, lit: string)
    returns (spans: seq<Span>, ghost cuts: seq<nat>)
    requires Walking(s, start, i, cuts0, spans0, lit)
    ensures Parses(s, i, cuts, spans)
  {
    spans, cuts := spans0, cuts0;
    if lit != "" {
      ParsesMore(s, start, cuts, spans, i, Literal(lit));
      spans, cuts := spans + [Literal(lit)], cuts + [i];
    }
  }

  /** Literal text collected so far, and then a code span. */
  method PushCode(
    ghost s: string, ghost start: nat, ghost i: nat, ghost next: nat, ghost cuts0: seq<nat>, spans0: seq<Span>,
    lit: string, code: string) returns (spans: seq<Span>, ghost cuts: seq<nat>)
    requires Walking(s, start, i, cuts0, spans0, lit) && ReadsAt(s, i, next, CodeSpan(code))
    ensures Walking(s, next, next, cuts, spans, "")
  {
    spans, cuts := Flush(s, start, i, cuts0, spans0, lit);
    ParsesMore(s, i, cuts, spans, next, CodeSpan(code));
    spans, cuts := spans + [CodeSpan(code)], cuts + [next];
  }

  /** One turn of the loop: a code span, or text that stays literal. */
  method NextPiece(s: string, i: nat) returns (next: nat, code: Option<string>)
    requires i < |s| && (s[i] == '`' ==> OpensRun(s, i))
    ensures i < next <= |s| && (next < |s| && s[next] == '`' ==> OpensRun(s, next))
    ensures if code.Some? then ReadsAt(s, i, next, CodeSpan(code.value)) else StaysLiteral(s, i, next)
  {
    if s[i] != '`' {
      return i + 1, None;
    }
    var body;
    next, body := ReadBackticks(s, i);
    if body.None? {
      RunStays(s, i, next);
      return next, None;
    }
    AfterClose(s, i, next);
    return next, Some(TrimCodePadding(body.value));
  }

  lemma AfterClose(s: string, i: nat, next: nat)
    requires SpanAt(s, i, next)
    ensures next < |s| ==> s[next] != '`'
  {
    var n := RunAt(s, i);
    assert IsClose(s, i + n, n, next - n);
  }

  lemma RunStays(s: string, i: nat, next: nat)
    requires OpensRun(s, i) && next == i + RunAt(s, i) && NoClose(s, next, next - i)
    ensures next <= |s| && StaysLiteral(s, i, next) && (next < |s| ==> s[next] != '`')
  {
    RunHere(s, i);
    OneOpening(s, i, next);
  }

  /** Inside a run no other run starts. */
  lemma OneOpening(s: string, i: nat, next: nat)
    requires i < next && RunFrom(s, '`', i, next - i)
    ensures forall k: nat :: i <= k < next && OpensRun(s, k) ==> k == i
  {
    assert forall k :: i <= k < next ==> s[k] == '`';
  }

  /** The backtick branch at `i`: the body of a code span, or else a run that is never closed. */
  method ReadBackticks(s: string, i: nat) returns (next: nat, code: Option<string>)
    requires OpensRun(s, i)
    ensures i < next <= |s|
    ensures code.Some? ==> SpanAt(s, i, next) && code.value == SpanBody(s, i, next)
    ensures code.None? ==> next == i + RunAt(s, i) && NoClose(s, next, next - i)
  {
    var run := RunAt(s, i);
    assert s[i..][0] == '`';
    var close := FindCodeClose(s, i + run, run);
    if close.Some? {
      CloseIsLater(s, i, run, close.value);
      return close.value + run, Some(s[i + run..close.value]);
    }
    return i + run, None;
  }

  lemma CloseIsLater(s: string, i: nat, n: nat, close: nat)
    requires i < |s| && n > 0 && n == LeadRun(s[i..], '`') && IsClose(s, i + n, n, close)
    ensures i + n < close && close + n <= |s|
  {
    LeadRunIs(s[i..], '`');
    assert s[close] == '`';
    assert i + n < |s| ==> s[i..][n] == s[i + n];
  }

  // ----- Printing, then parsing -----

  /** A text that is one code span between two runs of `n` backticks. */
  ghost predicate OneSpan(s: string, n: nat) {
    n > 0 && 2 * n <= |s| && LeadRun(s, '`') == n && IsClose(s, n, n, |s| - n)
    && forall k :: k < |s| - n ==> !IsClose(s, n, n, k)
  }

  /** Such a text has that span as its reading. */
  lemma OneSpanReads(s: string, n: nat)
    requires OneSpan(s, n)
    ensures Parses(s, |s|, [0, |s|], [CodeSpan(TrimCodePadding(s[n..|s| - n]))])
  {
    LeadRunIs(s, '`');
    assert s[0..] == s && s[0] == '`';
    CloseIsLater(s, 0, n, |s| - n);
    assert SpanAt(s, 0, |s|) && SpanBody(s, 0, |s|) == s[n..|s| - n];
  }

  /** No backtick inside, and a space at both ends. */
  predicate LosesPadding(body: string) {
    |body| >= 2 && body[0] == ' ' && body[|body| - 1] == ' ' && forall i :: 0 <= i < |body| ==> body[i] != '`'
  }

  lemma NoBacktick(body: string)
    ensures !HasRun(body, '`', 1) <==> forall i :: 0 <= i < |body| ==> body[i] != '`'
  {
    forall i | 0 <= i < |body| && body[i] == '`' ensures HasRun(body, '`', 1) {
      assert RunFrom(body, '`', i, 1);
    }
    if HasRun(body, '`', 1) {
      var i :| RunFrom(body, '`', i, 1);
      assert body[i] == '`';
    }
  }

  lemma NarrowSpan(body: string)
    requires body != "" && !HasRun(body, '`', 1)
    ensures OneSpan("`" + body + "`", 1)
  {
    var s := "`" + body + "`";
    NoBacktick(body);
    assert s[1..][0] == body[0];
    assert LeadRun(s[1..], '`') == 0;
    forall k | 1 <= k < |s| - 1 ensures !IsClose(s, 1, 1, k) {
      assert s[k] == body[k - 1];
    }
  }

  lemma WideSpan(body: string, n: nat)
    requires n > 1 && !HasRun(body, '`', n)
    ensures OneSpan(Repeat('`', n) + " " + body + " " + Repeat('`', n), n)
  {
    var f := Repeat('`', n);
    var s := f + " " + body + " " + f;
    LeadRunOf(f, " " + body + " " + f, '`');
    assert f + (" " + body + " " + f) == s;
    assert s[n] == ' ' && s[|s| - n - 1] == ' ';
    forall k | n <= k < |s| - n ensures !RunFrom(s, '`', k, n) {
      if RunFrom(s, '`', k, n) {
        assert k > n && k + n <= |s| - n - 1;
        assert forall j :: k - n - 1 <= j < k - 1 ==> body[j] == s[n + 1 + j];
        assert RunFrom(body, '`', k - n - 1, n);
      }
    }
  }

  lemma PaddedBody(body: string, n: nat)
    requires !IsBlank(body)
    ensures TrimCodePadding(" " + body + " ") == body
  {
    NonBlankInside(body);
    assert (" " + body + " ")[1..|body| + 1] == body;
  }

  lemma NonBlankInside(body: string)
    requires !IsBlank(body)
    ensures !IsBlank(" " + body + " ")
  {
    var s := " " + body + " ";
    assert s[1..] == body + " " && IsSpace(' ');
    assert TrimStart(s) == TrimStart(body + " ");
    TrimStartMore(body, " ");
    var t := TrimStart(body);
    assert (t + " ")[..|t|] == t;
    assert TrimEnd(t + " ") == TrimEnd(t);
  }

  lemma {:induction false} TrimStartMore(a: string, b: string)
    requires !IsBlank(a)
    ensures TrimStart(a + b) == TrimStart(a) + b
  {
    if a != "" && IsSpace(a[0]) {
      TrimStartMore(a[1..], b);
      assert (a + b)[1..] == a[1..] + b;
    }
  }

  /**
   Printing an inline body and parsing the span returns the body, exactly unless it has no
   backtick and a space at both ends; then one space is lost on each side.
   */
  method SpanThenParse(body: string) returns (spans: seq<Span>)
    ensures IsBlank(body) ==> spans == []
    ensures !IsBlank(body) ==> |spans| == 1 && spans[0].CodeSpan?
    ensures !IsBlank(body) ==> (spans[0].text == body <==> !LosesPadding(body))
    ensures !IsBlank(body) && LosesPadding(body) ==> spans[0].text == body[1..|body| - 1]
  {
    var text, n := BacktickSpan(body);
    ghost var cuts;
    spans, cuts := WalkInline(text);
    if IsBlank(body) {
      OneReading(text, cuts, spans, [0], []);
    } else {
      SpanMeans(body, text, n);
      OneSpanReads(text, n);
      OneReading(text, cuts, spans, [0, |text|], [CodeSpan(TrimCodePadding(text[n..|text| - n]))]);
    }
  }

  /** What a printed span says when it is read. */
  lemma SpanMeans(body: string, text: string, n: nat)
    requires !IsBlank(body) && n > 0 && !HasRun(body, '`', n)
    requires n == 1 ==> text == "`" + body + "`"
    requires n > 1 ==> HasRun(body, '`', 1) && text == Repeat('`', n) + " " + body + " " + Repeat('`', n)
    ensures OneSpan(text, n)
    ensures TrimCodePadding(text[n..|text| - n]) == if LosesPadding(body) then body[1..|body| - 1] else body
  {
    NoBacktick(body);
    if n == 1 {
      assert body != "";
      NarrowSpan(body);
      assert text[1..|text| - 1] == body;
    } else {
      WideSpan(body, n);
      PaddedBody(body, n);
      assert text[n..|text| - n] == " " + body + " ";
    }
  }
}
