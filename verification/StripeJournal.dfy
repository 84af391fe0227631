/**
 The resume journal of a striped fetch (iroh_node.rs, `load_stripe_journal`,
 `complete_piece`, and the first half of `fetch_striped`): an append-only text file with
 one `start end` line per completed piece, read back after a crash to decide which
 pieces need not be fetched again.
 */
module StripeJournal {
  import opened Common
  import opened Decimal
  import opened Text
  import opened StripeGrid

  function Header(size: nat, hash: string): string {
    "v1 " + Print(size) + " " + hash
  }

  /** A journal holding only its header. */
  function Fresh(size: nat, hash: string): string { Header(size, hash) + "\n" }

  function JournalOf(size: nat, hash: string, body: string): string { Fresh(size, hash) + body }

  predicate IsHashText(hash: string) {
    forall i :: 0 <= i < |hash| ==> IsDigit(hash[i]) || 'a' <= hash[i] <= 'f'
  }

  function Entry(p: Piece): string { Print(p.start) + " " + Print(p.end) }

  function ParseLine(l: string): Option<Piece> {
    var i := IndexOf(l, ' ');
    if i == |l| then None
    else
      var s, e := ParseU64(l[..i]), ParseU64(l[i + 1..]);
      if s.Some? && e.Some? then Some(Piece(s.value, e.value)) else None
  }

  function ParseLines(ls: seq<string>): set<Piece> {
    set l | l in ls && ParseLine(l).Some? :: ParseLine(l).value
  }

  /** `load_stripe_journal`: the pieces a journal lists, given the scratch file's length. */
  function LoadJournal(size: nat, hash: string, destLen: Option<nat>, journal: Option<string>)
    : set<Piece>
  {
    if destLen != Some(size) || journal.None? then {}
    else
      var ls := Lines(journal.value);
      if ls == [] || ls[0] != Header(size, hash) then {} else ParseLines(ls[1..])
  }

  /** The pieces `fetch_striped` skips: what was loaded, unless some of it is off the grid. */
  function Skip(size: nat, hash: string, destLen: Option<nat>, journal: Option<string>): set<Piece>
  {
    var done := LoadJournal(size, hash, destLen, journal);
    if forall p :: p in done ==> InGrid(size, p) then done else {}
  }

  // ----- Crash and resume rounds -----

  /** The scratch file and its journal, with the pieces whose bytes are in the scratch file
      since it was last created; `skipped` is the choice made by the current run. */
  datatype Disk = Disk(
    destLen: Option<nat>, journal: Option<string>, fetched: set<Piece>,
    running: bool, skipped: set<Piece>)

  /** What happens to the two files. Between runs they are also removed one at a time: by the
      single-peer fallback, by a stop, and once the blob has been read back. */
  datatype Event =
    | Resume                // a run starts; with nothing to skip it recreates both files
    | ResetCrash(at: nat)   // a run starts, has nothing to skip, and dies while recreating them
    | Append(p: Piece)      // a piece completes: its bytes are written, then its journal line
    | Crash(keep: nat)      // the run ends with the first `keep` bytes of the journal on disk
    | DropFile              // the scratch file is removed, the journal stays
    | DropJournal           // the journal is removed, the scratch file stays
    | Export(len: nat)      // the fallback writes the first `len` bytes of the blob to a new file
    | Foreign(size2: nat, hash2: string, body: string, keep: nat)
                            // runs of another blob on the same paths, whose journal is then cut
    | ForeignReset(len: nat) // such a run dies with its new scratch file, before its own journal

  function Init(destLen: Option<nat>): Disk { Disk(destLen, None, {}, false, {}) }

  function Step(size: nat, hash: string, d: Disk, e: Event): Option<Disk> {
    var done := Skip(size, hash, d.destLen, d.journal);
    match e
    case Resume =>
      if d.running then None
      else if done == {} then Some(Disk(Some(size), Some(Fresh(size, hash)), {}, true, {}))
      else Some(d.(running := true, skipped := done))
    case ResetCrash(at) =>
      if d.running || done != {} then None
      else if at == 0 then Some(d.(destLen := Some(0), fetched := {}))
      else if at == 1 then Some(d.(destLen := Some(size), fetched := {}))
      else
        var text := Fresh(size, hash);
        Some(d.(destLen := Some(size), fetched := {}, journal := Some(text[..Min(at - 2, |text|)])))
    case Append(p) =>
      if !d.running || d.journal.None? || !InGrid(size, p) || p in d.skipped then None
      else Some(d.(fetched := d.fetched + {p}, journal := Some(d.journal.value + Entry(p) + "\n")))
    case Crash(keep) =>
      if !d.running || d.journal.None? || keep > |d.journal.value| then None
      else Some(d.(running := false, skipped := {}, journal := Some(d.journal.value[..keep])))
    case DropFile => if d.running then None else Some(d.(destLen := None, fetched := {}))
    case DropJournal => if d.running then None else Some(d.(journal := None))
    case Export(len) =>
      if d.running || d.destLen.Some? then None
      else if len < size then Some(d.(destLen := Some(len)))
      else Some(d.(destLen := Some(size), fetched := AllPieces(size)))
    case Foreign(size2, hash2, body, keep) =>
      if d.running || (size2 == size && hash2 == hash) || !IsHashText(hash2)
        || keep > |JournalOf(size2, hash2, body)| then None
      else
        Some(d.(destLen := Some(size2), fetched := {}, journal := Some(JournalOf(size2, hash2, body)[..keep])))
    case ForeignReset(len) => if d.running then None else Some(d.(destLen := Some(len), fetched := {}))
  }

  function AllPieces(size: nat): set<Piece> { ToSet(Grid(size)) }

  function Run(size: nat, hash: string, d: Disk, es: seq<Event>): Option<Disk>
    decreases |es|
  {
    if es == [] then Some(d)
    else
      var r := Run(size, hash, d, es[..|es| - 1]);
      if r.None? then None else Step(size, hash, r.value, es[|es| - 1])
  }

  /** No run of this history skips a piece whose bytes are not in the scratch file. */
  ghost predicate Honest(size: nat, hash: string, destLen: Option<nat>, es: seq<Event>) {
    var r := Run(size, hash, Init(destLen), es);
    r.Some? ==> r.value.skipped <= r.value.fetched
  }

  /** A journal from which nothing would be skipped, whatever the scratch file's length. */
  predicate Quiet(size: nat, hash: string, journal: Option<string>) {
    Skip(size, hash, Some(size), journal) == {}
  }

  /** A reset -- for this blob or another of its size -- dies with the new scratch file at full
      length, before it has replaced a journal that still lists pieces: the journal of a scratch
      file that is gone. */
  predicate Exposed(size: nat, hash: string, d: Disk, e: Event) {
    (e == ResetCrash(1) || e == ForeignReset(size)) && !Quiet(size, hash, d.journal)
  }

  /** No reset of this history dies in that window. */
  predicate Guarded(size: nat, hash: string, d: Disk, es: seq<Event>)
    decreases |es|
  {
    es == []
    || (Guarded(size, hash, d, es[..|es| - 1])
        && (Run(size, hash, d, es[..|es| - 1]).Some? ==>
              !Exposed(size, hash, Run(size, hash, d, es[..|es| - 1]).value, es[|es| - 1])))
  }

  /** A last line torn inside its first number: digits, not all of them zero, and no space yet. */
  predicate TornNumber(t: string) { t != "" && AllDigits(t) && Value(t) > 0 }

  /** A run keeps a journal whose last line is torn like that, and will append behind it. */
  predicate TornResume(size: nat, hash: string, d: Disk, e: Event) {
    e.Resume? && d.journal.Some? && TornNumber(Tail(d.journal.value)) && Skip(size, hash, d.destLen, d.journal) != {}
  }

  /** No run of this history does so. */
  predicate Untorn(size: nat, hash: string, d: Disk, es: seq<Event>)
    decreases |es|
  {
    es == []
    || (Untorn(size, hash, d, es[..|es| - 1])
        && (Run(size, hash, d, es[..|es| - 1]).Some? ==>
              !TornResume(size, hash, Run(size, hash, d, es[..|es| - 1]).value, es[|es| - 1])))
  }

  /** A grid in which no torn number can come to name a piece. */
  predicate IsSmall(size: nat) { TotalChunks(size) <= SAFE_CHUNKS }

  // ----- The invariant of a journal that can be trusted -----

  predicate IsStart(size: nat, x: nat) { x % PIECE_CHUNKS == 0 && x < TotalChunks(size) }

  function StartPiece(size: nat, x: nat): Piece { Piece(x, Min(x + PIECE_CHUNKS, TotalChunks(size))) }

  /** A (possibly torn) last line that names no unfetched piece and cannot come to name one:
      digits only, or already two spaces, or a start that is fetched, off the grid, or the
      last piece's with an end that is not the blob's. */
  predicate LineOk(size: nat, fetched: set<Piece>, l: string) {
    var i := IndexOf(l, ' ');
    AllDigits(l[..i])
    && (i < |l| ==>
          i > 0 &&
          var v := l[i + 1..];
          Has(v, ' ')
          || (AllDigits(v) && StartOk(size, fetched, Value(l[..i]), Value(v))))
  }

  predicate StartOk(size: nat, fetched: set<Piece>, x: nat, y: nat) {
    !IsStart(size, x)
    || StartPiece(size, x) in fetched
    || (x + PIECE_CHUNKS >= TotalChunks(size) && y != TotalChunks(size))
  }

  /** A last line that a load did not reject the journal for, and that may be written behind. */
  predicate Appendable(size: nat, l: string) { Survives(size, l) && (IsSmall(size) || !TornNumber(l)) }

  /** A line that a load does not reject the whole journal for. */
  predicate Survives(size: nat, l: string) {
    ParseLine(l).None? || InGrid(size, ParseLine(l).value)
  }

  predicate TailOk(size: nat, fetched: set<Piece>, l: string) {
    !Has(l, '\r') && LineOk(size, fetched, l)
  }

  /** Every line, cut anywhere, is trusted. */
  predicate BodyOk(size: nat, fetched: set<Piece>, body: string) {
    forall k :: 0 <= k <= |body| ==> TailOk(size, fetched, Tail(body[..k]))
  }

  /** The largest grid, in chunks, in which torn digits cannot spell another piece's start. */
  const SAFE_CHUNKS: nat := 24576

  // ----- Reading a trusted line -----

  lemma LineOkParse(size: nat, fetched: set<Piece>, l: string)
    requires LineOk(size, fetched, l)
    ensures ParseLine(l).Some? && InGrid(size, ParseLine(l).value) ==> ParseLine(l).value in fetched
  {
    var i := IndexOf(l, ' ');
    if i < |l| {
      var u, v := l[..i], l[i + 1..];
      if Has(v, ' ') {
        SpaceNeverParses(v);
      } else if ParseU64(u).Some? && ParseU64(v).Some? {
        DigitsParse(u);
        DigitsParse(v);
        NamedIsFetched(size, fetched, Value(u), Value(v));
      }
    }
  }

  lemma NamedIsFetched(size: nat, fetched: set<Piece>, x: nat, y: nat)
    requires StartOk(size, fetched, x, y)
    ensures InGrid(size, Piece(x, y)) ==> Piece(x, y) in fetched
  {
    GridMember(size, Piece(x, y));
  }

  lemma SpaceNeverParses(v: string)
    requires Has(v, ' ')
    ensures ParseU64(v).None?
  {
    var j :| 0 <= j < |v| && v[j] == ' ';
    if v[0] == '+' {
      assert v[1..][j - 1] == ' ';
    }
  }

  lemma DigitsParse(u: string)
    requires AllDigits(u) && ParseU64(u).Some?
    ensures ParseU64(u).value == Value(u)
  {
    assert u != "" ==> u[0] != '+';
  }

  // ----- Appending to a torn line -----

  lemma DigitsHaveNoSpace(s: string)
    requires AllDigits(s)
    ensures !Has(s, ' ') && !Has(s, '\n') && IndexOf(s, ' ') == |s|
  {
  }

  lemma SplitAt(u: string, v: string)
    requires AllDigits(u)
    ensures var l := u + " " + v;
      IndexOf(l, ' ') == |u| && l[..|u|] == u && l[|u| + 1..] == v
  {
    var l := u + " " + v;
    var i := IndexOf(l, ' ');
    assert l[|u|] == ' ';
    assert forall j :: 0 <= j < |u| ==> l[j] == u[j] && IsDigit(u[j]);
  }

  /** The arithmetic core: digits in front of a start spell another grid start only at the
      very last piece, as long as the grid is small. */
  lemma NoForgedStart(size: nat, t: string, c: nat)
    requires IsSmall(size)
    requires AllDigits(t) && Value(t) > 0 && IsStart(size, c)
    requires AllDigits(t + Print(c)) && IsStart(size, Value(t + Print(c)))
    ensures Value(t + Print(c)) + PIECE_CHUNKS >= TotalChunks(size)
  {
    StartAtLeast(c);
    PrefixedValue(t, c);
    ForgedNumber(TotalChunks(size), Value(t), c, Value(t + Print(c)));
  }

  /** What digits in front of a printed start are worth. */
  lemma PrefixedValue(t: string, c: nat)
    requires AllDigits(t) && Value(t) > 0 && (c == 0 || 4096 <= c)
    ensures AllDigits(t + Print(c)) && Prefixed(Value(t), c, Value(t + Print(c)))
  {
    ValueConcat(t, Print(c));
    MulAtLeast(Value(t), Pow10(|Print(c)|));
    PrintLength(c);
  }

  /** `n` is `c` with digits worth `v` in front, for the lengths a start can have. */
  predicate Prefixed(v: nat, c: nat, n: nat) {
    (c == 0 ==> n == 10 * v)
    && (4096 <= c < 10000 ==> n == 10000 * v + c)
    && (c >= 10000 ==> n >= 100000)
  }

  lemma StartAtLeast(c: nat)
    requires c % PIECE_CHUNKS == 0
    ensures c == 0 || c >= 4096
  {
  }

  lemma ForgedNumber(total: nat, v: nat, c: nat, n: nat)
    requires total <= SAFE_CHUNKS && v > 0 && n < total && Prefixed(v, c, n)
    requires c % PIECE_CHUNKS == 0 && n % PIECE_CHUNKS == 0
    ensures n + PIECE_CHUNKS >= total
  {
    if c == 0 {
      var k := n / PIECE_CHUNKS;
      assert 10 * v == PIECE_CHUNKS * k && 0 <= k <= 5;
    } else if c < 10000 {
      NoFourDigitStart(v, c);
    }
  }

  /** Digits in front of a four-digit start never spell another start below the limit. */
  lemma NoFourDigitStart(v: nat, c: nat)
    requires v > 0 && 0 < c < 10000 && c % PIECE_CHUNKS == 0
    ensures v * 10000 + c >= SAFE_CHUNKS || (v * 10000 + c) % PIECE_CHUNKS != 0
  {
    assert c == 4096 || c == 8192;
    assert v >= 3 || v == 1 || v == 2;
  }

  lemma PrintLength(c: nat)
    requires c == 0 || 4096 <= c
    ensures c == 0 ==> Pow10(|Print(c)|) == 10
    ensures 4096 <= c < 10000 ==> Pow10(|Print(c)|) == 10000
    ensures c >= 10000 ==> Pow10(|Print(c)|) >= 100000
  {
    if c == 0 {
      assert Pow10(1) == 10;
    } else if c < 10000 {
      assert |Print(c / 1000)| == 1 && |Print(c / 100)| == 2 && |Print(c / 10)| == 3;
      assert Pow10(2) == 100 && Pow10(4) == 10000;
    } else {
      PrintAtLeastFive(c);
    }
  }

  lemma PrintAtLeastFive(c: nat)
    requires c >= 10000
    ensures |Print(c)| >= 5 && Pow10(|Print(c)|) >= 100000
  {
    assert |Print(c / 10000)| >= 1 && |Print(c / 1000)| >= 2 && |Print(c / 100)| >= 3 && |Print(c / 10)| >= 4;
    Pow10Grows(5, |Print(c)|);
    assert Pow10(5) == 100000;
  }

  lemma {:induction false} Pow10Grows(a: nat, b: nat)
    requires a <= b
    ensures Pow10(a) <= Pow10(b)
  {
    if a < b {
      Pow10Grows(a, b - 1);
    }
  }

  lemma SplitLineOk(size: nat, fetched: set<Piece>, u: string, v: string)
    requires AllDigits(u) && u != ""
    requires Has(v, ' ') || (AllDigits(v) && StartOk(size, fetched, Value(u), Value(v)))
    ensures LineOk(size, fetched, u + " " + v)
  {
    SplitAt(u, v);
  }

  lemma AlignedGap(c: nat, x: nat)
    requires c % PIECE_CHUNKS == 0 && x % PIECE_CHUNKS == 0 && c < x
    ensures c + PIECE_CHUNKS <= x
  {
  }

  lemma PrefixedStartOk(size: nat, fetched: set<Piece>, t: string, p: Piece, y: nat)
    requires IsSmall(size) || !TornNumber(t)
    requires AllDigits(t) && InGrid(size, p) && p in fetched && y <= p.end
    ensures AllDigits(t + Print(p.start)) && StartOk(size, fetched, Value(t + Print(p.start)), y)
  {
    ValuePrefixed(t, Print(p.start));
    GridMember(size, p);
    var x := Value(t + Print(p.start));
    if Value(t) > 0 && IsStart(size, x) {
      NoForgedStart(size, t, p.start);
      AlignedGap(p.start, x);
    }
  }

  /** A digits-only tail stays trusted when the first part of an entry is written after it. */
  lemma AppendAfterDigits(size: nat, fetched: set<Piece>, t: string, p: Piece, cut: nat)
    requires IsSmall(size) || !TornNumber(t)
    requires AllDigits(t) && InGrid(size, p) && p in fetched && cut <= |Print(p.end)|
    ensures LineOk(size, fetched, t + Print(p.start) + " " + Print(p.end)[..cut])
  {
    ValueOfPrefix(Print(p.end), cut);
    PrefixedStartOk(size, fetched, t, p, Value(Print(p.end)[..cut]));
    SplitLineOk(size, fetched, t + Print(p.start), Print(p.end)[..cut]);
  }

  lemma ParseSplit(u: string, v: string)
    requires AllDigits(u) && AllDigits(v) && u != "" && v != ""
    requires Value(u) < U64_LIMIT && Value(v) < U64_LIMIT
    ensures ParseLine(u + " " + v) == Some(Piece(Value(u), Value(v)))
  {
    SplitAt(u, v);
    assert u[0] != '+' && v[0] != '+';
  }

  /** A start that is not fetched is the last piece's, and no digits can follow its space. */
  lemma GrownEnd(size: nat, x: nat, u: string, v: string, g: string)
    requires size < U64_LIMIT && AllDigits(u) && AllDigits(v) && AllDigits(g)
    requires u != "" && Value(u) == x && IsStart(size, x) && x + PIECE_CHUNKS >= TotalChunks(size)
    requires Value(v) != TotalChunks(size) && Value(g) < TotalChunks(size)
    requires Survives(size, u + " " + v)
    ensures AllDigits(v + g) && Value(v + g) != TotalChunks(size)
  {
    if v == "" {
      assert v + g == g;
    } else {
      if Value(v) < U64_LIMIT {
        ParseSplit(u, v);
        GridMember(size, Piece(x, Value(v)));
        assert false;
      }
      ValueConcat(v, g);
      MulAtLeast(Value(v), Pow10(|g|));
    }
  }

  /** A tail with one space stays trusted when a start's digits are written after it. */
  lemma AppendAfterSpace(size: nat, fetched: set<Piece>, u: string, v: string, c: nat, cut: nat)
    requires size < U64_LIMIT && AllDigits(u) && AllDigits(v) && c < TotalChunks(size)
    requires StartOk(size, fetched, Value(u), Value(v))
    requires Survives(size, u + " " + v) && u != "" && cut <= |Print(c)|
    ensures LineOk(size, fetched, u + " " + (v + Print(c)[..cut]))
  {
    var g := Print(c)[..cut];
    ValueOfPrefix(Print(c), cut);
    ValuePrefixed(v, g);
    var x := Value(u);
    if IsStart(size, x) && StartPiece(size, x) !in fetched {
      GrownEnd(size, x, u, v, g);
    }
    SplitLineOk(size, fetched, u, v + g);
  }

  lemma EntryPlain(p: Piece)
    ensures !Has(Entry(p), '\n') && !Has(Entry(p), '\r')
  {
  }

  /** A trusted tail that a load accepted stays trusted after any part of an entry -- in a small
      grid always, in any grid unless it is torn inside its first number. */
  lemma AppendEntry(size: nat, fetched: set<Piece>, t: string, p: Piece, j: nat)
    requires size < U64_LIMIT && (IsSmall(size) || !TornNumber(t))
    requires LineOk(size, fetched, t) && Survives(size, t)
    requires InGrid(size, p) && p in fetched && j <= |Entry(p)|
    ensures LineOk(size, fetched, t + Entry(p)[..j])
  {
    var i := IndexOf(t, ' ');
    if i == |t| {
      assert t[..i] == t;
      AppendEntryToDigits(size, fetched, t, p, j);
    } else {
      var u, v := t[..i], t[i + 1..];
      assert t == u + " " + v;
      AppendEntryAfterSpace(size, fetched, u, v, p, j);
      Regroup(u + " ", v, Entry(p)[..j]);
    }
  }

  /** An entry cut in its first number, or later. */
  lemma CutStart(s: string, e: string, j: nat)
    requires j <= |s|
    ensures (s + " " + e)[..j] == s[..j]
  {
  }

  lemma CutEnd(s: string, e: string, j: nat)
    requires |s| < j <= |s| + 1 + |e|
    ensures (s + " " + e)[..j] == s + " " + e[..j - |s| - 1]
  {
  }

  lemma DigitsOk(size: nat, fetched: set<Piece>, t: string, f: string)
    requires AllDigits(t) && AllDigits(f)
    ensures LineOk(size, fetched, t + f)
  {
    DigitsHaveNoSpace(t + f);
  }

  lemma AppendEntryToDigits(size: nat, fetched: set<Piece>, t: string, p: Piece, j: nat)
    requires AllDigits(t) && (IsSmall(size) || !TornNumber(t))
    requires InGrid(size, p) && p in fetched && j <= |Entry(p)|
    ensures LineOk(size, fetched, t + Entry(p)[..j])
  {
    var s, e := Print(p.start), Print(p.end);
    if j <= |s| {
      CutStart(s, e, j);
      DigitsOk(size, fetched, t, s[..j]);
    } else {
      var cut := j - |s| - 1;
      CutEnd(s, e, j);
      AppendAfterDigits(size, fetched, t, p, cut);
      Regroup(t, s, " ");
      Regroup(t, s + " ", e[..cut]);
    }
  }

  lemma AppendEntryAfterSpace(size: nat, fetched: set<Piece>, u: string, v: string, p: Piece, j: nat)
    requires size < U64_LIMIT && AllDigits(u) && u != "" && Survives(size, u + " " + v)
    requires Has(v, ' ') || (AllDigits(v) && StartOk(size, fetched, Value(u), Value(v)))
    requires InGrid(size, p) && j <= |Entry(p)|
    ensures LineOk(size, fetched, u + " " + (v + Entry(p)[..j]))
  {
    var s, f := Print(p.start), Entry(p)[..j];
    if Has(v, ' ') || j > |s| {
      assert Has(v + f, ' ') by {
        if Has(v, ' ') {
          var k :| 0 <= k < |v| && v[k] == ' ';
          assert (v + f)[k] == ' ';
        } else {
          assert f[|s|] == ' ' == (v + f)[|v| + |s|];
        }
      }
      SplitLineOk(size, fetched, u, v + f);
    } else {
      GridMember(size, p);
      CutStart(s, Print(p.end), j);
      AppendAfterSpace(size, fetched, u, v, p.start, j);
    }
  }

  /** Logging a fetched piece keeps every line trusted, wherever the write is cut. */
  lemma AppendBody(size: nat, fetched: set<Piece>, body: string, p: Piece)
    requires size < U64_LIMIT && BodyOk(size, fetched, body) && Appendable(size, Tail(body))
    requires InGrid(size, p) && p in fetched
    ensures BodyOk(size, fetched, body + Entry(p) + "\n")
  {
    LastTail(size, fetched, body);
    forall j | 0 <= j <= |Entry(p)| ensures TailOk(size, fetched, Tail(body + Entry(p)[..j])) {
      AppendTail(size, fetched, body, p, j);
    }
    BodyGrows(size, fetched, body, Entry(p));
  }

  /** A line whose every cut is trusted may be added. */
  lemma BodyGrows(size: nat, fetched: set<Piece>, body: string, line: string)
    requires BodyOk(size, fetched, body)
    requires forall j :: 0 <= j <= |line| ==> TailOk(size, fetched, Tail(body + line[..j]))
    ensures BodyOk(size, fetched, body + line + "\n")
  {
    var text := body + line + "\n";
    forall k | 0 <= k <= |text| ensures TailOk(size, fetched, Tail(text[..k])) {
      if k <= |body| {
        assert text[..k] == body[..k];
      } else if k < |text| {
        CutText(body, line, k);
      } else {
        assert text[..k] == text;
        NewlineEndsLine(body + line);
        EmptyTail(size, fetched);
      }
    }
  }

  lemma EmptyTail(size: nat, fetched: set<Piece>)
    ensures TailOk(size, fetched, "")
  {
  }

  lemma LastTail(size: nat, fetched: set<Piece>, body: string)
    requires BodyOk(size, fetched, body)
    ensures TailOk(size, fetched, Tail(body))
  {
    assert body[..|body|] == body;
  }

  lemma CutText(body: string, line: string, k: nat)
    requires |body| <= k <= |body| + |line|
    ensures (body + line + "\n")[..k] == body + line[..k - |body|]
  {
  }

  lemma AppendTail(size: nat, fetched: set<Piece>, body: string, p: Piece, j: nat)
    requires size < U64_LIMIT && TailOk(size, fetched, Tail(body)) && Appendable(size, Tail(body))
    requires InGrid(size, p) && p in fetched && j <= |Entry(p)|
    ensures TailOk(size, fetched, Tail(body + Entry(p)[..j]))
  {
    var f := Entry(p)[..j];
    EntryPlain(p);
    assert forall i :: 0 <= i < |f| ==> f[i] == Entry(p)[i];
    AppendToTail(body, f);
    AppendEntry(size, fetched, Tail(body), p, j);
  }

  lemma MoreFetched(size: nat, a: set<Piece>, b: set<Piece>, body: string)
    requires a <= b && BodyOk(size, a, body)
    ensures BodyOk(size, b, body)
  {
  }

  // ----- Loading -----

  lemma HeaderLine(size: nat, hash: string, body: string)
    requires IsHashText(hash)
    ensures Lines(Fresh(size, hash) + body) == [Header(size, hash)] + Lines(body)
  {
    var h := Header(size, hash);
    assert forall i :: 0 <= i < |h| ==> h[i] != '\n' && h[i] != '\r';
    FirstLine(h, body);
  }

  /** What a load takes from a trusted body: no piece that was not fetched. */
  lemma LoadTrusted(size: nat, fetched: set<Piece>, body: string, p: Piece)
    requires BodyOk(size, fetched, body) && p in ParseLines(Lines(body)) && InGrid(size, p)
    ensures p in fetched
  {
    var l :| l in Lines(body) && ParseLine(l) == Some(p);
    LineOfBody(size, fetched, body, l);
    LineOkParse(size, fetched, l);
  }

  lemma LineOfBody(size: nat, fetched: set<Piece>, body: string, l: string)
    requires BodyOk(size, fetched, body) && l in Lines(body)
    ensures LineOk(size, fetched, l)
  {
    var i :| 0 <= i < |Lines(body)| && Lines(body)[i] == l;
    if i < |Terminated(body)| {
      var k := TerminatedIsPrefixTail(body, i);
    } else {
      assert body[..|body|] == body;
    }
  }

  // ----- The invariant over crash and resume rounds -----

  ghost predicate Trusted(size: nat, hash: string, d: Disk, body: string) {
    d.destLen == Some(size) && d.journal == Some(JournalOf(size, hash, body))
    && BodyOk(size, d.fetched, body)
    && (d.running ==> Appendable(size, Tail(body)))
  }

  /** A journal that outlived its scratch file: harmless as long as no file has the full length. */
  ghost predicate Stale(size: nat, hash: string, d: Disk, body: string) {
    !d.running && d.destLen != Some(size) && d.journal == Some(JournalOf(size, hash, body))
    && BodyOk(size, AllPieces(size), body)
  }

  ghost predicate RoundInv(size: nat, hash: string, d: Disk) {
    d.skipped <= d.fetched <= AllPieces(size)
    && ((!d.running && Quiet(size, hash, d.journal))
        || (exists body :: Trusted(size, hash, d, body))
        || (exists body :: Stale(size, hash, d, body)))
  }

  lemma LoadOf(size: nat, hash: string, body: string)
    requires IsHashText(hash)
    ensures LoadJournal(size, hash, Some(size), Some(JournalOf(size, hash, body))) == ParseLines(Lines(body))
  {
    HeaderLine(size, hash, body);
  }

  /** A journal of one line lists nothing. */
  lemma OneLineQuiet(size: nat, hash: string, text: string)
    requires !Has(text, '\n')
    ensures Quiet(size, hash, Some(text))
  {
    SingleLine(text);
  }

  /** A journal cut inside its header is started over. */
  lemma CutHeader(size: nat, hash: string, k: nat, text: string)
    requires IsHashText(hash) && k <= |Fresh(size, hash)| && text == Fresh(size, hash)[..k]
    ensures Quiet(size, hash, Some(text))
  {
    if k == |Fresh(size, hash)| {
      LoadOf(size, hash, "");
      assert text == JournalOf(size, hash, "");
      SingleLine("");
    } else {
      HeaderHasNoNewline(size, hash, k, text);
      OneLineQuiet(size, hash, text);
    }
  }

  lemma HeaderHasNoNewline(size: nat, hash: string, k: nat, text: string)
    requires IsHashText(hash) && k < |Fresh(size, hash)| && text == Fresh(size, hash)[..k]
    ensures !Has(text, '\n')
  {
    var h := Header(size, hash);
    assert forall i :: 0 <= i < |h| ==> h[i] != '\n';
    assert forall i :: 0 <= i < |text| ==> text[i] == h[i];
  }

  /** A journal whose first line is not exactly this blob's header lists nothing, whatever follows. */
  lemma OtherHeaderIsEmpty(size: nat, hash: string, destLen: Option<nat>, line: string, rest: string)
    requires !Has(line, '\n') && StripCr(line) != "v1 " + Print(size) + " " + hash
    ensures LoadJournal(size, hash, destLen, Some(line + "\n" + rest)) == {}
    ensures LoadJournal(size, hash, destLen, Some(line)) == {}
  {
    FirstIs(line, rest);
    SingleLine(line);
  }

  lemma FirstIs(line: string, rest: string)
    requires !Has(line, '\n')
    ensures Lines(line + "\n" + rest) != [] && Lines(line + "\n" + rest)[0] == StripCr(line)
  {
    NoNewline(line);
    AfterNewline(line, rest);
  }

  /** Headers of two blobs differ: size and hash can be read off. */
  lemma HeaderTells(size: nat, hash: string, size2: nat, hash2: string)
    requires Header(size, hash) == Header(size2, hash2)
    ensures size == size2 && hash == hash2
  {
    var a, b := Print(size) + " " + hash, Print(size2) + " " + hash2;
    assert Header(size, hash)[3..] == a && Header(size2, hash2)[3..] == b;
    SplitAt(Print(size), hash);
    SplitAt(Print(size2), hash2);
    var i := IndexOf(a, ' ');
    assert a[..i] == Print(size) && b[..i] == Print(size2) && a[i + 1..] == hash && b[i + 1..] == hash2;
  }

  /** Another blob's journal, cut anywhere, lists nothing for this one. */
  lemma ForeignIsQuiet(size: nat, hash: string, size2: nat, hash2: string, body: string, keep: nat, text: string)
    requires IsHashText(hash2) && (size2 != size || hash2 != hash)
    requires keep <= |JournalOf(size2, hash2, body)| && text == JournalOf(size2, hash2, body)[..keep]
    ensures Quiet(size, hash, Some(text))
  {
    var h2, f2 := Header(size2, hash2), Fresh(size2, hash2);
    if keep < |f2| {
      CutInHeader(f2, body, keep);
      HeaderHasNoNewline(size2, hash2, keep, text);
      OneLineQuiet(size, hash, text);
    } else {
      CutInBody(f2, body, keep);
      HeaderHasNoNewline(size2, hash2, |h2|, h2);
      if h2 == Header(size, hash) {
        HeaderTells(size, hash, size2, hash2);
      }
      HeaderPlain(size2, hash2);
      OtherHeaderIsEmpty(size, hash, Some(size), h2, body[..keep - |f2|]);
    }
  }

  lemma HeaderPlain(size: nat, hash: string)
    requires IsHashText(hash)
    ensures StripCr(Header(size, hash)) == Header(size, hash)
  {
    var h := Header(size, hash);
    assert h[|h| - 1] != '\r';
  }

  lemma ForeignKeeps(size: nat, hash: string, d: Disk, e: Event)
    requires RoundInv(size, hash, d) && d.skipped == {} && Step(size, hash, d, e).Some?
    requires e.Foreign? || (e.ForeignReset? && !Exposed(size, hash, d, e))
    ensures RoundInv(size, hash, Step(size, hash, d, e).value)
  {
    var d' := Step(size, hash, d, e).value;
    ForeignIs(size, hash, d, e);
    if e.Foreign? {
      ForeignIsQuiet(size, hash, e.size2, e.hash2, e.body, e.keep, d'.journal.value);
      QuietKept(size, hash, d');
    } else {
      OtherFileKept(size, hash, d, d');
    }
  }

  lemma ForeignIs(size: nat, hash: string, d: Disk, e: Event)
    requires Step(size, hash, d, e).Some? && (e.Foreign? || e.ForeignReset?)
    ensures var d' := Step(size, hash, d, e).value; !d.running && d'.skipped == d.skipped && d'.running == d.running
    ensures var d' := Step(size, hash, d, e).value; d'.fetched == {} && d'.destLen.Some?
    ensures var d' := Step(size, hash, d, e).value;
      if e.ForeignReset? then d' == d.(destLen := Some(e.len), fetched := {})
      else
        !(e.size2 == size && e.hash2 == hash) && IsHashText(e.hash2)
        && e.keep <= |JournalOf(e.size2, e.hash2, e.body)|
        && d'.journal == Some(JournalOf(e.size2, e.hash2, e.body)[..e.keep])
  {
  }

  lemma QuietKept(size: nat, hash: string, d: Disk)
    requires Quiet(size, hash, d.journal) && !d.running && d.skipped == {} && d.fetched <= AllPieces(size)
    ensures RoundInv(size, hash, d)
  {
  }

  /** A new scratch file that is not of the blob's length vouches for nothing. */
  lemma OtherFileKept(size: nat, hash: string, d: Disk, d': Disk)
    requires RoundInv(size, hash, d) && !d.running && d.skipped == {}
    requires d'.destLen != None && d' == d.(destLen := d'.destLen, fetched := {})
    requires Quiet(size, hash, d.journal) || d'.destLen != Some(size)
    ensures RoundInv(size, hash, d')
  {
    if Quiet(size, hash, d.journal) {
      QuietKept(size, hash, d');
    } else {
      DroppedKept(size, hash, d);
      StaleKept(size, hash, d.(destLen := None, fetched := {}), d');
    }
  }

  lemma EmptyBody(size: nat, fetched: set<Piece>)
    ensures BodyOk(size, fetched, "") && Appendable(size, Tail(""))
  {
  }

  lemma ResumeKeeps(size: nat, hash: string, d: Disk)
    requires IsHashText(hash) && RoundInv(size, hash, d) && !d.running
    requires IsSmall(size) || !TornResume(size, hash, d, Resume)
    ensures RoundInv(size, hash, Step(size, hash, d, Resume).value)
  {
    var done := Skip(size, hash, d.destLen, d.journal);
    var d' := Step(size, hash, d, Resume).value;
    if done == {} {
      EmptyBody(size, {});
      assert Fresh(size, hash) == JournalOf(size, hash, "");
      assert Trusted(size, hash, d', "");
    } else {
      assert d.destLen == Some(size);
      var body :| Trusted(size, hash, d, body);
      ResumeTrusted(size, hash, d, body);
      JournalTail(size, hash, body);
      assert Trusted(size, hash, d', body);
    }
  }

  lemma JournalTail(size: nat, hash: string, body: string)
    ensures Tail(JournalOf(size, hash, body)) == Tail(body)
  {
    AfterNewline(Header(size, hash), body);
  }

  /** What a run skips is there, torn journal or not: the harm a torn line does comes later. */
  lemma ResumeIsHonest(size: nat, hash: string, d: Disk)
    requires IsHashText(hash) && RoundInv(size, hash, d) && !d.running
    ensures Skip(size, hash, d.destLen, d.journal) <= d.fetched
  {
    if Skip(size, hash, d.destLen, d.journal) != {} {
      assert d.destLen == Some(size);
      var body :| Trusted(size, hash, d, body);
      ResumeTrusted(size, hash, d, body);
    }
  }

  lemma ResumeTrusted(size: nat, hash: string, d: Disk, body: string)
    requires IsHashText(hash) && Trusted(size, hash, d, body)
    ensures var done := Skip(size, hash, d.destLen, d.journal);
      done <= d.fetched && (done != {} ==> Survives(size, Tail(body)))
  {
    var done := Skip(size, hash, d.destLen, d.journal);
    LoadOf(size, hash, body);
    forall p | p in done ensures p in d.fetched {
      LoadTrusted(size, d.fetched, body, p);
    }
    if done != {} && Tail(body) != "" && ParseLine(Tail(body)).Some? {
      assert Tail(body) == Lines(body)[|Lines(body)| - 1];
      assert ParseLine(Tail(body)).value in done;
    }
  }

  lemma CrashKeeps(size: nat, hash: string, d: Disk, keep: nat)
    requires IsHashText(hash) && RoundInv(size, hash, d)
    requires d.running && d.journal.Some? && keep <= |d.journal.value|
    ensures RoundInv(size, hash, Step(size, hash, d, Crash(keep)).value)
  {
    var body :| Trusted(size, hash, d, body);
    CrashTrusted(size, hash, d, body, d.journal.value[..keep], keep);
  }

  lemma CrashTrusted(size: nat, hash: string, d: Disk, body: string, text: string, keep: nat)
    requires IsHashText(hash) && Trusted(size, hash, d, body) && d.fetched <= AllPieces(size)
    requires keep <= |d.journal.value| && text == d.journal.value[..keep]
    ensures RoundInv(size, hash, d.(running := false, skipped := {}, journal := Some(text)))
  {
    if keep <= |Fresh(size, hash)| {
      CutInHeader(Fresh(size, hash), body, keep);
      CutHeader(size, hash, keep, text);
    } else {
      var k := keep - |Fresh(size, hash)|;
      CutInBody(Fresh(size, hash), body, keep);
      CutBody(size, d.fetched, body, k);
      assert Trusted(size, hash, d.(running := false, skipped := {}, journal := Some(text)), body[..k]);
    }
  }

  lemma CutInHeader(f: string, body: string, keep: nat)
    requires keep <= |f|
    ensures (f + body)[..keep] == f[..keep]
  {
  }

  lemma CutInBody(f: string, body: string, keep: nat)
    requires |f| <= keep <= |f| + |body|
    ensures (f + body)[..keep] == f + body[..keep - |f|]
  {
  }

  lemma CutBody(size: nat, fetched: set<Piece>, body: string, k: nat)
    requires BodyOk(size, fetched, body) && k <= |body|
    ensures BodyOk(size, fetched, body[..k])
  {
    assert forall j :: 0 <= j <= k ==> body[..k][..j] == body[..j];
  }

  lemma AppendKeeps(size: nat, hash: string, d: Disk, p: Piece)
    requires size < U64_LIMIT
    requires RoundInv(size, hash, d) && Step(size, hash, d, Append(p)).Some?
    ensures RoundInv(size, hash, Step(size, hash, d, Append(p)).value)
  {
    var body :| Trusted(size, hash, d, body);
    AppendTrusted(size, d.fetched, body, p);
    Regroup(Fresh(size, hash), body, Entry(p));
    Regroup(Fresh(size, hash), body + Entry(p), "\n");
    assert Trusted(size, hash, Step(size, hash, d, Append(p)).value, body + Entry(p) + "\n");
  }

  lemma AppendTrusted(size: nat, fetched: set<Piece>, body: string, p: Piece)
    requires size < U64_LIMIT && InGrid(size, p) && BodyOk(size, fetched, body) && Appendable(size, Tail(body))
    ensures BodyOk(size, fetched + {p}, body + Entry(p) + "\n")
    ensures Appendable(size, Tail(body + Entry(p) + "\n"))
  {
    MoreFetched(size, fetched, fetched + {p}, body);
    AppendBody(size, fetched + {p}, body, p);
    NewlineEndsLine(body + Entry(p));
    EmptyBody(size, fetched);
  }

  /** The window excluded by the guard is the only one in which a reset does harm. */
  lemma ResetCrashKeeps(size: nat, hash: string, d: Disk, at: nat)
    requires IsHashText(hash) && RoundInv(size, hash, d) && Step(size, hash, d, ResetCrash(at)).Some?
    requires d.skipped == {} && !Exposed(size, hash, d, ResetCrash(at))
    ensures RoundInv(size, hash, Step(size, hash, d, ResetCrash(at)).value)
  {
    var d' := Step(size, hash, d, ResetCrash(at)).value;
    if at >= 2 {
      CutHeader(size, hash, Min(at - 2, |Fresh(size, hash)|), d'.journal.value);
    } else if at == 0 && !Quiet(size, hash, d.journal) {
      ResetToEmpty(size, hash, d);
    }
  }

  lemma ResetToEmpty(size: nat, hash: string, d: Disk)
    requires RoundInv(size, hash, d) && !d.running && d.skipped == {} && !Quiet(size, hash, d.journal)
    requires Skip(size, hash, d.destLen, d.journal) == {}
    ensures RoundInv(size, hash, d.(destLen := Some(0), fetched := {}))
  {
    NotQuiet(size, hash, d.journal);
    assert d.destLen != Some(size);
    StaleKept(size, hash, d, d.(destLen := Some(0), fetched := {}));
  }

  lemma StaleKept(size: nat, hash: string, d: Disk, d': Disk)
    requires RoundInv(size, hash, d) && !Quiet(size, hash, d.journal) && d.destLen != Some(size)
    requires !d'.running && d'.destLen != Some(size) && d'.journal == d.journal && d'.skipped == {}
    requires d'.fetched <= AllPieces(size)
    ensures RoundInv(size, hash, d')
  {
    var body :| Stale(size, hash, d, body);
    assert Stale(size, hash, d', body);
  }

  lemma NotQuiet(size: nat, hash: string, journal: Option<string>)
    requires !Quiet(size, hash, journal)
    ensures size > 0
  {
    var p :| p in Skip(size, hash, Some(size), journal);
    SkipInGrid(size, hash, Some(size), journal);
    GridMember(size, p);
  }

  lemma SkipInGrid(size: nat, hash: string, destLen: Option<nat>, journal: Option<string>)
    ensures forall p :: p in Skip(size, hash, destLen, journal) ==> InGrid(size, p)
  {
  }

  lemma DropFileKeeps(size: nat, hash: string, d: Disk)
    requires RoundInv(size, hash, d) && !d.running && d.skipped == {}
    ensures RoundInv(size, hash, Step(size, hash, d, DropFile).value)
  {
    DroppedKept(size, hash, d);
  }

  lemma DroppedKept(size: nat, hash: string, d: Disk)
    requires RoundInv(size, hash, d) && !d.running && d.skipped == {}
    ensures RoundInv(size, hash, d.(destLen := None, fetched := {}))
  {
    var d' := d.(destLen := None, fetched := {});
    if !Quiet(size, hash, d.journal) {
      if body :| Trusted(size, hash, d, body) {
        MoreFetched(size, d.fetched, AllPieces(size), body);
        assert Stale(size, hash, d', body);
      } else {
        StaleKept(size, hash, d, d');
      }
    }
  }

  lemma ExportKeeps(size: nat, hash: string, d: Disk, len: nat)
    requires RoundInv(size, hash, d) && Step(size, hash, d, Export(len)).Some? && d.skipped == {}
    ensures RoundInv(size, hash, Step(size, hash, d, Export(len)).value)
  {
    var d' := Step(size, hash, d, Export(len)).value;
    ExportIs(size, hash, d, len);
    if Quiet(size, hash, d.journal) {
      QuietKept(size, hash, d');
    } else if len < size {
      StaleKept(size, hash, d, d');
    } else {
      StaleTrusted(size, hash, d, d');
    }
  }

  lemma ExportIs(size: nat, hash: string, d: Disk, len: nat)
    requires Step(size, hash, d, Export(len)).Some?
    ensures !d.running && d.destLen.None?
    ensures Step(size, hash, d, Export(len)).value
      == if len < size then d.(destLen := Some(len)) else d.(destLen := Some(size), fetched := AllPieces(size))
  {
  }

  /** With the whole blob in the file, every grid piece the old journal lists is there. */
  lemma StaleTrusted(size: nat, hash: string, d: Disk, d': Disk)
    requires RoundInv(size, hash, d) && !Quiet(size, hash, d.journal) && d.destLen != Some(size)
    requires d' == d.(destLen := Some(size), fetched := AllPieces(size)) && d.skipped == {}
    ensures RoundInv(size, hash, d')
  {
    var body :| Stale(size, hash, d, body);
    assert Trusted(size, hash, d', body);
  }

  /** A guarded history, in which the runs of a larger blob keep no torn number. */
  predicate Careful(size: nat, hash: string, d: Disk, es: seq<Event>) {
    Guarded(size, hash, d, es) && (IsSmall(size) || Untorn(size, hash, d, es))
  }

  /** Over every careful history of any blob the journal stays trusted, or lists nothing, or has no
      scratch file to vouch for. */
  lemma {:induction false} RunKeeps(size: nat, hash: string, destLen: Option<nat>, es: seq<Event>)
    requires size < U64_LIMIT && IsHashText(hash)
    requires Run(size, hash, Init(destLen), es).Some? && Careful(size, hash, Init(destLen), es)
    ensures var d := Run(size, hash, Init(destLen), es).value;
      RoundInv(size, hash, d) && (!d.running ==> d.skipped == {})
    decreases |es|
  {
    if es != [] {
      var init, e := es[..|es| - 1], es[|es| - 1];
      RunKeeps(size, hash, destLen, init);
      StepKeeps(size, hash, Run(size, hash, Init(destLen), init).value, e);
    }
  }

  lemma StepKeeps(size: nat, hash: string, d: Disk, e: Event)
    requires size < U64_LIMIT && IsHashText(hash)
    requires RoundInv(size, hash, d) && (!d.running ==> d.skipped == {}) && Step(size, hash, d, e).Some?
    requires !Exposed(size, hash, d, e) && (IsSmall(size) || !TornResume(size, hash, d, e))
    ensures var d' := Step(size, hash, d, e).value;
      RoundInv(size, hash, d') && (!d'.running ==> d'.skipped == {})
  {
    match e
    case Resume => ResumeKeeps(size, hash, d);
    case ResetCrash(at) => ResetCrashKeeps(size, hash, d, at);
    case Append(p) => AppendKeeps(size, hash, d, p);
    case Crash(keep) => CrashKeeps(size, hash, d, keep);
    case DropFile => DropFileKeeps(size, hash, d);
    case DropJournal =>
    case Export(len) => ExportKeeps(size, hash, d, len);
    case Foreign(_, _, _, _) => ForeignKeeps(size, hash, d, e);
    case ForeignReset(_) => ForeignKeeps(size, hash, d, e);
  }
}
