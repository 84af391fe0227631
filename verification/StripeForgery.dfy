/**
 Torn lines: how large a blob may be for the stripe journal to be believed. Up to 24 MiB no
 torn line ever comes to name a piece that was not fetched. In a larger grid, the bytes that
 survive six torn journal lines can spell the line of such a piece.
 */
module StripeForgery {
  import opened Common
  import opened Decimal
  import opened Text
  import opened StripeGrid
  import opened StripeJournal

  predicate Large(size: nat, hash: string) {
    TotalChunks(size) > SAFE_CHUNKS && size < U64_LIMIT && IsHashText(hash)
  }

  /** Piece number `i` of the grid. */
  function P(size: nat, i: nat): Piece { StartPiece(size, i * PIECE_CHUNKS) }

  lemma LargeGrid(size: nat, hash: string, i: nat)
    requires Large(size, hash) && i <= 6
    ensures InGrid(size, P(size, i)) && P(size, i).start == i * PIECE_CHUNKS
    ensures P(size, i).end < U64_LIMIT && (i < 6 ==> P(size, i).end == (i + 1) * PIECE_CHUNKS)
  {
    GridMember(size, P(size, i));
  }

  lemma Distinct(size: nat, hash: string, i: nat)
    requires Large(size, hash) && i <= 6
    ensures InGrid(size, P(size, i))
    ensures i != 3 ==> P(size, i) != P(size, 3)
    ensures i != 5 ==> P(size, i) != P(size, 5)
  {
    LargeGrid(size, hash, i);
    LargeGrid(size, hash, 3);
    LargeGrid(size, hash, 5);
  }

  /** A stopped fetch whose journal lists piece 3 and then the torn line `t`. */
  function Torn(size: nat, hash: string, t: string, fetched: set<Piece>): Disk {
    Disk(Some(size), Some(TornText(size, hash, t)), fetched, false, {})
  }

  function TornText(size: nat, hash: string, t: string): string {
    JournalOf(size, hash, Entry(P(size, 3)) + "\n" + t)
  }

  // ----- What a load takes from such a journal -----

  lemma ParsePrinted(p: Piece)
    requires p.start < U64_LIMIT && p.end < U64_LIMIT
    ensures ParseLine(Entry(p)) == Some(p)
  {
    ParseSplit(Print(p.start), Print(p.end));
  }

  lemma ParseEntry(size: nat, hash: string, i: nat)
    requires Large(size, hash) && i <= 6
    ensures ParseLine(Entry(P(size, i))) == Some(P(size, i))
  {
    LargeGrid(size, hash, i);
    ParsePrinted(P(size, i));
  }

  lemma ParseBoth(a: string, t: string)
    requires ParseLine(a).Some?
    ensures ParseLines([a] + (if t == "" then [] else [t]))
      == {ParseLine(a).value} + (if ParseLine(t).Some? then {ParseLine(t).value} else {})
  {
    var ls := [a] + (if t == "" then [] else [t]);
    assert ls[0] == a && (t != "" ==> ls[1] == t);
  }

  lemma TornLoad(size: nat, hash: string, t: string)
    requires Large(size, hash) && !Has(t, '\n')
    ensures LoadJournal(size, hash, Some(size), Some(TornText(size, hash, t)))
      == {P(size, 3)} + (if ParseLine(t).Some? then {ParseLine(t).value} else {})
  {
    var a := Entry(P(size, 3));
    EntryPlain(P(size, 3));
    LoadOf(size, hash, a + "\n" + t);
    FirstLine(a, t);
    SingleLine(t);
    ParseEntry(size, hash, 3);
    ParseBoth(a, t);
  }

  lemma SkipTorn(size: nat, hash: string, t: string)
    requires Large(size, hash) && !Has(t, '\n')
    requires ParseLine(t).None? || InGrid(size, ParseLine(t).value)
    ensures Skip(size, hash, Some(size), Some(TornText(size, hash, t)))
      == {P(size, 3)} + (if ParseLine(t).Some? then {ParseLine(t).value} else {})
  {
    TornLoad(size, hash, t);
    LargeGrid(size, hash, 3);
  }

  // ----- One crash -----

  predicate NoReset(es: seq<Event>) { forall i :: 0 <= i < |es| ==> !es[i].ResetCrash? && !es[i].ForeignReset? }

  lemma {:induction false} NoResetGuarded(size: nat, hash: string, d: Disk, es: seq<Event>)
    requires NoReset(es)
    ensures Guarded(size, hash, d, es)
    decreases |es|
  {
    if es != [] {
      NoResetGuarded(size, hash, d, es[..|es| - 1]);
    }
  }

  ghost predicate Reaches(size: nat, hash: string, d: Disk) {
    exists es :: Run(size, hash, Init(None), es) == Some(d) && NoReset(es)
  }

  /** Some history stops with this torn line and without ever fetching piece 5. */
  ghost predicate TornReach(size: nat, hash: string, t: string) {
    exists fetched :: P(size, 5) !in fetched && Reaches(size, hash, Torn(size, hash, t, fetched))
  }

  lemma ReachStep(size: nat, hash: string, d: Disk, e: Event)
    requires Reaches(size, hash, d) && Step(size, hash, d, e).Some? && !e.ResetCrash? && !e.ForeignReset?
    ensures Reaches(size, hash, Step(size, hash, d, e).value)
  {
    var es :| Run(size, hash, Init(None), es) == Some(d) && NoReset(es);
    assert (es + [e])[..|es + [e]| - 1] == es;
    assert Run(size, hash, Init(None), es + [e]) == Step(size, hash, d, e);
  }

  lemma StepResume(size: nat, hash: string, d: Disk)
    requires !d.running && Skip(size, hash, d.destLen, d.journal) != {}
    ensures Step(size, hash, d, Resume)
      == Some(d.(running := true, skipped := Skip(size, hash, d.destLen, d.journal)))
  {
  }

  lemma StepAppend(size: nat, hash: string, d: Disk, text: string, q: Piece)
    requires d.running && d.journal == Some(text) && InGrid(size, q) && q !in d.skipped
    ensures Step(size, hash, d, Append(q))
      == Some(d.(fetched := d.fetched + {q}, journal := Some(text + Entry(q) + "\n")))
  {
  }

  lemma StepCrash(size: nat, hash: string, d: Disk, text: string, keep: nat)
    requires d.running && d.journal == Some(text) && keep <= |text|
    ensures Step(size, hash, d, Crash(keep))
      == Some(d.(running := false, skipped := {}, journal := Some(text[..keep])))
  {
  }

  /** The run resumes, skips piece 3, and logs `q` right behind the torn line. */
  lemma RoundLogs(size: nat, hash: string, t: string, fetched: set<Piece>, q: Piece)
    requires Skip(size, hash, Some(size), Some(TornText(size, hash, t))) == {P(size, 3)}
    requires Reaches(size, hash, Torn(size, hash, t, fetched))
    requires InGrid(size, q) && q != P(size, 3)
    ensures Reaches(size, hash,
      Disk(Some(size), Some(TornText(size, hash, t) + Entry(q) + "\n"), fetched + {q}, true, {P(size, 3)}))
  {
    var d := Torn(size, hash, t, fetched);
    StepResume(size, hash, d);
    ReachStep(size, hash, d, Resume);
    var d1 := d.(running := true, skipped := {P(size, 3)});
    StepAppend(size, hash, d1, TornText(size, hash, t), q);
    ReachStep(size, hash, d1, Append(q));
  }

  lemma ReachCrash(size: nat, hash: string, d: Disk, text: string, keep: nat)
    requires Reaches(size, hash, d) && d.running && d.journal == Some(text) && keep <= |text|
    ensures Reaches(size, hash, d.(running := false, skipped := {}, journal := Some(text[..keep])))
  {
    StepCrash(size, hash, d, text, keep);
    ReachStep(size, hash, d, Crash(keep));
  }

  lemma CutLine(text: string, line: string, j: nat)
    requires j <= |line|
    ensures text + line[..j] <= text + line + "\n"
  {
  }

  /** The run dies: of its journal `whole`, only `cut` is left. */
  lemma RoundCrashes(
    size: nat, hash: string, whole: string, cut: string, fetched: set<Piece>, skipped: set<Piece>)
    requires Reaches(size, hash, Disk(Some(size), Some(whole), fetched, true, skipped)) && cut <= whole
    ensures Reaches(size, hash, Disk(Some(size), Some(cut), fetched, false, {}))
  {
    assert whole[..|cut|] == cut;
    ReachCrash(size, hash, Disk(Some(size), Some(whole), fetched, true, skipped), whole, |cut|);
  }

  lemma TornGrows(size: nat, hash: string, t: string, f: string)
    ensures TornText(size, hash, t) + f == TornText(size, hash, t + f)
  {
    assert Entry(P(size, 3)) + "\n" + t + f == Entry(P(size, 3)) + "\n" + (t + f);
  }

  /** The run resumes, finishes piece `i`, and dies `j` bytes into its line, leaving `f`. */
  lemma Tear(size: nat, hash: string, t: string, i: nat, j: nat, f: string)
    requires Large(size, hash) && !Has(t, '\n') && ParseLine(t).None? && TornReach(size, hash, t)
    requires i <= 6 && i != 3 && i != 5 && j <= |Entry(P(size, i))| && Entry(P(size, i))[..j] == f
    ensures TornReach(size, hash, t + f)
  {
    var fetched :| P(size, 5) !in fetched && Reaches(size, hash, Torn(size, hash, t, fetched));
    Distinct(size, hash, i);
    SkipTorn(size, hash, t);
    RoundLogs(size, hash, t, fetched, P(size, i));
    var text, line := TornText(size, hash, t), Entry(P(size, i));
    CutLine(text, line, j);
    RoundCrashes(size, hash, text + line + "\n", text + f, fetched + {P(size, i)}, {P(size, 3)});
    TornGrows(size, hash, t, f);
    assert P(size, 5) !in fetched + {P(size, i)};
  }

  lemma FirstResume(size: nat, hash: string)
    ensures Reaches(size, hash, Disk(Some(size), Some(Fresh(size, hash)), {}, true, {}))
  {
    assert Run(size, hash, Init(None), []) == Some(Init(None));
    ReachStep(size, hash, Init(None), Resume);
  }

  lemma FirstText(size: nat, hash: string)
    ensures Fresh(size, hash) + Entry(P(size, 3)) + "\n" == TornText(size, hash, "")
  {
    assert Entry(P(size, 3)) + "\n" + "" == Entry(P(size, 3)) + "\n";
  }

  lemma FirstEntry(size: nat, hash: string)
    requires Large(size, hash)
    ensures TornReach(size, hash, "")
  {
    var p, text := P(size, 3), TornText(size, hash, "");
    Distinct(size, hash, 3);
    FirstResume(size, hash);
    FirstText(size, hash);
    var d := Disk(Some(size), Some(Fresh(size, hash)), {}, true, {});
    StepAppend(size, hash, d, Fresh(size, hash), p);
    ReachStep(size, hash, d, Append(p));
    var d2 := Disk(Some(size), Some(text), {} + {p}, true, {});
    StepCrash(size, hash, d2, text, |text|);
    ReachStep(size, hash, d2, Crash(|text|));
    assert text[..|text|] == text;
    assert P(size, 5) !in {} + {p};
    assert Reaches(size, hash, Torn(size, hash, "", {} + {p}));
  }

  // ----- The digits that survive -----

  /** Piece `i` starts at the chunk number `s`. */
  predicate StartsAt(i: nat, s: string) { Print(i * PIECE_CHUNKS) == s }

  lemma NextDigit(n: nat, s: string, d: nat)
    requires n > 0 && d < 10 && Print(n) == s
    ensures Print(10 * n + d) == s + [DigitChar(d)]
  {
    assert (10 * n + d) / 10 == n && (10 * n + d) % 10 == d;
  }

  lemma StartOne()
    ensures StartsAt(1, "4096")
  {
    NextDigit(4, "4", 0);
    NextDigit(40, "40", 9);
    NextDigit(409, "409", 6);
  }

  lemma StartTwo()
    ensures StartsAt(2, "8192")
  {
    NextDigit(8, "8", 1);
    NextDigit(81, "81", 9);
    NextDigit(819, "819", 2);
  }

  lemma StartFive()
    ensures StartsAt(5, "20480")
  {
    NextDigit(2, "2", 0);
    NextDigit(20, "20", 4);
    NextDigit(204, "204", 8);
    NextDigit(2048, "2048", 0);
  }

  lemma StartSix()
    ensures StartsAt(6, "24576")
  {
    NextDigit(2, "2", 4);
    NextDigit(24, "24", 5);
    NextDigit(245, "245", 7);
    NextDigit(2457, "2457", 6);
  }

  lemma EntryStart(size: nat, hash: string, i: nat, s: string, j: nat)
    requires Large(size, hash) && i <= 6 && StartsAt(i, s) && j <= |s| + 1
    ensures j <= |Entry(P(size, i))| && Entry(P(size, i))[..j] == (s + " ")[..j]
  {
    LargeGrid(size, hash, i);
    assert Entry(P(size, i)) == (s + " ") + Print(P(size, i).end);
  }

  lemma DigitsTear(t: string)
    requires AllDigits(t)
    ensures ParseLine(t).None? && !Has(t, '\n')
  {
    DigitsHaveNoSpace(t);
  }

  lemma TearDigits(size: nat, hash: string, t: string, i: nat, s: string, j: nat)
    requires Large(size, hash) && AllDigits(t) && TornReach(size, hash, t)
    requires i <= 6 && i != 3 && i != 5 && StartsAt(i, s) && j <= |s| + 1
    ensures TornReach(size, hash, t + (s + " ")[..j])
  {
    DigitsTear(t);
    EntryStart(size, hash, i, s, j);
    Tear(size, hash, t, i, j, (s + " ")[..j]);
  }

  /** Only the first digit of a start survives. */
  lemma TearFirst(size: nat, hash: string, t: string, i: nat, s: string)
    requires Large(size, hash) && AllDigits(t) && TornReach(size, hash, t)
    requires i <= 6 && i != 3 && i != 5 && StartsAt(i, s) && s != ""
    ensures TornReach(size, hash, t + [s[0]]) && AllDigits(t + [s[0]])
  {
    assert (s + " ")[..1] == [s[0]];
    TearDigits(size, hash, t, i, s, 1);
  }

  /** Four crashes, each of which keeps one digit of a line; `a` to `d` are the starts torn. */
  lemma ForgeFour(size: nat, hash: string, a: string, b: string, c: string, d: string)
    requires Large(size, hash) && a != "" && b != "" && c != "" && d != ""
    requires StartsAt(6, a) && StartsAt(0, b) && StartsAt(1, c) && StartsAt(2, d)
    ensures TornReach(size, hash, [] + [a[0]] + [b[0]] + [c[0]] + [d[0]])
    ensures AllDigits([] + [a[0]] + [b[0]] + [c[0]] + [d[0]])
  {
    FirstEntry(size, hash);
    TearFirst(size, hash, [], 6, a);
    TearFirst(size, hash, [] + [a[0]], 0, b);
    TearFirst(size, hash, [] + [a[0]] + [b[0]], 1, c);
    TearFirst(size, hash, [] + [a[0]] + [b[0]] + [c[0]], 2, d);
  }

  /** Five crashes whose surviving bytes spell the start `20480` of a piece nobody fetched. */
  lemma ForgeStart(size: nat, hash: string)
    requires Large(size, hash)
    ensures TornReach(size, hash, "20480" + " ")
  {
    StartSix();
    StartOne();
    StartTwo();
    ForgeFour(size, hash, "24576", "0", "4096", "8192");
    assert [] + ['2'] + ['0'] + ['4'] + ['8'] == "2048";
    TearDigits(size, hash, "2048", 0, "0", 2);
    assert "2048" + ("0" + " ")[..2] == "20480" + " ";
  }

  lemma StartTear(a: string)
    requires AllDigits(a)
    ensures ParseLine(a + " ").None? && !Has(a + " ", '\n')
  {
    SplitAt(a, "");
    assert a + " " + "" == a + " ";
  }

  /** A torn start, and behind it the digits of piece 6, which are also the end of piece 5. */
  lemma ForgeEnd(size: nat, hash: string, a: string, b: string)
    requires Large(size, hash) && TornReach(size, hash, a + " ") && StartsAt(5, a) && StartsAt(6, b)
    ensures TornReach(size, hash, Entry(P(size, 5)))
  {
    StartTear(a);
    EntryStart(size, hash, 6, b, |b|);
    assert (b + " ")[..|b|] == b;
    Tear(size, hash, a + " ", 6, |b|, b);
    LargeGrid(size, hash, 5);
  }

  lemma ForgeLine(size: nat, hash: string)
    requires Large(size, hash)
    ensures TornReach(size, hash, Entry(P(size, 5)))
  {
    ForgeStart(size, hash);
    StartFive();
    StartSix();
    ForgeEnd(size, hash, "20480", "24576");
  }

  lemma SkipForged(size: nat, hash: string)
    requires Large(size, hash)
    ensures Skip(size, hash, Some(size), Some(TornText(size, hash, Entry(P(size, 5)))))
      == {P(size, 3)} + {P(size, 5)}
  {
    ParseEntry(size, hash, 5);
    LargeGrid(size, hash, 5);
    EntryPlain(P(size, 5));
    SkipTorn(size, hash, Entry(P(size, 5)));
  }

  /** The sixth crash completes the forged line, and the next run skips the unfetched piece. */
  lemma Forgery(size: nat, hash: string)
    requires Large(size, hash)
    ensures exists es :: Guarded(size, hash, Init(None), es) && !Honest(size, hash, None, es)
  {
    var t := Entry(P(size, 5));
    ForgeLine(size, hash);
    SkipForged(size, hash);
    var fetched :| P(size, 5) !in fetched && Reaches(size, hash, Torn(size, hash, t, fetched));
    var d := Torn(size, hash, t, fetched);
    StepResume(size, hash, d);
    ReachStep(size, hash, d, Resume);
    NotHonest(size, hash, d.(running := true, skipped := {P(size, 3)} + {P(size, 5)}), P(size, 5));
  }

  lemma NotHonest(size: nat, hash: string, d: Disk, p: Piece)
    requires Reaches(size, hash, d) && p in d.skipped && p !in d.fetched
    ensures exists es :: Guarded(size, hash, Init(None), es) && !Honest(size, hash, None, es)
  {
    var es :| Run(size, hash, Init(None), es) == Some(d) && NoReset(es);
    NoResetGuarded(size, hash, Init(None), es);
    assert !Honest(size, hash, None, es);
  }

  lemma SmallIs(size: nat)
    ensures IsSmall(size) <==> size <= 24 * 1024 * 1024
  {
  }

  /** Above 24 MiB the torn resumes are the whole danger: without them, every guarded history of a
      blob of any size is honest. */
  lemma UntornIsHonest(size: nat, hash: string, destLen: Option<nat>, es: seq<Event>)
    requires size < U64_LIMIT && IsHashText(hash)
    requires Guarded(size, hash, Init(destLen), es) && Untorn(size, hash, Init(destLen), es)
    ensures Honest(size, hash, destLen, es)
  {
    if Run(size, hash, Init(destLen), es).Some? {
      RunKeeps(size, hash, destLen, es);
    }
  }

  /**
   Over every guarded history of crashes, resumes, removals and exports, every skipped piece has
   its bytes in the scratch file -- exactly for blobs of at most 24 MiB.
   */
  lemma SkipIsHonestIff(size: nat, hash: string)
    requires size < U64_LIMIT && IsHashText(hash)
    ensures (forall destLen, es :: Guarded(size, hash, Init(destLen), es) ==> Honest(size, hash, destLen, es))
      <==> size <= 24 * 1024 * 1024
  {
    SmallIs(size);
    if IsSmall(size) {
      forall destLen, es | Guarded(size, hash, Init(destLen), es) ensures Honest(size, hash, destLen, es) {
        if Run(size, hash, Init(destLen), es).Some? {
          RunKeeps(size, hash, destLen, es);
        }
      }
    } else {
      Forgery(size, hash);
    }
  }
}
