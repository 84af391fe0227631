/**
 Lost scratch files: what happens to the stripe journal's promise when the scratch file is
 removed and its journal stays behind. The next run recreates the file at full length before
 it replaces the journal; if it dies between the two, the old journal vouches for zeros.
 */
module StripeLoss {
  import opened Common
  import opened Text
  import opened StripeGrid
  import opened StripeJournal
  import F = StripeForgery

  lemma RunSnoc(size: nat, hash: string, d: Disk, es: seq<Event>, e: Event)
    requires Run(size, hash, d, es).Some?
    ensures Run(size, hash, d, es + [e]) == Step(size, hash, Run(size, hash, d, es).value, e)
  {
    assert (es + [e])[..|es + [e]| - 1] == es;
  }

  lemma GuardSnoc(size: nat, hash: string, d: Disk, es: seq<Event>, e: Event)
    requires Run(size, hash, d, es).Some?
    ensures Guarded(size, hash, d, es + [e]) <==>
      Guarded(size, hash, d, es) && !Exposed(size, hash, Run(size, hash, d, es).value, e)
  {
    assert (es + [e])[..|es + [e]| - 1] == es;
  }

  lemma UntornSnoc(size: nat, hash: string, d: Disk, es: seq<Event>, e: Event)
    requires Run(size, hash, d, es).Some?
    ensures Untorn(size, hash, d, es + [e]) <==>
      Untorn(size, hash, d, es) && !TornResume(size, hash, Run(size, hash, d, es).value, e)
  {
    assert (es + [e])[..|es + [e]| - 1] == es;
  }

  lemma RunTo(size: nat, hash: string, start: Disk, es: seq<Event>, e: Event, next: Disk)
    requires Run(size, hash, start, es).Some?
    requires Step(size, hash, Run(size, hash, start, es).value, e) == Some(next)
    ensures Run(size, hash, start, es + [e]) == Some(next)
  {
    RunSnoc(size, hash, start, es, e);
  }

  // ----- A journal that vouches for zeros -----

  /** A journal with one complete line lists that piece. */
  lemma OneLineListed(size: nat, hash: string, p: Piece)
    requires IsHashText(hash) && size < U64_LIMIT && InGrid(size, p)
    ensures Skip(size, hash, Some(size), Some(JournalOf(size, hash, Entry(p) + "\n"))) == {p}
  {
    LoadOf(size, hash, Entry(p) + "\n");
    OneLine(Entry(p));
    EntryParses(size, p);
    OneParsed(Entry(p));
  }

  lemma OneLine(l: string)
    requires l != "" && !Has(l, '\n') && !Has(l, '\r')
    ensures Lines(l + "\n") == [l]
  {
    assert l + "\n" + "" == l + "\n";
    FirstLine(l, "");
    SingleLine("");
  }

  lemma OneParsed(l: string)
    requires ParseLine(l).Some?
    ensures ParseLines([l]) == {ParseLine(l).value}
  {
    assert [l][0] == l;
  }

  lemma EntryParses(size: nat, p: Piece)
    requires size < U64_LIMIT && InGrid(size, p)
    ensures ParseLine(Entry(p)) == Some(p) && !Has(Entry(p), '\n') && !Has(Entry(p), '\r')
  {
    GridMember(size, p);
    F.ParsePrinted(p);
    EntryPlain(p);
  }

  /** A piece is fetched and logged, and the run fails. */
  lemma LoggedHistory(size: nat, hash: string, p: Piece) returns (es: seq<Event>)
    requires InGrid(size, p)
    ensures Run(size, hash, Init(None), es)
      == Some(Disk(Some(size), Some(JournalOf(size, hash, Entry(p) + "\n")), {p}, false, {}))
  {
    var f, line := Fresh(size, hash), Entry(p);
    var d1 := Disk(Some(size), Some(f), {}, true, {});
    var d2 := Disk(Some(size), Some(f + line + "\n"), {} + {p}, true, {});
    assert Run(size, hash, Init(None), []) == Some(Init(None));
    FreshStart(size, hash);
    F.StepAppend(size, hash, d1, f, p);
    RunTo(size, hash, Init(None), [], Resume, d1);
    RunTo(size, hash, Init(None), [] + [Resume], Append(p), d2);
    es := [] + [Resume] + [Append(p)];
    EndRun(size, hash, es, d2, f + line + "\n");
    es := es + [Crash(|f + line + "\n"|)];
    assert {} + {p} == {p};
    Regroup(f, line, "\n");
  }

  lemma FreshStart(size: nat, hash: string)
    ensures Step(size, hash, Init(None), Resume) == Some(Disk(Some(size), Some(Fresh(size, hash)), {}, true, {}))
  {
  }

  /** The run ends and leaves its whole journal. */
  lemma EndRun(size: nat, hash: string, es: seq<Event>, d: Disk, text: string)
    requires Run(size, hash, Init(None), es) == Some(d) && d.running && d.journal == Some(text)
    ensures Run(size, hash, Init(None), es + [Crash(|text|)]) == Some(d.(running := false, skipped := {}))
  {
    F.StepCrash(size, hash, d, text, |text|);
    RunSnoc(size, hash, Init(None), es, Crash(|text|));
    assert text[..|text|] == text;
  }

  /** The scratch file is removed, and the next run dies before it has replaced the journal. */
  lemma LostHistory(size: nat, hash: string, text: string, fetched: set<Piece>, es: seq<Event>)
    requires Run(size, hash, Init(None), es) == Some(Disk(Some(size), Some(text), fetched, false, {}))
    ensures Run(size, hash, Init(None), es + [DropFile] + [ResetCrash(1)])
      == Some(Disk(Some(size), Some(text), {}, false, {}))
  {
    RunSnoc(size, hash, Init(None), es, DropFile);
    RunSnoc(size, hash, Init(None), es + [DropFile], ResetCrash(1));
  }

  /**
   The failing history, for every piece of every blob: a piece is logged and the fetch fails, the
   scratch file is removed, the next run dies between sizing the new file and writing the new
   journal, and the run after that skips the piece, whose bytes are zeros.
   */
  lemma StaleJournalSkips(size: nat, hash: string, p: Piece) returns (es: seq<Event>)
    requires IsHashText(hash) && size < U64_LIMIT && InGrid(size, p)
    ensures Run(size, hash, Init(None), es).Some? && !Honest(size, hash, None, es)
    ensures var d := Run(size, hash, Init(None), es).value; d.running && d.skipped == {p} && d.fetched == {}
  {
    var text := JournalOf(size, hash, Entry(p) + "\n");
    es := LoggedHistory(size, hash, p);
    LostHistory(size, hash, text, {p}, es);
    es := es + [DropFile] + [ResetCrash(1)];
    OneLineListed(size, hash, p);
    F.StepResume(size, hash, Disk(Some(size), Some(text), {}, false, {}));
    RunSnoc(size, hash, Init(None), es, Resume);
    es := es + [Resume];
  }

  lemma {:induction false} SkippedInGrid(size: nat, hash: string, d: Disk, es: seq<Event>)
    requires d.skipped == {} && Run(size, hash, d, es).Some?
    ensures forall p :: p in Run(size, hash, d, es).value.skipped ==> InGrid(size, p)
    decreases |es|
  {
    if es != [] {
      var init := es[..|es| - 1];
      SkippedInGrid(size, hash, d, init);
      SkipsAreChosen(size, hash, Run(size, hash, d, init).value, es[|es| - 1]);
    }
  }

  lemma SkipsAreChosen(size: nat, hash: string, d: Disk, e: Event)
    requires Step(size, hash, d, e).Some? && forall p :: p in d.skipped ==> InGrid(size, p)
    ensures forall p :: p in Step(size, hash, d, e).value.skipped ==> InGrid(size, p)
  {
    if e.Resume? {
      SkipInGrid(size, hash, d.destLen, d.journal);
    }
  }

  /** Without a guard, only the empty blob is safe over every history. */
  lemma EveryHistoryIff(size: nat, hash: string)
    requires size < U64_LIMIT && IsHashText(hash)
    ensures (forall destLen, es :: Honest(size, hash, destLen, es)) <==> size == 0
  {
    if size == 0 {
      forall destLen, es ensures Honest(size, hash, destLen, es) {
        if Run(size, hash, Init(destLen), es).Some? {
          SkippedInGrid(size, hash, Init(destLen), es);
        }
      }
    } else {
      var p := Owner(size, 0);
      var es := StaleJournalSkips(size, hash, p);
    }
  }

  // ----- The exact guard -----

  /** No run of the history, and none started at any point of it, skips a piece without bytes. */
  ghost predicate SafeThroughout(size: nat, hash: string, destLen: Option<nat>, es: seq<Event>) {
    forall k :: 0 <= k <= |es| ==>
      Honest(size, hash, destLen, es[..k]) && Honest(size, hash, destLen, es[..k] + [Resume])
  }

  lemma {:induction false} PrefixRuns(size: nat, hash: string, d: Disk, es: seq<Event>, k: nat)
    requires Run(size, hash, d, es).Some? && k <= |es|
    ensures Run(size, hash, d, es[..k]).Some?
    decreases |es|
  {
    if k == |es| {
      assert es[..k] == es;
    } else {
      var init := es[..|es| - 1];
      PrefixRuns(size, hash, d, init, k);
      assert init[..k] == es[..k];
    }
  }

  lemma {:induction false} PrefixGuarded(size: nat, hash: string, d: Disk, es: seq<Event>, k: nat)
    requires Guarded(size, hash, d, es) && k <= |es|
    ensures Guarded(size, hash, d, es[..k])
    decreases |es|
  {
    if k == |es| {
      assert es[..k] == es;
    } else {
      var init := es[..|es| - 1];
      PrefixGuarded(size, hash, d, init, k);
      assert init[..k] == es[..k];
    }
  }

  lemma {:induction false} PrefixUntorn(size: nat, hash: string, d: Disk, es: seq<Event>, k: nat)
    requires Untorn(size, hash, d, es) && k <= |es|
    ensures Untorn(size, hash, d, es[..k])
    decreases |es|
  {
    if k == |es| {
      assert es[..k] == es;
    } else {
      var init := es[..|es| - 1];
      PrefixUntorn(size, hash, d, init, k);
      assert init[..k] == es[..k];
    }
  }

  lemma {:induction false} FirstExposed(size: nat, hash: string, d: Disk, es: seq<Event>) returns (k: nat)
    requires Run(size, hash, d, es).Some? && !Guarded(size, hash, d, es)
    ensures k < |es| && Run(size, hash, d, es[..k]).Some?
    ensures Exposed(size, hash, Run(size, hash, d, es[..k]).value, es[k])
    decreases |es|
  {
    var init := es[..|es| - 1];
    if Guarded(size, hash, d, init) {
      k := |es| - 1;
    } else {
      k := FirstExposed(size, hash, d, init);
      assert init[..k] == es[..k];
    }
  }

  /** After an exposed reset the next run skips pieces of an empty file. */
  lemma ResetThenResume(size: nat, hash: string, d: Disk, e: Event) returns (mid: Disk, end: Disk)
    requires Exposed(size, hash, d, e) && Step(size, hash, d, e).Some?
    ensures Step(size, hash, d, e) == Some(mid) && Step(size, hash, mid, Resume) == Some(end)
    ensures !(end.skipped <= end.fetched)
  {
    mid := d.(destLen := Some(size), fetched := {});
    ExposedIs(size, hash, d, e);
    F.StepResume(size, hash, mid);
    end := mid.(running := true, skipped := Skip(size, hash, mid.destLen, mid.journal));
  }

  lemma ExposedIs(size: nat, hash: string, d: Disk, e: Event)
    requires Exposed(size, hash, d, e) && Step(size, hash, d, e).Some?
    ensures !d.running && Step(size, hash, d, e) == Some(d.(destLen := Some(size), fetched := {}))
  {
  }

  lemma ExposedIsUnsafe(size: nat, hash: string, destLen: Option<nat>, es: seq<Event>, d: Disk, e: Event)
    requires Run(size, hash, Init(destLen), es) == Some(d)
    requires Exposed(size, hash, d, e) && Step(size, hash, d, e).Some?
    ensures !Honest(size, hash, destLen, es + [e] + [Resume])
  {
    var mid, end := ResetThenResume(size, hash, d, e);
    RunTo(size, hash, Init(destLen), es, e, mid);
    RunTo(size, hash, Init(destLen), es + [e], Resume, end);
  }

  /** The reset at `k` is a step of the history. */
  lemma StepTaken(size: nat, hash: string, start: Disk, es: seq<Event>, k: nat, d: Disk)
    requires Run(size, hash, start, es).Some? && k < |es| && Run(size, hash, start, es[..k]) == Some(d)
    ensures Step(size, hash, d, es[k]).Some? && es[..k + 1] == es[..k] + [es[k]]
  {
    PrefixRuns(size, hash, start, es, k + 1);
    assert es[..k + 1] == es[..k] + [es[k]];
    StepSome(size, hash, start, es[..k], es[k], d);
  }

  lemma StepSome(size: nat, hash: string, start: Disk, es: seq<Event>, e: Event, d: Disk)
    requires Run(size, hash, start, es) == Some(d) && Run(size, hash, start, es + [e]).Some?
    ensures Step(size, hash, d, e).Some?
  {
    RunSnoc(size, hash, start, es, e);
  }

  /** At every point of a careful history, the run there and a run started there are honest. */
  lemma CarefulIsSafe(size: nat, hash: string, destLen: Option<nat>, es: seq<Event>)
    requires size < U64_LIMIT && IsHashText(hash)
    requires Run(size, hash, Init(destLen), es).Some? && Careful(size, hash, Init(destLen), es)
    ensures Honest(size, hash, destLen, es) && Honest(size, hash, destLen, es + [Resume])
  {
    RunKeeps(size, hash, destLen, es);
    RunSnoc(size, hash, Init(destLen), es, Resume);
    var d := Run(size, hash, Init(destLen), es).value;
    if !d.running {
      ResumeIsHonest(size, hash, d);
    }
  }

  /**
   The guard is exact, for blobs of at most 24 MiB and for histories of any blob whose runs keep
   no torn number: such a history is safe at every point if and only if no reset of it dies
   between sizing the new scratch file and replacing a journal that still lists pieces.
   */
  lemma GuardIsExact(size: nat, hash: string, destLen: Option<nat>, es: seq<Event>)
    requires size < U64_LIMIT && IsHashText(hash) && Run(size, hash, Init(destLen), es).Some?
    requires size <= 24 * 1024 * 1024 || Untorn(size, hash, Init(destLen), es)
    ensures Guarded(size, hash, Init(destLen), es) <==> SafeThroughout(size, hash, destLen, es)
  {
    if Guarded(size, hash, Init(destLen), es) {
      F.SmallIs(size);
      forall k | 0 <= k <= |es|
        ensures Honest(size, hash, destLen, es[..k]) && Honest(size, hash, destLen, es[..k] + [Resume])
      {
        PrefixRuns(size, hash, Init(destLen), es, k);
        PrefixGuarded(size, hash, Init(destLen), es, k);
        if !IsSmall(size) {
          PrefixUntorn(size, hash, Init(destLen), es, k);
        }
        CarefulIsSafe(size, hash, destLen, es[..k]);
      }
    } else {
      var k := FirstExposed(size, hash, Init(destLen), es);
      var d := Run(size, hash, Init(destLen), es[..k]).value;
      StepTaken(size, hash, Init(destLen), es, k, d);
      ExposedIsUnsafe(size, hash, destLen, es[..k], d, es[k]);
    }
  }
}
