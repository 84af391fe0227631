/**
 A striped fetch over its whole life: any number of runs of the lanes (StripeSwarm), each
 ended by a crash and resumed from the journal (StripeJournal).
 */
module StripeRounds {
  import opened Common
  import opened Text
  import opened StripeGrid
  import J = StripeJournal
  import F = StripeForgery
  import L = StripeLoss
  import S = StripeSwarm

  /** The scratch file and the journal, as they are on disk. */
  datatype World = World(dest: Option<seq<Byte>>, journal: Option<string>)

  datatype Round =
    | Interrupted(peers: nat, events: seq<S.Event>, keep: nat) // a run, cut with `keep` journal bytes
    | ResetInterrupted(at: nat)                                 // a run that dies recreating its files
    | FileRemoved                                               // the scratch file goes, the journal stays
    | JournalRemoved                                            // the journal goes, the scratch file stays
    | Exported(len: nat)                                        // the fallback writes the blob, or part of it
    | OtherBlob(bytes: seq<Byte>, hash2: string, body: string, keep: nat) // runs of another blob
    | OtherReset(len: nat)                                      // such a run dies before its own journal

  function Length(dest: Option<seq<Byte>>): Option<nat> {
    if dest.None? then None else Some(|dest.value|)
  }

  function Skipped(blob: seq<Byte>, hash: string, w: World): set<Piece> {
    J.Skip(|blob|, hash, Length(w.dest), w.journal)
  }

  /** The scratch file and journal a run works on: the ones it found, or new ones. */
  function Opened(blob: seq<Byte>, hash: string, w: World): (seq<Byte>, string) {
    if Skipped(blob, hash, w) == {} || w.dest.None? || w.journal.None? then
      (Repeat(0, |blob|), J.Fresh(|blob|, hash))
    else (w.dest.value, w.journal.value)
  }

  function Begin(blob: seq<Byte>, hash: string, w: World, peers: nat): S.Swarm {
    var (dest, journal) := Opened(blob, hash, w);
    S.Initial(S.Fetch(blob, Skipped(blob, hash, w)), dest, journal, peers)
  }

  function PlayRound(blob: seq<Byte>, hash: string, w: World, r: Round): Option<World> {
    match r
    case Interrupted(peers, events, keep) =>
      var f := S.Fetch(blob, Skipped(blob, hash, w));
      var end := S.Run(f, Begin(blob, hash, w, peers), events);
      if end.None? || keep > |end.value.sh.journal| then None
      else Some(World(Some(end.value.dest), Some(end.value.sh.journal[..keep])))
    case ResetInterrupted(at) =>
      if Skipped(blob, hash, w) != {} then None
      else if at == 0 then Some(w.(dest := Some([])))
      else if at == 1 then Some(w.(dest := Some(Repeat(0, |blob|))))
      else
        var text := J.Fresh(|blob|, hash);
        Some(World(Some(Repeat(0, |blob|)), Some(text[..Min(at - 2, |text|)])))
    case FileRemoved => Some(w.(dest := None))
    case JournalRemoved => Some(w.(journal := None))
    case Exported(len) => if w.dest.Some? then None else Some(w.(dest := Some(blob[..Min(len, |blob|)])))
    case OtherBlob(bytes, hash2, body, keep) =>
      if (|bytes| == |blob| && hash2 == hash) || !J.IsHashText(hash2) || keep > |J.JournalOf(|bytes|, hash2, body)|
      then None
      else Some(World(Some(bytes), Some(J.JournalOf(|bytes|, hash2, body)[..keep])))
    case OtherReset(len) => Some(w.(dest := Some(Repeat(0, len))))
  }

  /** The run that starts in this world keeps a journal torn inside the first number of its last line. */
  predicate KeepsTornNumber(blob: seq<Byte>, hash: string, w: World) {
    w.journal.Some? && J.TornNumber(Tail(w.journal.value)) && Skipped(blob, hash, w) != {}
  }

  /** The round does not die between sizing a new scratch file and replacing a journal that still
      lists pieces, and, above 24 MiB, its run keeps no torn number. */
  predicate CarefulRound(blob: seq<Byte>, hash: string, w: World, r: Round) {
    (r == ResetInterrupted(1) || r == OtherReset(|blob|) ==> J.Quiet(|blob|, hash, w.journal))
    && (r.Interrupted? ==> |blob| <= 24 * 1024 * 1024 || !KeepsTornNumber(blob, hash, w))
  }

  predicate CarefulPlay(blob: seq<Byte>, hash: string, w: World, rounds: seq<Round>)
    decreases |rounds|
  {
    rounds == []
    || (CarefulPlay(blob, hash, w, rounds[..|rounds| - 1])
        && (Play(blob, hash, w, rounds[..|rounds| - 1]).Some? ==>
              CarefulRound(blob, hash, Play(blob, hash, w, rounds[..|rounds| - 1]).value, rounds[|rounds| - 1])))
  }

  function Play(blob: seq<Byte>, hash: string, w: World, rounds: seq<Round>): Option<World>
    decreases |rounds|
  {
    if rounds == [] then Some(w)
    else
      var r := Play(blob, hash, w, rounds[..|rounds| - 1]);
      if r.None? then None else PlayRound(blob, hash, r.value, rounds[|rounds| - 1])
  }

  // ----- Every round is a stretch of a journal history -----

  ghost predicate JReach(size: nat, hash: string, d: J.Disk) {
    exists destLen, es ::
      J.Run(size, hash, J.Init(destLen), es) == Some(d) && J.Careful(size, hash, J.Init(destLen), es)
  }

  lemma JStep(size: nat, hash: string, d: J.Disk, e: J.Event)
    requires JReach(size, hash, d) && J.Step(size, hash, d, e).Some? && !J.Exposed(size, hash, d, e)
    requires J.IsSmall(size) || !J.TornResume(size, hash, d, e)
    ensures JReach(size, hash, J.Step(size, hash, d, e).value)
  {
    var destLen, es :|
      J.Run(size, hash, J.Init(destLen), es) == Some(d) && J.Careful(size, hash, J.Init(destLen), es);
    L.RunSnoc(size, hash, J.Init(destLen), es, e);
    L.GuardSnoc(size, hash, J.Init(destLen), es, e);
    L.UntornSnoc(size, hash, J.Init(destLen), es, e);
  }

  /** Every piece the journal history calls fetched is in the scratch file. */
  ghost predicate AllInFile(blob: seq<Byte>, dest: seq<Byte>, fetched: set<Piece>) {
    forall p :: p in fetched ==> S.RangeOk(S.Fetch(blob, {}), dest, p)
  }

  /** A stopped world and the journal history that leads to it. */
  ghost predicate Sound(blob: seq<Byte>, hash: string, w: World, d: J.Disk) {
    JReach(|blob|, hash, d) && !d.running
    && d.destLen == Length(w.dest) && d.journal == w.journal
    && (w.dest.Some? ==> AllInFile(blob, w.dest.value, d.fetched))
    && (w.dest.None? ==> d.fetched == {})
  }

  /** A running swarm and the journal history that leads to its journal. */
  ghost predicate Tracks(f: S.Fetch, hash: string, s: S.Swarm, d: J.Disk) {
    JReach(f.Size(), hash, d) && d.running
    && d.destLen == Some(f.Size()) == Some(|s.dest|) && d.journal == Some(s.sh.journal)
    && d.skipped == f.skipped && AllInFile(f.blob, s.dest, d.fetched)
  }

  lemma RangeKept(f: S.Fetch, s: S.Swarm, e: S.Event, p: Piece)
    requires |s.dest| == f.Size() && S.RangeOk(f, s.dest, p) && S.Step(f, s, e).Some?
    ensures S.RangeOk(f, S.Step(f, s, e).value.dest, p)
  {
    if e.Write? {
      S.PatchKeeps(f, s.dest, e.at, e.len, p);
    } else if e.Succeed? {
      var q := s.lanes[e.lane].job.piece;
      var lo, hi := Lo(f.Size(), q), Hi(f.Size(), q);
      S.PatchKeeps(f, s.dest, lo, hi - lo, p);
    }
  }

  lemma FileKept(f: S.Fetch, s: S.Swarm, e: S.Event, fetched: set<Piece>)
    requires |s.dest| == f.Size() && AllInFile(f.blob, s.dest, fetched) && S.Step(f, s, e).Some?
    ensures AllInFile(f.blob, S.Step(f, s, e).value.dest, fetched)
  {
    forall p | p in fetched ensures S.RangeOk(S.Fetch(f.blob, {}), S.Step(f, s, e).value.dest, p) {
      assert S.RangeOk(f, s.dest, p);
      RangeKept(f, s, e, p);
    }
  }

  /** Only the logging step writes the journal, and it logs a fetched piece. */
  lemma JournalWrites(f: S.Fetch, s: S.Swarm, e: S.Event)
    requires S.Fates(f, s) && S.Step(f, s, e).Some?
    ensures var s' := S.Step(f, s, e).value;
      |s'.dest| == |s.dest|
      && (!e.LogPiece? ==> s'.sh.journal == s.sh.journal)
      && (e.LogPiece? ==>
            var p := s.lanes[e.lane].piece;
            s'.dest == s.dest && p in s.fetched && f.Todo(p)
            && s'.sh.journal == s.sh.journal + J.Entry(p) + "\n")
  {
    if e.LogPiece? {
      var p := s.lanes[e.lane].piece;
      assert S.LaneFate(f, s, s.lanes[e.lane]) && p in s.fetched + s.dropped;
    }
  }

  lemma LogTracked(f: S.Fetch, hash: string, d: J.Disk, text: string, p: Piece)
    requires JReach(f.Size(), hash, d) && d.running && d.journal == Some(text)
    requires f.Todo(p) && d.skipped == f.skipped
    ensures JReach(f.Size(), hash,
      d.(fetched := d.fetched + {p}, journal := Some(text + J.Entry(p) + "\n")))
  {
    JStep(f.Size(), hash, d, J.Append(p));
  }

  lemma TrackStep(f: S.Fetch, hash: string, s: S.Swarm, d: J.Disk, e: S.Event) returns (d': J.Disk)
    requires S.Fates(f, s) && S.Written(f, s) && Tracks(f, hash, s, d) && S.Step(f, s, e).Some?
    ensures Tracks(f, hash, S.Step(f, s, e).value, d')
  {
    FileKept(f, s, e, d.fetched);
    JournalWrites(f, s, e);
    if e.LogPiece? {
      var p := s.lanes[e.lane].piece;
      LogTracked(f, hash, d, s.sh.journal, p);
      d' := d.(fetched := d.fetched + {p}, journal := Some(s.sh.journal + J.Entry(p) + "\n"));
      assert S.RangeOk(f, s.dest, p);
    } else {
      d' := d;
    }
  }

  lemma {:induction false} TrackRun(f: S.Fetch, hash: string, s: S.Swarm, d: J.Disk, es: seq<S.Event>)
    returns (d': J.Disk)
    requires S.Inv(f, s) && Tracks(f, hash, s, d) && S.Run(f, s, es).Some?
    ensures Tracks(f, hash, S.Run(f, s, es).value, d')
    decreases |es|
  {
    if es == [] {
      d' := d;
    } else {
      var init := es[..|es| - 1];
      d' := TrackRun(f, hash, s, d, init);
      S.RunKeeps(f, s, init);
      d' := TrackStep(f, hash, S.Run(f, s, init).value, d', es[|es| - 1]);
    }
  }

  predicate IsBlob(blob: seq<Byte>, hash: string) { |blob| < U64_LIMIT && J.IsHashText(hash) }

  /** In a sound world every piece that a run would skip has been fetched. */
  lemma SkippedAreFetched(blob: seq<Byte>, hash: string, w: World, d: J.Disk)
    requires IsBlob(blob, hash) && Sound(blob, hash, w, d)
    ensures Skipped(blob, hash, w) <= d.fetched
  {
    var destLen, es :|
      J.Run(|blob|, hash, J.Init(destLen), es) == Some(d) && J.Careful(|blob|, hash, J.Init(destLen), es);
    J.RunKeeps(|blob|, hash, destLen, es);
    J.ResumeIsHonest(|blob|, hash, d);
  }

  /** So a run started there starts well, whatever it found at the end of the journal. */
  lemma BeginGood(blob: seq<Byte>, hash: string, w: World, d: J.Disk)
    requires IsBlob(blob, hash) && Sound(blob, hash, w, d)
    ensures S.GoodStart(S.Fetch(blob, Skipped(blob, hash, w)), Opened(blob, hash, w).0)
  {
    var f := S.Fetch(blob, Skipped(blob, hash, w));
    SkippedAreFetched(blob, hash, w, d);
    J.SkipInGrid(|blob|, hash, Length(w.dest), w.journal);
    forall p | p in f.skipped ensures S.RangeOk(f, Opened(blob, hash, w).0, p) {
      assert S.RangeOk(S.Fetch(blob, {}), w.dest.value, p);
    }
  }

  /** And unless it keeps a torn number of a larger blob, its journal is tracked. */
  lemma BeginTracked(blob: seq<Byte>, hash: string, w: World, d: J.Disk, peers: nat) returns (d': J.Disk)
    requires IsBlob(blob, hash) && Sound(blob, hash, w, d)
    requires J.IsSmall(|blob|) || !KeepsTornNumber(blob, hash, w)
    ensures Tracks(S.Fetch(blob, Skipped(blob, hash, w)), hash, Begin(blob, hash, w, peers), d')
  {
    JStep(|blob|, hash, d, J.Resume);
    d' := J.Step(|blob|, hash, d, J.Resume).value;
  }

  lemma RunTracked(blob: seq<Byte>, hash: string, w: World, d: J.Disk, peers: nat, events: seq<S.Event>)
    returns (d': J.Disk)
    requires IsBlob(blob, hash) && Sound(blob, hash, w, d)
    requires J.IsSmall(|blob|) || !KeepsTornNumber(blob, hash, w)
    requires S.Run(S.Fetch(blob, Skipped(blob, hash, w)), Begin(blob, hash, w, peers), events).Some?
    ensures var f := S.Fetch(blob, Skipped(blob, hash, w));
      Tracks(f, hash, S.Run(f, Begin(blob, hash, w, peers), events).value, d')
  {
    var f := S.Fetch(blob, Skipped(blob, hash, w));
    BeginGood(blob, hash, w, d);
    d' := BeginTracked(blob, hash, w, d, peers);
    S.InitialInv(f, Opened(blob, hash, w).0, Opened(blob, hash, w).1, peers);
    d' := TrackRun(f, hash, Begin(blob, hash, w, peers), d', events);
  }

  function EventOf(r: Round): J.Event {
    if r.OtherBlob? then J.Foreign(|r.bytes|, r.hash2, r.body, r.keep)
    else if r.OtherReset? then J.ForeignReset(r.len)
    else if r.Exported? then J.Export(r.len)
    else if r.FileRemoved? then J.DropFile
    else J.DropJournal
  }

  lemma FilesMatch(blob: seq<Byte>, hash: string, w: World, d: J.Disk, r: Round)
    requires PlayRound(blob, hash, w, r).Some? && !r.Interrupted? && !r.ResetInterrupted?
    requires !d.running && d.destLen == Length(w.dest) && d.journal == w.journal
    ensures var w', d' := PlayRound(blob, hash, w, r).value, J.Step(|blob|, hash, d, EventOf(r));
      d'.Some? && !d'.value.running && d'.value.destLen == Length(w'.dest) && d'.value.journal == w'.journal
  {
  }

  /** What happens to the files between runs. */
  lemma FilesSound(blob: seq<Byte>, hash: string, w: World, d: J.Disk, r: Round) returns (d': J.Disk)
    requires IsBlob(blob, hash) && Sound(blob, hash, w, d) && PlayRound(blob, hash, w, r).Some?
    requires CarefulRound(blob, hash, w, r) && !r.Interrupted? && !r.ResetInterrupted?
    ensures Sound(blob, hash, PlayRound(blob, hash, w, r).value, d')
  {
    var e := EventOf(r);
    FilesMatch(blob, hash, w, d, r);
    JStep(|blob|, hash, d, e);
    d' := J.Step(|blob|, hash, d, e).value;
    if r.Exported? {
      assert r.len >= |blob| ==> blob[..Min(r.len, |blob|)] == blob;
    }
  }

  lemma RoundSound(blob: seq<Byte>, hash: string, w: World, d: J.Disk, r: Round) returns (d': J.Disk)
    requires IsBlob(blob, hash) && Sound(blob, hash, w, d) && PlayRound(blob, hash, w, r).Some?
    requires CarefulRound(blob, hash, w, r)
    ensures Sound(blob, hash, PlayRound(blob, hash, w, r).value, d')
  {
    match r
    case ResetInterrupted(at) =>
      JStep(|blob|, hash, d, J.ResetCrash(at));
      d' := J.Step(|blob|, hash, d, J.ResetCrash(at)).value;
    case Interrupted(peers, events, keep) =>
      F.SmallIs(|blob|);
      d' := RunTracked(blob, hash, w, d, peers, events);
      JStep(|blob|, hash, d', J.Crash(keep));
      d' := J.Step(|blob|, hash, d', J.Crash(keep)).value;
    case _ => d' := FilesSound(blob, hash, w, d, r);
  }

  lemma {:induction false} PlaySound(blob: seq<Byte>, hash: string, w: World, rounds: seq<Round>)
    returns (d: J.Disk)
    requires IsBlob(blob, hash) && w.journal.None?
    requires Play(blob, hash, w, rounds).Some? && CarefulPlay(blob, hash, w, rounds)
    ensures Sound(blob, hash, Play(blob, hash, w, rounds).value, d)
    decreases |rounds|
  {
    if rounds == [] {
      d := J.Init(Length(w.dest));
      assert J.Run(|blob|, hash, d, []) == Some(d);
    } else {
      var init := rounds[..|rounds| - 1];
      d := PlaySound(blob, hash, w, init);
      d := RoundSound(blob, hash, Play(blob, hash, w, init).value, d, rounds[|rounds| - 1]);
    }
  }

  /**
   End to end, for blobs of every size: after any careful rounds of crashes, resumes, removals and
   exports, a run that ends with no piece left has the blob's exact bytes in the scratch file --
   even if that last run itself finds a torn journal.
   */
  lemma ResumedFetchIsTheBlob(
    blob: seq<Byte>, hash: string, dest: Option<seq<Byte>>, rounds: seq<Round>, w: World,
    peers: nat, events: seq<S.Event>, end: S.Swarm)
    requires IsBlob(blob, hash)
    requires Play(blob, hash, World(dest, None), rounds) == Some(w) && CarefulPlay(blob, hash, World(dest, None), rounds)
    requires S.Run(S.Fetch(blob, Skipped(blob, hash, w)), Begin(blob, hash, w, peers), events) == Some(end)
    requires end.sh.piecesLeft == 0
    ensures end.dest == blob && end.sh.bytesDone == |blob|
  {
    var d := PlaySound(blob, hash, World(dest, None), rounds);
    BeginGood(blob, hash, w, d);
    var f := S.Fetch(blob, Skipped(blob, hash, w));
    var files := Opened(blob, hash, w);
    assert Begin(blob, hash, w, peers) == S.Initial(f, files.0, files.1, peers);
    S.NoPieceLeftMeansBlob(f, files.0, end);
  }
}
