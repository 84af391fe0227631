/**
 The striped swarm fetch (iroh_node.rs, `StripeShared`, the lanes of `spawn_stripe_peer` and
 the driver of `fetch_striped`): many lanes take pieces from one queue, write bao-verified
 ranges into the scratch file, and account for them with atomic counters.
 */
module StripeSwarm {
  import opened Common
  import opened StripeGrid
  import StripeJournal

  const REPORT_STEP: nat := 1024 * 1024

  datatype Job = Job(piece: Piece, attempts: nat)

  /** What all lanes share; each function below is one atomic or lock-protected access. */
  datatype Shared = Shared(
    queue: seq<Job>, piecesLeft: nat, bytesDone: nat, fatal: bool, maxAttempts: nat, journal: string)
  {
    function Pop(): Shared requires queue != [] { this.(queue := queue[1..]) }

    function Credit(size: nat, p: Piece): Shared {
      this.(bytesDone := bytesDone + PieceBytes(size, p))
    }

    /** `fetch_sub(1)`, which wraps at zero. */
    function CountDown(): Shared {
      this.(piecesLeft := if piecesLeft == 0 then U64_LIMIT - 1 else piecesLeft - 1)
    }

    function Log(p: Piece): Shared {
      this.(journal := journal + StripeJournal.Entry(p) + "\n")
    }

    function Requeue(job: Job): Shared {
      if job.attempts >= maxAttempts then this.(fatal := true) else this.(queue := queue + [job])
    }
  }

  /** The shared object itself, updated in place. */
  class StripeShared {
    const size: nat
    var queue: seq<Job>
    var piecesLeft: nat
    var bytesDone: nat
    var fatal: bool
    var maxAttempts: nat
    var journal: string
    var lastEmit: nat

    ghost function State(): Shared
      reads this
    {
      Shared(queue, piecesLeft, bytesDone, fatal, maxAttempts, journal)
    }

    constructor (size: nat, skipped: set<Piece>, journal: string, peers: nat)
      ensures this.size == size
      ensures State() == Start(size, skipped, journal, peers) && lastEmit == bytesDone
    {
      this.size := size;
      var all := StripePieces(size);
      var jobs: seq<Job> := [];
      var done := 0;
      var i := 0;
      while i < |all|
        invariant i <= |all| && all == Grid(size)
        invariant jobs == Jobs(all[..i], skipped)
        invariant done == BytesIn(size, all[..i], skipped)
      {
        assert all[..i + 1][..i] == all[..i];
        if all[i] in skipped {
          done := done + PieceBytes(size, all[i]);
        } else {
          jobs := jobs + [Job(all[i], 0)];
        }
        i := i + 1;
      }
      assert all[..i] == Grid(size);
      this.queue, this.piecesLeft, this.bytesDone := jobs, |jobs|, done;
      this.fatal, this.maxAttempts, this.journal, this.lastEmit := false, Max(peers + 2, 6), journal, done;
    }

    method TakePiece() returns (job: Option<Job>)
      modifies `queue
      ensures old(queue) == [] ==> job.None? && State() == old(State())
      ensures old(queue) != [] ==> job == Some(old(queue)[0]) && State() == old(State()).Pop()
    {
      if queue == [] {
        job := None;
      } else {
        job := Some(queue[0]);
        queue := queue[1..];
      }
    }

    /** Progress is reported once it has moved on by 1 MiB, and at the end. */
    method CompletePiece(p: Piece) returns (report: Option<nat>)
      modifies `bytesDone, `piecesLeft, `journal, `lastEmit
      ensures State() == old(State()).Credit(size, p).CountDown().Log(p)
      ensures report.Some? <==> bytesDone >= old(lastEmit) + REPORT_STEP || bytesDone >= size
      ensures report.Some? ==> report.value == Min(bytesDone, size) && lastEmit == bytesDone
      ensures report.None? ==> lastEmit == old(lastEmit)
    {
      bytesDone := bytesDone + Max(Hi(size, p) - Lo(size, p), 0);
      if piecesLeft == 0 {
        piecesLeft := U64_LIMIT - 1;
      } else {
        piecesLeft := piecesLeft - 1;
      }
      journal := journal + StripeJournal.Entry(p) + "\n";
      report := None;
      if Max(bytesDone - lastEmit, 0) >= REPORT_STEP || bytesDone >= size {
        lastEmit := bytesDone;
        report := Some(Min(bytesDone, size));
      }
    }

    method RequeuePiece(p: Piece, attempts: nat)
      modifies `queue, `fatal
      ensures State() == old(State()).Requeue(Job(p, attempts))
    {
      if attempts >= maxAttempts {
        fatal := true;
      } else {
        queue := queue + [Job(p, attempts)];
      }
    }
  }

  /** The pieces still to fetch, in grid order, none attempted yet. */
  function Jobs(g: seq<Piece>, skipped: set<Piece>): seq<Job> {
    if g == [] then []
    else
      Jobs(g[..|g| - 1], skipped)
      + (if g[|g| - 1] in skipped then [] else [Job(g[|g| - 1], 0)])
  }

  function Start(size: nat, skipped: set<Piece>, journal: string, peers: nat): Shared {
    var jobs := Jobs(Grid(size), skipped);
    Shared(jobs, |jobs|, BytesIn(size, Grid(size), skipped), false, Max(peers + 2, 6), journal)
  }

  // ----- Lanes interleaving -----

  /** A lane's program counter, between two accesses to shared state. */
  datatype Lane =
    | Idle
    | Fetching(job: Job)    // took the job, range request running
    | Failed(job: Job)      // request failed, piece not yet given back
    | Fetched(piece: Piece) // request succeeded, nothing accounted yet
    | Credited(piece: Piece)
    | Counted(piece: Piece)
  {
    function Holds(): Option<Piece> {
      match this
      case Idle => None
      case Fetching(j) => Some(j.piece)
      case Failed(j) => Some(j.piece)
      case Fetched(p) => Some(p)
      case Credited(p) => Some(p)
      case Counted(p) => Some(p)
    }

    predicate InFlight() { Fetching? || Failed? }
  }

  /** One fetch: the blob its hash names, and the pieces the journal lets it skip. */
  datatype Fetch = Fetch(blob: seq<Byte>, skipped: set<Piece>)
  {
    function Size(): nat { |blob| }

    predicate Todo(p: Piece) { InGrid(Size(), p) && p !in skipped }
  }

  /** Shared state, scratch file and lanes; the four sets record what has happened to a piece. */
  datatype Swarm = Swarm(
    sh: Shared, dest: seq<Byte>, lanes: map<nat, Lane>,
    fetched: set<Piece>, credited: set<Piece>, counted: set<Piece>, dropped: set<Piece>)

  datatype Event =
    | Join(lane: nat) | Leave(lane: nat) | Raise(attempts: nat) | Watchdog
    | Take(lane: nat)
    | Write(lane: nat, at: nat, len: nat)
    | Succeed(lane: nat) | Fail(lane: nat)
    | GiveBack(lane: nat)
    | CreditBytes(lane: nat) | CountPiece(lane: nat) | LogPiece(lane: nat)

  function Initial(f: Fetch, dest: seq<Byte>, journal: string, peers: nat): Swarm {
    Swarm(Start(f.Size(), f.skipped, journal, peers), dest, map[], {}, {}, {}, {})
  }

  /** A range request may write bytes of the blob inside its own piece, and nothing else. */
  function Step(f: Fetch, s: Swarm, e: Event): Option<Swarm> {
    match e
    case Join(l) => if l in s.lanes then None else Some(s.(lanes := s.lanes[l := Idle]))
    case Leave(l) =>
      if l in s.lanes && s.lanes[l].Idle? then Some(s.(lanes := s.lanes - {l})) else None
    case Raise(n) => Some(s.(sh := s.sh.(maxAttempts := Max(s.sh.maxAttempts, n))))
    case Watchdog => Some(s.(sh := s.sh.(fatal := true)))
    case Take(l) =>
      if l in s.lanes && s.lanes[l].Idle? && s.sh.queue != [] then
        Some(s.(sh := s.sh.Pop(), lanes := s.lanes[l := Fetching(s.sh.queue[0])]))
      else None
    case Write(l, at, len) =>
      if l in s.lanes && s.lanes[l].Fetching? && at + len <= |f.blob| && at + len <= |s.dest|
        && Lo(f.Size(), s.lanes[l].job.piece) <= at && at + len <= Hi(f.Size(), s.lanes[l].job.piece)
      then Some(s.(dest := Patch(s.dest, at, f.blob[at..at + len])))
      else None
    case Succeed(l) =>
      if l in s.lanes && s.lanes[l].Fetching? then
        var p := s.lanes[l].job.piece;
        var lo, hi := Lo(f.Size(), p), Hi(f.Size(), p);
        if lo <= hi <= |s.dest| then
          Some(s.(dest := Patch(s.dest, lo, f.blob[lo..hi]), lanes := s.lanes[l := Fetched(p)],
                  fetched := s.fetched + {p}))
        else None
      else None
    case Fail(l) =>
      if l in s.lanes && s.lanes[l].Fetching? then
        var j := s.lanes[l].job;
        Some(s.(lanes := s.lanes[l := Failed(Job(j.piece, j.attempts + 1))]))
      else None
    case GiveBack(l) =>
      if l in s.lanes && s.lanes[l].Failed? then
        var j := s.lanes[l].job;
        var drop := j.attempts >= s.sh.maxAttempts;
        Some(s.(sh := s.sh.Requeue(j), lanes := s.lanes[l := Idle],
                dropped := if drop then s.dropped + {j.piece} else s.dropped))
      else None
    case CreditBytes(l) =>
      if l in s.lanes && s.lanes[l].Fetched? then
        var p := s.lanes[l].piece;
        Some(s.(sh := s.sh.Credit(f.Size(), p), lanes := s.lanes[l := Credited(p)],
                credited := s.credited + {p}))
      else None
    case CountPiece(l) =>
      if l in s.lanes && s.lanes[l].Credited? then
        var p := s.lanes[l].piece;
        Some(s.(sh := s.sh.CountDown(), lanes := s.lanes[l := Counted(p)],
                counted := s.counted + {p}))
      else None
    case LogPiece(l) =>
      if l in s.lanes && s.lanes[l].Counted? then
        Some(s.(sh := s.sh.Log(s.lanes[l].piece), lanes := s.lanes[l := Idle]))
      else None
  }

  function Run(f: Fetch, s: Swarm, es: seq<Event>): Option<Swarm>
    decreases |es|
  {
    if es == [] then Some(s)
    else
      var r := Run(f, s, es[..|es| - 1]);
      if r.None? then None else Step(f, r.value, es[|es| - 1])
  }

  // ----- Invariant -----

  /** No piece is in two hands. */
  ghost predicate Apart(s: Swarm) {
    (forall i, j :: 0 <= i < j < |s.sh.queue| ==> s.sh.queue[i].piece != s.sh.queue[j].piece)
    && (forall l, m :: l in s.lanes && m in s.lanes && l != m && s.lanes[l].Holds().Some? ==>
          s.lanes[l].Holds() != s.lanes[m].Holds())
    && (forall i, l :: 0 <= i < |s.sh.queue| && l in s.lanes ==>
          s.lanes[l].Holds() != Some(s.sh.queue[i].piece))
  }

  /** A piece with a fate is neither queued nor in flight; accounting follows the fetch. */
  ghost predicate Fates(f: Fetch, s: Swarm) {
    (forall i :: 0 <= i < |s.sh.queue| ==>
      f.Todo(s.sh.queue[i].piece) && s.sh.queue[i].piece !in s.fetched + s.dropped)
    && (forall l :: l in s.lanes ==> LaneFate(f, s, s.lanes[l]))
    && s.counted <= s.credited <= s.fetched
    && s.fetched !! s.dropped
    && (forall p :: p in s.fetched + s.dropped ==> f.Todo(p))
    && (s.dropped != {} ==> s.sh.fatal)
  }

  ghost predicate LaneFate(f: Fetch, s: Swarm, lane: Lane) {
    match lane
    case Idle => true
    case Fetching(j) => f.Todo(j.piece) && j.piece !in s.fetched + s.dropped
    case Failed(j) => f.Todo(j.piece) && j.piece !in s.fetched + s.dropped
    case Fetched(p) => p in s.fetched && p !in s.credited
    case Credited(p) => p in s.credited && p !in s.counted
    case Counted(p) => p in s.counted
  }

  ghost predicate Queued(s: Swarm, p: Piece) {
    exists i :: 0 <= i < |s.sh.queue| && s.sh.queue[i].piece == p
  }

  ghost predicate HeldInFlight(s: Swarm, p: Piece) {
    exists l :: l in s.lanes && s.lanes[l].InFlight() && s.lanes[l].Holds() == Some(p)
  }

  ghost predicate HeldUncounted(s: Swarm, p: Piece) {
    exists l :: l in s.lanes && (s.lanes[l] == Fetched(p) || s.lanes[l] == Credited(p))
  }

  /** No piece is lost: every piece to fetch is somewhere. */
  ghost predicate Covered(f: Fetch, s: Swarm) {
    (forall p :: f.Todo(p) ==>
      Queued(s, p) || HeldInFlight(s, p) || p in s.fetched || p in s.dropped)
    && (forall p :: p in s.fetched ==> p in s.counted || HeldUncounted(s, p))
  }

  /** The counters say what the sets say. */
  ghost predicate Tallied(f: Fetch, s: Swarm) {
    s.sh.piecesLeft + |s.counted| == |TodoSet(f)|
    && s.sh.bytesDone == BytesIn(f.Size(), Grid(f.Size()), f.skipped + s.credited)
  }

  ghost function TodoSet(f: Fetch): set<Piece> { ToSet(Grid(f.Size())) - f.skipped }

  predicate RangeOk(f: Fetch, dest: seq<Byte>, p: Piece) {
    |dest| == f.Size()
    && forall k :: Lo(f.Size(), p) <= k < Hi(f.Size(), p) ==> dest[k] == f.blob[k]
  }

  ghost predicate Written(f: Fetch, s: Swarm) {
    |s.dest| == f.Size()
    && (forall p :: p in f.skipped + s.fetched ==> RangeOk(f, s.dest, p))
  }

  ghost predicate Inv(f: Fetch, s: Swarm) {
    Apart(s) && Fates(f, s) && Covered(f, s) && Tallied(f, s) && Written(f, s)
  }

  // ----- Every step keeps it -----

  /** A step of one lane that leaves the queue alone and takes no new piece. */
  predicate LaneMove(s: Swarm, s': Swarm, l: nat, lane: Lane) {
    l in s.lanes && s'.lanes == s.lanes[l := lane] && s'.sh.queue == s.sh.queue
    && (lane.Holds().None? || lane.Holds() == s.lanes[l].Holds())
  }

  lemma ApartMove(s: Swarm, s': Swarm, l: nat, lane: Lane)
    requires Apart(s) && LaneMove(s, s', l, lane)
    ensures Apart(s')
  {
  }

  lemma ApartTake(s: Swarm, s': Swarm, l: nat)
    requires Apart(s) && s.sh.queue != [] && l in s.lanes
    requires s'.sh.queue == s.sh.queue[1..] && s'.lanes == s.lanes[l := Fetching(s.sh.queue[0])]
    ensures Apart(s')
  {
  }

  lemma ApartGiveBack(s: Swarm, s': Swarm, l: nat, job: Job)
    requires Apart(s) && l in s.lanes && s.lanes[l] == Failed(job)
    requires s'.sh.queue == s.sh.queue + [job] && s'.lanes == s.lanes[l := Idle]
    ensures Apart(s')
  {
    forall i, m | 0 <= i < |s'.sh.queue| && m in s'.lanes
      ensures s'.lanes[m].Holds() != Some(s'.sh.queue[i].piece)
    {
      if i == |s.sh.queue| && m != l {
        assert s.lanes[m].Holds() != s.lanes[l].Holds();
      }
    }
  }

  lemma ApartKept(f: Fetch, s: Swarm, e: Event)
    requires Apart(s) && Step(f, s, e).Some?
    ensures Apart(Step(f, s, e).value)
  {
    var s' := Step(f, s, e).value;
    match e
    case Take(l) => ApartTake(s, s', l);
    case GiveBack(l) =>
      if s.lanes[l].job.attempts >= s.sh.maxAttempts {
        ApartMove(s, s', l, Idle);
      } else {
        ApartGiveBack(s, s', l, s.lanes[l].job);
      }
    case Succeed(l) => ApartMove(s, s', l, s'.lanes[l]);
    case Fail(l) => ApartMove(s, s', l, s'.lanes[l]);
    case CreditBytes(l) => ApartMove(s, s', l, s'.lanes[l]);
    case CountPiece(l) => ApartMove(s, s', l, s'.lanes[l]);
    case LogPiece(l) => ApartMove(s, s', l, s'.lanes[l]);
    case _ =>
  }

  /** The sets of `s'` differ from those of `s` at most by gaining `p`. */
  ghost predicate Gains(s: Swarm, s': Swarm, p: Piece) {
    s.fetched <= s'.fetched <= s.fetched + {p}
    && s.credited <= s'.credited <= s.credited + {p}
    && s.counted <= s'.counted <= s.counted + {p}
    && s.dropped <= s'.dropped <= s.dropped + {p}
  }

  lemma LaneFateFrame(f: Fetch, s: Swarm, s': Swarm, p: Piece, lane: Lane)
    requires Gains(s, s', p) && LaneFate(f, s, lane) && lane.Holds() != Some(p)
    ensures LaneFate(f, s', lane)
  {
  }

  lemma FatesMove(f: Fetch, s: Swarm, s': Swarm, l: nat, lane: Lane, p: Piece)
    requires Apart(s) && Fates(f, s) && LaneMove(s, s', l, lane) && s.lanes[l].Holds() == Some(p)
    requires f.Todo(p) && Gains(s, s', p) && LaneFate(f, s', lane)
    requires s'.counted <= s'.credited <= s'.fetched && s'.fetched !! s'.dropped
    requires s.sh.fatal ==> s'.sh.fatal
    requires s'.dropped == s.dropped || s'.sh.fatal
    ensures Fates(f, s')
  {
    forall m | m in s'.lanes ensures LaneFate(f, s', s'.lanes[m]) {
      if m != l {
        LaneFateFrame(f, s, s', p, s.lanes[m]);
      }
    }
    forall i | 0 <= i < |s'.sh.queue|
      ensures f.Todo(s'.sh.queue[i].piece) && s'.sh.queue[i].piece !in s'.fetched + s'.dropped
    {
      assert s.lanes[l].Holds() != Some(s.sh.queue[i].piece);
    }
  }

  lemma SameSets(f: Fetch, s: Swarm, s': Swarm, lane: Lane)
    requires s'.fetched == s.fetched && s'.credited == s.credited && s'.counted == s.counted
      && s'.dropped == s.dropped && LaneFate(f, s, lane)
    ensures LaneFate(f, s', lane)
  {
  }

  lemma FatesTake(f: Fetch, s: Swarm, l: nat)
    requires Fates(f, s) && Step(f, s, Take(l)).Some?
    ensures Fates(f, Step(f, s, Take(l)).value)
  {
    var s' := Step(f, s, Take(l)).value;
    forall m | m in s'.lanes ensures LaneFate(f, s', s'.lanes[m]) {
      if m != l {
        SameSets(f, s, s', s.lanes[m]);
      } else {
        assert f.Todo(s.sh.queue[0].piece);
      }
    }
    assert forall i :: 0 <= i < |s'.sh.queue| ==> s'.sh.queue[i] == s.sh.queue[i + 1];
  }

  lemma FatesGiveBack(f: Fetch, s: Swarm, l: nat)
    requires Apart(s) && Fates(f, s) && Step(f, s, GiveBack(l)).Some?
    ensures Fates(f, Step(f, s, GiveBack(l)).value)
  {
    var s' := Step(f, s, GiveBack(l)).value;
    var job := s.lanes[l].job;
    assert LaneFate(f, s, s.lanes[l]);
    if job.attempts >= s.sh.maxAttempts {
      FatesMove(f, s, s', l, Idle, job.piece);
    } else {
      forall m | m in s'.lanes ensures LaneFate(f, s', s'.lanes[m]) {
        if m != l {
          SameSets(f, s, s', s.lanes[m]);
        }
      }
    }
  }

  /** Joining, leaving and the two global flags touch no piece. */
  predicate Bystander(e: Event) { e.Join? || e.Leave? || e.Raise? || e.Watchdog? || e.Write? }

  lemma FatesBystander(f: Fetch, s: Swarm, e: Event)
    requires Fates(f, s) && Step(f, s, e).Some? && Bystander(e)
    ensures Fates(f, Step(f, s, e).value)
  {
    var s' := Step(f, s, e).value;
    forall m | m in s'.lanes ensures LaneFate(f, s', s'.lanes[m]) {
      if m in s.lanes {
        SameSets(f, s, s', s.lanes[m]);
      }
    }
  }

  lemma FatesKept(f: Fetch, s: Swarm, e: Event)
    requires Apart(s) && Fates(f, s) && Step(f, s, e).Some?
    ensures Fates(f, Step(f, s, e).value)
  {
    var s' := Step(f, s, e).value;
    if Bystander(e) {
      FatesBystander(f, s, e);
    } else if e.Take? {
      FatesTake(f, s, e.lane);
    } else if e.GiveBack? {
      FatesGiveBack(f, s, e.lane);
    } else {
      var l := e.lane;
      assert LaneFate(f, s, s.lanes[l]);
      FatesMove(f, s, s', l, s'.lanes[l], s.lanes[l].Holds().value);
    }
  }

  // ----- No piece is lost -----

  /** Where a piece may go in one step, seen from the piece. */
  lemma StillSomewhere(f: Fetch, s: Swarm, e: Event, p: Piece)
    requires Step(f, s, e).Some? && Queued(s, p)
    ensures var s' := Step(f, s, e).value; Queued(s', p) || HeldInFlight(s', p)
  {
    var s' := Step(f, s, e).value;
    var i :| 0 <= i < |s.sh.queue| && s.sh.queue[i].piece == p;
    if e.Take? {
      if i == 0 {
        assert s'.lanes[e.lane].InFlight() && s'.lanes[e.lane].Holds() == Some(p);
      } else {
        assert s'.sh.queue[i - 1].piece == p;
      }
    } else {
      assert s'.sh.queue[i].piece == p;
    }
  }

  lemma FlightSomewhere(f: Fetch, s: Swarm, e: Event, p: Piece)
    requires Step(f, s, e).Some? && HeldInFlight(s, p)
    ensures var s' := Step(f, s, e).value;
      Queued(s', p) || HeldInFlight(s', p) || p in s'.fetched || p in s'.dropped
  {
    var s' := Step(f, s, e).value;
    var l :| l in s.lanes && s.lanes[l].InFlight() && s.lanes[l].Holds() == Some(p);
    if e.GiveBack? && e.lane == l {
      if p !in s'.dropped {
        assert s'.sh.queue[|s.sh.queue|].piece == p;
      }
    } else if e.Succeed? && e.lane == l {
    } else if e.Fail? && e.lane == l {
      assert s'.lanes[l].InFlight() && s'.lanes[l].Holds() == Some(p);
    } else {
      assert l in s'.lanes && s'.lanes[l] == s.lanes[l];
    }
  }

  lemma UncountedSomewhere(f: Fetch, s: Swarm, e: Event, p: Piece)
    requires Step(f, s, e).Some? && HeldUncounted(s, p)
    ensures var s' := Step(f, s, e).value; p in s'.counted || HeldUncounted(s', p)
  {
    var s' := Step(f, s, e).value;
    var l :| l in s.lanes && (s.lanes[l] == Fetched(p) || s.lanes[l] == Credited(p));
    if e.CountPiece? && e.lane == l {
    } else if e.CreditBytes? && e.lane == l {
      assert s'.lanes[l] == Credited(p);
    } else {
      assert l in s'.lanes && s'.lanes[l] == s.lanes[l];
    }
  }

  lemma SetsGrow(f: Fetch, s: Swarm, e: Event, p: Piece)
    requires Step(f, s, e).Some?
    ensures var s' := Step(f, s, e).value;
      s.fetched <= s'.fetched && s.dropped <= s'.dropped && s.counted <= s'.counted
      && (p in s'.fetched && p !in s.fetched ==> HeldUncounted(s', p))
  {
    var s' := Step(f, s, e).value;
    if e.Succeed? {
      assert s'.lanes[e.lane] == Fetched(s.lanes[e.lane].job.piece);
    }
  }

  lemma CoveredKept(f: Fetch, s: Swarm, e: Event)
    requires Covered(f, s) && Step(f, s, e).Some?
    ensures Covered(f, Step(f, s, e).value)
  {
    var s' := Step(f, s, e).value;
    forall p | f.Todo(p)
      ensures Queued(s', p) || HeldInFlight(s', p) || p in s'.fetched || p in s'.dropped
    {
      SetsGrow(f, s, e, p);
      if Queued(s, p) {
        StillSomewhere(f, s, e, p);
      } else if HeldInFlight(s, p) {
        FlightSomewhere(f, s, e, p);
      }
    }
    forall p | p in s'.fetched ensures p in s'.counted || HeldUncounted(s', p) {
      SetsGrow(f, s, e, p);
      if p in s.fetched && p !in s.counted {
        UncountedSomewhere(f, s, e, p);
      }
    }
  }

  // ----- Counters and bytes -----

  lemma CountedBelowTodo(f: Fetch, s: Swarm, p: Piece)
    requires Fates(f, s) && p in s.credited && p !in s.counted
    ensures |s.counted| < |TodoSet(f)|
  {
    CountedIsTodo(f, s);
    CreditedIsTodo(f, s, p);
    ProperCard(s.counted, TodoSet(f), p);
  }

  lemma CreditedIsTodo(f: Fetch, s: Swarm, p: Piece)
    requires Fates(f, s) && p in s.credited
    ensures p in TodoSet(f)
  {
    assert p in s.fetched + s.dropped;
  }

  lemma ProperCard<T>(a: set<T>, b: set<T>, x: T)
    requires a <= b && x in b && x !in a
    ensures |a| < |b|
  {
    SubsetCard(a, b - {x});
  }

  lemma {:induction false} SubsetCard<T>(a: set<T>, b: set<T>)
    requires a <= b
    ensures |a| <= |b|
    ensures |a| == |b| ==> a == b
    decreases b
  {
    if x :| x in a {
      SubsetCard(a - {x}, b - {x});
      assert a == a - {x} + {x} && b == b - {x} + {x};
    } else if |b| == 0 {
    } else {
      assert a == {};
    }
  }

  lemma FetchedIsTodo(f: Fetch, s: Swarm, p: Piece)
    requires Fates(f, s) && p in s.fetched
    ensures f.Todo(p)
  {
    assert p in s.fetched + s.dropped;
  }

  lemma CreditSums(f: Fetch, credited: set<Piece>, p: Piece)
    requires f.Todo(p) && p !in credited
    ensures BytesIn(f.Size(), Grid(f.Size()), f.skipped + (credited + {p}))
      == BytesIn(f.Size(), Grid(f.Size()), f.skipped + credited) + PieceBytes(f.Size(), p)
  {
    GridNoDup(f.Size());
    BytesInAdd(f.Size(), Grid(f.Size()), f.skipped + credited, p);
    assert f.skipped + (credited + {p}) == f.skipped + credited + {p};
  }

  lemma TalliedKept(f: Fetch, s: Swarm, e: Event)
    requires Fates(f, s) && Tallied(f, s) && Step(f, s, e).Some?
    ensures Tallied(f, Step(f, s, e).value)
  {
    if e.CreditBytes? {
      assert LaneFate(f, s, s.lanes[e.lane]);
      TalliedCredit(f, s, s.lanes[e.lane].piece);
    } else if e.CountPiece? {
      assert LaneFate(f, s, s.lanes[e.lane]);
      TalliedCount(f, s, s.lanes[e.lane].piece);
    } else {
      TallyUntouched(f, s, e);
    }
  }

  lemma TallyUntouched(f: Fetch, s: Swarm, e: Event)
    requires Step(f, s, e).Some? && !e.CreditBytes? && !e.CountPiece?
    ensures var s' := Step(f, s, e).value;
      s'.credited == s.credited && s'.counted == s.counted
      && s'.sh.piecesLeft == s.sh.piecesLeft && s'.sh.bytesDone == s.sh.bytesDone
  {
  }

  lemma TalliedCredit(f: Fetch, s: Swarm, p: Piece)
    requires Fates(f, s) && Tallied(f, s) && p in s.fetched && p !in s.credited
    ensures Tallied(f, s.(sh := s.sh.Credit(f.Size(), p), credited := s.credited + {p}))
  {
    FetchedIsTodo(f, s, p);
    CreditSums(f, s.credited, p);
  }

  lemma TalliedCount(f: Fetch, s: Swarm, p: Piece)
    requires Fates(f, s) && Tallied(f, s) && p in s.credited && p !in s.counted
    ensures Tallied(f, s.(sh := s.sh.CountDown(), counted := s.counted + {p}))
  {
    CountedBelowTodo(f, s, p);
  }

  /** Writing bytes of the blob at their own offset never spoils a correct range. */
  lemma PatchKeeps(f: Fetch, dest: seq<Byte>, at: nat, len: nat, p: Piece)
    requires |dest| == f.Size() && at + len <= f.Size() && RangeOk(f, dest, p)
    ensures RangeOk(f, Patch(dest, at, f.blob[at..at + len]), p)
  {
  }

  lemma WrittenKept(f: Fetch, s: Swarm, e: Event)
    requires Written(f, s) && Step(f, s, e).Some?
    ensures Written(f, Step(f, s, e).value)
  {
    var s' := Step(f, s, e).value;
    if e.Write? {
      forall p | p in f.skipped + s.fetched ensures RangeOk(f, s'.dest, p) {
        PatchKeeps(f, s.dest, e.at, e.len, p);
      }
    } else if e.Succeed? {
      var q := s.lanes[e.lane].job.piece;
      var lo, hi := Lo(f.Size(), q), Hi(f.Size(), q);
      forall p | p in f.skipped + s'.fetched ensures RangeOk(f, s'.dest, p) {
        if p != q {
          PatchKeeps(f, s.dest, lo, hi - lo, p);
        }
      }
    }
  }

  lemma StepKeeps(f: Fetch, s: Swarm, e: Event)
    requires Inv(f, s) && Step(f, s, e).Some?
    ensures Inv(f, Step(f, s, e).value)
  {
    ApartKept(f, s, e);
    FatesKept(f, s, e);
    CoveredKept(f, s, e);
    TalliedKept(f, s, e);
    WrittenKept(f, s, e);
  }

  // ----- Runs -----

  lemma {:induction false} JobsAre(g: seq<Piece>, skipped: set<Piece>, i: nat)
    requires NoDup(g) && i < |Jobs(g, skipped)|
    ensures Jobs(g, skipped)[i].piece in g && Jobs(g, skipped)[i].piece !in skipped
    ensures forall j :: 0 <= j < i ==> Jobs(g, skipped)[j].piece != Jobs(g, skipped)[i].piece
  {
    var init, last := g[..|g| - 1], g[|g| - 1];
    assert g == init + [last] && last !in init;
    if i < |Jobs(init, skipped)| {
      JobsAre(init, skipped, i);
    } else {
      forall j | 0 <= j < i ensures Jobs(g, skipped)[j].piece != last {
        JobsAre(init, skipped, j);
      }
    }
  }

  lemma OneMore<T>(a: set<T>, x: T, skipped: set<T>)
    requires x !in a
    ensures |a + {x} - skipped| == |a - skipped| + if x in skipped then 0 else 1
  {
    assert a + {x} - skipped == if x in skipped then a - skipped else (a - skipped) + {x};
  }

  lemma {:induction false} JobsCount(g: seq<Piece>, skipped: set<Piece>)
    requires NoDup(g)
    ensures |Jobs(g, skipped)| == |ToSet(g) - skipped|
  {
    if g != [] {
      var init, last := g[..|g| - 1], g[|g| - 1];
      NoDupInit(g);
      JobsCount(init, skipped);
      OneMore(ToSet(init), last, skipped);
    }
  }

  lemma {:induction false} JobsCover(g: seq<Piece>, skipped: set<Piece>, p: Piece)
    requires p in g && p !in skipped
    ensures exists i :: 0 <= i < |Jobs(g, skipped)| && Jobs(g, skipped)[i].piece == p
  {
    var init, last := g[..|g| - 1], g[|g| - 1];
    assert g == init + [last];
    if last == p {
      assert Jobs(g, skipped)[|Jobs(init, skipped)|].piece == p;
    } else {
      JobsCover(init, skipped, p);
      var i :| 0 <= i < |Jobs(init, skipped)| && Jobs(init, skipped)[i].piece == p;
      assert Jobs(g, skipped)[i].piece == p;
    }
  }

  /** What a run may rely on: the skipped pieces are grid pieces already in the scratch file. */
  ghost predicate GoodStart(f: Fetch, dest: seq<Byte>) {
    |dest| == f.Size()
    && forall p :: p in f.skipped ==> InGrid(f.Size(), p) && RangeOk(f, dest, p)
  }

  lemma InitialInv(f: Fetch, dest: seq<Byte>, journal: string, peers: nat)
    requires GoodStart(f, dest)
    ensures Inv(f, Initial(f, dest, journal, peers))
  {
    var s := Initial(f, dest, journal, peers);
    GridNoDup(f.Size());
    JobsCount(Grid(f.Size()), f.skipped);
    forall i | 0 <= i < |s.sh.queue|
      ensures f.Todo(s.sh.queue[i].piece)
      ensures forall j :: 0 <= j < i ==> s.sh.queue[j].piece != s.sh.queue[i].piece
    {
      JobsAre(Grid(f.Size()), f.skipped, i);
    }
    forall p | f.Todo(p) ensures Queued(s, p) {
      JobsCover(Grid(f.Size()), f.skipped, p);
    }
    assert f.skipped + {} == f.skipped;
  }

  lemma {:induction false} RunKeeps(f: Fetch, s: Swarm, es: seq<Event>)
    requires Inv(f, s) && Run(f, s, es).Some?
    ensures Inv(f, Run(f, s, es).value)
    decreases |es|
  {
    if es != [] {
      RunKeeps(f, s, es[..|es| - 1]);
      StepKeeps(f, Run(f, s, es[..|es| - 1]).value, es[|es| - 1]);
    }
  }

  /** Any state a fetch can be in. */
  ghost predicate Reachable(f: Fetch, dest: seq<Byte>, s: Swarm) {
    exists journal, peers, es :: Run(f, Initial(f, dest, journal, peers), es) == Some(s)
  }

  lemma ReachableInv(f: Fetch, dest: seq<Byte>, s: Swarm)
    requires GoodStart(f, dest) && Reachable(f, dest, s)
    ensures Inv(f, s)
  {
    var journal, peers, es :| Run(f, Initial(f, dest, journal, peers), es) == Some(s);
    InitialInv(f, dest, journal, peers);
    RunKeeps(f, Initial(f, dest, journal, peers), es);
  }

  lemma AllCounted(f: Fetch, s: Swarm)
    requires Fates(f, s) && Tallied(f, s) && s.sh.piecesLeft == 0
    ensures forall p :: f.Todo(p) ==> p in s.credited && p in s.fetched
  {
    CountedIsTodo(f, s);
    SubsetCard(s.counted, TodoSet(f));
  }

  lemma CountedIsTodo(f: Fetch, s: Swarm)
    requires Fates(f, s)
    ensures s.counted <= TodoSet(f)
  {
    forall p | p in s.counted ensures p in TodoSet(f) {
      assert p in s.fetched + s.dropped;
    }
  }

  lemma WholeFile(f: Fetch, dest: seq<Byte>)
    requires |dest| == f.Size()
    requires forall p :: InGrid(f.Size(), p) ==> RangeOk(f, dest, p)
    ensures dest == f.blob
  {
    forall k | 0 <= k < |dest| ensures dest[k] == f.blob[k] {
      assert RangeOk(f, dest, Owner(f.Size(), k));
    }
  }

  /**
   In every interleaving of lanes, however peers come and go and requests fail: when the
   driver sees no piece left, the scratch file is the blob, byte for byte, and the byte
   counter is its size.
   */
  lemma NoPieceLeftMeansBlob(f: Fetch, dest: seq<Byte>, s: Swarm)
    requires GoodStart(f, dest) && Reachable(f, dest, s) && s.sh.piecesLeft == 0
    ensures s.dest == f.blob && s.sh.bytesDone == |f.blob|
  {
    ReachableInv(f, dest, s);
    AllCounted(f, s);
    WholeFile(f, s.dest);
    BytesInAll(f.Size(), f.skipped + s.credited);
  }

  /**
   In every reachable state each piece to fetch is in exactly one place: queued, in flight,
   fetched, or dropped as fatal.
   */
  lemma ExactlyOnePlace(f: Fetch, dest: seq<Byte>, s: Swarm, p: Piece)
    requires GoodStart(f, dest) && Reachable(f, dest, s) && f.Todo(p)
    ensures Queued(s, p) || HeldInFlight(s, p) || p in s.fetched || p in s.dropped
    ensures Queued(s, p) ==> !HeldInFlight(s, p) && p !in s.fetched && p !in s.dropped
    ensures HeldInFlight(s, p) ==> p !in s.fetched && p !in s.dropped
    ensures p in s.fetched ==> p !in s.dropped
  {
    ReachableInv(f, dest, s);
    if HeldInFlight(s, p) {
      var l :| l in s.lanes && s.lanes[l].InFlight() && s.lanes[l].Holds() == Some(p);
      assert LaneFate(f, s, s.lanes[l]);
    }
  }

  lemma CardMinus<T>(a: set<T>, b: set<T>)
    requires b <= a
    ensures |a - b| == |a| - |b|
  {
    assert a == b + (a - b);
  }

  lemma LeftIsUncounted(f: Fetch, s: Swarm)
    requires Fates(f, s) && Tallied(f, s)
    ensures s.counted <= TodoSet(f) && s.sh.piecesLeft == |TodoSet(f) - s.counted|
  {
    CountedIsTodo(f, s);
    CardMinus(TodoSet(f), s.counted);
  }

  /** The piece counter never wraps, and counts the pieces not yet accounted for. */
  lemma PiecesLeftCounts(f: Fetch, dest: seq<Byte>, s: Swarm)
    requires GoodStart(f, dest) && Reachable(f, dest, s)
    ensures s.counted <= TodoSet(f) && s.sh.piecesLeft == |TodoSet(f) - s.counted|
    ensures forall l :: l in s.lanes && s.lanes[l].Credited? ==> s.sh.piecesLeft > 0
  {
    ReachableInv(f, dest, s);
    LeftIsUncounted(f, s);
    forall l | l in s.lanes && s.lanes[l].Credited? ensures s.sh.piecesLeft > 0 {
      assert LaneFate(f, s, s.lanes[l]);
      CountedBelowTodo(f, s, s.lanes[l].piece);
    }
  }

  /**
   When every lane has ended with pieces left and nothing was fatal, each missing piece is
   still in the queue: failure, retry and retirement lose no work.
   */
  lemma UnfinishedIsQueued(f: Fetch, dest: seq<Byte>, s: Swarm)
    requires GoodStart(f, dest) && Reachable(f, dest, s)
    requires s.lanes == map[] && s.sh.piecesLeft > 0 && !s.sh.fatal
    ensures s.sh.queue != []
    ensures forall p :: f.Todo(p) ==> (Queued(s, p) <==> p !in s.fetched)
  {
    ReachableInv(f, dest, s);
    LeftIsUncounted(f, s);
    forall p | f.Todo(p) ensures Queued(s, p) <==> p !in s.fetched {
      ExactlyOnePlace(f, dest, s, p);
    }
    assert TodoSet(f) - s.counted != {};
    var p :| p in TodoSet(f) - s.counted;
  }
}
