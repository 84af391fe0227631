/**
 Retries of the striped fetch (iroh_node.rs, `requeue_piece` and the attempt ceiling of
 `fetch_striped`): how often a piece may fail, and in what order pieces are tried. Failures and
 takes are counted from the events alone.
 */
module StripeAttempts {
  import opened Common
  import opened StripeGrid
  import opened StripeSwarm

  /** Lane `l` is fetching `p`. */
  predicate Fetches(s: Swarm, l: nat, p: Piece) {
    l in s.lanes && s.lanes[l].Fetching? && s.lanes[l].job.piece == p
  }

  /** How many requests for `p` have failed so far. */
  function Fails(f: Fetch, start: Swarm, es: seq<Event>, p: Piece): nat
    decreases |es|
  {
    if es == [] then 0
    else
      var init, e := es[..|es| - 1], es[|es| - 1];
      Fails(f, start, init, p)
      + if e.Fail? && Run(f, start, init).Some? && Fetches(Run(f, start, init).value, e.lane, p) then 1 else 0
  }

  /** How many failures a piece may have: two more than there are peers, but at least six, or what
      the ceiling was raised to since. */
  function Ceiling(peers: nat, es: seq<Event>): nat
    decreases |es|
  {
    if es == [] then if peers + 2 >= 6 then peers + 2 else 6
    else
      var c, e := Ceiling(peers, es[..|es| - 1]), es[|es| - 1];
      if e.Raise? && e.attempts > c then e.attempts else c
  }

  lemma {:induction false} CeilingGrows(peers: nat, es: seq<Event>)
    ensures Ceiling(peers, es) >= Ceiling(peers, []) && Ceiling(peers, []) >= 6
    decreases |es|
  {
    if es != [] {
      CeilingGrows(peers, es[..|es| - 1]);
    }
  }

  // ----- Attempts are failures -----

  /** The attempts noted with every waiting or running job are its failures. */
  ghost predicate Noted(s: Swarm, fails: Piece -> nat) {
    (forall i :: 0 <= i < |s.sh.queue| ==> s.sh.queue[i].attempts == fails(s.sh.queue[i].piece))
    && (forall l :: l in s.lanes && s.lanes[l].InFlight() ==> s.lanes[l].job.attempts == fails(s.lanes[l].job.piece))
  }

  lemma NotedStep(f: Fetch, s: Swarm, e: Event, fails: Piece -> nat, fails': Piece -> nat)
    requires Apart(s) && Noted(s, fails) && Step(f, s, e).Some? && !e.Fail?
    requires forall p :: fails'(p) == fails(p)
    ensures Noted(Step(f, s, e).value, fails')
  {
  }

  lemma NotedFail(f: Fetch, s: Swarm, l: nat, fails: Piece -> nat, fails': Piece -> nat)
    requires Apart(s) && Noted(s, fails) && Step(f, s, Fail(l)).Some?
    requires forall p :: fails'(p) == fails(p) + if Fetches(s, l, p) then 1 else 0
    ensures Noted(Step(f, s, Fail(l)).value, fails')
  {
    var s' := Step(f, s, Fail(l)).value;
    var p := s.lanes[l].job.piece;
    assert s.lanes[l].Holds() == Some(p);
    forall i | 0 <= i < |s'.sh.queue| ensures s'.sh.queue[i].attempts == fails'(s'.sh.queue[i].piece) {
      assert s.sh.queue[i].piece != p;
    }
    forall m | m in s'.lanes && s'.lanes[m].InFlight()
      ensures s'.lanes[m].job.attempts == fails'(s'.lanes[m].job.piece)
    {
      if m != l {
        assert s.lanes[m].Holds() == Some(s.lanes[m].job.piece);
      }
    }
  }

  function FailsIn(f: Fetch, start: Swarm, es: seq<Event>): Piece -> nat { p => Fails(f, start, es, p) }

  lemma {:induction false} RunNotes(f: Fetch, dest: seq<Byte>, journal: string, peers: nat, es: seq<Event>)
    requires GoodStart(f, dest) && Run(f, Initial(f, dest, journal, peers), es).Some?
    ensures var start := Initial(f, dest, journal, peers);
      var s := Run(f, start, es).value;
      Noted(s, FailsIn(f, start, es)) && s.sh.maxAttempts == Ceiling(peers, es)
    decreases |es|
  {
    var start := Initial(f, dest, journal, peers);
    if es == [] {
      StartNoted(f, dest, journal, peers);
    } else {
      var init, e := es[..|es| - 1], es[|es| - 1];
      RunNotes(f, dest, journal, peers, init);
      InitialInv(f, dest, journal, peers);
      RunKeeps(f, start, init);
      var s := Run(f, start, init).value;
      if e.Fail? {
        NotedFail(f, s, e.lane, FailsIn(f, start, init), FailsIn(f, start, es));
      } else {
        NotedStep(f, s, e, FailsIn(f, start, init), FailsIn(f, start, es));
      }
      CeilingStep(f, s, e);
    }
  }

  lemma CeilingStep(f: Fetch, s: Swarm, e: Event)
    requires Step(f, s, e).Some?
    ensures Step(f, s, e).value.sh.maxAttempts
      == if e.Raise? && e.attempts > s.sh.maxAttempts then e.attempts else s.sh.maxAttempts
  {
  }

  lemma {:induction false} JobsFresh(g: seq<Piece>, skipped: set<Piece>)
    ensures forall i :: 0 <= i < |Jobs(g, skipped)| ==> Jobs(g, skipped)[i].attempts == 0
  {
    if g != [] {
      JobsFresh(g[..|g| - 1], skipped);
    }
  }

  lemma StartNoted(f: Fetch, dest: seq<Byte>, journal: string, peers: nat)
    ensures var start := Initial(f, dest, journal, peers);
      Noted(start, FailsIn(f, start, [])) && start.sh.maxAttempts == Ceiling(peers, [])
  {
    JobsFresh(Grid(f.Size()), f.skipped);
  }

  // ----- The ceiling -----

  /**
   A failed piece that is given back ends the fetch exactly when it has failed as often as the
   ceiling allows; until then it goes to the end of the queue and nothing else happens.
   */
  lemma GivenBackIff(
    f: Fetch, dest: seq<Byte>, journal: string, peers: nat, es: seq<Event>, s: Swarm, l: nat)
    requires GoodStart(f, dest) && Run(f, Initial(f, dest, journal, peers), es) == Some(s)
    requires l in s.lanes && s.lanes[l].Failed?
    ensures var p, s' := s.lanes[l].job.piece, Step(f, s, GiveBack(l)).value;
      var n := Fails(f, Initial(f, dest, journal, peers), es, p);
      if n >= Ceiling(peers, es) then p in s'.dropped && s'.sh.fatal && s'.sh.queue == s.sh.queue
      else s'.sh.queue == s.sh.queue + [Job(p, n)] && s'.dropped == s.dropped && s'.sh.fatal == s.sh.fatal
  {
    RunNotes(f, dest, journal, peers, es);
    assert FailsIn(f, Initial(f, dest, journal, peers), es)(s.lanes[l].job.piece) == s.lanes[l].job.attempts;
  }

  predicate NoRaise(es: seq<Event>) { forall i :: 0 <= i < |es| ==> !es[i].Raise? }

  lemma {:induction false} CeilingIs(peers: nat, es: seq<Event>)
    requires NoRaise(es)
    ensures Ceiling(peers, es) == Max(peers + 2, 6)
    decreases |es|
  {
    if es != [] {
      CeilingIs(peers, es[..|es| - 1]);
    }
  }

  /** As long as no peer joins, the fetch is over once a piece has failed `peers + 2` times, or six
      times with fewer peers than four. */
  lemma ManyFailuresAreFatal(
    f: Fetch, dest: seq<Byte>, journal: string, peers: nat, es: seq<Event>, s: Swarm, l: nat)
    requires GoodStart(f, dest) && Run(f, Initial(f, dest, journal, peers), es) == Some(s) && NoRaise(es)
    requires l in s.lanes && s.lanes[l].Failed?
    requires Fails(f, Initial(f, dest, journal, peers), es, s.lanes[l].job.piece) >= Max(peers + 2, 6)
    ensures Step(f, s, GiveBack(l)).value.sh.fatal
  {
    CeilingIs(peers, es);
    GivenBackIff(f, dest, journal, peers, es, s, l);
  }

  predicate NoWatchdog(es: seq<Event>) { forall i :: 0 <= i < |es| ==> !es[i].Watchdog? }

  lemma DropStep(f: Fetch, s: Swarm, e: Event)
    requires Step(f, s, e).Some?
    ensures var s' := Step(f, s, e).value;
      (if e.GiveBack? && s.lanes[e.lane].job.attempts >= s.sh.maxAttempts
       then s'.dropped == s.dropped + {s.lanes[e.lane].job.piece} else s'.dropped == s.dropped)
      && (s'.sh.fatal ==> s.sh.fatal || e.Watchdog? || s'.dropped != {})
      && s.dropped <= s'.dropped
  {
  }

  /**
   In every run, a piece that has failed fewer than `peers + 2` times, or fewer than six, is never
   given up; and unless the watchdog fires, the fetch is fatal only over a piece that was.
   */
  lemma {:induction false} FewFailuresNeverDrop(
    f: Fetch, dest: seq<Byte>, journal: string, peers: nat, es: seq<Event>)
    requires GoodStart(f, dest) && Run(f, Initial(f, dest, journal, peers), es).Some?
    ensures var start := Initial(f, dest, journal, peers);
      var s := Run(f, start, es).value;
      (forall p :: p in s.dropped ==> Fails(f, start, es, p) >= peers + 2 && Fails(f, start, es, p) >= 6)
      && (NoWatchdog(es) && s.sh.fatal ==> s.dropped != {})
    decreases |es|
  {
    if es != [] {
      var start := Initial(f, dest, journal, peers);
      var init, e := es[..|es| - 1], es[|es| - 1];
      FewFailuresNeverDrop(f, dest, journal, peers, init);
      var s := Run(f, start, init).value;
      DropStep(f, s, e);
      if e.GiveBack? {
        RunNotes(f, dest, journal, peers, init);
        CeilingGrows(peers, init);
        assert FailsIn(f, start, init)(s.lanes[e.lane].job.piece) == s.lanes[e.lane].job.attempts;
      }
      assert NoWatchdog(es) ==> NoWatchdog(init) && !e.Watchdog?;
    }
  }

  // ----- The order of work -----

  function Pieces(q: seq<Job>): (r: seq<Piece>)
    ensures |r| == |q|
  {
    seq(|q|, i requires 0 <= i < |q| => q[i].piece)
  }

  /** The piece a lane takes in this step: the one it then fetches. */
  function TakenBy(e: Event, now: Swarm): seq<Piece> {
    if e.Take? && e.lane in now.lanes && now.lanes[e.lane].Fetching? then [now.lanes[e.lane].job.piece] else []
  }

  /** The piece a lane gives back in this step for another try. */
  function GivenBy(was: Swarm, e: Event, now: Swarm): seq<Piece> {
    if e.GiveBack? && e.lane in was.lanes && was.lanes[e.lane].Failed? && now.dropped == was.dropped
    then [was.lanes[e.lane].job.piece] else []
  }

  /** The pieces lanes have taken, in order. */
  function Taken(f: Fetch, start: Swarm, es: seq<Event>): seq<Piece>
    decreases |es|
  {
    if es == [] then []
    else
      var r := Run(f, start, es);
      Taken(f, start, es[..|es| - 1]) + if r.Some? then TakenBy(es[|es| - 1], r.value) else []
  }

  /** The pieces lanes have given back for another try, in order. */
  function GivenBack(f: Fetch, start: Swarm, es: seq<Event>): seq<Piece>
    decreases |es|
  {
    if es == [] then []
    else
      var init := es[..|es| - 1];
      var was, now := Run(f, start, init), Run(f, start, es);
      GivenBack(f, start, init)
      + if was.Some? && now.Some? then GivenBy(was.value, es[|es| - 1], now.value) else []
  }

  /** Taking comes off the front, giving back goes to the end, and nothing else moves. */
  lemma QueueStep(f: Fetch, s: Swarm, e: Event)
    requires Fates(f, s) && Step(f, s, e).Some?
    ensures var s' := Step(f, s, e).value;
      TakenBy(e, s') + Pieces(s'.sh.queue) == Pieces(s.sh.queue) + GivenBy(s, e, s')
      && (TakenBy(e, s') == [] || GivenBy(s, e, s') == [])
  {
    var s' := Step(f, s, e).value;
    if e.Take? {
      assert Pieces(s.sh.queue) == [s.sh.queue[0].piece] + Pieces(s.sh.queue[1..]);
    } else if e.GiveBack? {
      GiveBackStep(f, s, e.lane);
    } else {
      assert s'.sh.queue == s.sh.queue;
    }
  }

  lemma GiveBackStep(f: Fetch, s: Swarm, l: nat)
    requires Fates(f, s) && Step(f, s, GiveBack(l)).Some?
    ensures var s' := Step(f, s, GiveBack(l)).value;
      Pieces(s'.sh.queue) == Pieces(s.sh.queue) + GivenBy(s, GiveBack(l), s')
  {
    var s', j := Step(f, s, GiveBack(l)).value, s.lanes[l].job;
    assert LaneFate(f, s, s.lanes[l]);
    if j.attempts >= s.sh.maxAttempts {
      assert j.piece in s'.dropped && j.piece !in s.dropped;
    } else {
      assert Pieces(s.sh.queue + [j]) == Pieces(s.sh.queue) + [j.piece];
    }
  }

  lemma Carry(a: seq<Piece>, q: seq<Piece>, c: seq<Piece>, d: seq<Piece>, t: seq<Piece>, q': seq<Piece>, g: seq<Piece>)
    requires a + q == c + d && t + q' == q + g
    ensures (a + t) + q' == c + (d + g)
  {
    assert (a + t) + q' == a + (t + q') == (a + q) + g;
  }

  /** First come, first served: what lanes have taken, followed by what still waits, is what waited
      at the start, followed by what was given back. */
  lemma {:induction false} TakesFollowQueue(f: Fetch, start: Swarm, es: seq<Event>)
    requires Inv(f, start) && Run(f, start, es).Some?
    ensures Taken(f, start, es) + Pieces(Run(f, start, es).value.sh.queue)
      == Pieces(start.sh.queue) + GivenBack(f, start, es)
    decreases |es|
  {
    if es != [] {
      var init, e := es[..|es| - 1], es[|es| - 1];
      TakesFollowQueue(f, start, init);
      RunKeeps(f, start, init);
      var s, s' := Run(f, start, init).value, Run(f, start, es).value;
      QueueStep(f, s, e);
      Carry(Taken(f, start, init), Pieces(s.sh.queue), Pieces(start.sh.queue), GivenBack(f, start, init),
        TakenBy(e, s'), Pieces(s'.sh.queue), GivenBy(s, e, s'));
    }
  }

  /** The first pass goes through the blob from front to back. */
  lemma {:induction false} FirstPassAscends(size: nat, skipped: set<Piece>, k: nat)
    requires k <= PieceCount(size)
    ensures forall i, j :: 0 <= i < j < |Jobs(Grid(size)[..k], skipped)| ==>
      Jobs(Grid(size)[..k], skipped)[i].piece.start < Jobs(Grid(size)[..k], skipped)[j].piece.start
    ensures forall i :: 0 <= i < |Jobs(Grid(size)[..k], skipped)| ==>
      Jobs(Grid(size)[..k], skipped)[i].piece.start < k * PIECE_CHUNKS
  {
    if k > 0 {
      FirstPassAscends(size, skipped, k - 1);
      var g := Grid(size)[..k];
      assert g[..|g| - 1] == Grid(size)[..k - 1] && g[k - 1].start == (k - 1) * PIECE_CHUNKS;
    }
  }
}
