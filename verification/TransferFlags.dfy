/**
 Pause, stop and run admission of one transfer (transfer.rs), at the granularity of single
 atomic stores.
 */
module TransferFlags {
  import opened Common

  datatype TransferState =
    | Queued | Connecting | Downloading | Verifying | Seeding | Paused | Stopped | Complete | Failed | WaitingForPeers

  /** The control object; each method is what one caller does without interference. */
  class TransferControl {
    var cancel: bool
    var discardPartial: bool
    var executing: bool
    var state: TransferState

    constructor ()
      ensures !cancel && !discardPartial && !executing && state == Queued
    {
      cancel, discardPartial, executing, state := false, false, false, Queued;
    }

    method RequestPause()
      modifies `cancel, `discardPartial, `state
      ensures cancel && !discardPartial && state == Paused
    {
      discardPartial := false;
      cancel := true;
      state := Paused;
    }

    method RequestStop()
      modifies `cancel, `discardPartial, `state
      ensures cancel && discardPartial && state == Stopped
    {
      discardPartial := true;
      cancel := true;
      state := Stopped;
    }

    /** Refused exactly when a run is in progress, and then nothing changes. */
    method TryBegin() returns (admitted: bool)
      modifies `cancel, `discardPartial, `executing
      ensures admitted <==> !old(executing)
      ensures executing
      ensures admitted ==> !cancel && !discardPartial
      ensures !admitted ==> cancel == old(cancel) && discardPartial == old(discardPartial)
    {
      var was := executing;
      executing := true;
      if was {
        return false;
      }
      cancel := false;
      discardPartial := false;
      return true;
    }

    method End()
      modifies `executing
      ensures !executing
    {
      executing := false;
    }
  }

  // ----- Interleaved stores -----

  datatype Runner = ClearingCancel | ClearingDiscard | Running

  datatype Kind = Pause | Stop

  /** A request that has begun: its two stores to come, or only the second. */
  datatype Request = Fresh(kind: Kind) | DiscardStored(kind: Kind)

  datatype Flags = Flags(
    cancel: bool, discard: bool, executing: bool, runners: map<nat, Runner>, requests: map<nat, Request>)

  datatype Event =
    | Begin(r: nat)         // the swap of `try_begin`; refused when it finds a run
    | ClearCancel(r: nat) | ClearDiscard(r: nat) | End(r: nat)
    | Ask(q: nat, kind: Kind) | StoreDiscard(q: nat) | StoreCancel(q: nat)

  const START: Flags := Flags(false, false, false, map[], map[])

  function Step(s: Flags, e: Event): Option<Flags> {
    match e
    case Begin(r) =>
      if r in s.runners then None
      else if s.executing then Some(s)
      else Some(s.(executing := true, runners := s.runners[r := ClearingCancel]))
    case ClearCancel(r) =>
      if r in s.runners && s.runners[r].ClearingCancel? then
        Some(s.(cancel := false, runners := s.runners[r := ClearingDiscard]))
      else None
    case ClearDiscard(r) =>
      if r in s.runners && s.runners[r].ClearingDiscard? then
        Some(s.(discard := false, runners := s.runners[r := Running]))
      else None
    case End(r) =>
      if r in s.runners && s.runners[r].Running? then
        Some(s.(executing := false, runners := s.runners - {r}))
      else None
    case Ask(q, kind) =>
      if q in s.requests then None else Some(s.(requests := s.requests[q := Fresh(kind)]))
    case StoreDiscard(q) =>
      if q in s.requests && s.requests[q].Fresh? then
        var k := s.requests[q].kind;
        Some(s.(discard := k.Stop?, requests := s.requests[q := DiscardStored(k)]))
      else None
    case StoreCancel(q) =>
      if q in s.requests && s.requests[q].DiscardStored? then
        Some(s.(cancel := true, requests := s.requests - {q}))
      else None
  }

  function Run(s: Flags, es: seq<Event>): Option<Flags>
    decreases |es|
  {
    if es == [] then Some(s)
    else
      var r := Run(s, es[..|es| - 1]);
      if r.None? then None else Step(r.value, es[|es| - 1])
  }

  /** At most one run is between `try_begin` and `end`, in every interleaving. */
  lemma {:induction false} OneRunAtATime(es: seq<Event>)
    requires Run(START, es).Some?
    ensures var s := Run(START, es).value;
      (s.executing <==> s.runners != map[])
      && forall r, r' :: r in s.runners && r' in s.runners ==> r == r'
    decreases |es|
  {
    if es != [] {
      var init, e := es[..|es| - 1], es[|es| - 1];
      OneRunAtATime(init);
      var s, s' := Run(START, init).value, Run(START, es).value;
      if e.End? {
        assert forall r :: r in s.runners ==> r == e.r;
        assert s'.runners == map[];
      } else if e.Begin? || e.ClearCancel? || e.ClearDiscard? {
        assert e.r in s'.runners || s' == s;
      }
    }
  }

  /** Only stops begin, and nobody starts or ends a run. */
  predicate StopsOnly(es: seq<Event>) {
    forall i :: 0 <= i < |es| ==>
      es[i].StoreDiscard? || es[i].StoreCancel? || (es[i].Ask? && es[i].kind.Stop?)
  }

  /** A poll loads cancel and, at any later point of the stretch, discard: it must not see the
      first without the second. */
  predicate StopIsSeen(s: Flags, es: seq<Event>, k: nat)
    requires k <= |es|
  {
    Run(s, es).Some? && Run(s, es[..k]).Some? && Run(s, es[..k]).value.cancel ==> Run(s, es).value.discard
  }

  /** No request had got past its start when the flags were cleared, except unstarted stops. */
  predicate CleanAdmission(s: Flags) {
    !s.cancel && forall q :: q in s.requests ==> s.requests[q] == Fresh(Stop)
  }

  ghost predicate StopInv(s: Flags) {
    (s.cancel ==> s.discard)
    && forall q :: q in s.requests ==>
         s.requests[q] == Fresh(Stop) || (s.requests[q] == DiscardStored(Stop) && s.discard)
  }

  lemma {:induction false} StopsKeep(s: Flags, es: seq<Event>)
    requires StopInv(s) && StopsOnly(es) && Run(s, es).Some?
    ensures StopInv(Run(s, es).value)
    decreases |es|
  {
    if es != [] {
      StopsKeep(s, es[..|es| - 1]);
      assert StopsOnly([es[|es| - 1]]);
    }
  }

  /** Once discard is set, only a pause or an admission could clear it. */
  lemma {:induction false} DiscardStays(s: Flags, es: seq<Event>, k: nat)
    requires StopInv(s) && StopsOnly(es) && Run(s, es).Some? && k <= |es|
    ensures Run(s, es[..k]).Some? && (Run(s, es[..k]).value.discard ==> Run(s, es).value.discard)
    decreases |es|
  {
    if k == |es| {
      assert es[..k] == es;
    } else {
      var init := es[..|es| - 1];
      DiscardStays(s, init, k);
      assert init[..k] == es[..k];
      StopsKeep(s, init);
      assert StopsOnly([es[|es| - 1]]);
    }
  }

  lemma StopsSeen(s: Flags, es: seq<Event>, k: nat)
    requires StopInv(s) && StopsOnly(es) && k <= |es|
    ensures StopIsSeen(s, es, k)
  {
    if Run(s, es).Some? && Run(s, es[..k]).Some? {
      DiscardStays(s, es, k);
      assert StopsOnly(es[..k]);
      StopsKeep(s, es[..k]);
    }
  }

  lemma StaleRequestShows(s: Flags, q: nat) returns (es: seq<Event>)
    requires !s.discard && q in s.requests && s.requests[q] != Fresh(Stop)
    ensures StopsOnly(es) && Run(s, es).Some? && Run(s, es).value.cancel && !Run(s, es).value.discard
  {
    if s.requests[q].Fresh? {
      es := [StoreDiscard(q), StoreCancel(q)];
      assert es[..1] == [StoreDiscard(q)] && es[..1][..0] == [];
      assert Run(s, es[..1]) == Step(s, StoreDiscard(q));
    } else {
      es := [StoreCancel(q)];
      assert es[..0] == [];
      assert Run(s, es) == Step(s, StoreCancel(q));
    }
  }

  /**
   Right after an admission has cleared both flags: no poll, however far its two loads lie apart,
   mistakes a stop asked for from now on for a pause, exactly when the admission was clean. A
   request that was already between its stores -- or that finished while the flags were being
   cleared -- is enough to show cancel without discard.
   */
  lemma StopsAreSeenIff(s: Flags)
    requires !s.discard
    ensures (forall es, k: nat :: StopsOnly(es) && k <= |es| ==> StopIsSeen(s, es, k)) <==> CleanAdmission(s)
  {
    if CleanAdmission(s) {
      forall es, k: nat | StopsOnly(es) && k <= |es| ensures StopIsSeen(s, es, k) {
        StopsSeen(s, es, k);
      }
    } else {
      var es := UncleanShows(s);
      assert es[..|es|] == es;
      assert !StopIsSeen(s, es, |es|);
    }
  }

  lemma UncleanShows(s: Flags) returns (es: seq<Event>)
    requires !s.discard && !CleanAdmission(s)
    ensures StopsOnly(es) && Run(s, es).Some? && Run(s, es).value.cancel && !Run(s, es).value.discard
  {
    if s.cancel {
      es := [];
    } else {
      var q :| q in s.requests && s.requests[q] != Fresh(Stop);
      es := StaleRequestShows(s, q);
    }
  }

  lemma RunSnoc(s: Flags, es: seq<Event>, e: Event)
    requires Run(s, es).Some?
    ensures Run(s, es + [e]) == Step(Run(s, es).value, e)
  {
    assert (es + [e])[..|es + [e]| - 1] == es;
  }

  /** The race is real: one stop, straddling an admission, is seen by the run as a pause. */
  lemma StopTakenForPause() returns (es: seq<Event>)
    ensures Run(START, es).Some? && (forall i :: 0 <= i < |es| && es[i].Ask? ==> es[i].kind.Stop?)
    ensures var s := Run(START, es).value; s.executing && s.cancel && !s.discard
  {
    es := [];
    RunSnoc(START, es, Ask(0, Stop));
    es := es + [Ask(0, Stop)];
    RunSnoc(START, es, StoreDiscard(0));
    es := es + [StoreDiscard(0)];
    RunSnoc(START, es, Begin(0));
    es := es + [Begin(0)];
    RunSnoc(START, es, ClearCancel(0));
    es := es + [ClearCancel(0)];
    RunSnoc(START, es, ClearDiscard(0));
    es := es + [ClearDiscard(0)];
    RunSnoc(START, es, StoreCancel(0));
    es := es + [StoreCancel(0)];
  }
}
