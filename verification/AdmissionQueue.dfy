/**
 The download admission queue (engine.rs, `DownloadQueue`, `QueuePermit`, `DequeueGuard`): a
 semaphore, a waiting list the user may reorder, and a broadcast notify that stores no
 permit, so a wakeup sent too early is lost for good.
 */
module AdmissionQueue {
  import opened Common

  type Id = nat

  datatype Move = Up | Down | Top | Bottom

  // ----- The waiting list -----

  function Position(q: seq<Id>, id: Id): (i: nat)
    ensures i <= |q| && (i < |q| ==> q[i] == id)
    ensures forall j :: 0 <= j < i ==> q[j] != id
  {
    if q == [] || q[0] == id then 0 else 1 + Position(q[1..], id)
  }

  /** `retain(|x| *x != id)`. */
  function Without(q: seq<Id>, id: Id): seq<Id> {
    if q == [] then []
    else if q[0] == id then Without(q[1..], id)
    else [q[0]] + Without(q[1..], id)
  }

  function TargetPosition(i: nat, len: nat, mv: Move): (j: nat)
    requires i < len
    ensures j < len
  {
    match mv
    case Up => if i > 0 then i - 1 else 0
    case Down => if i + 1 < len then i + 1 else i
    case Top => 0
    case Bottom => len - 1
  }

  /** The list with the element at `i` taken out and put back at `j`. */
  function Moved(q: seq<Id>, i: nat, j: nat): seq<Id>
    requires i < |q| && j < |q|
  {
    var rest := q[..i] + q[i + 1..];
    rest[..j] + [q[i]] + rest[j..]
  }

  function Reordered(q: seq<Id>, id: Id, mv: Move): seq<Id> {
    var i := Position(q, id);
    if i == |q| then q else Moved(q, i, TargetPosition(i, |q|, mv))
  }

  /** The shared object: a permit counter and the list, updated in place. */
  class DownloadQueue {
    var free: nat
    var waiting: seq<Id>

    constructor (slots: nat)
      ensures free == Max(slots, 1) && waiting == []
    {
      free, waiting := Max(slots, 1), [];
    }

    method Enqueue(id: Id)
      modifies `waiting
      ensures waiting == Entered(old(waiting), id)
    {
      if id !in waiting {
        waiting := waiting + [id];
      }
    }

    /** One turn of the loop in `acquire`: only the front of the list tries the semaphore. */
    method TryAcquire(id: Id) returns (ok: bool)
      modifies `free
      ensures ok <==> InFront(waiting, id) && old(free) > 0
      ensures free == old(free) - if ok then 1 else 0
    {
      ok := false;
      var atFront := waiting != [] && waiting[0] == id;
      if atFront {
        if free > 0 {
          free := free - 1;
          ok := true;
        }
      }
    }

    method Release()
      modifies `free
      ensures free == old(free) + 1
    {
      free := free + 1;
    }

    method Dequeue(id: Id)
      modifies `waiting
      ensures waiting == Without(old(waiting), id)
    {
      var kept: seq<Id> := [];
      var i := 0;
      while i < |waiting|
        invariant i <= |waiting| && waiting == old(waiting)
        invariant kept + Without(waiting[i..], id) == Without(waiting, id)
      {
        if waiting[i] != id {
          kept := kept + [waiting[i]];
        }
        i := i + 1;
      }
      waiting := kept;
    }

    /** Whether the order changed, in which case the caller notifies. */
    method Reorder(id: Id, mv: Move) returns (changed: bool)
      modifies `waiting
      ensures waiting == Reordered(old(waiting), id, mv)
      ensures NoDup(old(waiting)) ==> (changed <==> waiting != old(waiting))
    {
      var q := waiting;
      var i := Position(q, id);
      changed := false;
      if i == |q| {
        return;
      }
      MovedIs(q, i, TargetPosition(i, |q|, mv));
      if mv == Up && i > 0 {
        waiting := q[i := q[i - 1]][i - 1 := id];
        changed := true;
      } else if mv == Down && i + 1 < |q| {
        waiting := q[i := q[i + 1]][i + 1 := id];
        changed := true;
      } else if mv == Top && i > 0 {
        waiting := [id] + (q[..i] + q[i + 1..]);
        changed := true;
      } else if mv == Bottom && i + 1 < |q| {
        waiting := q[..i] + q[i + 1..] + [id];
        changed := true;
      }
    }
  }

  /** The four ways the source writes a move. */
  lemma MovedIs(q: seq<Id>, i: nat, j: nat)
    requires i < |q| && j < |q|
    ensures j == i ==> Moved(q, i, j) == q
    ensures j != i && NoDup(q) ==> Moved(q, i, j) != q
    ensures j + 1 == i ==> Moved(q, i, j) == q[i := q[i - 1]][i - 1 := q[i]]
    ensures j == i + 1 ==> Moved(q, i, j) == q[i := q[i + 1]][i + 1 := q[i]]
    ensures j == 0 ==> Moved(q, i, j) == [q[i]] + (q[..i] + q[i + 1..])
    ensures j == |q| - 1 ==> Moved(q, i, j) == q[..i] + q[i + 1..] + [q[i]]
  {
    assert Moved(q, i, j)[j] == q[i];
  }

  predicate InFront(q: seq<Id>, id: Id) { q != [] && q[0] == id }

  function Entered(q: seq<Id>, id: Id): seq<Id> { if id in q then q else q + [id] }

  /** Reordering moves one transfer to the place asked for and keeps all others in order. */
  lemma ReorderMovesOne(q: seq<Id>, id: Id, mv: Move)
    requires NoDup(q)
    ensures var r := Reordered(q, id, mv);
      NoDup(r) && |r| == |q| && Without(r, id) == Without(q, id) && (forall x :: x in r <==> x in q)
    ensures var i := Position(q, id);
      i < |q| ==> Reordered(q, id, mv)[TargetPosition(i, |q|, mv)] == id
  {
    var i := Position(q, id);
    if i < |q| {
      MovedKeeps(q, i, TargetPosition(i, |q|, mv));
    }
  }

  /** Up swaps a transfer with the one in front of it; at the front it changes nothing. */
  lemma UpIs(a: seq<Id>, id: Id, x: Id, b: seq<Id>)
    requires id !in a + [x] + b
    ensures Reordered(a + [x, id] + b, id, Up) == a + [id, x] + b
    ensures Reordered([id] + b, id, Up) == [id] + b
  {
    var q := a + [x, id] + b;
    Swapped(a, x, id, b);
    assert forall j :: 0 <= j < |a| + 1 ==> q[j] in a + [x];
    PositionIs(q, id, |a| + 1);
    MovedIs(q, |a| + 1, |a|);
    PositionIs([id] + b, id, 0);
    MovedIs([id] + b, 0, 0);
  }

  /** Down swaps it with the one behind it; at the back it changes nothing. */
  lemma DownIs(a: seq<Id>, id: Id, x: Id, b: seq<Id>)
    requires id !in a + [x] + b
    ensures Reordered(a + [id, x] + b, id, Down) == a + [x, id] + b
    ensures Reordered(a + [id], id, Down) == a + [id]
  {
    var q := a + [id, x] + b;
    Swapped(a, id, x, b);
    assert forall j :: 0 <= j < |a| ==> q[j] in a;
    PositionIs(q, id, |a|);
    MovedIs(q, |a|, |a| + 1);
    PositionIs(a + [id], id, |a|);
    MovedIs(a + [id], |a|, |a|);
  }

  /** Top and Bottom put it at the ends, and an id that does not wait changes nothing. */
  lemma EndsAre(a: seq<Id>, id: Id, b: seq<Id>)
    requires id !in a + b
    ensures Reordered(a + [id] + b, id, Top) == [id] + a + b
    ensures Reordered(a + [id] + b, id, Bottom) == a + b + [id]
    ensures forall mv :: Reordered(a + b, id, mv) == a + b
  {
    var q := a + [id] + b;
    PositionIs(q, id, |a|);
    assert q[..|a|] == a && q[|a| + 1..] == b;
    MovedIs(q, |a|, 0);
    MovedIs(q, |a|, |q| - 1);
    PositionIs(a + b, id, |a + b|);
  }

  lemma Swapped(a: seq<Id>, x: Id, y: Id, b: seq<Id>)
    ensures var q, i := a + [x, y] + b, |a|;
      q[i] == x && q[i + 1] == y
      && q[i := y][i + 1 := x] == a + [y, x] + b && q[i + 1 := x][i := y] == a + [y, x] + b
  {
  }

  lemma PositionIs(q: seq<Id>, id: Id, i: nat)
    requires i <= |q| && (forall j :: 0 <= j < i ==> q[j] != id) && (i < |q| ==> q[i] == id)
    ensures Position(q, id) == i
  {
  }

  lemma MovedKeeps(q: seq<Id>, i: nat, j: nat)
    requires NoDup(q) && i < |q| && j < |q|
    ensures NoDup(Moved(q, i, j)) && |Moved(q, i, j)| == |q| && Moved(q, i, j)[j] == q[i]
    ensures Without(Moved(q, i, j), q[i]) == Without(q, q[i])
    ensures forall x :: x in Moved(q, i, j) <==> x in q
  {
    var rest := q[..i] + q[i + 1..];
    assert q == q[..i] + [q[i]] + q[i + 1..];
    assert NoDup(rest) && q[i] !in rest;
    assert rest == rest[..j] + rest[j..];
    InsertKeeps(rest[..j], rest[j..], q[i]);
    InsertKeeps(q[..i], q[i + 1..], q[i]);
  }

  lemma InsertKeeps(a: seq<Id>, b: seq<Id>, id: Id)
    requires NoDup(a + b) && id !in a + b
    ensures NoDup(a + [id] + b) && Without(a + [id] + b, id) == a + b
    ensures forall x :: x in a + [id] + b <==> x == id || x in a + b
  {
    InsertNoDup(a, b, id);
    InsertWithout(a, b, id);
  }

  lemma InsertNoDup(a: seq<Id>, b: seq<Id>, id: Id)
    requires NoDup(a + b) && id !in a + b
    ensures NoDup(a + [id] + b)
  {
    var r, rest := a + [id] + b, a + b;
    forall i, j | 0 <= i < j < |r| ensures r[i] != r[j] {
      assert i != |a| ==> r[i] == rest[if i < |a| then i else i - 1];
      assert j != |a| ==> r[j] == rest[if j < |a| then j else j - 1];
    }
  }

  lemma InsertWithout(a: seq<Id>, b: seq<Id>, id: Id)
    requires id !in a && id !in b
    ensures Without(a + [id] + b, id) == a + b
  {
    WithoutLast(a, id);
    WithoutAbsent(b, id);
    WithoutConcat(a + [id], b, id);
  }

  lemma WithoutLast(a: seq<Id>, id: Id)
    requires id !in a
    ensures Without(a + [id], id) == a
  {
    WithoutAbsent(a, id);
    WithoutConcat(a, [id], id);
    assert [id][1..] == [];
    assert Without([id], id) == [];
  }

  lemma {:induction false} WithoutMembers(q: seq<Id>, id: Id)
    ensures forall x :: x in Without(q, id) <==> x in q && x != id
  {
    if q != [] {
      WithoutMembers(q[1..], id);
      assert q == [q[0]] + q[1..];
    }
  }

  lemma {:induction false} WithoutConcat(a: seq<Id>, b: seq<Id>, id: Id)
    ensures Without(a + b, id) == Without(a, id) + Without(b, id)
  {
    if a == [] {
      assert a + b == b;
    } else {
      WithoutConcat(a[1..], b, id);
      assert (a + b)[0] == a[0] && (a + b)[1..] == a[1..] + b;
    }
  }

  lemma {:induction false} WithoutAbsent(q: seq<Id>, id: Id)
    requires id !in q
    ensures Without(q, id) == q
  {
    if q != [] {
      WithoutAbsent(q[1..], id);
    }
  }

  lemma {:induction false} WithoutNoDup(q: seq<Id>, id: Id)
    requires NoDup(q)
    ensures NoDup(Without(q, id))
    ensures q != [] && q[0] == id ==> Without(q, id) == q[1..]
  {
    if q != [] {
      WithoutNoDup(q[1..], id);
      if q[0] == id {
        WithoutAbsent(q[1..], id);
      } else {
        assert q[0] !in q[1..];
        WithoutMembers(q[1..], id);
      }
    }
  }

  // ----- Transfers interleaving -----

  /** A transfer inside `acquire`, holding a slot, or giving it up. `woken` says whether a
      notify was sent since it created its `Notified`. */
  datatype Agent =
    | Announcing            // on the list, its own notify not yet sent
    | Registering           // about to create a `Notified`
    | Checking(woken: bool) // about to look at the front of the list
    | Trying(woken: bool)   // saw itself in front, about to try the semaphore
    | Parked(woken: bool)   // awaiting its `Notified`
    | Leaving               // has a slot, still on the list
    | Passing               // has a slot, off the list, notify not yet sent
    | Running               // has a slot
    | Releasing             // slot freed, notify not yet sent
    | Withdrawing           // cancelled while parked, still on the list
    | Withdrawn             // off the list, notify not yet sent
  {
    predicate HoldsSlot() { Leaving? || Passing? || Running? }

    predicate OnList() {
      Announcing? || Registering? || Checking? || Trying? || Parked? || Leaving? || Withdrawing?
    }

    predicate OwesNotify() { Announcing? || Passing? || Releasing? || Withdrawn? }

    function Notified(): Agent {
      match this
      case Checking(_) => Checking(true)
      case Trying(_) => Trying(true)
      case Parked(_) => Parked(true)
      case _ => this
    }
  }

  /** Shared state, agents, reorders whose notify is still to come, and two logs. */
  datatype Gate = Gate(
    slots: nat, free: nat, waiting: seq<Id>, agents: map<Id, Agent>, owed: nat,
    arrived: seq<Id>, admitted: seq<Id>)
  {
    function To(id: Id, a: Agent): Gate { this.(agents := agents[id := a]) }

    /** `notify_waiters`, sent by `id`, which then goes to `a`. */
    function NotifyThen(id: Id, a: Agent): Gate { Broadcast().To(id, a) }

    function Broadcast(): Gate { this.(agents := map x | x in agents :: agents[x].Notified()) }
  }

  datatype Event =
    | Arrive(id: Id) | Announce(id: Id) | Register(id: Id) | Check(id: Id) | Try(id: Id)
    | Wake(id: Id) | Leave(id: Id) | Pass(id: Id) | Release(id: Id) | Finish(id: Id)
    | Withdraw(id: Id) | Remove(id: Id) | Retire(id: Id)
    | Rearrange(id: Id, mv: Move) | RearrangeNotify

  function New(slots: nat): Gate { Gate(Max(slots, 1), Max(slots, 1), [], map[], 0, [], []) }

  function Step(g: Gate, e: Event): Option<Gate> {
    match e
    case Rearrange(id, mv) =>
      var q := Reordered(g.waiting, id, mv);
      if q == g.waiting then Some(g) else Some(g.(waiting := q, owed := g.owed + 1))
    case RearrangeNotify => if g.owed == 0 then None else Some(g.Broadcast().(owed := g.owed - 1))
    case Arrive(id) =>
      if id in g.agents then None
      else Some(g.To(id, Announcing).(waiting := Entered(g.waiting, id), arrived := g.arrived + [id]))
    case _ => if e.id in g.agents then AgentStep(g, e, e.id, g.agents[e.id]) else None
  }

  function AgentStep(g: Gate, e: Event, id: Id, a: Agent): Option<Gate> {
    match e
    case Announce(_) => if a.Announcing? then Some(g.NotifyThen(id, Registering)) else None
    case Register(_) => if a.Registering? then Some(g.To(id, Checking(false))) else None
    case Check(_) =>
      if !a.Checking? then None
      else if InFront(g.waiting, id) then Some(g.To(id, Trying(a.woken)))
      else Some(g.To(id, Parked(a.woken)))
    case Try(_) =>
      if !a.Trying? then None
      else if g.free > 0 then
        Some(g.To(id, Leaving).(free := g.free - 1, admitted := g.admitted + [id]))
      else Some(g.To(id, Parked(a.woken)))
    case Wake(_) => if a == Parked(true) then Some(g.To(id, Registering)) else None
    case Leave(_) =>
      if a.Leaving? then Some(g.To(id, Passing).(waiting := Without(g.waiting, id))) else None
    case Pass(_) => if a.Passing? then Some(g.NotifyThen(id, Running)) else None
    case Release(_) => if a.Running? then Some(g.To(id, Releasing).(free := g.free + 1)) else None
    case Finish(_) =>
      if a.Releasing? then
        var g' := g.Broadcast();
        Some(g'.(agents := g'.agents - {id}))
      else None
    case Withdraw(_) => if a.Parked? then Some(g.To(id, Withdrawing)) else None
    case Remove(_) =>
      if a.Withdrawing? then Some(g.To(id, Withdrawn).(waiting := Without(g.waiting, id))) else None
    case Retire(_) =>
      if a.Withdrawn? then
        var g' := g.Broadcast();
        Some(g'.(agents := g'.agents - {id}))
      else None
    case _ => None
  }

  function Run(g: Gate, es: seq<Event>): Option<Gate>
    decreases |es|
  {
    if es == [] then Some(g)
    else
      var r := Run(g, es[..|es| - 1]);
      if r.None? then None else Step(r.value, es[|es| - 1])
  }

  /** The steps change list and permits as the methods of the queue do, and no other step touches
      them: a check and a try that succeed together are one `TryAcquire`. */
  lemma StepsAreQueueCalls(g: Gate, e: Event)
    requires Step(g, e).Some?
    ensures var g' := Step(g, e).value;
      g'.waiting == (match e
                     case Arrive(id) => Entered(g.waiting, id)
                     case Leave(id) => Without(g.waiting, id)
                     case Remove(id) => Without(g.waiting, id)
                     case Rearrange(id, mv) => Reordered(g.waiting, id, mv)
                     case _ => g.waiting)
    ensures var g' := Step(g, e).value;
      g'.free == (if e.Release? then g.free + 1
                  else if e.Try? && g'.agents[e.id].Leaving? then g.free - 1 else g.free)
    ensures e.Check? ==> (Step(g, e).value.agents[e.id].Trying? <==> InFront(g.waiting, e.id))
    ensures e.Try? ==> (Step(g, e).value.agents[e.id].Leaving? <==> g.free > 0)
  {
  }

  // ----- Invariant -----

  ghost function Holders(g: Gate): set<Id> {
    set id | id in g.agents && g.agents[id].HoldsSlot()
  }

  ghost predicate Slots(g: Gate) { g.free + |Holders(g)| == g.slots }

  ghost predicate Listed(g: Gate) {
    NoDup(g.waiting)
    && forall id :: id in g.waiting <==> id in g.agents && g.agents[id].OnList()
  }

  ghost predicate SomeoneOwes(g: Gate) {
    g.owed > 0 || exists id :: id in g.agents && g.agents[id].OwesNotify()
  }

  /** With a free slot, a parked front waiter that was not woken is about to be. */
  ghost predicate NoLostWakeup(g: Gate) {
    g.free > 0 && g.waiting != [] && g.waiting[0] in g.agents && g.agents[g.waiting[0]] == Parked(false)
    ==> SomeoneOwes(g)
  }

  ghost predicate Inv(g: Gate) { Slots(g) && Listed(g) && NoLostWakeup(g) }

  lemma BroadcastKeeps(g: Gate)
    ensures g.Broadcast().agents.Keys == g.agents.Keys
    ensures forall x :: x in g.agents ==>
      g.Broadcast().agents[x].HoldsSlot() == g.agents[x].HoldsSlot()
      && g.Broadcast().agents[x].OnList() == g.agents[x].OnList()
      && g.Broadcast().agents[x] != Parked(false)
    ensures Holders(g.Broadcast()) == Holders(g)
  {
    assert forall x :: x in g.agents ==> g.Broadcast().agents[x] == g.agents[x].Notified();
  }

  lemma SlotsTo(g: Gate, id: Id, a: Agent)
    requires id in g.agents
    ensures |Holders(g.To(id, a))| == |Holders(g)|
      + (if a.HoldsSlot() then 1 else 0) - (if g.agents[id].HoldsSlot() then 1 else 0)
  {
    var h, h' := Holders(g), Holders(g.To(id, a));
    assert h' == if a.HoldsSlot() then h + {id} else h - {id};
  }

  lemma SlotsKept(g: Gate, e: Event)
    requires Slots(g) && Step(g, e).Some?
    ensures Slots(Step(g, e).value) && Step(g, e).value.slots == g.slots
  {
    var g' := Step(g, e).value;
    BroadcastKeeps(g);
    if e.Rearrange? || e.RearrangeNotify? {
      assert Holders(g') == Holders(g);
    } else if e.Arrive? {
      assert Holders(g') == Holders(g);
    } else if e.Finish? || e.Retire? {
      assert Holders(g') == Holders(g);
    } else if e.Announce? || e.Pass? {
      SlotsTo(g.Broadcast(), e.id, g'.agents[e.id]);
    } else {
      SlotsLocal(g, e);
    }
  }

  lemma SlotsLocal(g: Gate, e: Event)
    requires Slots(g) && Step(g, e).Some?
    requires e.Register? || e.Check? || e.Try? || e.Wake? || e.Leave? || e.Release? || e.Withdraw? || e.Remove?
    ensures Slots(Step(g, e).value) && Step(g, e).value.slots == g.slots
  {
    var g' := Step(g, e).value;
    SlotsTo(g, e.id, g'.agents[e.id]);
    assert Holders(g') == Holders(g.To(e.id, g'.agents[e.id]));
  }

  lemma ListedNotify(g: Gate)
    requires Listed(g)
    ensures Listed(g.Broadcast())
  {
    assert forall x :: x in g.agents ==> g.Broadcast().agents[x] == g.agents[x].Notified();
  }

  lemma ListedTo(g: Gate, id: Id, a: Agent)
    requires Listed(g) && id in g.agents && a.OnList() == g.agents[id].OnList()
    ensures Listed(g.To(id, a))
  {
  }

  lemma ListedGone(g: Gate, id: Id)
    requires Listed(g) && id in g.agents && !g.agents[id].OnList()
    ensures Listed(g.(agents := g.agents - {id}))
  {
  }

  lemma ListedOut(g: Gate, id: Id, a: Agent)
    requires Listed(g) && id in g.agents && !a.OnList()
    ensures Listed(g.To(id, a).(waiting := Without(g.waiting, id)))
  {
    WithoutNoDup(g.waiting, id);
    WithoutMembers(g.waiting, id);
  }

  lemma ListedArrive(g: Gate, id: Id)
    requires Listed(g) && id !in g.agents
    ensures Listed(g.To(id, Announcing).(waiting := Entered(g.waiting, id)))
  {
  }

  lemma ListedKept(g: Gate, e: Event)
    requires Listed(g) && Step(g, e).Some?
    ensures Listed(Step(g, e).value)
  {
    var g' := Step(g, e).value;
    if e.Rearrange? {
      ReorderMovesOne(g.waiting, e.id, e.mv);
    } else if e.Leave? || e.Remove? {
      ListedOut(g, e.id, g'.agents[e.id]);
    } else if e.Arrive? {
      ListedArrive(g, e.id);
    } else if e.RearrangeNotify? {
      ListedNotify(g);
    } else if e.Announce? || e.Pass? || e.Finish? || e.Retire? {
      ListedSent(g, e);
    } else {
      ListedTo(g, e.id, g'.agents[e.id]);
    }
  }

  lemma ListedSent(g: Gate, e: Event)
    requires Listed(g) && Step(g, e).Some? && (e.Announce? || e.Pass? || e.Finish? || e.Retire?)
    ensures Listed(Step(g, e).value)
  {
    ListedNotify(g);
    if e.Announce? || e.Pass? {
      ListedTo(g.Broadcast(), e.id, Step(g, e).value.agents[e.id]);
    } else {
      ListedGone(g.Broadcast(), e.id);
    }
  }

  lemma WakeupKept(g: Gate, e: Event)
    requires Listed(g) && NoLostWakeup(g) && Step(g, e).Some?
    ensures NoLostWakeup(Step(g, e).value)
  {
    var g' := Step(g, e).value;
    if e.Leave? || e.Remove? || e.Release? {
      assert g'.agents[e.id].OwesNotify();
    } else if e.Arrive? || e.Register? || e.Check? || e.Try? || e.Wake? || e.Withdraw? {
      WakeupLocal(g, e);
    } else {
      BroadcastKeeps(g);
    }
  }

  /** Steps that send no notify and give up none that is owed. */
  lemma WakeupLocal(g: Gate, e: Event)
    requires Listed(g) && NoLostWakeup(g) && Step(g, e).Some?
    requires e.Arrive? || e.Register? || e.Check? || e.Try? || e.Wake? || e.Withdraw?
    ensures NoLostWakeup(Step(g, e).value)
  {
    var g' := Step(g, e).value;
    if SomeoneOwes(g) && g.owed == 0 {
      var x :| x in g.agents && g.agents[x].OwesNotify();
      assert g'.agents[x].OwesNotify();
    }
  }

  lemma {:induction false} RunKeeps(slots: nat, es: seq<Event>)
    requires Run(New(slots), es).Some?
    ensures Inv(Run(New(slots), es).value) && Run(New(slots), es).value.slots == Max(slots, 1)
    decreases |es|
  {
    if es == [] {
      assert Holders(New(slots)) == {};
    } else {
      var init, e := es[..|es| - 1], es[|es| - 1];
      RunKeeps(slots, init);
      var g := Run(New(slots), init).value;
      SlotsKept(g, e);
      ListedKept(g, e);
      WakeupKept(g, e);
    }
  }

  ghost predicate Reachable(slots: nat, g: Gate) { exists es :: Run(New(slots), es) == Some(g) }

  lemma ReachableInv(slots: nat, g: Gate)
    requires Reachable(slots, g)
    ensures Inv(g) && g.slots == Max(slots, 1)
  {
    var es :| Run(New(slots), es) == Some(g);
    RunKeeps(slots, es);
  }

  /** Permits are conserved and never over-issued, and no transfer is listed twice. */
  lemma PermitsConserved(slots: nat, g: Gate)
    requires Reachable(slots, g)
    ensures g.free + |Holders(g)| == Max(slots, 1)
    ensures NoDup(g.waiting)
    ensures forall id :: id in g.waiting <==> id in g.agents && g.agents[id].OnList()
  {
    ReachableInv(slots, g);
  }

  /** No lost wakeup: with a slot free, the front waiter can run by itself, or a notify is
      still to be sent that will wake it. */
  lemma FrontRunsOrIsNotified(slots: nat, g: Gate)
    requires Reachable(slots, g) && g.free > 0 && g.waiting != []
    ensures g.waiting[0] in g.agents && g.agents[g.waiting[0]].OnList()
    ensures g.agents[g.waiting[0]] != Parked(false) || SomeoneOwes(g)
  {
    ReachableInv(slots, g);
    assert g.waiting[0] in g.waiting;
  }

  /** Hence the gate never sticks: when nothing is left to do but running downloads and
      unwoken waits, either every slot is taken or nobody waits. */
  lemma NeverStuck(slots: nat, g: Gate)
    requires Reachable(slots, g) && g.owed == 0
    requires forall id :: id in g.agents ==> g.agents[id].Running? || g.agents[id] == Parked(false)
    ensures g.waiting == [] || |Holders(g)| == Max(slots, 1)
  {
    ReachableInv(slots, g);
    if g.waiting != [] && g.free > 0 {
      FrontRunsOrIsNotified(slots, g);
    }
  }

  // ----- Admission order -----

  /** No user reorders and no transfer gives up while waiting. */
  predicate Orderly(es: seq<Event>) {
    forall i :: 0 <= i < |es| ==> !es[i].Rearrange? && !es[i].Withdraw?
  }

  /** Those on the list without a slot yet. */
  function Pending(g: Gate): seq<Id> {
    if g.waiting != [] && g.waiting[0] in g.agents && g.agents[g.waiting[0]].Leaving? then g.waiting[1..]
    else g.waiting
  }

  ghost predicate Fifo(g: Gate) {
    g.arrived == g.admitted + Pending(g)
    && (forall id :: id in g.agents && (g.agents[id].Trying? || g.agents[id].Leaving?) ==>
          g.waiting != [] && g.waiting[0] == id)
    && (forall id :: id in g.agents ==> !g.agents[id].Withdrawing?)
  }

  lemma FifoArrive(g: Gate, id: Id)
    requires Listed(g) && Fifo(g) && Step(g, Arrive(id)).Some?
    ensures Fifo(Step(g, Arrive(id)).value)
  {
    var g' := Step(g, Arrive(id)).value;
    assert g'.waiting == g.waiting + [id];
    if g.waiting != [] {
      assert g.waiting[0] in g.waiting && g'.waiting[0] == g.waiting[0];
      assert Pending(g') == Pending(g) + [id];
    }
    assert g.admitted + (Pending(g) + [id]) == g.admitted + Pending(g) + [id];
  }

  lemma FifoTry(g: Gate, id: Id)
    requires Fifo(g) && Step(g, Try(id)).Some?
    ensures Fifo(Step(g, Try(id)).value)
  {
    if g.free > 0 {
      FifoAdmit(g, id);
    } else {
      FifoTo(g, id, Step(g, Try(id)).value.agents[id]);
    }
  }

  lemma FifoAdmit(g: Gate, id: Id)
    requires Fifo(g) && id in g.agents && g.agents[id].Trying? && g.free > 0
    ensures Fifo(g.To(id, Leaving).(free := g.free - 1, admitted := g.admitted + [id]))
  {
    assert g.waiting[0] == id && Pending(g) == [id] + g.waiting[1..];
    assert g.admitted + ([id] + g.waiting[1..]) == g.admitted + [id] + g.waiting[1..];
  }

  lemma FifoLeave(g: Gate, id: Id)
    requires Listed(g) && Fifo(g) && Step(g, Leave(id)).Some?
    ensures Fifo(Step(g, Leave(id)).value)
  {
    var g' := Step(g, Leave(id)).value;
    WithoutNoDup(g.waiting, id);
    assert g'.waiting == g.waiting[1..];
    if g'.waiting != [] {
      assert g'.waiting[0] == g.waiting[1] && g.waiting[1] != id;
    }
  }

  lemma FifoOther(g: Gate, e: Event)
    requires Fifo(g) && Step(g, e).Some?
    requires !e.Arrive? && !e.Try? && !e.Leave? && !e.Rearrange? && !e.Withdraw?
    ensures Fifo(Step(g, e).value)
  {
    if e.RearrangeNotify? {
      FifoNotify(g);
    } else if e.Announce? {
      FifoNotify(g);
      FifoTo(g.Broadcast(), e.id, Registering);
    } else if e.Pass? {
      FifoNotify(g);
      FifoTo(g.Broadcast(), e.id, Running);
    } else if e.Finish? || e.Retire? {
      FifoNotify(g);
      FifoGone(g.Broadcast(), e.id);
    } else {
      FifoTo(g, e.id, Step(g, e).value.agents[e.id]);
    }
  }

  lemma FifoNotify(g: Gate)
    requires Fifo(g)
    ensures Fifo(g.Broadcast())
  {
    assert forall x :: x in g.agents ==> g.Broadcast().agents[x] == g.agents[x].Notified();
  }

  /** A step of one transfer that is not leaving, neither before nor after. */
  lemma FifoTo(g: Gate, id: Id, a: Agent)
    requires Fifo(g) && id in g.agents && !g.agents[id].Leaving? && !a.Leaving? && !a.Withdrawing?
    requires a.Trying? ==> g.waiting != [] && g.waiting[0] == id
    ensures Fifo(g.To(id, a))
  {
  }

  lemma FifoGone(g: Gate, id: Id)
    requires Fifo(g) && id in g.agents && !g.agents[id].Leaving?
    ensures Fifo(g.(agents := g.agents - {id}))
  {
  }

  lemma {:induction false} FifoRun(slots: nat, es: seq<Event>)
    requires Run(New(slots), es).Some? && Orderly(es)
    ensures Fifo(Run(New(slots), es).value)
    decreases |es|
  {
    if es != [] {
      var init, e := es[..|es| - 1], es[|es| - 1];
      FifoRun(slots, init);
      RunKeeps(slots, init);
      var g := Run(New(slots), init).value;
      match e
      case Arrive(id) => FifoArrive(g, id);
      case Try(id) => FifoTry(g, id);
      case Leave(id) => FifoLeave(g, id);
      case _ => FifoOther(g, e);
    }
  }

  /** With no reorder and no cancel, slots are given out exactly in arrival order. */
  lemma AdmittedInArrivalOrder(slots: nat, es: seq<Event>, g: Gate)
    requires Orderly(es) && Run(New(slots), es) == Some(g)
    ensures g.admitted <= g.arrived
    ensures g.arrived[|g.admitted|..] == Pending(g)
  {
    FifoRun(slots, es);
  }
}
