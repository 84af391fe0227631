/**
 What an intact journal is worth: a run that ends between two journal lines loses nothing. The
 next run skips exactly the pieces that were fetched.
 */
module StripeResume {
  import opened Common
  import opened Decimal
  import opened Text
  import opened StripeGrid
  import opened StripeJournal
  import F = StripeForgery
  import L = StripeLoss

  predicate AllInGrid(size: nat, ps: seq<Piece>) { forall i :: 0 <= i < |ps| ==> InGrid(size, ps[i]) }

  /** The journal lines of completed pieces, in order. */
  function Logged(ps: seq<Piece>): string {
    if ps == [] then "" else Print(ps[0].start) + " " + Print(ps[0].end) + "\n" + Logged(ps[1..])
  }

  lemma {:induction false} LoggedSnoc(ps: seq<Piece>, p: Piece)
    ensures Logged(ps + [p]) == Logged(ps) + Entry(p) + "\n"
  {
    if ps == [] {
      assert Logged([p]) == Entry(p) + "\n" + Logged([p][1..]);
    } else {
      LoggedSnoc(ps[1..], p);
      assert (ps + [p])[1..] == ps[1..] + [p];
      LineFirst(ps[0], Logged(ps[1..]), p);
    }
  }

  lemma LineFirst(q: Piece, rest: string, p: Piece)
    ensures Entry(q) + "\n" + (rest + Entry(p) + "\n") == Entry(q) + "\n" + rest + Entry(p) + "\n"
  {
  }

  predicate AllU64(ps: seq<Piece>) { forall i :: 0 <= i < |ps| ==> ps[i].start < U64_LIMIT && ps[i].end < U64_LIMIT }

  lemma GridIsU64(size: nat, ps: seq<Piece>)
    requires size < U64_LIMIT && AllInGrid(size, ps)
    ensures AllU64(ps)
  {
    forall i | 0 <= i < |ps| ensures ps[i].start < U64_LIMIT && ps[i].end < U64_LIMIT {
      GridMember(size, ps[i]);
    }
  }

  lemma {:induction false} LoggedParses(ps: seq<Piece>)
    requires AllU64(ps)
    ensures ParseLines(Lines(Logged(ps))) == ToSet(ps)
  {
    if ps == [] {
      SingleLine("");
    } else {
      var p, rest := ps[0], ps[1..];
      LoggedParses(rest);
      F.ParsePrinted(p);
      EntryPlain(p);
      FirstLine(Entry(p), Logged(rest));
      ParsedFirst(Entry(p), Lines(Logged(rest)));
      SetFirst(ps);
    }
  }

  lemma ParsedFirst(l: string, ls: seq<string>)
    requires ParseLine(l).Some?
    ensures ParseLines([l] + ls) == {ParseLine(l).value} + ParseLines(ls)
  {
    assert forall x :: x in [l] + ls <==> x == l || x in ls;
  }

  /** A journal that ends with a whole line is believed in full. */
  lemma IntactIsSkipped(size: nat, hash: string, ps: seq<Piece>)
    requires size < U64_LIMIT && IsHashText(hash) && AllInGrid(size, ps)
    ensures Skip(size, hash, Some(size), Some("v1 " + Print(size) + " " + hash + "\n" + Logged(ps))) == ToSet(ps)
  {
    LoadOf(size, hash, Logged(ps));
    GridIsU64(size, ps);
    LoggedParses(ps);
    InGridAll(size, ps);
  }

  lemma InGridAll(size: nat, ps: seq<Piece>)
    requires AllInGrid(size, ps)
    ensures forall p :: p in ToSet(ps) ==> InGrid(size, p)
  {
  }

  /** A single line that names no piece of the grid, and nothing in the journal is believed. */
  lemma OffGridIsDropped(size: nat, hash: string, ps: seq<Piece>, k: nat)
    requires IsHashText(hash) && AllU64(ps) && k < |ps| && !InGrid(size, ps[k])
    ensures Skip(size, hash, Some(size), Some("v1 " + Print(size) + " " + hash + "\n" + Logged(ps))) == {}
  {
    LoadOf(size, hash, Logged(ps));
    LoggedParses(ps);
    assert ps[k] in ToSet(ps);
  }

  function Appends(ps: seq<Piece>): (r: seq<Event>)
    ensures |r| == |ps|
  {
    seq(|ps|, i requires 0 <= i < |ps| => Append(ps[i]))
  }

  /** A first run that has fetched and logged `ps`. */
  function Fetched(size: nat, hash: string, ps: seq<Piece>): Disk {
    Disk(Some(size), Some(JournalOf(size, hash, Logged(ps))), ToSet(ps), true, {})
  }

  lemma {:induction false} FirstRun(size: nat, hash: string, ps: seq<Piece>)
    requires AllInGrid(size, ps)
    ensures Run(size, hash, Init(None), [Resume] + Appends(ps)) == Some(Fetched(size, hash, ps))
    decreases |ps|
  {
    if ps == [] {
      Started(size, hash);
      assert [Resume] + Appends(ps) == [Resume];
    } else {
      var init, p := ps[..|ps| - 1], ps[|ps| - 1];
      FirstRun(size, hash, init);
      assert ps == init + [p];
      assert [Resume] + Appends(ps) == [Resume] + Appends(init) + [Append(p)];
      NextPiece(size, hash, init, p);
      L.RunTo(size, hash, Init(None), [Resume] + Appends(init), Append(p), Fetched(size, hash, ps));
    }
  }

  lemma Started(size: nat, hash: string)
    ensures Run(size, hash, Init(None), [Resume]) == Some(Fetched(size, hash, []))
  {
    var d := Disk(Some(size), Some(Fresh(size, hash)), {}, true, {});
    L.FreshStart(size, hash);
    assert Run(size, hash, Init(None), []) == Some(Init(None));
    L.RunTo(size, hash, Init(None), [], Resume, d);
    assert [] + [Resume] == [Resume];
    NoneLogged(size, hash);
  }

  lemma NoneLogged(size: nat, hash: string)
    ensures JournalOf(size, hash, Logged([])) == Fresh(size, hash) && ToSet<Piece>([]) == {}
  {
  }

  lemma NextPiece(size: nat, hash: string, ps: seq<Piece>, p: Piece)
    requires InGrid(size, p)
    ensures Step(size, hash, Fetched(size, hash, ps), Append(p)) == Some(Fetched(size, hash, ps + [p]))
  {
    F.StepAppend(size, hash, Fetched(size, hash, ps), JournalOf(size, hash, Logged(ps)), p);
    NextText(size, hash, ps, p);
    SetSnoc(ps, p);
  }

  lemma NextText(size: nat, hash: string, ps: seq<Piece>, p: Piece)
    ensures JournalOf(size, hash, Logged(ps + [p])) == JournalOf(size, hash, Logged(ps)) + Entry(p) + "\n"
  {
    LoggedSnoc(ps, p);
    Behind(Fresh(size, hash), Logged(ps), Entry(p), "\n");
  }

  lemma Behind(a: string, b: string, c: string, d: string)
    ensures a + (b + c + d) == a + b + c + d
  {
  }

  lemma SetSnoc(ps: seq<Piece>, p: Piece)
    ensures ToSet(ps + [p]) == ToSet(ps) + {p}
  {
  }

  lemma SetFirst(ps: seq<Piece>)
    requires ps != []
    ensures ToSet(ps) == {ps[0]} + ToSet(ps[1..])
  {
    assert ps == [ps[0]] + ps[1..];
  }

  /** A run fetches pieces, in any order, and ends after a whole line. The next run skips every one
      of them, and nothing else. */
  lemma NothingIsLost(size: nat, hash: string, ps: seq<Piece>)
    requires size < U64_LIMIT && IsHashText(hash) && AllInGrid(size, ps) && ps != []
    ensures var keep := |JournalOf(size, hash, Logged(ps))|;
      var r := Run(size, hash, Init(None), [Resume] + Appends(ps) + [Crash(keep)] + [Resume]);
      r.Some? && r.value.running && r.value.skipped == r.value.fetched == ToSet(ps)
  {
    var text := JournalOf(size, hash, Logged(ps));
    var es := [Resume] + Appends(ps);
    FirstRun(size, hash, ps);
    L.EndRun(size, hash, es, Fetched(size, hash, ps), text);
    L.RunSnoc(size, hash, Init(None), es + [Crash(|text|)], Resume);
    IntactIsSkipped(size, hash, ps);
    assert ps[0] in ToSet(ps);
  }
}
