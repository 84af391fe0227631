/** Multi-connection download (engine.rs, `stream_segmented`): ranges and their writers. */
module Segments {
  import opened Common

  const SEGMENT_MIN_BYTES: nat := 32 * 1024 * 1024

  datatype Range = Range(start: nat, end: nat)

  /** Non-empty ranges, one after the other, from 0 to `total`. */
  predicate Tiles(rs: seq<Range>, total: nat) {
    (forall i :: 0 <= i < |rs| ==> rs[i].start < rs[i].end)
    && (forall i :: 0 < i < |rs| ==> rs[i - 1].end == rs[i].start)
    && (if rs == [] then total == 0 else rs[0].start == 0 && rs[|rs| - 1].end == total)
  }

  lemma CeilDiv(total: nat, n: nat, seg: nat)
    requires n > 0 && seg == (total + n - 1) / n
    ensures total <= seg * n < total + n
  {
    assert n * seg + (total + n - 1) % n == total + n - 1;
  }

  lemma FewerThan(k: nat, n: nat, seg: nat, total: nat)
    requires k * seg < total <= seg * n
    ensures k < n
  {
  }

  /** The connection count that passes the guard, and at most that many ranges; all but the last
      are an equal share, rounded up, and at least the minimum segment. */
  method SegmentRanges(total: nat, nConns: nat) returns (r: Option<seq<Range>>)
    ensures r.Some? <==> nConns >= 2 && total >= 2 * SEGMENT_MIN_BYTES
    ensures r.Some? ==> Tiles(r.value, total) && |r.value| <= nConns
    ensures r.Some? ==> forall i :: 0 <= i < |r.value| - 1 ==>
      r.value[i].end - r.value[i].start >= SEGMENT_MIN_BYTES
    ensures r.Some? ==>
      var n := Min(nConns, total / SEGMENT_MIN_BYTES);
      forall i :: 0 <= i < |r.value| ==>
        var length := r.value[i].end - r.value[i].start;
        length * n < total + n && (i < |r.value| - 1 ==> total <= length * n)
  {
    var maxBySize := Max(total / SEGMENT_MIN_BYTES, 1);
    var n := Max(Min(nConns, maxBySize), 1);
    if n < 2 {
      return None;
    }
    var seg := (total + n - 1) / n;
    CeilDiv(total, n, seg);
    assert n == Min(nConns, total / SEGMENT_MIN_BYTES);
    SegmentLongEnough(total, n, seg);
    var ranges: seq<Range> := [];
    var s := 0;
    while s < total
      invariant s <= total && |ranges| <= n && Cut(ranges, s, seg, total)
      decreases total - s
    {
      FewerThan(|ranges|, n, seg, total);
      CutOne(ranges, s, seg, total);
      var e := Min(s + seg, total);
      ranges := ranges + [Range(s, e)];
      s := e;
    }
    forall i | 0 <= i < |ranges| ensures (ranges[i].end - ranges[i].start) * n < total + n {
      AtMostTimes(ranges[i].end - ranges[i].start, seg, n);
    }
    return Some(ranges);
  }

  lemma AtMostTimes(a: int, b: int, n: nat)
    requires a <= b
    ensures a * n <= b * n
  {
  }

  /** The ranges cut off so far: full segments, the last of them perhaps shorter at the end. */
  predicate Cut(ranges: seq<Range>, s: nat, seg: nat, total: nat) {
    Tiles(ranges, s)
    && (s < total ==> s == |ranges| * seg)
    && (forall i :: 0 <= i < |ranges| && (i < |ranges| - 1 || s < total) ==> ranges[i].end - ranges[i].start == seg)
    && (forall i :: 0 <= i < |ranges| ==> ranges[i].end - ranges[i].start <= seg)
  }

  lemma CutOne(ranges: seq<Range>, s: nat, seg: nat, total: nat)
    requires Cut(ranges, s, seg, total) && s < total && seg > 0
    ensures Cut(ranges + [Range(s, Min(s + seg, total))], Min(s + seg, total), seg, total)
  {
    NextMultiple(|ranges|, seg);
  }

  lemma NextMultiple(k: nat, seg: nat)
    ensures (k + 1) * seg == k * seg + seg
  {
  }

  lemma SegmentLongEnough(total: nat, n: nat, seg: nat)
    requires 2 <= n <= total / SEGMENT_MIN_BYTES && seg == (total + n - 1) / n
    ensures seg >= SEGMENT_MIN_BYTES
  {
    CeilDiv(total, n, seg);
    AtLeast(SEGMENT_MIN_BYTES, seg, n);
  }

  lemma AtLeast(a: nat, b: nat, n: nat)
    requires n > 0 && n * a <= b * n
    ensures a <= b
  {
  }

  // ----- What tiling means -----

  lemma {:induction false} TilesOrdered(rs: seq<Range>, total: nat, i: nat, j: nat)
    requires Tiles(rs, total) && i < j < |rs|
    ensures rs[i].end <= rs[j].start
    decreases j - i
  {
    if i + 1 < j {
      TilesOrdered(rs, total, i, j - 1);
    }
  }

  lemma {:induction false} TilesBounded(rs: seq<Range>, total: nat, i: nat)
    requires Tiles(rs, total) && i < |rs|
    ensures rs[i].end <= total
    decreases |rs| - i
  {
    if i < |rs| - 1 {
      TilesBounded(rs, total, i + 1);
    }
  }

  /** Every offset is in a range, and by order in only one. */
  lemma {:induction false} TilesCover(rs: seq<Range>, total: nat, k: nat, i: nat) returns (j: nat)
    requires Tiles(rs, total) && i < |rs| && rs[i].start <= k < total
    ensures i <= j < |rs| && rs[j].start <= k < rs[j].end
    decreases |rs| - i
  {
    if k < rs[i].end {
      j := i;
    } else {
      j := TilesCover(rs, total, k, i + 1);
    }
  }

  function Lengths(rs: seq<Range>): seq<nat> {
    seq(|rs|, i requires 0 <= i < |rs| => Max(rs[i].end - rs[i].start, 0))
  }

  // ----- Concurrent writers -----

  /** The temp file and how much each segment has written. */
  datatype State = State(temp: seq<Byte>, got: seq<nat>)

  /** Segment `i` receives the next chunk of its stream: `n` bytes of the source, which may
      run past the end of the segment. */
  datatype Event = Chunk(i: nat, n: nat)

  function Step(src: seq<Byte>, rs: seq<Range>, s: State, e: Event): Option<State> {
    if e.i < |rs| && e.i < |s.got| && rs[e.i].start + s.got[e.i] < rs[e.i].end
      && rs[e.i].end <= |src| && |s.temp| == |src|
      && rs[e.i].start + s.got[e.i] + e.n <= |src|
    then
      var at := rs[e.i].start + s.got[e.i];
      var take := Min(rs[e.i].end - at, e.n);
      Some(State(Patch(s.temp, at, src[at..at + take]), s.got[e.i := s.got[e.i] + take]))
    else None
  }

  function Run(src: seq<Byte>, rs: seq<Range>, s: State, es: seq<Event>): Option<State>
    decreases |es|
  {
    if es == [] then Some(s)
    else
      var r := Run(src, rs, s, es[..|es| - 1]);
      if r.None? then None else Step(src, rs, r.value, es[|es| - 1])
  }

  ghost predicate Inv(src: seq<Byte>, rs: seq<Range>, s: State) {
    |s.temp| == |src| && |s.got| == |rs|
    && forall i, k :: 0 <= i < |rs| && rs[i].start <= k < rs[i].start + s.got[i] && k < |src| ==>
         s.temp[k] == src[k]
  }

  lemma {:induction false} RunKeeps(src: seq<Byte>, rs: seq<Range>, s: State, es: seq<Event>)
    requires Inv(src, rs, s) && Run(src, rs, s, es).Some?
    ensures Inv(src, rs, Run(src, rs, s, es).value)
    decreases |es|
  {
    if es != [] {
      RunKeeps(src, rs, s, es[..|es| - 1]);
    }
  }

  /** Every interleaving of the segment writers, with chunks of any size and streams that run
      on past their range, ends with the source's bytes once all segments are full. */
  lemma AllSegmentsFull(src: seq<Byte>, rs: seq<Range>, temp: seq<Byte>, es: seq<Event>, s: State)
    requires Tiles(rs, |src|) && |temp| == |src|
    requires Run(src, rs, State(temp, seq(|rs|, _ => 0)), es) == Some(s)
    requires s.got == Lengths(rs)
    ensures s.temp == src
  {
    RunKeeps(src, rs, State(temp, seq(|rs|, _ => 0)), es);
    FullMeansSource(src, rs, s);
  }

  lemma FullMeansSource(src: seq<Byte>, rs: seq<Range>, s: State)
    requires Tiles(rs, |src|) && Inv(src, rs, s) && s.got == Lengths(rs)
    ensures s.temp == src
  {
    forall k | 0 <= k < |src| ensures s.temp[k] == src[k] {
      var j := TilesCover(rs, |src|, k, 0);
      assert s.got[j] == rs[j].end - rs[j].start;
    }
  }
}
