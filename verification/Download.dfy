/**
 Downloading one artifact (engine.rs): `stream_once` with its resume and range
 reconciliation, the commit into the content-addressed store (cas.rs), the retry loop of
 `try_source`, and the failover loop of `download_artifact`. Servers answer anything.
 */
module Download {
  import opened Common
  import opened Merkle
  import opened Verify
  import Segments

  type Source = nat

  /** Why an attempt failed, as far as the caller tells failures apart. */
  datatype Failure = Cancelled | Integrity | Retriable | Permanent

  /** What a server can report; a transport that gives up because of a cancel is a cancel. */
  type Fault = f: Failure | f != Cancelled witness Permanent

  /** One stream item: bytes, or the error that ends the stream. */
  datatype Item = Data(bytes: seq<Byte>) | Broken(why: Fault)

  /** What a server does with an `open` call: refuse, or stream from an offset of its choice. */
  datatype Answer = Refused(why: Fault) | Opened(start: nat, items: seq<Item>)

  /** What the parallel segments of one source left in the temp file, and whether all ended well. */
  datatype Segmented = Segmented(assembled: seq<Byte>, complete: bool)

  /** Everything one source will do, should it be asked. */
  datatype Candidate = Candidate(
    source: Source, banned: bool, usable: bool, segmented: Option<Segmented>, answers: seq<Answer>)

  /** An integrity failure held against a source, with the writers of the temp file's bytes then. */
  datatype Charge = Charge(source: Source, writers: seq<Source>)

  /** The candidates among the first `n` that are not banned. */
  function Eligible(plan: seq<Candidate>, n: nat): seq<nat>
    requires n <= |plan|
  {
    if n == 0 then [] else Eligible(plan, n - 1) + if plan[n - 1].banned then [] else [n - 1]
  }

  predicate FairCharge(c: Charge) { forall i :: 0 <= i < |c.writers| ==> c.writers[i] == c.source }

  /** `set_len`: cut, or extend with `pad`. */
  function SetLen<T>(s: seq<T>, n: nat, pad: T): (r: seq<T>)
    ensures |r| == n
  {
    if n <= |s| then s[..n] else s + Repeat(pad, n - |s|)
  }

  /** A positioned write; a gap before it is filled with `pad`. */
  function WriteAt<T>(s: seq<T>, at: nat, data: seq<T>, pad: T): (r: seq<T>) {
    var base := if |s| < at then SetLen(s, at, pad) else s;
    base[..at] + data + (if at + |data| <= |base| then base[at + |data|..] else [])
  }

  /** Every entry of `now` is one of the first entries of `before`, or is `who`. */
  ghost predicate OnlyAdds(before: seq<Source>, now: seq<Source>, who: Source) {
    forall i :: 0 <= i < |now| ==> now[i] == who || (i < |before| && now[i] == before[i])
  }

  lemma OnlyAddsTrans(a: seq<Source>, b: seq<Source>, c: seq<Source>, who: Source)
    requires OnlyAdds(a, b, who) && OnlyAdds(b, c, who)
    ensures OnlyAdds(a, c, who)
  {
  }

  /** No complete leaf of `data` contradicts the tree, if there is one. */
  predicate Feeds(tree: Option<ChunkTree<Hash>>, data: seq<Byte>) {
    tree.Some? ==> if tree.value.leafSize == 0 then data == [] else FullLeavesOk(tree.value, data)
  }

  lemma FeedsPrefix(tree: Option<ChunkTree<Hash>>, a: seq<Byte>, b: seq<Byte>)
    requires Feeds(tree, a + b)
    ensures Feeds(tree, a)
  {
    if tree.Some? && tree.value.leafSize > 0 {
      var size := tree.value.leafSize;
      forall i | 0 <= i < |Chunks(a, size)| && |Chunks(a, size)[i]| == size
        ensures LeafOk(tree.value, i, Chunks(a, size)[i])
      {
        ChunkStable(a, b, size, i);
      }
    }
  }

  /** The beginning of an accepted stream is never refused. */
  lemma AcceptedFeeds(tree: Option<ChunkTree<Hash>>, a: seq<Byte>, b: seq<Byte>)
    requires tree.Some? ==> TreeAccepts(tree.value, a + b)
    ensures Feeds(tree, a)
  {
    FeedsPrefix(tree, a, b);
  }

  lemma ValidFeeds(v: StreamingVerifier)
    requires v.Valid()
    ensures Feeds(v.tree, v.seen)
  {
    if v.tree.Some? && v.tree.value.leafSize > 0 {
      AllVerified(v.tree.value, v.full, v.leafBuf);
    }
  }

  /** A stream ends with its error, if it has one. */
  predicate OneStream(items: seq<Item>) { forall i :: 0 <= i < |items| - 1 ==> items[i].Data? }

  predicate AllData(items: seq<Item>) { forall i :: 0 <= i < |items| ==> items[i].Data? }

  /** The bytes of a stream. */
  function ItemBytes(items: seq<Item>): seq<Byte> {
    if items == [] then []
    else ItemBytes(items[..|items| - 1]) + if items[|items| - 1].Data? then items[|items| - 1].bytes else []
  }

  lemma {:induction false} ItemsSplit(items: seq<Item>, k: nat)
    requires k <= |items|
    ensures ItemBytes(items) == ItemBytes(items[..k]) + ItemBytes(items[k..])
    decreases |items|
  {
    if k == |items| {
      assert items[..k] == items && items[k..] == [];
    } else {
      var init := items[..|items| - 1];
      ItemsSplit(init, k);
      assert init[..k] == items[..k] && items[k..][..|items| - k - 1] == init[k..];
    }
  }

  lemma ItemsNext(base: seq<Byte>, items: seq<Item>, i: nat)
    requires i < |items|
    ensures base + ItemBytes(items[..i + 1])
      == base + ItemBytes(items[..i]) + if items[i].Data? then items[i].bytes else []
  {
    assert items[..i + 1][..i] == items[..i];
  }

  /** The error that ends a stream adds no bytes. */
  lemma BrokenLast(items: seq<Item>, i: nat)
    requires OneStream(items) && i < |items| && items[i].Broken?
    ensures i == |items| - 1 && !AllData(items) && ItemBytes(items) == ItemBytes(items[..i])
  {
    assert items[..|items| - 1] == items[..i];
  }

  /** The join with the segment writers: when every range was honoured and is full, the attempt
      passes its check whenever the source does. */
  lemma HonouredSegmentsPass(
    expected: Hashes, src: seq<Byte>, rs: seq<Segments.Range>, temp: seq<Byte>, es: seq<Segments.Event>,
    s: Segments.State)
    requires WholeCheck(expected, |src|, None, src) && Segments.Tiles(rs, |src|) && |temp| == |src|
    requires Segments.Run(src, rs, Segments.State(temp, seq(|rs|, _ => 0)), es) == Some(s)
    requires s.got == Segments.Lengths(rs)
    ensures SetLen(s.temp, |src|, 0) == src && WholeCheck(expected, |src|, None, SetLen(s.temp, |src|, 0))
  {
    Segments.AllSegmentsFull(src, rs, temp, es, s);
    assert src[..|src|] == src;
  }

  class Artifact {
    const total: nat
    const expected: Hashes
    const tree: Option<ChunkTree<Hash>>
    /** Nobody cancels this download, and reads of the temp file succeed. */
    const calm: bool
    const readable: bool

    /** The `.part` file, and who wrote (or caused) each of its bytes. */
    var temp: Option<seq<Byte>>
    ghost var writers: seq<Source>
    /** The store, keyed by blake3. */
    var blobs: map<Digest, seq<Byte>>
    ghost var charges: seq<Charge>

    ghost predicate Valid()
      reads this
    {
      |writers| == (if temp.Some? then |temp.value| else 0)
      && forall k :: k in blobs ==> k == Blake3(blobs[k])
    }

    /** What a download attempt of `who` may do to the artifact. */
    twostate predicate Attempted(who: Source)
      reads this
    {
      OnlyAdds(old(writers), writers, who)
      && (forall k :: k in old(blobs) ==> k in blobs && blobs[k] == old(blobs)[k])
    }

    method TruncateTo(n: nat, who: Source)
      requires Valid()
      modifies `temp, `writers
      ensures Valid() && OnlyAdds(old(writers), writers, who)
      ensures old(temp).None? ==> temp.None?
      ensures old(temp).Some? ==> temp == Some(SetLen(old(temp).value, n, 0))
    {
      if temp.Some? {
        temp := Some(SetLen(temp.value, n, 0));
        writers := SetLen(writers, n, who);
      }
    }

    /** The temp file has `n` bytes, can be read, and the tree does not contradict them. */
    ghost predicate HasPrefix(n: nat)
      reads this
    {
      readable && temp.Some? && n <= |temp.value| && Feeds(tree, temp.value[..n])
    }

    lemma HasShorter(n: nat, m: nat)
      requires HasPrefix(n) && m <= n
      ensures HasPrefix(m)
    {
      assert temp.value[..n] == temp.value[..m] + temp.value[m..n];
      FeedsPrefix(tree, temp.value[..m], temp.value[m..n]);
    }

    /** A verifier that has consumed exactly the first `want` bytes of the temp file; a prefix
        that is missing, unreadable or refuted leaves an empty temp and a fresh verifier. */
    method PrepareResume(want: nat, who: Source) returns (v: StreamingVerifier, r: Result<nat, Failure>)
      requires Valid()
      modifies `temp, `writers
      ensures fresh(v) && v.expected == expected && v.expectedSize == total && v.tree == tree
      ensures Valid() && OnlyAdds(old(writers), writers, who)
      ensures r.Ok? ==> v.Valid()
      ensures r.Ok? && r.value != 0 ==>
        r.value == want && temp == old(temp) && temp.Some? && want <= |temp.value| && v.seen == temp.value[..want]
      ensures r.Ok? && r.value == 0 ==>
        v.seen == [] && if want == 0 then temp == old(temp) else temp.None? || temp == Some([])
      ensures r.Err? ==> r.error == Cancelled && !calm && temp == old(temp)
      ensures want == 0 ==> r == Ok(0)
      ensures old(HasPrefix(want)) ==> r == Ok(want) || r.Err?
    {
      v := new StreamingVerifier(expected, total, tree);
      if want == 0 {
        return v, Ok(0);
      }
      var done, usable := 0, temp.Some?;
      ghost var sound := HasPrefix(want);
      while usable && done < want
        invariant done <= want && temp == old(temp) && writers == old(writers) && Valid()
        invariant fresh(v) && v.expected == expected && v.expectedSize == total && v.tree == tree
        invariant usable ==>
          temp.Some? && done <= |temp.value| && v.Valid() && v.seen == temp.value[..done]
        invariant sound ==> HasPrefix(want) && usable
        decreases want - done, usable
      {
        var stop: bool :| stop ==> !calm;
        if stop {
          return v, Err(Cancelled);
        }
        var readError: bool :| readError ==> !readable;
        if readError || done == |temp.value| {
          usable := false; // end of file or read error
        } else {
          var most := Min(want - done, |temp.value| - done);
          var n :| 1 <= n <= most;
          var fed := v.Feed(temp.value[done..done + n]);
          assert temp.value[..done + n] == temp.value[..done] + temp.value[done..done + n];
          done := done + n;
          usable := fed.Ok?;
          if sound {
            HasShorter(want, done);
          }
        }
      }
      if usable {
        return v, Ok(want);
      }
      TruncateTo(0, who);
      v := new StreamingVerifier(expected, total, tree);
      return v, Ok(0);
    }

    /** `commit_blob`: publish the temp file under its blake3 key, or drop it as a duplicate. */
    method Commit(hashes: Hashes)
      requires Valid() && temp.Some? && hashes.blake3 == Some(Blake3(temp.value))
      modifies `temp, `writers, `blobs
      ensures Valid() && temp.None? && Blake3(old(temp).value) in blobs
      ensures blobs == old(blobs)[Blake3(old(temp).value) := old(temp).value]
    {
      var key := hashes.blake3.value;
      if key !in blobs {
        blobs := blobs[key := temp.value];
      }
      temp, writers := None, [];
    }

    /** The temp file is exactly what the verifier has consumed, and writing goes on at its end. */
    ghost predicate Aligned(v: StreamingVerifier, at: nat)
      reads this, v
    {
      temp == Some(v.seen) && at == |v.seen|
    }

    /** The verifier was rebuilt empty but writing goes on at a later offset. */
    ghost predicate Adrift(v: StreamingVerifier, start: nat, at: nat)
      reads this, v
    {
      temp.Some? && total > 0 && start > 0 && at == start + |v.seen|
    }

    /** The bytes of the temp file; an absent file has none. */
    ghost function Content(): seq<Byte>
      reads this
    {
      if temp.Some? then temp.value else []
    }

    /** What an attempt may resume: a leftover shorter than the declared size. */
    ghost function Kept(): seq<Byte>
      reads this
    {
      if 0 < |Content()| < total then Content() else []
    }

    /** An attempt can go on at `start`: from the beginning always, and otherwise within a leftover
        that can be read and is not contradicted by the tree. */
    ghost predicate Reaches(start: nat)
      reads this
    {
      start == 0 || (start <= |Kept()| && readable && Feeds(tree, Kept()))
    }

    /** The leftover is discarded if it cannot be resumed; otherwise its bytes are fed. */
    method ResumePoint(who: Source) returns (v: StreamingVerifier, r: Result<nat, Failure>)
      requires Valid()
      modifies `temp, `writers
      ensures fresh(v) && v.expected == expected && v.expectedSize == total && v.tree == tree
      ensures Valid() && OnlyAdds(old(writers), writers, who)
      ensures r.Ok? ==> v.Valid() && v.seen == Content() && r.value == |v.seen|
      ensures r.Err? ==> r.error == Cancelled && !calm
      ensures old(Kept()) == [] ==> r == Ok(0)
      ensures r.Ok? && old(Reaches(|Kept()|)) ==> Content() == old(Kept())
    {
      var len := if temp.Some? then |temp.value| else 0;
      if (total > 0 && len >= total) || (total == 0 && len > 0) {
        TruncateTo(0, who);
      }
      var want := if 0 < len < total then len else 0;
      ghost var before := writers;
      assert want > 0 ==> temp.value[..want] == temp.value;
      v, r := PrepareResume(want, who);
      OnlyAddsTrans(old(writers), before, writers, who);
      if temp.Some? {
        assert temp.value[..|temp.value|] == temp.value;
      }
    }

    /** The temp file is cut or extended to `start` and fed again; the offset that
        `prepare_resume` returns here is not looked at. */
    method Realign(start: nat, who: Source) returns (v: StreamingVerifier, r: Result<nat, Failure>)
      requires Valid()
      modifies `temp, `writers
      ensures fresh(v) && v.expected == expected && v.expectedSize == total && v.tree == tree
      ensures Valid() && OnlyAdds(old(writers), writers, who)
      ensures r.Ok? ==> v.Valid()
      ensures r.Ok? ==> (v.seen == Content() && |v.seen| == start) || (v.seen == [] && start > 0)
      ensures r.Err? ==> r.error == Cancelled && !calm
      ensures r.Ok? && (start == 0 || old(HasPrefix(start))) ==>
        v.seen == Content() && start <= |old(Content())| && v.seen == old(Content())[..start]
    {
      TruncateTo(start, who);
      ghost var before := writers;
      assert temp.Some? ==> temp.value[..start] == temp.value;
      v, r := PrepareResume(start, who);
      OnlyAddsTrans(old(writers), before, writers, who);
      if temp.Some? {
        assert temp.value[..|temp.value|] == temp.value;
      }
    }

    /** Everything before the first byte: the resume point, the server's answer, and the
        realignment when the answer starts elsewhere than asked. */
    method Align(who: Source, answer: Answer) returns (v: StreamingVerifier, r: Result<nat, Failure>)
      requires Valid()
      modifies `temp, `writers
      ensures fresh(v) && v.expected == expected && v.expectedSize == total && v.tree == tree
      ensures Valid() && OnlyAdds(old(writers), writers, who)
      ensures r.Ok? ==> answer.Opened? && v.Valid() && r.value <= total
      ensures r.Ok? ==> Aligned(v, r.value) || Adrift(v, r.value, r.value)
      ensures answer.Refused? ==> r == Err(answer.why) || (r == Err(Cancelled) && !calm)
      ensures answer.Refused? && r != Err(Cancelled) && old(Reaches(|Kept()|)) ==> Content() == old(Kept())
      ensures answer.Opened? && r.Err? ==> r.error == Cancelled && !calm
      ensures r.Ok? && old(Reaches(Min(answer.start, total))) ==>
        r == Ok(Min(answer.start, total)) && Aligned(v, r.value) && v.seen == old(Kept())[..r.value]
    {
      var prepared;
      v, prepared := ResumePoint(who);
      if prepared.Err? {
        return v, prepared;
      }
      var stop: bool :| stop ==> !calm;
      if stop {
        return v, Err(Cancelled);
      }
      if answer.Refused? {
        return v, Err(answer.why);
      }
      ghost var before, left := writers, old(Kept());
      var start := Min(answer.start, total);
      if 0 < start <= |left| && old(Reaches(start)) {
        assert left[..|left|] == left;
        HasShorter(|left|, start);
      }
      v, r := Reconcile(v, prepared.value, start, who);
      OnlyAddsTrans(old(writers), before, writers, who);
    }

    /** An answer that starts elsewhere realigns file and verifier; then the file is opened. */
    method Reconcile(v0: StreamingVerifier, resumed: nat, start: nat, who: Source)
      returns (v: StreamingVerifier, r: Result<nat, Failure>)
      requires Valid() && v0.Valid() && v0.seen == Content() && resumed == |v0.seen| && start <= total
      requires v0.expected == expected && v0.expectedSize == total && v0.tree == tree
      modifies `temp, `writers
      ensures (v == v0 || fresh(v)) && v.expected == expected && v.expectedSize == total && v.tree == tree
      ensures Valid() && OnlyAdds(old(writers), writers, who)
      ensures r.Ok? ==> v.Valid() && r.value == start
      ensures r.Ok? ==> Aligned(v, start) || Adrift(v, start, start)
      ensures start == resumed ==> r.Ok? && v == v0
      ensures r.Err? ==> r.error == Cancelled && !calm
      ensures r.Ok? && (start == 0 || old(HasPrefix(start))) ==>
        start <= |old(Content())| && Aligned(v, start) && v.seen == old(Content())[..start]
    {
      v := v0;
      if start != resumed {
        v, r := Realign(start, who);
        if r.Err? {
          return;
        }
      }
      if temp.None? {
        temp, writers := Some([]), [];
      }
      return v, Ok(start);
    }

    method WriteChunk(at: nat, chunk: seq<Byte>, who: Source)
      requires Valid() && temp.Some?
      modifies `temp, `writers
      ensures Valid() && OnlyAdds(old(writers), writers, who)
      ensures temp.Some? && (at == |old(temp).value| ==> temp.value == old(temp).value + chunk)
    {
      temp := Some(WriteAt(temp.value, at, chunk, 0));
      writers := WriteAt(writers, at, Repeat(who, |chunk|), who);
    }

    /** How far a stream may go: to the declared size, or else to the free space. */
    predicate Fits(n: nat, ceiling: Option<nat>) {
      if total > 0 then n <= total else ceiling.Some? ==> n <= ceiling.value
    }

    /** A stream that no check stops before its end. */
    predicate Smooth(base: seq<Byte>, items: seq<Item>, ceiling: Option<nat>) {
      Feeds(tree, base + ItemBytes(items)) && Fits(|base + ItemBytes(items)|, ceiling)
    }

    /** The streaming loop: check, feed and write every chunk. An error leaves all bytes before it
        in the file; too many bytes, or a wrong leaf, is an integrity failure and nothing else is. */
    method Pump(v: StreamingVerifier, start: nat, who: Source, items: seq<Item>, ceiling: Option<nat>)
      returns (r: Result<nat, Failure>)
      requires Valid() && v.Valid() && v.tree == tree && start <= total
      requires Aligned(v, start) || Adrift(v, start, start)
      modifies v, `temp, `writers
      ensures Valid() && OnlyAdds(old(writers), writers, who)
      ensures r == Err(Cancelled) ==> !calm
      ensures r.Ok? ==> v.Valid() && (Aligned(v, r.value) || Adrift(v, start, r.value))
      ensures r.Ok? ==> Fits(r.value, ceiling) && r.value == start + |ItemBytes(items)|
      ensures old(Aligned(v, start)) && OneStream(items) ==>
        (r == Err(Cancelled) && !calm) || EndsAs(old(v.seen), items, ceiling, temp, r)
      ensures old(Aligned(v, start)) && r.Ok? ==> Aligned(v, r.value)
    {
      var done: nat := start;
      ghost var base, even := v.seen, Aligned(v, start);
      assert base + [] == base;
      ValidFeeds(v);
      for i := 0 to |items|
        invariant Valid() && v.Valid() && OnlyAdds(old(writers), writers, who)
        invariant Fits(done, ceiling) && Feeds(tree, v.seen) && forall j :: 0 <= j < i ==> items[j].Data?
        invariant if even then Aligned(v, done) else Adrift(v, start, done)
        invariant v.seen == base + ItemBytes(items[..i]) && done == start + |ItemBytes(items[..i])|
      {
        ItemsNext(base, items, i);
        ghost var before := writers;
        var taken := TakeItem(v, done, who, items[i], ceiling);
        OnlyAddsTrans(old(writers), before, writers, who);
        if taken.Err? {
          if even && OneStream(items) && (calm || taken.error != Cancelled) {
            StopsAt(base, items, i, ceiling, temp, taken.error);
          }
          return Err(taken.error);
        }
        done := taken.value;
      }
      assert items[..|items|] == items;
      return Ok(done);
    }

    /** One turn of the loop. */
    method TakeItem(v: StreamingVerifier, at: nat, who: Source, item: Item, ceiling: Option<nat>)
      returns (r: Result<nat, Failure>)
      requires Valid() && v.Valid() && v.tree == tree && temp.Some?
      modifies v, `temp, `writers
      ensures Valid() && OnlyAdds(old(writers), writers, who)
      ensures r.Ok? ==> item.Data? && r.value == at + |item.bytes| && Fits(r.value, ceiling)
      ensures r.Ok? ==> v.Valid() && v.seen == old(v.seen) + item.bytes && Feeds(tree, v.seen)
      ensures r.Ok? ==> temp.Some? && (at == |old(temp).value| ==> temp.value == old(temp).value + item.bytes)
      ensures r.Err? ==> temp == old(temp)
      ensures r.Err? ==> (r.error == Cancelled && !calm) || Refuses(old(v.seen), at, item, ceiling, r.error)
    {
      var stop: bool :| stop ==> !calm;
      if stop {
        return Err(Cancelled);
      }
      if item.Broken? {
        return Err(item.why);
      }
      if !Fits(at + |item.bytes|, ceiling) {
        return Err(Integrity);
      }
      var fed := v.Feed(item.bytes);
      if fed.Err? {
        return Err(Integrity);
      }
      ValidFeeds(v);
      WriteChunk(at, item.bytes, who);
      return Ok(at + |item.bytes|);
    }

    /** Behind `seen`, at offset `at`, the item ends the stream with `why`. */
    predicate Refuses(seen: seq<Byte>, at: nat, item: Item, ceiling: Option<nat>, why: Failure) {
      if item.Broken? then why == item.why
      else why == Integrity && (!Fits(at + |item.bytes|, ceiling) || !Feeds(tree, seen + item.bytes))
    }

    /** How an uncancelled stream behind `base` ends. */
    predicate EndsAs(
      base: seq<Byte>, items: seq<Item>, ceiling: Option<nat>, file: Option<seq<Byte>>, r: Result<nat, Failure>)
      requires OneStream(items)
    {
      if Smooth(base, items, ceiling) then
        file == Some(base + ItemBytes(items))
        && (if AllData(items) then r.Ok? else r == Err(items[|items| - 1].why))
      else r == Err(Integrity)
    }

    lemma StopsAt(
      base: seq<Byte>, items: seq<Item>, i: nat, ceiling: Option<nat>, file: Option<seq<Byte>>, why: Failure)
      requires OneStream(items) && i < |items|
      requires file == Some(base + ItemBytes(items[..i])) && Smooth(base, items[..i], ceiling)
      requires Refuses(base + ItemBytes(items[..i]), |base + ItemBytes(items[..i])|, items[i], ceiling, why)
      ensures EndsAs(base, items, ceiling, file, Err(why))
    {
      if items[i].Broken? {
        BrokenLast(items, i);
      } else {
        ItemsNext(base, items, i);
        NotSmooth(base, items, i, ceiling);
      }
    }

    /** A chunk that is refused makes the whole stream one that is. */
    lemma NotSmooth(base: seq<Byte>, items: seq<Item>, i: nat, ceiling: Option<nat>)
      requires i < |items| && !Smooth(base, items[..i + 1], ceiling)
      ensures !Smooth(base, items, ceiling)
    {
      ItemsSplit(items, i + 1);
      var rest := ItemBytes(items[i + 1..]);
      assert base + ItemBytes(items) == (base + ItemBytes(items[..i + 1])) + rest;
      if Smooth(base, items, ceiling) {
        FeedsPrefix(tree, base + ItemBytes(items[..i + 1]), rest);
      }
    }

    /** What an attempt whose data is `data` in the end comes to, when nothing stops it before. */
    ghost function Outcome(data: seq<Byte>, items: seq<Item>): Result<Digest, Failure>
      requires OneStream(items)
    {
      if !AllData(items) then Err(items[|items| - 1].why)
      else if |data| < total then Err(Retriable)
      else if WholeCheck(expected, total, tree, data) then Ok(Blake3(data))
      else Err(Integrity)
    }

    /** The result of an uncancelled attempt that goes on behind `base`, and what it leaves. */
    ghost predicate ComesTo(
      base: seq<Byte>, items: seq<Item>, ceiling: Option<nat>, r: Result<Digest, Failure>, content: seq<Byte>)
      requires OneStream(items)
    {
      if Smooth(base, items, ceiling) then
        r == Outcome(base + ItemBytes(items), items) && (r.Err? ==> content == base + ItemBytes(items))
      else r == Err(Integrity)
    }

    /** One streaming attempt. It commits only a temp file that is exactly the bytes the
        verifier accepted. */
    method StreamOnce(who: Source, answer: Answer, ceiling: Option<nat>) returns (r: Result<Digest, Failure>)
      requires Valid()
      modifies this
      ensures Valid() && Attempted(who) && charges == old(charges)
      ensures r.Ok? ==> Committed(r.value, tree) && temp.None? && Fits(|blobs[r.value]|, ceiling)
      ensures r.Err? ==> blobs == old(blobs) && (r.error == Cancelled ==> !calm)
      ensures answer.Refused? ==> r == Err(answer.why) || (r == Err(Cancelled) && !calm)
      ensures answer.Refused? && r != Err(Cancelled) && old(Reaches(|Kept()|)) ==> Content() == old(Kept())
      ensures answer.Opened? && OneStream(answer.items) && old(Reaches(Min(answer.start, total))) ==>
        (r == Err(Cancelled) && !calm)
        || ComesTo(old(Kept())[..Min(answer.start, total)], answer.items, ceiling, r, Content())
    {
      var v, aligned := Align(who, answer);
      if aligned.Err? {
        return Err(aligned.error);
      }
      var start := aligned.value;
      var pumped := Pump(v, start, who, answer.items, ceiling);
      if pumped.Err? {
        return Err(pumped.error);
      }
      if pumped.value < total {
        return Err(Retriable);
      }
      var hashes := v.Finish();
      if hashes.Err? {
        return Err(Integrity);
      }
      assert Aligned(v, pumped.value);
      r := Ok(Blake3(temp.value));
      Commit(hashes.value);
    }

    /** The store holds, under this key, bytes that pass every check the artifact declares. */
    ghost predicate Committed(key: Digest, t: Option<ChunkTree<Hash>>)
      reads this
    {
      key in blobs && key == Blake3(blobs[key]) && WholeCheck(expected, total, t, blobs[key])
    }

    /** The whole temp file through a verifier without a chunk tree, in reads of any length. */
    method VerifyTempFull() returns (r: Result<Hashes, Failure>)
      requires Valid() && temp.Some?
      ensures r.Ok? ==> WholeCheck(expected, total, None, temp.value)
      ensures r.Err? ==>
        (r.error == Cancelled && !calm) || (r.error == Permanent && !readable)
        || (r.error == Integrity && !WholeCheck(expected, total, None, temp.value))
      ensures r.Ok? ==> r.value == Computed(expected, total, temp.value)
    {
      var v := new StreamingVerifier(expected, total, None);
      var done := 0;
      while done < |temp.value|
        invariant done <= |temp.value| && v.Valid() && v.seen == temp.value[..done]
        invariant v.expected == expected && v.expectedSize == total && v.tree == None
      {
        var stop: bool :| stop ==> !calm;
        if stop {
          return Err(Cancelled);
        }
        var readError: bool :| readError ==> !readable;
        if readError {
          return Err(Permanent);
        }
        var most := |temp.value| - done;
        var n :| 1 <= n <= most;
        var fed := v.Feed(temp.value[done..done + n]);
        assert temp.value[..done + n] == temp.value[..done] + temp.value[done..done + n];
        done := done + n;
      }
      assert temp.value[..done] == temp.value;
      var finished := v.Finish();
      r := if finished.Ok? then Ok(finished.value) else Err(Integrity);
    }

    /** The multi-connection attempt, into an empty temp file of the full length. What it leaves
        behind is never resumed. */
    method StreamSegmented(who: Source, seg: Segmented) returns (r: Result<Digest, Failure>)
      requires Valid() && Content() == []
      modifies this
      ensures Valid() && Attempted(who) && charges == old(charges) && Kept() == []
      ensures r.Ok? ==> Committed(r.value, None) && temp.None?
      ensures r == Err(Cancelled) ==> !calm
      ensures r.Ok? ==> seg.complete && r.value == Blake3(SetLen(seg.assembled, total, 0))
      ensures Passes(seg) ==>
        r.Ok? || (r.error == Cancelled && !calm) || (r.error == Permanent && !readable)
    {
      temp := Some(SetLen(seg.assembled, total, 0));
      writers := Repeat(who, total);
      var stop: bool :| stop ==> !calm;
      if stop {
        TruncateTo(0, who);
        return Err(Cancelled);
      }
      if !seg.complete {
        return Err(Permanent);
      }
      var hashes := VerifyTempFull();
      if hashes.Err? {
        return Err(hashes.error);
      }
      r := Ok(Blake3(temp.value));
      Commit(hashes.value);
    }

    // ----- A source that delivers in the end -----

    /** The file passes every check and fits. */
    predicate Accepts(file: seq<Byte>, ceiling: Option<nat>) {
      WholeCheck(expected, total, tree, file) && Fits(|file|, ceiling)
    }

    /** The stream is a piece of the file from `start`, where the `have` bytes kept can be continued. */
    predicate Serves(file: seq<Byte>, have: nat, start: nat, items: seq<Item>) {
      OneStream(items) && (start == 0 || (start <= have && readable))
      && start + |ItemBytes(items)| <= |file|
      && ItemBytes(items) == file[start..start + |ItemBytes(items)|]
    }

    predicate Completes(file: seq<Byte>, start: nat, items: seq<Item>) {
      AllData(items) && start + |ItemBytes(items)| == |file|
    }

    /** The stream breaks off in a way that is worth another attempt. */
    predicate BreaksOff(start: nat, items: seq<Item>) {
      if AllData(items) then start + |ItemBytes(items)| < total
      else items[|items| - 1] == Broken(Retriable)
    }

    /** With `have` bytes of the file kept, the answers from the `i`-th on refuse or break off, each
        leaving what it sent, until one completes the file before the attempts run out. */
    predicate Delivers(file: seq<Byte>, have: nat, answers: seq<Answer>, i: nat, maxAttempts: nat)
      decreases |answers| - i
    {
      i < |answers|
      && match answers[i]
         case Refused(why) =>
           why == Retriable && i + 1 < maxAttempts && Delivers(file, have, answers, i + 1, maxAttempts)
         case Opened(start, items) =>
           Serves(file, have, start, items)
           && (Completes(file, start, items)
               || (BreaksOff(start, items) && i + 1 < maxAttempts
                   && Delivers(file, Keeps(start + |ItemBytes(items)|), answers, i + 1, maxAttempts)))
    }

    /** How much of a file of `n` bytes the next attempt keeps. */
    function Keeps(n: nat): nat { if 0 < n < total then n else 0 }

    /** What is kept is the beginning of the file, as far as that matters. */
    ghost predicate Holds(file: seq<Byte>, have: nat)
      reads this
    {
      have <= |file| && (have > 0 && readable ==> Kept() == file[..have])
    }

    lemma ServedIsSmooth(
      file: seq<Byte>, kept: seq<Byte>, have: nat, start: nat, items: seq<Item>, ceiling: Option<nat>)
      requires Accepts(file, ceiling) && Serves(file, have, start, items)
      requires have <= |file| && start <= |kept| && (start > 0 ==> kept == file[..have])
      ensures kept[..start] + ItemBytes(items) == file[..start + |ItemBytes(items)|]
      ensures Smooth(kept[..start], items, ceiling)
    {
      var n := start + |ItemBytes(items)|;
      assert kept[..start] == file[..start];
      assert file[..start] + file[start..n] == file[..n];
      assert file == file[..n] + file[n..];
      AcceptedFeeds(tree, file[..n], file[n..]);
    }

    /** An attempt that completes the file comes to a commit, one that breaks off to a retry. */
    lemma ServedOutcome(file: seq<Byte>, start: nat, items: seq<Item>, ceiling: Option<nat>)
      requires Accepts(file, ceiling) && OneStream(items) && start + |ItemBytes(items)| <= |file|
      ensures Completes(file, start, items) ==> Outcome(file[..start + |ItemBytes(items)|], items) == Ok(Blake3(file))
      ensures BreaksOff(start, items) ==> Outcome(file[..start + |ItemBytes(items)|], items) == Err(Retriable)
    {
      assert file[..|file|] == file;
    }

    /** The source will deliver an acceptable file from what is kept now. */
    ghost predicate Promises(
      file: seq<Byte>, have: nat, answers: seq<Answer>, i: nat, maxAttempts: nat, ceiling: Option<nat>)
      reads this
    {
      Accepts(file, ceiling) && Holds(file, have) && Delivers(file, have, answers, i, maxAttempts)
    }

    lemma HeldIsResumed(file: seq<Byte>, have: nat, ceiling: Option<nat>)
      requires Accepts(file, ceiling) && Holds(file, have) && have > 0 && readable
      ensures |Kept()| == have && Reaches(have) && forall n: nat :: n <= have ==> Reaches(n)
    {
      assert file == file[..have] + file[have..];
      AcceptedFeeds(tree, file[..have], file[have..]);
    }

    /** After what is kept, the stream that was promised runs to its end, as a piece of the file. */
    lemma PromisedStream(
      file: seq<Byte>, have: nat, answers: seq<Answer>, i: nat, maxAttempts: nat, ceiling: Option<nat>)
      requires Promises(file, have, answers, i, maxAttempts, ceiling) && answers[i].Opened?
      ensures var start, items := answers[i].start, answers[i].items;
        OneStream(items) && start <= total && Reaches(start) && Smooth(Kept()[..start], items, ceiling)
        && Next(file, Kept()[..start] + ItemBytes(items), answers, i, maxAttempts)
    {
      var start, items := answers[i].start, answers[i].items;
      if have > 0 && readable {
        HeldIsResumed(file, have, ceiling);
      }
      ServedIsSmooth(file, Kept(), have, start, items, ceiling);
      ServedOutcome(file, start, items, ceiling);
    }

    /** With `data` the stream completes the file, or leaves enough to go on with. */
    ghost predicate Next(file: seq<Byte>, data: seq<Byte>, answers: seq<Answer>, i: nat, maxAttempts: nat)
      requires i < |answers| && answers[i].Opened? && OneStream(answers[i].items)
    {
      |data| <= |file| && data == file[..|data|]
      && (Outcome(data, answers[i].items).Ok?
          || (Outcome(data, answers[i].items) == Err(Retriable) && i + 1 < maxAttempts
              && Delivers(file, Keeps(|data|), answers, i + 1, maxAttempts)))
    }

    /** One more attempt on a source: what it promised it does, or still promises. */
    method TryOnce(
      who: Source, answers: seq<Answer>, i: nat, maxAttempts: nat, ceiling: Option<nat>,
      ghost file: seq<Byte>, ghost have: nat)
      returns (r: Result<Digest, Failure>, ghost now: nat)
      requires Valid() && i < |answers|
      modifies this
      ensures Valid() && Attempted(who) && charges == old(charges)
      ensures if r.Ok? then Committed(r.value, None) else r.error == Cancelled ==> !calm
      ensures old(Promises(file, have, answers, i, maxAttempts, ceiling)) && r.Err? ==>
        r.error == Cancelled
        || (r.error == Retriable && i + 1 < maxAttempts && Promises(file, now, answers, i + 1, maxAttempts, ceiling))
    {
      now := have;
      if answers[i].Opened? {
        now := Keeps(|Kept()[..Min(answers[i].start, |Kept()|)] + ItemBytes(answers[i].items)|);
      }
      ghost var good := Promises(file, have, answers, i, maxAttempts, ceiling);
      if good && have > 0 && readable {
        HeldIsResumed(file, have, ceiling);
      }
      if good && answers[i].Opened? {
        PromisedStream(file, have, answers, i, maxAttempts, ceiling);
      }
      r := StreamOnce(who, answers[i], ceiling);
    }

    /** All segments ended well, and what they assembled passes the check. */
    predicate Passes(seg: Segmented) {
      seg.complete && WholeCheck(expected, total, None, SetLen(seg.assembled, total, 0))
    }

    /** All attempts on one source. An integrity failure is charged to it and its bytes are
        quarantined; a source that delivers is not given up. */
    method TrySource(c: Candidate, maxAttempts: nat, ceiling: Option<nat>, ghost file: seq<Byte>, ghost have: nat)
      returns (r: Result<Digest, Failure>)
      requires Valid()
      modifies this
      ensures Valid() && Attempted(c.source)
      ensures if r.Ok? then Committed(r.value, None) else r.error == Cancelled ==> !calm
      ensures r != Err(Integrity) ==> charges == old(charges)
      ensures r == Err(Integrity) ==> temp.None? && Charged(old(charges), c.source, old(writers))
      ensures !c.usable ==> r == Err(Permanent)
      ensures c.usable && readable && c.segmented.Some? && old(Content()) == [] && Passes(c.segmented.value) ==>
        r.Ok? || r.error == Cancelled
      ensures c.usable && old(Promises(file, have, c.answers, 0, maxAttempts, ceiling)) ==>
        r.Ok? || r.error == Cancelled
    {
      if !c.usable {
        return Err(Permanent);
      }
      if c.segmented.Some? && (temp.None? || temp.value == []) {
        r := StreamSegmented(c.source, c.segmented.value);
        if r.Ok? || r.error == Cancelled {
          return;
        }
        ghost var before := writers;
        TruncateTo(0, c.source);
        OnlyAddsTrans(old(writers), before, writers, c.source);
      }
      ghost var before := writers;
      ghost var made;
      r, made := TryStream(c, maxAttempts, ceiling, file, have);
      OnlyAddsTrans(old(writers), before, writers, c.source);
      if r == Err(Integrity) {
        OnlyAddsTrans(old(writers), before, charges[|charges| - 1].writers, c.source);
      }
    }

    /** The retry loop: only retriable failures are tried again, up to the limit. */
    method TryStream(c: Candidate, maxAttempts: nat, ceiling: Option<nat>, ghost file: seq<Byte>, ghost have: nat)
      returns (r: Result<Digest, Failure>, ghost made: nat)
      requires Valid()
      modifies this
      ensures Valid() && Attempted(c.source)
      ensures if r.Ok? then Committed(r.value, None) else r.error == Cancelled ==> !calm
      ensures r != Err(Integrity) ==> charges == old(charges)
      ensures r == Err(Integrity) ==> temp.None? && Charged(old(charges), c.source, old(writers))
      ensures made <= Max(maxAttempts, 1) && (r == Err(Retriable) ==> made == Max(maxAttempts, 1))
      ensures old(Promises(file, have, c.answers, 0, maxAttempts, ceiling)) ==>
        r.Ok? || r.error == Cancelled
    {
      ghost var good := Promises(file, have, c.answers, 0, maxAttempts, ceiling);
      ghost var now := have;
      r, made := Err(Permanent), 0;
      var attempts := 0;
      while true
        invariant Valid() && Attempted(c.source) && charges == old(charges) && attempts <= |c.answers|
        invariant made == attempts && (attempts > 0 ==> attempts < maxAttempts)
        invariant good ==> Promises(file, now, c.answers, attempts, maxAttempts, ceiling)
        decreases |c.answers| - attempts
      {
        if attempts == |c.answers| {
          return Err(Permanent), made;
        }
        ghost var before := writers;
        r, now := TryOnce(c.source, c.answers, attempts, maxAttempts, ceiling, file, now);
        OnlyAddsTrans(old(writers), before, writers, c.source);
        attempts, made := attempts + 1, made + 1;
        if r.Ok? || r.error == Cancelled {
          return;
        }
        if r.error == Integrity {
          charges := charges + [Charge(c.source, writers)];
          temp, writers := None, [];
          return;
        }
        if r.error != Retriable || attempts >= maxAttempts {
          return;
        }
      }
    }

    /** One more charge, of `who`, over bytes that were there before or are its own. */
    ghost predicate Charged(before: seq<Charge>, who: Source, ws: seq<Source>)
      reads this
    {
      |charges| == |before| + 1 && charges[..|before|] == before
      && charges[|before|].source == who && OnlyAdds(ws, charges[|before|].writers, who)
    }

    ghost predicate OwnedBy(owner: Option<Source>)
      reads this
    {
      if owner.Some? then forall i :: 0 <= i < |writers| ==> writers[i] == owner.value
      else writers == []
    }

    ghost predicate AllFair()
      reads this
    {
      forall i :: 0 <= i < |charges| ==> FairCharge(charges[i])
    }

    /** Without a tree: the owner wrote the whole partial, and every charge so far is fair. */
    ghost predicate Attributed(owner: Option<Source>)
      reads this
    {
      tree.None? && OwnedBy(owner) && AllFair()
    }

    /** The candidate delivers the rest of the `have` bytes that are there; without a tree, they are
        its own. */
    ghost predicate Continues(
      c: Candidate, owner: Option<Source>, maxAttempts: nat, ceiling: Option<nat>, file: seq<Byte>, have: nat)
      reads this
    {
      !c.banned && c.usable && (tree.Some? || owner == Some(c.source))
      && Promises(file, have, c.answers, 0, maxAttempts, ceiling)
    }

    /** The turn of one source: a partial that another one wrote is dropped first, unless a tree
        vouches for its leaves. */
    method TryNext(
      c: Candidate, owner: Option<Source>, maxAttempts: nat, ceiling: Option<nat>,
      ghost file: seq<Byte>, ghost have: nat)
      returns (r: Result<Digest, Failure>, next: Option<Source>)
      requires Valid()
      modifies this
      ensures Valid()
      ensures if r.Ok? then Committed(r.value, None) else r.error == Cancelled ==> !calm
      ensures old(Attributed(owner)) ==> AllFair() && (r.Err? && r.error != Cancelled ==> Attributed(next))
      ensures Can(c, file, maxAttempts, ceiling) ==> r.Ok? || r.error == Cancelled
      ensures old(Continues(c, owner, maxAttempts, ceiling, file, have)) ==> r.Ok? || r.error == Cancelled
    {
      next := owner;
      ghost var own := Continues(c, owner, maxAttempts, ceiling, file, have);
      if tree.None? && owner.Some? && owner.value != c.source {
        TruncateTo(0, c.source);
      }
      r := TrySource(c, maxAttempts, ceiling, file, if own then have else 0);
      if old(Attributed(owner)) && r == Err(Integrity) {
        assert FairCharge(charges[|charges| - 1]);
      }
      if r.Err? && r.error != Cancelled {
        next := if temp.Some? && temp.value != [] then Some(c.source) else None;
      }
    }

    /** Who wrote the surviving partial; one of an unknown writer is dropped. */
    method Inherit(recorded: Option<Source>) returns (owner: Option<Source>)
      requires Valid()
      modifies `temp, `writers
      ensures Valid() && (tree.Some? || recorded.Some? ==> temp == old(temp) && writers == old(writers))
      ensures tree.None? && (recorded.Some? ==> old(OwnedBy(recorded))) ==> OwnedBy(owner)
      ensures tree.None? && temp.Some? && recorded.Some? ==> owner == recorded
    {
      owner := None;
      if tree.None? && temp.Some? {
        owner := recorded;
        if owner.None? {
          TruncateTo(0, 0);
        }
      }
    }

    /** The candidate, starting from nothing, delivers an acceptable file. */
    predicate Can(c: Candidate, file: seq<Byte>, maxAttempts: nat, ceiling: Option<nat>) {
      !c.banned && c.usable && Accepts(file, ceiling) && Delivers(file, 0, c.answers, 0, maxAttempts)
    }

    predicate NoneCan(plan: seq<Candidate>, n: nat, file: seq<Byte>, maxAttempts: nat, ceiling: Option<nat>)
      requires n <= |plan|
    {
      forall j :: 0 <= j < n ==> !Can(plan[j], file, maxAttempts, ceiling)
    }

    /** Before the turn of candidate `k`: all before it have failed, and none of them can deliver. */
    ghost predicate SoFar(plan: seq<Candidate>, k: nat, tried: seq<nat>, file: seq<Byte>, maxAttempts: nat, ceiling: Option<nat>)
      requires k <= |plan|
    {
      tried == Eligible(plan, k) && NoneCan(plan, k, file, maxAttempts, ceiling)
    }

    /** The turn of candidate `k` in the loop; a banned one is passed over, and `last` stays. */
    method Turn(
      plan: seq<Candidate>, k: nat, owner: Option<Source>, last: Result<Digest, Failure>, ghost before: seq<nat>,
      maxAttempts: nat, ceiling: Option<nat>, ghost file: seq<Byte>, ghost have: nat)
      returns (r: Result<Digest, Failure>, next: Option<Source>, ghost tried: seq<nat>)
      requires Valid() && k < |plan| && last.Err? && last.error != Cancelled
      requires SoFar(plan, k, before, file, maxAttempts, ceiling)
      modifies this
      ensures Valid()
      ensures if r.Ok? then Committed(r.value, None) else r.error == Cancelled ==> !calm
      ensures old(Attributed(owner)) ==> AllFair() && (r.Err? && r.error != Cancelled ==> Attributed(next))
      ensures r.Err? && r.error != Cancelled ==> SoFar(plan, k + 1, tried, file, maxAttempts, ceiling)
      ensures old(Continues(plan[k], owner, maxAttempts, ceiling, file, have)) ==> r.Ok? || r.error == Cancelled
    {
      r, next, tried := last, owner, before;
      var stop: bool :| stop ==> !calm;
      if stop {
        return Err(Cancelled), next, tried;
      }
      if !plan[k].banned {
        tried := tried + [k];
        r, next := TryNext(plan[k], owner, maxAttempts, ceiling, file, have);
      }
    }

    /**
     The failover loop. An error means that every source not banned was tried, in plan order. If
     any of them delivers a file that passes the checks, the download succeeds, whatever the
     others did; and so it does if the first goes on where the surviving partial ends. And without
     a chunk tree, if the source recorded for the surviving partial did write it, every source
     charged with an integrity failure wrote every byte that was in the temp file at that moment.
     */
    method DownloadArtifact(
      plan: seq<Candidate>, recorded: Option<Source>, maxAttempts: nat, ceiling: Option<nat>,
      ghost file: seq<Byte>, ghost have: nat)
      returns (r: Result<Digest, Failure>, ghost tried: seq<nat>)
      requires Valid() && charges == []
      modifies this
      ensures Valid()
      ensures if r.Ok? then Committed(r.value, None) else r.error == Cancelled ==> !calm
      ensures tree.None? && (recorded.Some? ==> old(OwnedBy(recorded))) ==> AllFair()
      ensures r.Err? && r.error != Cancelled ==>
        tried == Eligible(plan, |plan|) && NoneCan(plan, |plan|, file, maxAttempts, ceiling)
      ensures plan != [] && old(temp).Some? && old(Continues(plan[0], recorded, maxAttempts, ceiling, file, have)) ==>
        r.Ok? || r.error == Cancelled
    {
      r, tried := Err(Permanent), [];
      ghost var fair := tree.None? && (recorded.Some? ==> OwnedBy(recorded));
      ghost var resumes := plan != [] && temp.Some? && Continues(plan[0], recorded, maxAttempts, ceiling, file, have);
      var owner := Inherit(recorded);
      for k := 0 to |plan|
        invariant r.Err? && r.error != Cancelled && Valid() && (fair ==> Attributed(owner))
        invariant resumes ==> k == 0 && Continues(plan[0], owner, maxAttempts, ceiling, file, have)
        invariant SoFar(plan, k, tried, file, maxAttempts, ceiling)
      {
        r, owner, tried := Turn(plan, k, owner, r, tried, maxAttempts, ceiling, file, have);
        if r.Ok? || r.error == Cancelled {
          return;
        }
      }
    }
  }
}
