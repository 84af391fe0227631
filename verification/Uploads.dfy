/**
 Upload accounting of the seeder (iroh_node.rs, `IrohMetrics` and `ProviderEventSink`). A
 finished request leaves the progress map under its lock and reaches the counters only
 afterwards; in between, other events may come.
 */
module Uploads {
  import opened Common

  type Key = (nat, nat)
  type Hash = nat

  /** One request being served. `first` is the offset of its first progress event, kept for the
      specification only. */
  datatype Upload = Upload(hash: Hash, sent: nat, first: nat, lastOffset: Option<nat>)
  {
    predicate Valid() { if lastOffset.None? then sent == 0 else first <= lastOffset.value && sent == lastOffset.value - first }
  }

  /** A request whose accounting is over, and the byte count it ended with, if any. */
  datatype Closed = Closed(up: Upload, final: Option<nat>)

  /** The distance between the first and the last offset of a request. */
  function Distance(up: Upload): nat { if up.lastOffset.None? then 0 else Max(up.lastOffset.value - up.first, 0) }

  /** What a closed request counts for: the larger of its final count and its distance. */
  function Contribution(c: Closed): nat {
    if c.final.Some? then Max(c.final.value, Distance(c.up)) else Distance(c.up)
  }

  function Total(cs: seq<Closed>): nat {
    if cs == [] then 0 else Total(cs[..|cs| - 1]) + Contribution(cs[|cs| - 1])
  }

  /** Bytes sent by the requests of `keys`. */
  function SentBy(keys: seq<Key>, m: map<Key, Upload>): nat
    requires forall k :: k in keys ==> k in m
  {
    if keys == [] then 0 else SentBy(keys[..|keys| - 1], m) + m[keys[|keys| - 1]].sent
  }

  function CountFor(keys: seq<Key>, m: map<Key, Upload>, h: Hash): nat
    requires forall k :: k in keys ==> k in m
  {
    if keys == [] then 0
    else CountFor(keys[..|keys| - 1], m, h) + if m[keys[|keys| - 1]].hash == h then 1 else 0
  }

  function SentIn(ups: seq<Upload>): nat {
    if ups == [] then 0 else SentIn(ups[..|ups| - 1]) + ups[|ups| - 1].sent
  }

  function CountIn(ups: seq<Upload>, h: Hash): nat {
    if ups == [] then 0 else CountIn(ups[..|ups| - 1], h) + if ups[|ups| - 1].hash == h then 1 else 0
  }

  function Drop<T>(s: seq<T>, i: nat): seq<T>
    requires i < |s|
  {
    s[..i] + s[i + 1..]
  }

  lemma DropKey(keys: seq<Key>, m: map<Key, Upload>, i: nat, h: Hash)
    requires i < |keys| && forall k :: k in keys ==> k in m
    ensures forall k :: k in Drop(keys, i) ==> k in m
    ensures SentBy(keys, m) == SentBy(Drop(keys, i), m) + m[keys[i]].sent
    ensures CountFor(keys, m, h) == CountFor(Drop(keys, i), m, h) + if m[keys[i]].hash == h then 1 else 0
  {
    DropKeeps(keys, i);
    DropSent(keys, m, i);
    DropCount(keys, m, i, h);
  }

  lemma DropKeeps<T>(s: seq<T>, i: nat)
    requires i < |s|
    ensures forall x :: x in Drop(s, i) ==> x in s
  {
  }

  lemma {:induction false} DropSent(keys: seq<Key>, m: map<Key, Upload>, i: nat)
    requires i < |keys| && (forall k :: k in keys ==> k in m) && (forall k :: k in Drop(keys, i) ==> k in m)
    ensures SentBy(keys, m) == SentBy(Drop(keys, i), m) + m[keys[i]].sent
  {
    var n := |keys| - 1;
    if i == n {
      assert Drop(keys, i) == keys[..n];
    } else {
      DropInit(keys, i);
      DropSent(keys[..n], m, i);
    }
  }

  lemma {:induction false} DropCount(keys: seq<Key>, m: map<Key, Upload>, i: nat, h: Hash)
    requires i < |keys| && (forall k :: k in keys ==> k in m) && (forall k :: k in Drop(keys, i) ==> k in m)
    ensures CountFor(keys, m, h) == CountFor(Drop(keys, i), m, h) + if m[keys[i]].hash == h then 1 else 0
  {
    var n := |keys| - 1;
    if i == n {
      assert Drop(keys, i) == keys[..n];
    } else {
      DropInit(keys, i);
      DropCount(keys[..n], m, i, h);
    }
  }

  lemma DropInit<T>(s: seq<T>, i: nat)
    requires i < |s| - 1
    ensures var d, n := Drop(s, i), |s| - 1;
      |d| == n && d[..n - 1] == Drop(s[..n], i) && d[n - 1] == s[n] && d == Drop(s[..n], i) + [s[n]]
  {
  }

  lemma {:induction false} DropUpload(ups: seq<Upload>, i: nat, h: Hash)
    requires i < |ups|
    ensures SentIn(ups) == SentIn(Drop(ups, i)) + ups[i].sent
    ensures CountIn(ups, h) == CountIn(Drop(ups, i), h) + if ups[i].hash == h then 1 else 0
  {
    var init, n := ups[..|ups| - 1], |ups| - 1;
    if i == n {
      assert Drop(ups, i) == init;
    } else {
      DropUpload(init, i, h);
      var d := Drop(ups, i);
      assert d[..|d| - 1] == Drop(init, i) && d[|d| - 1] == ups[n];
    }
  }

  /** Changing the map outside the keys, or at a key without touching bytes and hash, changes nothing. */
  lemma {:induction false} SameSums(keys: seq<Key>, m: map<Key, Upload>, m': map<Key, Upload>, h: Hash)
    requires forall k :: k in keys ==> k in m && k in m' && m[k].sent == m'[k].sent && m[k].hash == m'[k].hash
    ensures SentBy(keys, m) == SentBy(keys, m') && CountFor(keys, m, h) == CountFor(keys, m', h)
  {
    if keys != [] {
      SameSums(keys[..|keys| - 1], m, m', h);
    }
  }

  // ----- Counters -----

  /** The three counters, as the source updates them. */
  datatype Metrics = Metrics(uploaded: nat, active: nat, byHash: map<Hash, nat>)
  {
    function Active(h: Hash): nat { if h in byHash then byHash[h] else 0 }

    function Started(h: Hash): Metrics { this.(active := active + 1, byHash := byHash[h := Active(h) + 1]) }

    function AddUploaded(n: nat): Metrics { this.(uploaded := uploaded + n) }

    /** Both decrements saturate. */
    function LowerActive(): Metrics { this.(active := Max(active - 1, 0)) }

    /** A zero entry is removed. */
    function LowerHash(h: Hash): Metrics {
      this.(byHash := if h !in byHash then byHash
                      else if byHash[h] <= 1 then byHash - {h} else byHash[h := byHash[h] - 1])
    }
  }

  /** Live requests; requests taken out whose bytes are still to be added (`pending`), whose
      upload is still to be counted down (`credited`), or whose hash is (`lowered`); and the
      requests whose bytes are all counted. */
  datatype Book = Book(
    keys: seq<Key>, progress: map<Key, Upload>,
    pending: seq<Upload>, credited: seq<Upload>, lowered: seq<Upload>, closed: seq<Closed>)
  {
    ghost predicate Valid() {
      NoDup(keys) && (forall k :: k in keys <==> k in progress)
      && (forall k :: k in progress ==> progress[k].Valid())
      && (forall i :: 0 <= i < |pending| ==> pending[i].Valid())
    }

    function Active(h: Hash): nat
      requires forall k :: k in keys ==> k in progress
    {
      CountFor(keys, progress, h) + CountIn(pending, h) + CountIn(credited, h) + CountIn(lowered, h)
    }

    /** No finish is half done. */
    predicate IsQuiet() { pending == [] && credited == [] && lowered == [] }

    function Bytes(): nat
      requires forall k :: k in keys ==> k in progress
    {
      SentBy(keys, progress) + SentIn(pending) + Total(closed)
    }
  }

  /** The counters are exactly what the book says. */
  ghost predicate Agrees(m: Metrics, b: Book) {
    b.Valid()
    && m.active == |b.keys| + |b.pending| + |b.credited|
    && m.uploaded == b.Bytes()
    && (forall h :: h in m.byHash ==> m.byHash[h] > 0)
    && (forall h :: m.Active(h) == b.Active(h))
  }

  function Opened(b: Book, key: Key, up: Upload): Book {
    b.(keys := b.keys + [key], progress := b.progress[key := up])
  }

  lemma OpenSums(b: Book, key: Key, up: Upload, h: Hash)
    requires b.Valid() && key !in b.progress
    ensures forall k :: k in b.keys + [key] ==> k in b.progress[key := up]
    ensures SentBy(b.keys + [key], b.progress[key := up]) == SentBy(b.keys, b.progress) + up.sent
    ensures CountFor(b.keys + [key], b.progress[key := up], h)
      == CountFor(b.keys, b.progress, h) + if up.hash == h then 1 else 0
  {
    assert (b.keys + [key])[..|b.keys|] == b.keys;
    SameSums(b.keys, b.progress, b.progress[key := up], h);
  }

  lemma OpenValid(b: Book, key: Key, up: Upload)
    requires b.Valid() && key !in b.progress && up.Valid()
    ensures Opened(b, key, up).Valid()
  {
    assert key !in b.keys;
  }

  /** A new slot and its start keep counters and book in step. */
  lemma OpenAgrees(m: Metrics, b: Book, key: Key, up: Upload)
    requires Agrees(m, b) && key !in b.progress && up.sent == 0 && up.Valid()
    ensures Agrees(m.Started(up.hash), Opened(b, key, up))
  {
    OpenBytes(b, key, up);
    OpenValid(b, key, up);
    forall h ensures m.Started(up.hash).Active(h) == Opened(b, key, up).Active(h) {
      OpenActive(m, b, key, up, h);
    }
  }

  lemma OpenBytes(b: Book, key: Key, up: Upload)
    requires b.Valid() && key !in b.progress && up.sent == 0 && up.Valid()
    ensures Opened(b, key, up).Valid() && Opened(b, key, up).Bytes() == b.Bytes()
  {
    OpenValid(b, key, up);
    OpenSums(b, key, up, 0);
  }

  lemma OpenActive(m: Metrics, b: Book, key: Key, up: Upload, h: Hash)
    requires b.Valid() && key !in b.progress && up.Valid() && m.Active(h) == b.Active(h)
    ensures Opened(b, key, up).Valid() && m.Started(up.hash).Active(h) == Opened(b, key, up).Active(h)
  {
    OpenValid(b, key, up);
    OpenSums(b, key, up, h);
  }

  lemma {:induction false} UpdateSums(keys: seq<Key>, p: map<Key, Upload>, key: Key, up: Upload, h: Hash)
    requires NoDup(keys) && (forall k :: k in keys ==> k in p) && key in keys
    requires up.hash == p[key].hash && up.sent >= p[key].sent
    ensures SentBy(keys, p[key := up]) == SentBy(keys, p) + (up.sent - p[key].sent)
    ensures CountFor(keys, p[key := up], h) == CountFor(keys, p, h)
  {
    var init, last := keys[..|keys| - 1], keys[|keys| - 1];
    NoDupInit(keys);
    if last == key {
      SameSums(init, p, p[key := up], h);
    } else {
      assert key in init;
      UpdateSums(init, p, key, up, h);
    }
  }

  /** Progress on a live slot adds its delta on both sides. */
  lemma ProgressAgrees(m: Metrics, b: Book, key: Key, up: Upload)
    requires Agrees(m, b) && key in b.progress && up.Valid()
    requires up.hash == b.progress[key].hash && up.sent >= b.progress[key].sent
    ensures Agrees(m.AddUploaded(up.sent - b.progress[key].sent), b.(progress := b.progress[key := up]))
  {
    UpdateSums(b.keys, b.progress, key, up, 0);
    var m', b' := m.AddUploaded(up.sent - b.progress[key].sent), b.(progress := b.progress[key := up]);
    forall h ensures m'.Active(h) == b'.Active(h) {
      UpdateSums(b.keys, b.progress, key, up, h);
      assert m.Active(h) == b.Active(h);
    }
  }

  function TakenOut(b: Book, key: Key, i: nat): Book
    requires i < |b.keys| && key in b.progress
  {
    b.(keys := Drop(b.keys, i), progress := b.progress - {key}, pending := b.pending + [b.progress[key]])
  }

  lemma TakeKey(keys: seq<Key>, p: map<Key, Upload>, i: nat, h: Hash)
    requires i < |keys| && NoDup(keys) && forall k :: k in keys ==> k in p
    ensures forall k :: k in Drop(keys, i) ==> k in p - {keys[i]}
    ensures SentBy(keys, p) == SentBy(Drop(keys, i), p - {keys[i]}) + p[keys[i]].sent
    ensures CountFor(keys, p, h)
      == CountFor(Drop(keys, i), p - {keys[i]}, h) + if p[keys[i]].hash == h then 1 else 0
  {
    DropKey(keys, p, i, h);
    var ks := Drop(keys, i);
    assert forall j :: 0 <= j < |ks| ==> ks[j] == keys[if j < i then j else j + 1];
    SameSums(ks, p, p - {keys[i]}, h);
  }

  lemma PendingSnoc(ups: seq<Upload>, up: Upload, h: Hash)
    ensures SentIn(ups + [up]) == SentIn(ups) + up.sent
    ensures CountIn(ups + [up], h) == CountIn(ups, h) + if up.hash == h then 1 else 0
  {
    assert (ups + [up])[..|ups|] == ups;
  }

  lemma TakeValid(b: Book, key: Key, i: nat)
    requires b.Valid() && i < |b.keys| && b.keys[i] == key
    ensures TakenOut(b, key, i).Valid()
  {
    DropMembers(b.keys, i);
    var b' := TakenOut(b, key, i);
    assert b'.pending == b.pending + [b.progress[key]];
  }

  lemma DropMembers<T>(s: seq<T>, i: nat)
    requires NoDup(s) && i < |s|
    ensures NoDup(Drop(s, i)) && forall x :: x in Drop(s, i) <==> x in s && x != s[i]
  {
    var d := Drop(s, i);
    assert forall j :: 0 <= j < |d| ==> d[j] == s[if j < i then j else j + 1];
    forall x | x in s && x != s[i] ensures x in d {
      var j :| 0 <= j < |s| && s[j] == x;
      assert d[if j < i then j else j - 1] == x;
    }
  }

  lemma TakeAgrees(m: Metrics, b: Book, key: Key, i: nat)
    requires Agrees(m, b) && i < |b.keys| && b.keys[i] == key
    ensures Agrees(m, TakenOut(b, key, i))
  {
    TakeValid(b, key, i);
    TakeKey(b.keys, b.progress, i, 0);
    PendingSnoc(b.pending, b.progress[key], 0);
    forall h ensures m.Active(h) == TakenOut(b, key, i).Active(h) {
      TakeKey(b.keys, b.progress, i, h);
      PendingSnoc(b.pending, b.progress[key], h);
      assert m.Active(h) == b.Active(h);
    }
  }

  /** What `note_finished` adds: the part of the final count not yet counted. */
  function Remainder(up: Upload, final: Option<nat>): nat {
    if final.Some? then Max(final.value - up.sent, 0) else 0
  }

  /** What a whole finish does to the counters. */
  function SettledMetrics(m: Metrics, up: Upload, final: Option<nat>): Metrics {
    m.AddUploaded(Remainder(up, final)).LowerActive().LowerHash(up.hash)
  }

  // A finish after the lock is released: three accesses, between which anything may happen.

  function Credited(b: Book, i: nat, final: Option<nat>): Book
    requires i < |b.pending|
  {
    b.(pending := Drop(b.pending, i), credited := b.credited + [b.pending[i]],
       closed := b.closed + [Closed(b.pending[i], final)])
  }

  function Lowered(b: Book, i: nat): Book
    requires i < |b.credited|
  {
    b.(credited := Drop(b.credited, i), lowered := b.lowered + [b.credited[i]])
  }

  function Unlisted(b: Book, i: nat): Book
    requires i < |b.lowered|
  {
    b.(lowered := Drop(b.lowered, i))
  }

  /** Adding the remainder closes the byte count of a request. */
  lemma CreditAgrees(m: Metrics, b: Book, i: nat, final: Option<nat>)
    requires Agrees(m, b) && i < |b.pending|
    ensures Agrees(m.AddUploaded(Remainder(b.pending[i], final)), Credited(b, i, final))
  {
    CreditValid(b, i, final);
    CreditBytes(b, i, final);
    forall h ensures m.Active(h) == Credited(b, i, final).Active(h) {
      DropUpload(b.pending, i, h);
      PendingSnoc(b.credited, b.pending[i], h);
      assert m.Active(h) == b.Active(h);
    }
  }

  lemma CreditValid(b: Book, i: nat, final: Option<nat>)
    requires b.Valid() && i < |b.pending|
    ensures Credited(b, i, final).Valid()
  {
    var rest := Drop(b.pending, i);
    assert forall j :: 0 <= j < |rest| ==> rest[j] == b.pending[if j < i then j else j + 1];
  }

  /** Where the request has gone. */
  lemma CreditedIs(b: Book, i: nat, final: Option<nat>)
    requires i < |b.pending|
    ensures var up, b' := b.pending[i], Credited(b, i, final);
      up in b'.credited && b'.closed == b.closed + [Closed(up, final)] && b'.progress == b.progress
  {
    assert Credited(b, i, final).credited[|b.credited|] == b.pending[i];
  }

  lemma LoweredIs(b: Book, i: nat)
    requires i < |b.credited|
    ensures var b' := Lowered(b, i);
      b.credited[i] in b'.lowered && b'.closed == b.closed && b'.progress == b.progress
  {
    assert Lowered(b, i).lowered[|b.lowered|] == b.credited[i];
  }

  lemma CreditBytes(b: Book, i: nat, final: Option<nat>)
    requires b.Valid() && i < |b.pending|
    ensures Credited(b, i, final).Bytes() == b.Bytes() + Remainder(b.pending[i], final)
  {
    DropUpload(b.pending, i, 0);
    var closed := b.closed + [Closed(b.pending[i], final)];
    assert closed[..|b.closed|] == b.closed;
    assert b.pending[i].sent == Distance(b.pending[i]);
    assert Total(closed) == Total(b.closed) + Contribution(Closed(b.pending[i], final));
  }

  /** The count of active uploads goes down from above zero. */
  lemma LowerAgrees(m: Metrics, b: Book, i: nat)
    requires Agrees(m, b) && i < |b.credited|
    ensures m.active > 0 && Agrees(m.LowerActive(), Lowered(b, i))
  {
    forall h ensures m.Active(h) == Lowered(b, i).Active(h) {
      DropUpload(b.credited, i, h);
      PendingSnoc(b.lowered, b.credited[i], h);
      assert m.Active(h) == b.Active(h);
    }
  }

  /** So does the count of its hash. */
  lemma UnlistAgrees(m: Metrics, b: Book, i: nat)
    requires Agrees(m, b) && i < |b.lowered|
    ensures m.Active(b.lowered[i].hash) > 0 && Agrees(m.LowerHash(b.lowered[i].hash), Unlisted(b, i))
  {
    UnlistActive(m, b, i, b.lowered[i].hash);
    forall h ensures m.LowerHash(b.lowered[i].hash).Active(h) == Unlisted(b, i).Active(h) {
      UnlistActive(m, b, i, h);
    }
  }

  lemma UnlistActive(m: Metrics, b: Book, i: nat, h: Hash)
    requires Agrees(m, b) && i < |b.lowered|
    ensures b.lowered[i].hash == h ==> m.Active(h) > 0
    ensures m.LowerHash(b.lowered[i].hash).Active(h) == Unlisted(b, i).Active(h)
  {
    DropUpload(b.lowered, i, h);
    assert m.Active(h) == b.Active(h);
  }

  /** The requests whose last event is recent enough. */
  function Busy(p: map<Key, Upload>, idle: map<Key, nat>, maxIdle: nat): map<Key, Upload>
    requires idle.Keys == p.Keys
  {
    map k | k in p && idle[k] < maxIdle :: p[k]
  }

  lemma BusyIsRest(p: map<Key, Upload>, idle: map<Key, nat>, maxIdle: nat, stale: set<Key>)
    requires idle.Keys == p.Keys && stale == set k | k in p && idle[k] >= maxIdle
    ensures p - stale == Busy(p, idle, maxIdle) && |stale| == |p| - |p - stale|
  {
    assert p.Keys == (p - stale).Keys + stale;
    assert |p| == |p.Keys| && |p - stale| == |(p - stale).Keys|;
  }

  // ----- The sink -----

  class ProviderEventSink {
    var metrics: Metrics
    var progress: map<Key, Upload>
    ghost var book: Book

    ghost predicate Valid()
      reads this
    {
      book.progress == progress && Agrees(metrics, book)
    }

    constructor ()
      ensures Valid() && metrics == Metrics(0, 0, map[]) && progress == map[] && book == Book([], map[], [], [], [], [])
    {
      metrics, progress, book := Metrics(0, 0, map[]), map[], Book([], map[], [], [], [], []);
    }

    method NoteStarted(key: Key, hash: Hash)
      requires Valid()
      modifies this
      ensures Valid()
      ensures if key in old(progress) then progress == old(progress) && metrics == old(metrics)
              else progress == old(progress)[key := Upload(hash, 0, 0, None)] && metrics == old(metrics).Started(hash)
      ensures Sink(metrics, book) == Began(Sink(old(metrics), old(book)), key, hash)
    {
      if key !in progress {
        var up := Upload(hash, 0, 0, None);
        OpenAgrees(metrics, book, key, up);
        book := Opened(book, key, up);
        progress := progress[key := up];
        metrics := metrics.Started(hash);
      }
    }

    /** The first event of a request sets its baseline; later ones count what lies beyond. */
    method NoteProgress(key: Key, hash: Hash, end: nat)
      requires Valid()
      modifies this
      ensures Valid()
      ensures Sink(metrics, book) == Moved(Began(Sink(old(metrics), old(book)), key, hash), key, end)
    {
      NoteStarted(key, hash);
      CountForward(key, end);
    }

    method CountForward(key: Key, end: nat)
      requires Valid() && key in progress
      modifies this
      ensures Valid()
      ensures Sink(metrics, book) == Moved(Sink(old(metrics), old(book)), key, end)
    {
      var up := progress[key];
      var next := up;
      if up.lastOffset.None? {
        next := up.(first := end, lastOffset := Some(end));
      } else if end > up.lastOffset.value {
        next := up.(sent := up.sent + (end - up.lastOffset.value), lastOffset := Some(end));
      }
      ghost var s := Sink(metrics, book);
      MovedAgrees(s, key, end);
      assert next == Advanced(up, end);
      metrics := metrics.AddUploaded(next.sent - up.sent);
      book := book.(progress := book.progress[key := next]);
      progress := progress[key := next];
      assert Sink(metrics, book) == Moved(s, key, end);
    }

    /** First half of `note_finished`, under the lock. */
    method TakeOut(key: Key) returns (up: Option<Upload>)
      requires Valid()
      modifies `progress, `book
      ensures Valid() && book.closed == old(book.closed)
      ensures up == (if key in old(progress) then Some(old(progress)[key]) else None)
      ensures progress == old(progress) - {key}
      ensures if up.Some? then up.value in book.pending else book == old(book)
    {
      if key !in progress {
        assert progress - {key} == progress;
        return None;
      }
      ghost var i :| 0 <= i < |book.keys| && book.keys[i] == key;
      TakeAgrees(metrics, book, key, i);
      up := Some(progress[key]);
      book := TakenOut(book, key, i);
      progress := progress - {key};
      assert book.pending[|book.pending| - 1] == up.value;
    }

    /** `note_finished` after the lock is released: its first access adds the remainder. */
    method AddRemainder(up: Upload, final: Option<nat>)
      requires Valid() && up in book.pending
      modifies `metrics, `book
      ensures Valid() && metrics == old(metrics).AddUploaded(Remainder(up, final))
      ensures up in book.credited && book.closed == old(book.closed) + [Closed(up, final)]
    {
      ghost var i :| 0 <= i < |book.pending| && book.pending[i] == up;
      CreditAgrees(metrics, book, i, final);
      CreditedIs(book, i, final);
      book := Credited(book, i, final);
      metrics := metrics.AddUploaded(Remainder(up, final));
    }

    /** `finish_upload`, its first access; the decrement does not saturate. */
    method LowerActive(up: Upload)
      requires Valid() && up in book.credited
      modifies `metrics, `book
      ensures Valid() && old(metrics).active > 0 && metrics == old(metrics).LowerActive()
      ensures up in book.lowered && book.closed == old(book.closed)
    {
      ghost var i :| 0 <= i < |book.credited| && book.credited[i] == up;
      LowerAgrees(metrics, book, i);
      LoweredIs(book, i);
      book := Lowered(book, i);
      metrics := metrics.LowerActive();
    }

    /** Its second access, under the lock of the map; that decrement does not saturate either. */
    method LowerHash(up: Upload)
      requires Valid() && up in book.lowered
      modifies `metrics, `book
      ensures Valid() && old(metrics).Active(up.hash) > 0 && metrics == old(metrics).LowerHash(up.hash)
      ensures book.closed == old(book.closed)
    {
      ghost var i :| 0 <= i < |book.lowered| && book.lowered[i] == up;
      UnlistAgrees(metrics, book, i);
      book := Unlisted(book, i);
      metrics := metrics.LowerHash(up.hash);
    }

    /** The three accesses in order, when nothing comes between them. */
    method Settle(up: Upload, final: Option<nat>)
      requires Valid() && up in book.pending
      modifies `metrics, `book
      ensures Valid() && metrics == SettledMetrics(old(metrics), up, final)
      ensures book.closed == old(book.closed) + [Closed(up, final)]
    {
      AddRemainder(up, final);
      LowerActive(up);
      LowerHash(up);
    }

    method NoteFinished(key: Key, final: Option<nat>)
      requires Valid()
      modifies this
      ensures Valid() && progress == old(progress) - {key}
      ensures key !in old(progress) ==> metrics == old(metrics) && book == old(book)
      ensures key in old(progress) ==> metrics == SettledMetrics(old(metrics), old(progress)[key], final)
      ensures key in old(progress) ==> book.closed == old(book.closed) + [Closed(old(progress)[key], final)]
    {
      var up := TakeOut(key);
      if up.Some? {
        Settle(up.value, final);
      }
    }

    /** Every request chosen is finished without a byte count. */
    method FinishAll(chosen: set<Key>)
      requires Valid()
      modifies this
      ensures Valid() && progress == old(progress) - chosen && metrics.uploaded == old(metrics).uploaded
    {
      var rest := chosen;
      while rest != {}
        invariant Valid() && rest <= chosen && progress == old(progress) - (chosen - rest)
        invariant metrics.uploaded == old(metrics).uploaded
        decreases |rest|
      {
        var key :| key in rest;
        NoteFinished(key, None);
        rest := rest - {key};
      }
    }

    /** `connection_closed`: exactly the requests of the connection go. */
    method ConnectionClosed(conn: nat)
      requires Valid()
      modifies this
      ensures Valid() && metrics.uploaded == old(metrics).uploaded
      ensures progress == map k | k in old(progress) && k.0 != conn :: old(progress)[k]
    {
      FinishAll(set k | k in progress && k.0 == conn);
    }

    /** `reap_stalled`: exactly the requests idle for too long go, and they are counted. */
    method ReapStalled(idle: map<Key, nat>, maxIdle: nat) returns (reaped: nat)
      requires Valid() && idle.Keys == progress.Keys
      modifies this
      ensures Valid() && metrics.uploaded == old(metrics).uploaded
      ensures progress == Busy(old(progress), idle, maxIdle)
      ensures reaped == |old(progress)| - |progress|
    {
      var stale := set k | k in progress && idle[k] >= maxIdle;
      BusyIsRest(progress, idle, maxIdle, stale);
      reaped := |stale|;
      FinishAll(stale);
    }
  }

  // ----- Any sequence of events -----

  datatype Sink = Sink(metrics: Metrics, book: Book)

  /** Provider events, reaps and connection closes, cut where the lock is released: a finish is
      the removal of a slot and later, in three accesses, the settlement of what was removed. */
  datatype Event =
    | Started(key: Key, hash: Hash)
    | Progressed(key: Key, hash: Hash, end: nat)
    | Removed(i: nat)
    | CreditedAt(i: nat, final: Option<nat>)
    | LoweredAt(i: nat)
    | UnlistedAt(i: nat)

  function Began(s: Sink, key: Key, hash: Hash): (r: Sink)
    ensures key in r.book.progress
  {
    if key in s.book.progress then s
    else Sink(s.metrics.Started(hash), Opened(s.book, key, Upload(hash, 0, 0, None)))
  }

  /** Forward distance is counted; the first offset only sets the baseline. */
  function Advanced(up: Upload, end: nat): (r: Upload)
    ensures r.hash == up.hash && r.sent >= up.sent && (up.Valid() ==> r.Valid())
  {
    if up.lastOffset.None? then up.(first := end, lastOffset := Some(end))
    else if end > up.lastOffset.value then
      up.(sent := up.sent + (end - up.lastOffset.value), lastOffset := Some(end))
    else up
  }

  function Moved(s: Sink, key: Key, end: nat): Sink
    requires key in s.book.progress
  {
    var up := s.book.progress[key];
    var next := Advanced(up, end);
    Sink(s.metrics.AddUploaded(next.sent - up.sent), s.book.(progress := s.book.progress[key := next]))
  }

  function Step(s: Sink, e: Event): Option<Sink> {
    match e
    case Started(key, hash) => Some(Began(s, key, hash))
    case Progressed(key, hash, end) => Some(Moved(Began(s, key, hash), key, end))
    case Removed(i) =>
      if i < |s.book.keys| && s.book.keys[i] in s.book.progress then
        Some(s.(book := TakenOut(s.book, s.book.keys[i], i)))
      else None
    case CreditedAt(i, final) =>
      if i < |s.book.pending| then
        Some(Sink(s.metrics.AddUploaded(Remainder(s.book.pending[i], final)), Credited(s.book, i, final)))
      else None
    case LoweredAt(i) =>
      if i < |s.book.credited| then Some(Sink(s.metrics.LowerActive(), Lowered(s.book, i))) else None
    case UnlistedAt(i) =>
      if i < |s.book.lowered| then
        Some(Sink(s.metrics.LowerHash(s.book.lowered[i].hash), Unlisted(s.book, i)))
      else None
  }

  const EMPTY: Sink := Sink(Metrics(0, 0, map[]), Book([], map[], [], [], [], []))

  function Run(es: seq<Event>): Option<Sink>
    decreases |es|
  {
    if es == [] then Some(EMPTY)
    else
      var r := Run(es[..|es| - 1]);
      if r.None? then None else Step(r.value, es[|es| - 1])
  }

  /** A slot's first offset sets its baseline and counts nothing; after that the baseline stays,
      the last offset never goes back, and every slot but this one keeps its state. */
  lemma ProgressMeans(s: Sink, key: Key, hash: Hash, end: nat)
    requires Agrees(s.metrics, s.book)
    ensures var p, t := s.book.progress, Moved(Began(s, key, hash), key, end);
      var up := t.book.progress[key];
      t.book.progress.Keys == p.Keys + {key} && (forall k :: k in p && k != key ==> t.book.progress[k] == p[k])
      && (if key in p && p[key].lastOffset.Some? then
            up.lastOffset == Some(Max(p[key].lastOffset.value, end)) && up.first == p[key].first
            && t.metrics.uploaded - s.metrics.uploaded == up.lastOffset.value - p[key].lastOffset.value
          else
            up.lastOffset == Some(end) && up.first == end && t.metrics.uploaded == s.metrics.uploaded)
  {
  }

  /** Ending a request adds what its final count exceeds the distance its offsets have covered, and
      nothing when there is no final count. */
  lemma FinishCounts(s: Sink, i: nat, final: Option<nat>)
    requires Agrees(s.metrics, s.book) && i < |s.book.keys|
    ensures var up := s.book.progress[s.book.keys[i]]; var out := Step(s, Removed(i));
      out.Some?
      && var done := Step(out.value, CreditedAt(|s.book.pending|, final));
      done.Some?
      && done.value.metrics.uploaded - s.metrics.uploaded
         == (if final.None? then 0
             else if up.lastOffset.None? then final.value
             else Max(final.value - (up.lastOffset.value - up.first), 0))
  {
    var up := s.book.progress[s.book.keys[i]];
    var out := Step(s, Removed(i));
    assert out.value.book.pending[|s.book.pending|] == up && up.Valid();
  }

  lemma BeganAgrees(s: Sink, key: Key, hash: Hash)
    requires Agrees(s.metrics, s.book)
    ensures Agrees(Began(s, key, hash).metrics, Began(s, key, hash).book)
  {
    if key !in s.book.progress {
      OpenAgrees(s.metrics, s.book, key, Upload(hash, 0, 0, None));
    }
  }

  lemma MovedAgrees(s: Sink, key: Key, end: nat)
    requires Agrees(s.metrics, s.book) && key in s.book.progress
    ensures Agrees(Moved(s, key, end).metrics, Moved(s, key, end).book)
  {
    ProgressAgrees(s.metrics, s.book, key, Advanced(s.book.progress[key], end));
  }

  lemma StepAgrees(s: Sink, e: Event)
    requires Agrees(s.metrics, s.book) && Step(s, e).Some?
    ensures Agrees(Step(s, e).value.metrics, Step(s, e).value.book)
  {
    match e
    case Started(key, hash) => BeganAgrees(s, key, hash);
    case Progressed(key, hash, end) =>
      BeganAgrees(s, key, hash);
      MovedAgrees(Began(s, key, hash), key, end);
    case Removed(i) => TakeAgrees(s.metrics, s.book, s.book.keys[i], i);
    case CreditedAt(i, final) => CreditAgrees(s.metrics, s.book, i, final);
    case LoweredAt(i) => LowerAgrees(s.metrics, s.book, i);
    case UnlistedAt(i) => UnlistAgrees(s.metrics, s.book, i);
  }

  /** After every sequence of events the counters are what the book says. */
  lemma {:induction false} RunAgrees(es: seq<Event>)
    requires Run(es).Some?
    ensures Agrees(Run(es).value.metrics, Run(es).value.book)
    decreases |es|
  {
    if es != [] {
      var init := es[..|es| - 1];
      RunAgrees(init);
      StepAgrees(Run(init).value, es[|es| - 1]);
    }
  }

  /** Whatever came before, each decrement finds its counter above zero. */
  lemma NoDecrementSaturates(es: seq<Event>, i: nat)
    requires Run(es).Some?
    ensures var s := Run(es).value;
      (i < |s.book.credited| ==> s.metrics.active > 0)
      && (i < |s.book.lowered| ==> s.metrics.Active(s.book.lowered[i].hash) > 0)
  {
    RunAgrees(es);
    var s := Run(es).value;
    if i < |s.book.lowered| {
      UnlistAgrees(s.metrics, s.book, i);
    }
  }

  /** Live counts and totals after any sequence of events that leaves no finish half done. */
  lemma EverySequenceTallies(es: seq<Event>, h: Hash)
    requires Run(es).Some? && Run(es).value.book.IsQuiet()
    ensures var s := Run(es).value;
      s.metrics.active == |s.book.progress| && s.metrics.Active(h) == |LiveOn(s.book.progress, h)|
      && (forall k :: k in s.book.keys ==> k in s.book.progress)
      && s.metrics.uploaded == SentBy(s.book.keys, s.book.progress) + Total(s.book.closed)
  {
    RunAgrees(es);
    QuietTotals(Run(es).value.metrics, Run(es).value.book, h);
  }

  /**
   What the invariant says once no request is in the middle of its finish: the live
   counters are the live slots, and the byte total is live bytes plus closed contributions.
   */
  lemma QuietTotals(m: Metrics, b: Book, h: Hash)
    requires Agrees(m, b) && b.IsQuiet()
    ensures m.active == |b.progress|
    ensures m.Active(h) == |LiveOn(b.progress, h)|
    ensures m.uploaded == SentBy(b.keys, b.progress) + Total(b.closed)
  {
    NoDupCard(b.keys);
    assert ToSet(b.keys) == b.progress.Keys;
    CountIsCard(b.keys, b.progress, h);
    assert LiveIn(b.keys, b.progress, h) == LiveOn(b.progress, h);
    assert m.Active(h) == b.Active(h);
  }

  function LiveOn(p: map<Key, Upload>, h: Hash): set<Key> { set k | k in p && p[k].hash == h }

  function LiveIn(keys: seq<Key>, p: map<Key, Upload>, h: Hash): set<Key> {
    set k | k in keys && k in p && p[k].hash == h
  }

  lemma LiveSnoc(init: seq<Key>, last: Key, p: map<Key, Upload>, h: Hash)
    requires last in p && last !in init
    ensures LiveIn(init + [last], p, h) == LiveIn(init, p, h) + if p[last].hash == h then {last} else {}
    ensures last !in LiveIn(init, p, h)
  {
  }

  lemma {:induction false} CountIsCard(keys: seq<Key>, p: map<Key, Upload>, h: Hash)
    requires NoDup(keys) && forall k :: k in keys ==> k in p
    ensures CountFor(keys, p, h) == |LiveIn(keys, p, h)|
  {
    if keys == [] {
      assert LiveIn(keys, p, h) == {};
    } else {
      var init, last := keys[..|keys| - 1], keys[|keys| - 1];
      NoDupInit(keys);
      CountIsCard(init, p, h);
      assert keys == init + [last];
      LiveSnoc(init, last, p, h);
    }
  }
}
