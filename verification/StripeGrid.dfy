/** How a blob is cut into stripe pieces (iroh_node.rs, `stripe_pieces`). */
module StripeGrid {
  import opened Common

  const BLAKE3_CHUNK: nat := 1024
  const STRIPE_PIECE_BYTES: nat := 4 * 1024 * 1024
  const PIECE_CHUNKS: nat := STRIPE_PIECE_BYTES / BLAKE3_CHUNK

  /** Chunks [start, end) of the blob. */
  datatype Piece = Piece(start: nat, end: nat)

  function TotalChunks(size: nat): nat { (size + BLAKE3_CHUNK - 1) / BLAKE3_CHUNK }

  function PieceCount(size: nat): nat { (TotalChunks(size) + PIECE_CHUNKS - 1) / PIECE_CHUNKS }

  function PieceAt(size: nat, i: nat): Piece
    requires i < PieceCount(size)
  {
    Piece(i * PIECE_CHUNKS, Min((i + 1) * PIECE_CHUNKS, TotalChunks(size)))
  }

  /** The grid in closed form. */
  function Grid(size: nat): (g: seq<Piece>)
    ensures |g| == PieceCount(size)
  {
    seq(PieceCount(size), i requires 0 <= i < PieceCount(size) => PieceAt(size, i))
  }

  predicate InGrid(size: nat, p: Piece) { p in Grid(size) }

  /** First and one-past-last byte of a piece, clipped to the blob. */
  function Lo(size: nat, p: Piece): nat { Min(p.start * BLAKE3_CHUNK, size) }

  function Hi(size: nat, p: Piece): nat { Min(p.end * BLAKE3_CHUNK, size) }

  method StripePieces(size: nat) returns (pieces: seq<Piece>)
    ensures pieces == Grid(size)
  {
    var totalChunks := TotalChunks(size);
    pieces := [];
    var c := 0;
    while c < totalChunks
      invariant |pieces| <= PieceCount(size)
      invariant c == Min(|pieces| * PIECE_CHUNKS, totalChunks)
      invariant pieces == Grid(size)[..|pieces|]
      decreases totalChunks - c
    {
      var end := Min(c + PIECE_CHUNKS, totalChunks);
      assert Grid(size)[|pieces|] == Piece(c, end);
      pieces := pieces + [Piece(c, end)];
      c := end;
    }
    assert |pieces| == PieceCount(size);
  }

  /** What membership in the grid means: an aligned start and the matching end. */
  lemma GridMember(size: nat, p: Piece)
    ensures InGrid(size, p) <==>
      p.start % PIECE_CHUNKS == 0 && p.start < TotalChunks(size)
      && p.end == Min(p.start + PIECE_CHUNKS, TotalChunks(size))
  {
    if InGrid(size, p) {
      var i :| 0 <= i < PieceCount(size) && Grid(size)[i] == p;
      PieceShape(size, i);
    } else if p.start % PIECE_CHUNKS == 0 && p.start < TotalChunks(size) {
      PieceShape(size, p.start / PIECE_CHUNKS);
      assert Grid(size)[p.start / PIECE_CHUNKS].start == p.start;
    }
  }

  lemma PieceShape(size: nat, i: nat)
    requires i * PIECE_CHUNKS < TotalChunks(size) || i < PieceCount(size)
    ensures i < PieceCount(size) && PieceAt(size, i).start % PIECE_CHUNKS == 0
    ensures PieceAt(size, i).start == i * PIECE_CHUNKS < TotalChunks(size)
    ensures PieceAt(size, i).end == Min(i * PIECE_CHUNKS + PIECE_CHUNKS, TotalChunks(size))
  {
  }

  /** Both the start and the end of a piece identify it within the grid. */
  lemma GridKeys(size: nat, p: Piece, q: Piece)
    requires InGrid(size, p) && InGrid(size, q)
    ensures p.start == q.start ==> p == q
    ensures p.end == q.end ==> p == q
  {
    GridMember(size, p);
    GridMember(size, q);
  }

  lemma GridNoDup(size: nat)
    ensures NoDup(Grid(size))
  {
    forall i, j | 0 <= i < j < PieceCount(size) ensures Grid(size)[i] != Grid(size)[j] {
      assert Grid(size)[i].start == i * PIECE_CHUNKS && Grid(size)[j].start == j * PIECE_CHUNKS;
    }
  }

  /** The one piece that holds byte `k`. */
  function Owner(size: nat, k: nat): (p: Piece)
    requires k < size
    ensures InGrid(size, p) && Lo(size, p) <= k < Hi(size, p)
  {
    var start := k / STRIPE_PIECE_BYTES * PIECE_CHUNKS;
    var p := Piece(start, Min(start + PIECE_CHUNKS, TotalChunks(size)));
    GridMember(size, p);
    p
  }

  /** Tiling: every byte of the blob lies in exactly one piece of the grid. */
  lemma ByteOwner(size: nat, k: nat, p: Piece)
    requires k < size && InGrid(size, p)
    ensures Lo(size, p) <= k < Hi(size, p) <==> p == Owner(size, k)
  {
    var q := Owner(size, k);
    if Lo(size, p) <= k < Hi(size, p) {
      PieceNumber(size, k, p);
      PieceNumber(size, k, q);
      GridKeys(size, p, q);
    }
  }

  lemma PieceNumber(size: nat, k: nat, p: Piece)
    requires InGrid(size, p) && Lo(size, p) <= k < Hi(size, p)
    ensures p.start == k / STRIPE_PIECE_BYTES * PIECE_CHUNKS
  {
    Span(size, p);
    WhichPiece(k, p.start / PIECE_CHUNKS);
  }

  lemma WhichPiece(k: nat, n: nat)
    requires n * STRIPE_PIECE_BYTES <= k < (n + 1) * STRIPE_PIECE_BYTES
    ensures n == k / STRIPE_PIECE_BYTES
  {
  }

  /** A piece's byte range, counted in whole pieces. */
  lemma Span(size: nat, p: Piece)
    requires InGrid(size, p)
    ensures p.start == p.start / PIECE_CHUNKS * PIECE_CHUNKS
    ensures Lo(size, p) == p.start / PIECE_CHUNKS * STRIPE_PIECE_BYTES < size
    ensures Hi(size, p) == Min((p.start / PIECE_CHUNKS + 1) * STRIPE_PIECE_BYTES, size)
  {
    GridMember(size, p);
  }

  /** Bytes covered by the pieces of `g` that are in `s`, counted one piece at a time. */
  function BytesIn(size: nat, g: seq<Piece>, s: set<Piece>): nat
  {
    if g == [] then 0
    else BytesIn(size, g[..|g| - 1], s)
         + (if g[|g| - 1] in s then PieceBytes(size, g[|g| - 1]) else 0)
  }

  function PieceBytes(size: nat, p: Piece): nat { Max(Hi(size, p) - Lo(size, p), 0) }

  /** Crediting one more piece adds exactly that piece's bytes. */
  lemma {:induction false} BytesInAdd(size: nat, g: seq<Piece>, s: set<Piece>, p: Piece)
    requires NoDup(g) && p !in s
    ensures BytesIn(size, g, s + {p}) ==
      BytesIn(size, g, s) + (if p in g then PieceBytes(size, p) else 0)
  {
    if g != [] {
      var init, last := g[..|g| - 1], g[|g| - 1];
      BytesInAdd(size, init, s, p);
      assert g == init + [last];
      if last == p {
        assert p !in init;
      }
    }
  }

  lemma PieceAtBytes(size: nat, i: nat)
    requires i < PieceCount(size)
    ensures InGrid(size, PieceAt(size, i))
    ensures PieceBytes(size, PieceAt(size, i)) ==
      Min((i + 1) * STRIPE_PIECE_BYTES, size) - Min(i * STRIPE_PIECE_BYTES, size)
  {
    assert Grid(size)[i] == PieceAt(size, i);
    Span(size, PieceAt(size, i));
  }

  /** Byte sum: the pieces of the whole grid add up to the blob's size. */
  lemma {:induction false} BytesInPrefix(size: nat, k: nat, s: set<Piece>)
    requires k <= PieceCount(size)
    requires forall p :: InGrid(size, p) ==> p in s
    ensures BytesIn(size, Grid(size)[..k], s) == Min(k * STRIPE_PIECE_BYTES, size)
  {
    if k > 0 {
      BytesInPrefix(size, k - 1, s);
      var g := Grid(size)[..k];
      assert g[..|g| - 1] == Grid(size)[..k - 1];
      PieceAtBytes(size, k - 1);
    }
  }

  lemma BytesInAll(size: nat, s: set<Piece>)
    requires forall p :: InGrid(size, p) ==> p in s
    ensures BytesIn(size, Grid(size), s) == size
  {
    BytesInPrefix(size, PieceCount(size), s);
    CountCovers(size);
    assert Grid(size)[..PieceCount(size)] == Grid(size);
  }

  lemma CountCovers(size: nat)
    ensures PieceCount(size) * STRIPE_PIECE_BYTES >= size
  {
    assert TotalChunks(size) * BLAKE3_CHUNK >= size;
    assert PieceCount(size) * PIECE_CHUNKS >= TotalChunks(size);
  }
}
