/**
 Streaming verification (verify.rs, `StreamingVerifier`; hash.rs, `DualHasher` and
 `Hashes::mismatch_against`). A digest is symbolic: the term that was hashed.
 */
module Verify {
  import opened Common
  import opened Merkle

  /** `GitBlob` is the SHA-1 of `blob <len>\0` followed by the data; `len` is fixed before the
      data is seen. */
  datatype Digest = Blake3(data: seq<Byte>) | Sha256(data: seq<Byte>) | GitBlob(len: nat, data: seq<Byte>)

  /** Declared digests; `None` is the empty string. */
  datatype Hashes = Hashes(blake3: Option<Digest>, sha256: Option<Digest>, git: Option<Digest>)

  datatype Error =
    | LeafMismatch(index: nat)
    | LeafCount(expected: nat, actual: nat)
    | SizeMismatch(expected: nat, actual: nat)
    | DigestMismatch(which: string)

  function MismatchAgainst(expected: Hashes, got: Hashes): Option<string> {
    if expected.blake3.Some? && expected.blake3 != got.blake3 then Some("blake3")
    else if expected.sha256.Some? && expected.sha256 != got.sha256 then Some("sha256")
    else if expected.git.Some? && expected.git != got.git then Some("git_blob_sha1")
    else None
  }

  /** What the hasher of a verifier yields for `data`: the git digest only when one is
      declared together with a size, and for that declared size. */
  function Computed(expected: Hashes, size: nat, data: seq<Byte>): Hashes {
    Hashes(Some(Blake3(data)), Some(Sha256(data)),
           if expected.git.Some? && size > 0 then Some(GitBlob(size, data)) else None)
  }

  // ----- The check on a whole stream -----

  predicate TreeAccepts(tree: ChunkTree<Hash>, data: seq<Byte>) {
    if tree.leafSize == 0 then data == [] && tree.leaves == []
    else LeafHashes(Chunks(data, tree.leafSize)) == tree.leaves
  }

  predicate WholeCheck(expected: Hashes, size: nat, tree: Option<ChunkTree<Hash>>, data: seq<Byte>) {
    (tree.Some? ==> TreeAccepts(tree.value, data))
    && (size != 0 ==> |data| == size)
    && MismatchAgainst(expected, Computed(expected, size, data)).None?
  }

  predicate LeafOk(tree: ChunkTree<Hash>, i: nat, leaf: seq<Byte>) {
    i < |tree.leaves| && Leaf(leaf) == tree.leaves[i]
  }

  /** Leaf `i` of `data` is complete and wrong, and all before it are right. */
  predicate FirstBadLeaf(tree: ChunkTree<Hash>, data: seq<Byte>, i: nat)
    requires tree.leafSize > 0
  {
    var cs := Chunks(data, tree.leafSize);
    i < |cs| && |cs[i]| == tree.leafSize && !LeafOk(tree, i, cs[i])
    && forall j :: 0 <= j < i ==> LeafOk(tree, j, cs[j])
  }

  /** Every complete leaf of `data` is right. */
  predicate FullLeavesOk(tree: ChunkTree<Hash>, data: seq<Byte>)
    requires tree.leafSize > 0
  {
    var cs := Chunks(data, tree.leafSize);
    forall i :: 0 <= i < |cs| && |cs[i]| == tree.leafSize ==> LeafOk(tree, i, cs[i])
  }

  // ----- The verifier -----

  class StreamingVerifier {
    const expected: Hashes
    const expectedSize: nat
    const tree: Option<ChunkTree<Hash>>
    /** Bytes given to the hashers so far. */
    var seen: seq<Byte>
    var leafBuf: seq<Byte>
    var leafIndex: nat
    /** The leaves verified so far. */
    ghost var full: seq<seq<Byte>>

    ghost predicate Valid()
      reads this
    {
      tree.Some? ==>
        if tree.value.leafSize == 0 then seen == [] && leafBuf == [] && leafIndex == 0
        else
          seen == Flatten(full) + leafBuf && |leafBuf| < tree.value.leafSize && Verified()
    }

    ghost predicate Verified()
      requires tree.Some?
      reads this
    {
      leafIndex == |full|
      && forall i :: 0 <= i < |full| ==> |full[i]| == tree.value.leafSize && LeafOk(tree.value, i, full[i])
    }

    constructor (expected: Hashes, expectedSize: nat, tree: Option<ChunkTree<Hash>>)
      ensures Valid() && seen == []
      ensures this.expected == expected && this.expectedSize == expectedSize && this.tree == tree
    {
      this.expected, this.expectedSize, this.tree := expected, expectedSize, tree;
      seen, leafBuf, leafIndex, full := [], [], 0, [];
    }

    /** Checks the buffered leaf, then advances. */
    method VerifyLeaf() returns (r: Result<(), Error>)
      requires tree.Some?
      modifies `leafBuf, `leafIndex
      ensures r.Ok? <==> LeafOk(tree.value, old(leafIndex), old(leafBuf))
      ensures r.Ok? ==> leafBuf == [] && leafIndex == old(leafIndex) + 1
      ensures r.Err? ==> r.error == LeafMismatch(old(leafIndex)) && leafBuf == old(leafBuf) && leafIndex == old(leafIndex)
    {
      if leafIndex < |tree.value.leaves| && Leaf(leafBuf) == tree.value.leaves[leafIndex] {
        leafIndex := leafIndex + 1;
        leafBuf := [];
        return Ok(());
      }
      return Err(LeafMismatch(leafIndex));
    }

    /** A tree with leaf size zero never consumes a byte: it fails once its leaves run out. */
    method FeedZero() returns (r: Result<(), Error>)
      requires tree.Some? && leafBuf == []
      modifies `leafBuf, `leafIndex
      ensures r.Err? && r.error.LeafMismatch?
    {
      while true
        invariant leafBuf == []
        decreases |tree.value.leaves| - leafIndex
      {
        r := VerifyLeaf();
        if r.Err? {
          return;
        }
      }
    }

    method Feed(data: seq<Byte>) returns (r: Result<(), Error>)
      requires Valid()
      modifies this
      ensures seen == old(seen) + data
      ensures r.Ok? ==> Valid()
      ensures tree.None? ==> r.Ok?
      ensures tree.Some? && tree.value.leafSize == 0 ==> (r.Ok? <==> data == [])
      ensures tree.Some? && tree.value.leafSize > 0 ==>
        if r.Ok? then FullLeavesOk(tree.value, seen)
        else r.error.LeafMismatch? && FirstBadLeaf(tree.value, seen, r.error.index)
    {
      seen := seen + data;
      if tree.None? || data == [] {
        assert old(seen) + [] == old(seen);
        if tree.Some? && tree.value.leafSize > 0 {
          AllVerified(tree.value, full, leafBuf);
        }
        return Ok(());
      }
      var size := tree.value.leafSize;
      if size == 0 {
        r := FeedZero();
        return;
      }
      var rest := data;
      while rest != []
        invariant seen == old(seen) + data
        invariant |leafBuf| < size && Verified() && seen == Flatten(full) + leafBuf + rest
        decreases |rest|
      {
        var take := Min(size - |leafBuf|, |rest|);
        Shifted(Flatten(full), leafBuf, rest, take);
        leafBuf := leafBuf + rest[..take];
        rest := rest[take..];
        if |leafBuf| == size {
          ghost var leaf := leafBuf;
          r := VerifyLeaf();
          if r.Err? {
            BadLeafFound(tree.value, full, leaf, rest);
            return;
          }
          FlattenAppend(full, leaf);
          full := full + [leaf];
        }
      }
      assert Flatten(full) + leafBuf + [] == Flatten(full) + leafBuf;
      AllVerified(tree.value, full, leafBuf);
      return Ok(());
    }

    method Finish() returns (r: Result<Hashes, Error>)
      requires Valid()
      modifies this
      ensures seen == old(seen)
      ensures r.Ok? <==> WholeCheck(expected, expectedSize, tree, seen)
      ensures r.Ok? ==> r.value == Computed(expected, expectedSize, seen)
      ensures r.Err? ==> (r.error.LeafMismatch? || r.error.LeafCount? <==> tree.Some? && !TreeAccepts(tree.value, seen))
      ensures r.Err? && r.error.SizeMismatch? ==>
        expectedSize != 0 && r.error.expected == expectedSize && r.error.actual == |seen| != expectedSize
      ensures r.Err? && r.error.DigestMismatch? ==> expectedSize == 0 || |seen| == expectedSize
    {
      if tree.Some? {
        if tree.value.leafSize > 0 {
          TreeByLeaves(tree.value, full, leafBuf);
        }
        if leafBuf != [] {
          var leaf := VerifyLeaf();
          if leaf.Err? {
            return Err(leaf.error);
          }
        }
        if leafIndex != |tree.value.leaves| {
          return Err(LeafCount(|tree.value.leaves|, leafIndex));
        }
      }
      if expectedSize != 0 && |seen| != expectedSize {
        return Err(SizeMismatch(expectedSize, |seen|));
      }
      var got := Computed(expected, expectedSize, seen);
      var mismatch := MismatchAgainst(expected, got);
      if mismatch.Some? {
        return Err(DigestMismatch(mismatch.value));
      }
      return Ok(got);
    }
  }

  /** Moving bytes from the input to the leaf buffer changes nothing overall. */
  lemma Shifted(front: seq<Byte>, buf: seq<Byte>, rest: seq<Byte>, take: nat)
    requires take <= |rest|
    ensures front + buf + rest == front + (buf + rest[..take]) + rest[take..]
  {
    assert rest == rest[..take] + rest[take..];
  }

  lemma AllVerified(tree: ChunkTree<Hash>, full: seq<seq<Byte>>, last: seq<Byte>)
    requires |last| < tree.leafSize
    requires forall i :: 0 <= i < |full| ==> |full[i]| == tree.leafSize && LeafOk(tree, i, full[i])
    ensures FullLeavesOk(tree, Flatten(full) + last)
  {
    LastChunk(full, last, tree.leafSize);
  }

  lemma BadLeafFound(tree: ChunkTree<Hash>, full: seq<seq<Byte>>, leaf: seq<Byte>, rest: seq<Byte>)
    requires tree.leafSize > 0 && |leaf| == tree.leafSize && !LeafOk(tree, |full|, leaf)
    requires forall i :: 0 <= i < |full| ==> |full[i]| == tree.leafSize && LeafOk(tree, i, full[i])
    ensures FirstBadLeaf(tree, Flatten(full) + leaf + rest, |full|)
  {
    FlattenAppend(full, leaf);
    ChunksOf(full + [leaf], rest, tree.leafSize);
  }

  /** The whole-tree check, once all full leaves are verified: the last one and the count. */
  lemma TreeByLeaves(tree: ChunkTree<Hash>, full: seq<seq<Byte>>, last: seq<Byte>)
    requires |last| < tree.leafSize
    requires forall i :: 0 <= i < |full| ==> |full[i]| == tree.leafSize && LeafOk(tree, i, full[i])
    ensures TreeAccepts(tree, Flatten(full) + last) <==>
      if last == [] then |full| == |tree.leaves|
      else LeafOk(tree, |full|, last) && |full| + 1 == |tree.leaves|
  {
    LastChunk(full, last, tree.leafSize);
    if last == [] {
      assert full + [] == full;
    }
  }

  // ----- Splitting does not matter -----

  lemma {:induction false} ChunkStable(a: seq<Byte>, b: seq<Byte>, size: nat, i: nat)
    requires size > 0 && i < |Chunks(a, size)| && |Chunks(a, size)[i]| == size
    ensures i < |Chunks(a + b, size)| && Chunks(a + b, size)[i] == Chunks(a, size)[i]
    decreases |a|
  {
    if i > 0 {
      var k := Min(size, |a|);
      ChunkStable(a[k..], b, size, i - 1);
      assert (a + b)[size..] == a[size..] + b && (a + b)[..size] == a[..size];
    } else {
      assert (a + b)[..size] == a[..size];
    }
  }

  /** Once a complete leaf is wrong, no continuation of the stream is accepted. */
  lemma BadLeafIsFatal(tree: ChunkTree<Hash>, a: seq<Byte>, b: seq<Byte>, i: nat)
    requires tree.leafSize > 0 && FirstBadLeaf(tree, a, i)
    ensures !TreeAccepts(tree, a + b)
  {
    ChunkStable(a, b, tree.leafSize, i);
  }

  /**
   For every way of cutting a stream into parts, feeding the parts one by one and finishing
   succeeds exactly when the whole stream passes the check.
   */
  method VerifyParts(expected: Hashes, size: nat, tree: Option<ChunkTree<Hash>>, parts: seq<seq<Byte>>)
    returns (r: Result<Hashes, Error>)
    ensures r.Ok? <==> WholeCheck(expected, size, tree, Flatten(parts))
    ensures r.Ok? ==> r.value == Computed(expected, size, Flatten(parts))
    ensures expected.git.Some? && size == 0 ==> r.Err?
    ensures Describes(expected, size, tree, Flatten(parts)) ==> r.Ok?
  {
    if Describes(expected, size, tree, Flatten(parts)) {
      DescribedIsAccepted(expected, size, tree, Flatten(parts));
    }
    var v := new StreamingVerifier(expected, size, tree);
    var i := 0;
    while i < |parts|
      invariant i <= |parts| && v.Valid() && v.seen == Flatten(parts[..i])
      invariant v.expected == expected && v.expectedSize == size && v.tree == tree
    {
      assert parts[..i + 1] == parts[..i] + [parts[i]];
      FlattenAppend(parts[..i], parts[i]);
      FlattenSplit(parts, i + 1);
      var fed := v.Feed(parts[i]);
      if fed.Err? {
        if tree.value.leafSize > 0 {
          BadLeafIsFatal(tree.value, v.seen, Flatten(parts[i + 1..]), fed.error.index);
        } else {
          assert Flatten(parts) != [];
        }
        return Err(fed.error);
      }
      i := i + 1;
    }
    assert parts[..i] == parts;
    r := v.Finish();
  }

  lemma {:induction false} FlattenSplit<T>(parts: seq<seq<T>>, k: nat)
    requires k <= |parts|
    ensures Flatten(parts) == Flatten(parts[..k]) + Flatten(parts[k..])
  {
    if k == 0 {
      assert parts[..0] == [] && parts[0..] == parts;
    } else {
      FlattenSplit(parts[1..], k - 1);
      assert parts[..k][1..] == parts[1..][..k - 1] && parts[1..][k - 1..] == parts[k..];
    }
  }

  // ----- What acceptance proves -----

  /** What an honest manifest says of a file: any of its digests -- the git one only together with
      its size, which is not zero then --, its size or none, and its chunk tree or none. */
  predicate Describes(expected: Hashes, size: nat, tree: Option<ChunkTree<Hash>>, file: seq<Byte>) {
    (expected.blake3 == None || expected.blake3 == Some(Blake3(file)))
    && (expected.sha256 == None || expected.sha256 == Some(Sha256(file)))
    && (expected.git == None || (expected.git == Some(GitBlob(|file|, file)) && size > 0))
    && (size == 0 || size == |file|)
    && (tree.Some? ==> tree.value.leafSize > 0 && tree.value.leaves == LeafHashes(Chunks(file, tree.value.leafSize)))
  }

  lemma DescribedIsAccepted(expected: Hashes, size: nat, tree: Option<ChunkTree<Hash>>, file: seq<Byte>)
    requires Describes(expected, size, tree, file)
    ensures WholeCheck(expected, size, tree, file)
  {
  }

  /** Against an honest description that holds at least one digest or tree, a stream is accepted, in
      whatever parts it comes, if and only if it is the file. */
  method VerifyFile(
    expected: Hashes, size: nat, tree: Option<ChunkTree<Hash>>, ghost file: seq<Byte>, parts: seq<seq<Byte>>)
    returns (r: Result<Hashes, Error>)
    requires Describes(expected, size, tree, file)
    requires expected.blake3.Some? || expected.sha256.Some? || expected.git.Some? || tree.Some?
    ensures r.Ok? <==> Flatten(parts) == file
    ensures r.Ok? ==> r.value.blake3 == Some(Blake3(file)) && r.value.sha256 == Some(Sha256(file))
  {
    r := VerifyParts(expected, size, tree, parts);
    if r.Ok? {
      AcceptedIsTheFile(expected, size, tree, Flatten(parts), file,
        if tree.Some? then tree.value.leafSize else 1);
    }
  }

  /** A stream accepted against any digest of a file, or against a chunk tree with the file's
      root -- whoever supplied the tree -- is that file. */
  lemma AcceptedIsTheFile(
    expected: Hashes, size: nat, tree: Option<ChunkTree<Hash>>, data: seq<Byte>, file: seq<Byte>, leafSize: nat)
    requires leafSize > 0 && WholeCheck(expected, size, tree, data)
    requires expected.blake3 == Some(Blake3(file)) || expected.sha256 == Some(Sha256(file))
      || expected.git == Some(GitBlob(|file|, file))
      || (tree.Some? && Root(tree.value.leaves) == RootOf(file, leafSize))
    ensures data == file
  {
    if tree.Some? && Root(tree.value.leaves) == RootOf(file, leafSize) {
      if tree.value.leafSize == 0 {
        RootGivesBytes(file, leafSize);
      } else {
        SameRootSameBytes(data, tree.value.leafSize, file, leafSize);
      }
    }
  }
}
