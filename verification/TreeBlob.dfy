/** The chunk tree's file format (hash.rs, `to_bytes` and `from_bytes`): an 8-byte
    little-endian leaf size, then the 32-byte leaf hashes. */
module TreeBlob {
  import opened Common
  import opened Bytes
  import opened Merkle

  const HASH_LEN: nat := 32

  type Tree = ChunkTree<seq<Byte>>

  predicate IsTree(t: Tree) {
    t.leafSize < U64_LIMIT && forall i :: 0 <= i < |t.leaves| ==> |t.leaves[i]| == HASH_LEN
  }

  function Blob(t: Tree): seq<Byte> { LE(t.leafSize, 8) + Flatten(t.leaves) }

  method ToBytes(t: Tree) returns (out: seq<Byte>)
    ensures out == Blob(t)
  {
    out := LE(t.leafSize, 8);
    for i := 0 to |t.leaves|
      invariant out == Prefix(t, i)
    {
      PrefixNext(t, i);
      out := out + t.leaves[i];
    }
    assert t.leaves[..|t.leaves|] == t.leaves;
  }

  /** The blob with only the first `i` leaves. */
  function Prefix(t: Tree, i: nat): seq<Byte>
    requires i <= |t.leaves|
  {
    LE(t.leafSize, 8) + Flatten(t.leaves[..i])
  }

  lemma PrefixNext(t: Tree, i: nat)
    requires i < |t.leaves|
    ensures Prefix(t, i + 1) == Prefix(t, i) + t.leaves[i]
  {
    FlattenAppend(t.leaves[..i], t.leaves[i]);
    assert t.leaves[..i + 1] == t.leaves[..i] + [t.leaves[i]];
    Regroup(LE(t.leafSize, 8), Flatten(t.leaves[..i]), t.leaves[i]);
  }

  /** Parsing succeeds exactly on blobs of the right length, and what it returns prints back
      to the same blob. */
  method FromBytes(bytes: seq<Byte>) returns (r: Option<Tree>)
    ensures r.Some? <==> |bytes| >= 8 && (|bytes| - 8) % HASH_LEN == 0
    ensures r.Some? ==> IsTree(r.value) && Blob(r.value) == bytes
  {
    if |bytes| < 8 || (|bytes| - 8) % HASH_LEN != 0 {
      return None;
    }
    LEInverts(bytes[..8]);
    Powers();
    var leaves: seq<seq<Byte>> := [];
    var pos := 8;
    while pos < |bytes|
      invariant 8 <= pos <= |bytes| && (|bytes| - pos) % HASH_LEN == 0
      invariant forall i :: 0 <= i < |leaves| ==> |leaves[i]| == HASH_LEN
      invariant bytes[8..pos] == Flatten(leaves)
    {
      LeafRead(bytes, leaves, pos);
      leaves := leaves + [bytes[pos..pos + HASH_LEN]];
      pos := pos + HASH_LEN;
    }
    assert bytes == bytes[..8] + bytes[8..pos];
    return Some(ChunkTree(FromLE(bytes[..8]), leaves));
  }

  lemma LeafRead(bytes: seq<Byte>, leaves: seq<seq<Byte>>, pos: nat)
    requires 8 <= pos && pos + HASH_LEN <= |bytes| && bytes[8..pos] == Flatten(leaves)
    ensures bytes[8..pos + HASH_LEN] == Flatten(leaves + [bytes[pos..pos + HASH_LEN]])
  {
    FlattenAppend(leaves, bytes[pos..pos + HASH_LEN]);
    assert bytes[8..pos + HASH_LEN] == bytes[8..pos] + bytes[pos..pos + HASH_LEN];
  }

  lemma {:induction false} FlattenInjective(a: seq<seq<Byte>>, b: seq<seq<Byte>>)
    requires forall i :: 0 <= i < |a| ==> |a[i]| == HASH_LEN
    requires forall i :: 0 <= i < |b| ==> |b[i]| == HASH_LEN
    requires Flatten(a) == Flatten(b)
    ensures a == b
  {
    if a != [] && b != [] {
      assert Flatten(a)[..HASH_LEN] == a[0] && Flatten(b)[..HASH_LEN] == b[0];
      assert Flatten(a)[HASH_LEN..] == Flatten(a[1..]) && Flatten(b)[HASH_LEN..] == Flatten(b[1..]);
      FlattenInjective(a[1..], b[1..]);
      assert a == [a[0]] + a[1..] && b == [b[0]] + b[1..];
    }
  }

  lemma BlobInjective(a: Tree, b: Tree)
    requires IsTree(a) && IsTree(b) && Blob(a) == Blob(b)
    ensures a == b
  {
    assert Blob(a)[..8] == LE(a.leafSize, 8) && Blob(b)[..8] == LE(b.leafSize, 8);
    assert Blob(a)[8..] == Flatten(a.leaves) && Blob(b)[8..] == Flatten(b.leaves);
    Powers();
    FromLEInverts(a.leafSize, 8);
    FromLEInverts(b.leafSize, 8);
    FlattenInjective(a.leaves, b.leaves);
  }

  lemma {:induction false} FlattenLength(leaves: seq<seq<Byte>>)
    requires forall i :: 0 <= i < |leaves| ==> |leaves[i]| == HASH_LEN
    ensures |Flatten(leaves)| == HASH_LEN * |leaves|
  {
    if leaves != [] {
      FlattenLength(leaves[1..]);
    }
  }

  /** Writing a tree and reading it back is the identity. */
  method WriteThenRead(t: Tree) returns (out: seq<Byte>, r: Option<Tree>)
    requires IsTree(t)
    ensures r == Some(t)
  {
    out := ToBytes(t);
    FlattenLength(t.leaves);
    r := FromBytes(out);
    BlobInjective(r.value, t);
  }
}
