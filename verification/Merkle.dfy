/**
 The chunk tree of an artifact (hash.rs). Hashing is symbolic: a hash is the term that was
 hashed, so hashing is injective and leaves and interior nodes never collide, which is what
 the two domain bytes are for.
 */
module Merkle {
  import opened Common

  datatype Hash = Leaf(data: seq<Byte>) | Node(left: Hash, right: Hash)

  datatype ChunkTree<H> = ChunkTree(leafSize: nat, leaves: seq<H>)

  const MAX_LEAF_SIZE: nat := 256 * 1024 * 1024

  // ----- The root -----

  /** One level up: neighbours are paired, a lone last node is promoted unchanged. */
  function Level(hs: seq<Hash>): (r: seq<Hash>)
    ensures |r| == (|hs| + 1) / 2
  {
    if |hs| < 2 then hs else [Node(hs[0], hs[1])] + Level(hs[2..])
  }

  function Root(hs: seq<Hash>): Hash
    decreases |hs|
  {
    if hs == [] then Leaf([]) else if |hs| == 1 then hs[0] else Root(Level(hs))
  }

  method NextLevel(level: seq<Hash>) returns (next: seq<Hash>)
    ensures next == Level(level)
  {
    next := [];
    var i := 0;
    while i < |level|
      invariant i <= |level| && next + Level(level[i..]) == Level(level)
    {
      LevelFrom(level, i);
      if i + 2 <= |level| {
        next := next + [Node(level[i], level[i + 1])];
        i := i + 2;
      } else {
        next := next + [level[i]];
        i := i + 1;
      }
    }
    assert level[i..] == [];
  }

  lemma LevelFrom(level: seq<Hash>, i: nat)
    requires i < |level|
    ensures i + 2 <= |level| ==> Level(level[i..]) == [Node(level[i], level[i + 1])] + Level(level[i + 2..])
    ensures i + 1 == |level| ==> Level(level[i..]) == [level[i]] + Level(level[i + 1..])
  {
    if i + 2 <= |level| {
      assert level[i..][2..] == level[i + 2..];
    } else {
      assert level[i..] == [level[i]] && level[i + 1..] == [];
    }
  }

  method MerkleRoot(leaves: seq<Hash>) returns (root: Hash)
    ensures root == Root(leaves)
  {
    if leaves == [] {
      return Leaf([]);
    }
    var level := leaves;
    while |level| > 1
      invariant level != [] && Root(level) == Root(leaves)
      decreases |level|
    {
      assert Root(level) == Root(Level(level));
      level := NextLevel(level);
    }
    root := level[0];
  }

  /** The bytes at the leaves below a hash, left to right: what a root commits to. */
  function Fringe(h: Hash): seq<Byte> {
    match h
    case Leaf(data) => data
    case Node(l, r) => Fringe(l) + Fringe(r)
  }

  function Fringes(hs: seq<Hash>): seq<Byte> {
    if hs == [] then [] else Fringe(hs[0]) + Fringes(hs[1..])
  }

  lemma {:induction false} LevelFringes(hs: seq<Hash>)
    ensures Fringes(Level(hs)) == Fringes(hs)
  {
    if |hs| >= 2 {
      LevelFringes(hs[2..]);
      var a, b := hs[0], hs[1];
      assert hs[1..][1..] == hs[2..];
      assert Level(hs)[1..] == Level(hs[2..]);
      assert Fringe(a) + Fringe(b) + Fringes(hs[2..]) == Fringe(a) + (Fringe(b) + Fringes(hs[2..]));
    }
  }

  /** Climbing to the root keeps the bytes below, for every number of leaves. */
  lemma {:induction false} RootFringe(hs: seq<Hash>)
    ensures Fringe(Root(hs)) == Fringes(hs)
    decreases |hs|
  {
    if |hs| == 1 {
      assert Fringes(hs[1..]) == [];
    } else if |hs| > 1 {
      LevelFringes(hs);
      RootFringe(Level(hs));
    }
  }

  predicate IsPowerOfTwo(p: nat) { p == 1 || (p > 1 && p % 2 == 0 && IsPowerOfTwo(p / 2)) }

  lemma LevelFirst(hs: seq<Hash>)
    requires |hs| >= 2
    ensures Level(hs) == [Node(hs[0], hs[1])] + Level(hs[2..])
  {
  }

  lemma LevelTwoMore(hs: seq<Hash>, p: nat)
    requires 2 <= p <= |hs| && Level(hs[2..]) == Level(hs[2..p]) + Level(hs[p..])
    ensures Level(hs) == Level(hs[..p]) + Level(hs[p..])
  {
    LevelFirst(hs);
    LevelFirst(hs[..p]);
    assert hs[..p][2..] == hs[2..p];
    Regroup([Node(hs[0], hs[1])], Level(hs[2..p]), Level(hs[p..]));
  }

  lemma {:induction false} LevelSplits(hs: seq<Hash>, p: nat)
    requires p <= |hs| && p % 2 == 0
    ensures Level(hs) == Level(hs[..p]) + Level(hs[p..])
  {
    if p == 0 {
      assert hs[..0] == [] && hs[0..] == hs;
    } else {
      LevelSplits(hs[2..], p - 2);
      assert hs[2..][..p - 2] == hs[2..p] && hs[2..][p - 2..] == hs[p..];
      LevelTwoMore(hs, p);
    }
  }

  /** The shape of the tree: the left half below a root is as large a complete tree as leaves
      something for the right half, and only one leaf is its own root. */
  lemma {:induction false} RootSplits(hs: seq<Hash>, p: nat)
    requires IsPowerOfTwo(p) && p < |hs| <= 2 * p
    ensures Root(hs) == Node(Root(hs[..p]), Root(hs[p..]))
    decreases p
  {
    if p == 1 {
      assert hs[2..] == [] && hs[..1] == [hs[0]] && hs[1..] == [hs[1]];
      assert Level(hs) == [Node(hs[0], hs[1])];
    } else {
      var up, q := Level(hs), p / 2;
      LevelSplits(hs, p);
      RootSplits(up, q);
      assert up[..q] == Level(hs[..p]) && up[q..] == Level(hs[p..]);
      RootOfLevel(hs[..p]);
      RootOfLevel(hs[p..]);
    }
  }

  lemma RootOfLevel(hs: seq<Hash>)
    ensures Root(Level(hs)) == Root(hs)
  {
  }

  /** The roots of one, two and three leaves. */
  lemma SmallRoots(a: Hash, b: Hash, c: Hash)
    ensures Root([a]) == a && Root([a, b]) == Node(a, b) && Root([a, b, c]) == Node(Node(a, b), c)
  {
    assert [a, b][..1] == [a] && [a, b][1..] == [b];
    RootSplits([a, b], 1);
    assert [a, b, c][..2] == [a, b] && [a, b, c][2..] == [c];
    RootSplits([a, b, c], 2);
  }

  // ----- Leaves of a file -----

  /** Fixed-size pieces of a file; only the last may be short. */
  function Chunks(data: seq<Byte>, size: nat): (r: seq<seq<Byte>>)
    requires size > 0
    decreases |data|
  {
    if data == [] then [] else [data[..Min(size, |data|)]] + Chunks(data[Min(size, |data|)..], size)
  }

  function LeafHashes(chunks: seq<seq<Byte>>): (r: seq<Hash>)
    ensures |r| == |chunks| && forall i :: 0 <= i < |r| ==> r[i] == Leaf(chunks[i])
  {
    seq(|chunks|, i requires 0 <= i < |chunks| => Leaf(chunks[i]))
  }

  lemma {:induction false} ChunksFlatten(data: seq<Byte>, size: nat)
    requires size > 0
    ensures Flatten(Chunks(data, size)) == data
    decreases |data|
  {
    if data != [] {
      var k := Min(size, |data|);
      ChunksFlatten(data[k..], size);
      assert Chunks(data, size)[1..] == Chunks(data[k..], size);
      assert data == data[..k] + data[k..];
    }
  }

  lemma {:induction false} FringesOfLeaves(chunks: seq<seq<Byte>>)
    ensures Fringes(LeafHashes(chunks)) == Flatten(chunks)
  {
    if chunks != [] {
      FringesOfLeaves(chunks[1..]);
      assert LeafHashes(chunks)[1..] == LeafHashes(chunks[1..]);
    }
  }

  function RootOf(data: seq<Byte>, size: nat): Hash
    requires size > 0
  {
    Root(LeafHashes(Chunks(data, size)))
  }

  /** The root gives the file back: reading its fringe inverts chunking and climbing. */
  lemma RootGivesBytes(data: seq<Byte>, size: nat)
    requires size > 0
    ensures Fringe(RootOf(data, size)) == data
  {
    RootFringe(LeafHashes(Chunks(data, size)));
    FringesOfLeaves(Chunks(data, size));
    ChunksFlatten(data, size);
  }

  /** Two files with one root are one file, whatever their lengths and leaf sizes. */
  lemma SameRootSameBytes(a: seq<Byte>, sizeA: nat, b: seq<Byte>, sizeB: nat)
    requires sizeA > 0 && sizeB > 0 && RootOf(a, sizeA) == RootOf(b, sizeB)
    ensures a == b
  {
    RootGivesBytes(a, sizeA);
    RootGivesBytes(b, sizeB);
  }

  /** Full pieces in front come off one by one. */
  lemma {:induction false} ChunksOf(full: seq<seq<Byte>>, rest: seq<Byte>, size: nat)
    requires size > 0
    requires forall i :: 0 <= i < |full| ==> |full[i]| == size
    ensures Chunks(Flatten(full) + rest, size) == full + Chunks(rest, size)
  {
    if full == [] {
      assert Flatten(full) + rest == rest;
    } else {
      ChunksOf(full[1..], rest, size);
      assert Flatten(full) + rest == full[0] + (Flatten(full[1..]) + rest);
      FirstChunk(full[0], Flatten(full[1..]) + rest, size);
      assert full == [full[0]] + full[1..];
    }
  }

  lemma FirstChunk(first: seq<Byte>, rest: seq<Byte>, size: nat)
    requires |first| == size > 0
    ensures Chunks(first + rest, size) == [first] + Chunks(rest, size)
  {
    assert (first + rest)[..size] == first && (first + rest)[size..] == rest;
  }

  /** Reads until a leaf is full or the file ends; each read may return fewer bytes than
      asked for. */
  method FillLeaf(file: seq<Byte>, pos: nat, size: nat) returns (buf: seq<Byte>)
    requires pos <= |file|
    ensures buf == file[pos..Min(pos + size, |file|)]
  {
    buf := [];
    while |buf| < size && pos + |buf| < |file|
      invariant |buf| <= size && pos + |buf| <= |file|
      invariant buf == file[pos..pos + |buf|]
      decreases size - |buf|
    {
      var at, most := pos + |buf|, Min(size - |buf|, |file| - pos - |buf|);
      var n :| 1 <= n <= most;
      buf := buf + file[at..at + n];
    }
  }

  lemma LastChunk(full: seq<seq<Byte>>, last: seq<Byte>, size: nat)
    requires |last| < size
    requires forall i :: 0 <= i < |full| ==> |full[i]| == size
    ensures Chunks(Flatten(full) + last, size) == full + if last == [] then [] else [last]
  {
    ChunksOf(full, last, size);
    if last != [] {
      assert last[..|last|] == last && last[|last|..] == [];
    }
  }

  lemma LeafHashesAppend(full: seq<seq<Byte>>, last: seq<Byte>)
    ensures LeafHashes(full + [last]) == LeafHashes(full) + [Leaf(last)]
  {
  }

  /** `ChunkTree::from_file_cancellable`; `cancelled(k)` is the answer to the k-th poll. */
  method FromFile(file: seq<Byte>, leafSize: nat, cancelled: nat -> bool)
    returns (tree: Option<ChunkTree<Hash>>)
    ensures tree.Some? ==>
      tree.value.leafSize == Max(1, Min(leafSize, MAX_LEAF_SIZE))
      && tree.value.leaves == LeafHashes(Chunks(file, tree.value.leafSize))
    ensures tree.None? ==> exists k :: cancelled(k)
  {
    var size := Max(1, Min(leafSize, MAX_LEAF_SIZE));
    var leaves: seq<Hash> := [];
    ghost var full: seq<seq<Byte>> := [];
    var pos, polls := 0, 0;
    while true
      invariant pos <= |file|
      invariant forall i :: 0 <= i < |full| ==> |full[i]| == size
      invariant file[..pos] == Flatten(full) && leaves == LeafHashes(full)
      decreases |file| - pos
    {
      if cancelled(polls) {
        return None;
      }
      polls := polls + 1;
      var buf := FillLeaf(file, pos, size);
      if |buf| < size {
        assert file == file[..pos] + buf;
        LastChunk(full, buf, size);
        if buf != [] {
          LeafHashesAppend(full, buf);
          leaves := leaves + [Leaf(buf)];
        } else {
          assert full + [] == full;
        }
        break;
      }
      assert file[..pos + size] == file[..pos] + buf;
      FlattenAppend(full, buf);
      LeafHashesAppend(full, buf);
      full := full + [buf];
      leaves := leaves + [Leaf(buf)];
      pos := pos + size;
    }
    tree := Some(ChunkTree(size, leaves));
  }
}
