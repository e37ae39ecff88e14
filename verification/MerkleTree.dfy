/** The full Merkle tree of a block, built level by level, and the check for lists that have been tampered with.
  */
module MerkleTree {
  import opened MerkleSpec
  import opened Shifts

  /** Pairs are hashed together; a last node without a partner is paired with itself. */
  function NextLevel(hash: Hash2, s: seq<Digest>): (r: seq<Digest>)
    ensures |r| == (|s| + 1) / 2
  {
    seq((|s| + 1) / 2, i requires 0 <= i < (|s| + 1) / 2 => hash(s[2 * i], s[if 2 * i + 1 < |s| then 2 * i + 1 else 2 * i]))
  }

  /** Two identical hashes at the end of a level are paired with each other. */
  predicate TwinAtEnd(s: seq<Digest>) { |s| >= 2 && |s| % 2 == 0 && s[|s| - 2] == s[|s| - 1] }

  function Tree(hash: Hash2, s: seq<Digest>): seq<Digest>
    decreases |s|
  {
    if |s| <= 1 then s else s + Tree(hash, NextLevel(hash, s))
  }

  predicate Mutated(hash: Hash2, s: seq<Digest>)
    decreases |s|
  {
    |s| > 1 && (TwinAtEnd(s) || Mutated(hash, NextLevel(hash, s)))
  }

  function TreeRoot(hash: Hash2, s: seq<Digest>): Digest
    decreases |s|
  {
    if s == [] then 0 else if |s| == 1 then s[0] else TreeRoot(hash, NextLevel(hash, s))
  }

  lemma TreeStep(hash: Hash2, level: seq<Digest>)
    requires |level| > 1
    ensures Tree(hash, level) == level + Tree(hash, NextLevel(hash, level))
  {
    hide NextLevel;
  }

  lemma RootStep(hash: Hash2, level: seq<Digest>)
    requires |level| > 1
    ensures TreeRoot(hash, level) == TreeRoot(hash, NextLevel(hash, level))
    ensures Mutated(hash, level) <==> TwinAtEnd(level) || Mutated(hash, NextLevel(hash, level))
  {
    hide NextLevel, TwinAtEnd;
  }

  /** What a level contributes to the whole. */
  lemma LevelDone(hash: Hash2, before: seq<Digest>, level: seq<Digest>)
    requires |level| > 1
    ensures before + Tree(hash, level) == before + level + Tree(hash, NextLevel(hash, level))
    ensures TreeRoot(hash, level) == TreeRoot(hash, NextLevel(hash, level))
    ensures Mutated(hash, level) <==> TwinAtEnd(level) || Mutated(hash, NextLevel(hash, level))
  {
    hide Tree, TreeRoot, Mutated, NextLevel, TwinAtEnd;
    TreeStep(hash, level);
    RootStep(hash, level);
    assert before + (level + Tree(hash, NextLevel(hash, level))) == before + level + Tree(hash, NextLevel(hash, level));
  }

  /** The last level is the root alone, or empty. */
  lemma Finished(hash: Hash2, tree: seq<Digest>, j: nat)
    requires j <= |tree| <= j + 1
    ensures tree[..j] + Tree(hash, tree[j..]) == tree && !Mutated(hash, tree[j..])
    ensures TreeRoot(hash, tree[j..]) == if j == |tree| then 0 else tree[j]
  {
    assert tree[..j] + tree[j..] == tree;
  }

  // ---- The loops -----------------------------------------------------------------------------

  /** BuildMerkleTree: all levels one after the other, the root, and whether the list looks tampered with. */
  method BuildMerkleTree(hash: Hash2, txids: seq<Digest>) returns (root: Digest, vMerkleTree: seq<Digest>, mutated: bool)
    ensures vMerkleTree == Tree(hash, txids) && root == TreeRoot(hash, txids) && mutated == Mutated(hash, txids)
  {
    hide Tree, TreeRoot, Mutated, NextLevel, TwinAtEnd;
    vMerkleTree, mutated := txids, false;
    var j, nSize := 0, |txids|;
    while nSize > 1
      invariant 0 <= j <= |vMerkleTree| && j + nSize == |vMerkleTree|
      invariant nSize == 0 ==> txids == []
      invariant vMerkleTree[..j] + Tree(hash, vMerkleTree[j..]) == Tree(hash, txids)
      invariant TreeRoot(hash, vMerkleTree[j..]) == TreeRoot(hash, txids)
      invariant (mutated || Mutated(hash, vMerkleTree[j..])) == Mutated(hash, txids)
      decreases nSize
    {
      ghost var before, level := vMerkleTree[..j], vMerkleTree[j..];
      vMerkleTree, mutated := BuildLevel(hash, vMerkleTree, j, nSize, mutated);
      LevelDone(hash, before, level);
      j := j + nSize;
      nSize := (nSize + 1) / 2;
      assert vMerkleTree[..j] == before + level && vMerkleTree[j..] == NextLevel(hash, level);
    }
    Finished(hash, vMerkleTree, j);
    root := if |vMerkleTree| == 0 then 0 else vMerkleTree[|vMerkleTree| - 1];
  }

  method BuildLevel(hash: Hash2, tree: seq<Digest>, j: nat, nSize: nat, mutated0: bool)
    returns (vMerkleTree: seq<Digest>, mutated: bool)
    requires nSize > 1 && j + nSize == |tree|
    ensures vMerkleTree == tree + NextLevel(hash, tree[j..]) && mutated == (mutated0 || TwinAtEnd(tree[j..]))
  {
    vMerkleTree, mutated := tree, mutated0;
    ghost var level := tree[j..];
    var i := 0;
    while i < nSize
      invariant i <= nSize + 1 && i % 2 == 0
      invariant vMerkleTree == tree + NextLevel(hash, level)[..i / 2]
      invariant mutated == (mutated0 || (i >= nSize && TwinAtEnd(level)))
      decreases nSize - i
    {
      var i2 := if i + 1 < nSize - 1 then i + 1 else nSize - 1;
      if i2 == i + 1 && i2 + 1 == nSize && vMerkleTree[j + i] == vMerkleTree[j + i2] {
        mutated := true;
      }
      vMerkleTree := vMerkleTree + [hash(vMerkleTree[j + i], vMerkleTree[j + i2])];
      assert vMerkleTree[j + i] == level[i] && vMerkleTree[j + i2] == level[i2];
      assert NextLevel(hash, level)[..i / 2 + 1] == NextLevel(hash, level)[..i / 2] + [NextLevel(hash, level)[i / 2]];
      i := i + 2;
    }
    assert NextLevel(hash, level)[..|NextLevel(hash, level)|] == NextLevel(hash, level);
  }

  // ---- The same root as the partial tree's --------------------------------------------------

  /** The level of a given height. */
  function Level(hash: Hash2, txids: seq<Digest>, height: nat): seq<Digest> {
    if height == 0 then txids else NextLevel(hash, Level(hash, txids, height - 1))
  }

  /** This level consists of the nodes of the partial tree at its height. */
  predicate LevelRight(hash: Hash2, txids: seq<Digest>, height: nat, level: seq<Digest>) {
    && |level| == Width(|txids|, height)
    && forall pos | 0 <= pos < |level| :: level[pos] == CalcHash(hash, txids, height, pos)
  }

  lemma {:induction false} LevelIs(hash: Hash2, txids: seq<Digest>, height: nat)
    ensures LevelRight(hash, txids, height, Level(hash, txids, height))
  {
    if height == 0 {
      WidthStep(|txids|, 0);
    } else {
      LevelIs(hash, txids, height - 1);
      NextLevelRight(hash, txids, height, Level(hash, txids, height - 1));
    }
  }

  lemma NextLevelRight(hash: Hash2, txids: seq<Digest>, height: nat, below: seq<Digest>)
    requires height > 0 && LevelRight(hash, txids, height - 1, below)
    ensures LevelRight(hash, txids, height, NextLevel(hash, below))
  {
    hide Width, NextLevel;
    WidthStep(|txids|, height - 1);
    var level := NextLevel(hash, below);
    forall pos | 0 <= pos < |level| ensures level[pos] == CalcHash(hash, txids, height, pos) {
      Children(|txids|, height, pos);
      NextNode(hash, below, pos);
    }
  }

  lemma NextNode(hash: Hash2, s: seq<Digest>, i: nat)
    requires i < (|s| + 1) / 2
    ensures 2 * i < |s| && NextLevel(hash, s)[i] == hash(s[2 * i], if 2 * i + 1 < |s| then s[2 * i + 1] else s[2 * i])
  {}

  lemma {:induction false} BelowHeight(n: nat, height: nat, j: nat)
    requires height <= j < HeightFrom(n, height)
    ensures Width(n, j) > 1
    decreases j - height
  {
    if height < j { BelowHeight(n, height + 1, j); }
  }

  lemma {:induction false} RootFromLevel(hash: Hash2, txids: seq<Digest>, height: nat)
    requires height <= Height(|txids|)
    ensures TreeRoot(hash, Level(hash, txids, height)) == TreeRoot(hash, txids)
  {
    hide TreeRoot, NextLevel, HeightFrom, Width, CalcHash;
    if height > 0 {
      RootFromLevel(hash, txids, height - 1);
      LevelIs(hash, txids, height - 1);
      BelowHeight(|txids|, 0, height - 1);
      RootStep(hash, Level(hash, txids, height - 1));
    }
  }

  /** The partial tree's root is that of the block. */
  lemma SameRoot(hash: Hash2, txids: seq<Digest>)
    requires txids != []
    ensures TreeRoot(hash, txids) == Root(hash, txids)
  {
    LevelIs(hash, txids, Height(|txids|));
    assert |Level(hash, txids, Height(|txids|))| == 1;
    RootFromLevel(hash, txids, Height(|txids|));
  }

  // ---- Lists that look tampered with --------------------------------------------------------

  /** How many levels there are above the list. */
  function Depth(n: nat): nat { if n <= 1 then 0 else 1 + Depth((n + 1) / 2) }

  lemma SamePair(hash: Hash2, a: seq<Digest>, b: seq<Digest>, i: nat)
    requires Injective(hash) && NextLevel(hash, a) == NextLevel(hash, b) && i < (|a| + 1) / 2
    ensures i < (|b| + 1) / 2 && a[2 * i] == b[2 * i]
    ensures a[if 2 * i + 1 < |a| then 2 * i + 1 else 2 * i] == b[if 2 * i + 1 < |b| then 2 * i + 1 else 2 * i]
  {
    assert |NextLevel(hash, a)| == |NextLevel(hash, b)| && NextLevel(hash, a)[i] == NextLevel(hash, b)[i];
  }

  /** A longer list with the same next level ends in a twin. */
  lemma LongerIsTwin(hash: Hash2, a: seq<Digest>, b: seq<Digest>)
    requires Injective(hash) && NextLevel(hash, a) == NextLevel(hash, b) && |a| > |b| > 1
    ensures TwinAtEnd(a)
  {
    assert |NextLevel(hash, a)| == |NextLevel(hash, b)|;
    SamePair(hash, a, b, (|a| + 1) / 2 - 1);
  }

  /** Two lists with the same next level are the same, unless one of them ends in a twin. */
  lemma SameNextLevel(hash: Hash2, a: seq<Digest>, b: seq<Digest>)
    requires Injective(hash) && NextLevel(hash, a) == NextLevel(hash, b) && !TwinAtEnd(a) && !TwinAtEnd(b)
    requires |a| > 1 && |b| > 1
    ensures a == b
  {
    hide NextLevel, TwinAtEnd;
    if |a| > |b| {
      LongerIsTwin(hash, a, b);
    } else if |b| > |a| {
      LongerIsTwin(hash, b, a);
    } else {
      forall k | 0 <= k < |a| ensures a[k] == b[k] { SamePair(hash, a, b, k / 2); }
    }
  }

  /** Lists of which neither looks tampered with, in trees of the same depth, have the same root only if they are
    * the same list. */
  lemma {:induction false} SameRootSameList(hash: Hash2, a: seq<Digest>, b: seq<Digest>)
    requires Injective(hash) && !Mutated(hash, a) && !Mutated(hash, b)
    requires a != [] && b != [] && Depth(|a|) == Depth(|b|)
    ensures TreeRoot(hash, a) == TreeRoot(hash, b) <==> a == b
    decreases |a|
  {
    if TreeRoot(hash, a) == TreeRoot(hash, b) && |a| > 1 {
      SameRootSameList(hash, NextLevel(hash, a), NextLevel(hash, b));
      SameNextLevel(hash, a, b);
    }
  }

  /** The check is needed: repeating the last of three txids does not change the root, whatever the hash; and it is
    * the longer list that is found out. */
  lemma RepeatedLast(hash: Hash2, x: Digest, y: Digest, z: Digest)
    ensures TreeRoot(hash, [x, y, z, z]) == TreeRoot(hash, [x, y, z]) && Mutated(hash, [x, y, z, z])
  {
    assert NextLevel(hash, [x, y, z, z]) == NextLevel(hash, [x, y, z]) == [hash(x, y), hash(z, z)];
  }
}
