/** How many bytes a partial Merkle tree takes on the wire, against the size its header file guarantees.
  */
module MerkleSize {
  import opened MerkleSpec
  import opened MerkleComplete
  import opened Shifts

  /** GetSizeOfCompactSize: the bytes of a length prefix. */
  function CompactSize(size: nat): nat {
    if size < 253 then 1 else if size <= 0xFFFF then 3 else if size <= 0xFFFF_FFFF then 5 else 9
  }

  function FlagBytes(e: Encoded): nat { (|e.bits| + 7) / 8 }

  function Prefixes(e: Encoded): nat { CompactSize(|e.hashes|) + CompactSize(FlagBytes(e)) }

  /** The number of transactions, the hashes and the flag bytes, the latter two with their lengths. */
  function ByteSize(e: Encoded): nat { 4 + Prefixes(e) + 32 * |e.hashes| + FlagBytes(e) }

  /** 10 + ceil(32.25 * N) */
  function GuaranteedSize(n: nat): nat { 10 + (129 * n + 3) / 4 }

  /** The encoding of a block's transactions of which some are matched. */
  function Encoding(hash: Hash2, txids: seq<Digest>, matches: seq<bool>): Encoded
    requires txids != []
  {
    Build(hash, txids, matches, Height(|txids|), 0)
  }

  /** Flag bytes beyond a quarter of the hashes, for so many nodes with a single child. */
  function ExtraBytes(n: nat, singles: nat): nat { (singles + 2 * ((n + 3) % 4)) / 8 }

  lemma FlagBytesAre(n: nat, singles: nat)
    requires n >= 1
    ensures (2 * n - 1 + singles + 7) / 8 == (n + 3) / 4 + ExtraBytes(n, singles)
    ensures (129 * n + 3) / 4 == 32 * n + (n + 3) / 4
  {
    var q, r := (n + 3) / 4, (n + 3) % 4;
    assert n == 4 * q + r - 3;
    assert 2 * n - 1 + singles + 7 == 8 * q + (singles + 2 * r);
  }

  /** The guarantee holds if and only if the two length prefixes and the extra flag bytes, which come from
    * nodes with a single child above a match, take at most six bytes. */
  lemma GuaranteedSizeIff(hash: Hash2, txids: seq<Digest>, matches: seq<bool>)
    requires txids != [] && |matches| == |txids|
    ensures var e, singles := Encoding(hash, txids, matches), Singles(matches, Height(|txids|), 0);
            && FlagBytes(e) == (|e.hashes| + 3) / 4 + ExtraBytes(|e.hashes|, singles)
            && (ByteSize(e) <= GuaranteedSize(|e.hashes|) <==> Prefixes(e) + ExtraBytes(|e.hashes|, singles) <= 6)
  {
    BitCount(hash, txids, matches, Height(|txids|), 0);
    FlagBytesAre(|Encoding(hash, txids, matches).hashes|, Singles(matches, Height(|txids|), 0));
  }

  /** The prefixes and the extra bytes, for n hashes and so many nodes with a single child. */
  function Overhead(n: nat, singles: nat): nat {
    CompactSize(n) + CompactSize((n + 3) / 4 + ExtraBytes(n, singles)) + ExtraBytes(n, singles)
  }

  lemma OverheadCases(n: nat, singles: nat, h: nat)
    requires n >= 1 && singles <= h
    ensures n <= 252 && h <= 33 ==> Overhead(n, singles) <= 6
    ensures n <= 0xFFFF && singles == 0 ==> Overhead(n, singles) <= 6
    ensures n <= 0xFFFF && h <= 0xFFFF ==> Overhead(n, singles) <= 6 + (h + 6) / 8
    ensures n > 0xFFFF ==> Overhead(n, singles) > 6
  {
    assert singles <= h && (n + 3) % 4 <= 3;
    assert ExtraBytes(n, singles) <= (h + 6) / 8;
  }

  /** The guarantee holds for at most 252 hashes in a tree of at most 33 levels above the leaves, and for at
    * most 65535 when no match lies below a node that lacks its right child; it fails for more than 65535.
    * Up to there one more byte for every eight levels is always enough. */
  lemma GuaranteedSizeCases(hash: Hash2, txids: seq<Digest>, matches: seq<bool>)
    requires txids != [] && |matches| == |txids|
    ensures var e, h := Encoding(hash, txids, matches), Height(|txids|);
            var n := |e.hashes|;
            && (n <= 252 && h <= 33 ==> ByteSize(e) <= GuaranteedSize(n))
            && (n <= 0xFFFF && AllPaired(matches, 0, |txids|, h) ==> ByteSize(e) <= GuaranteedSize(n))
            && (n <= 0xFFFF && h <= 0xFFFF ==> ByteSize(e) <= GuaranteedSize(n) + (h + 6) / 8)
            && (n > 0xFFFF ==> ByteSize(e) > GuaranteedSize(n))
  {
    hide Build, Height, Singles, AllPaired, CompactSize, ExtraBytes;
    var n, h := |Encoding(hash, txids, matches).hashes|, Height(|txids|);
    var singles := Singles(matches, h, 0);
    GuaranteedSizeIff(hash, txids, matches);
    BitCount(hash, txids, matches, h, 0);
    FlagBytesAre(n, singles);
    DocumentedBitBoundIff(hash, txids, matches);
    SinglesPerLevel(matches, h, 0);
    OverheadCases(n, singles, h);
  }

  // ---- Trees for which the guarantee fails -------------------------------------------------

  predicate AllMatched(matches: seq<bool>) { forall i | 0 <= i < |matches| :: matches[i] }

  lemma AllUnder(matches: seq<bool>, height: nat, pos: nat)
    requires AllMatched(matches) && pos < Width(|matches|, height)
    ensures MatchUnder(matches, height, pos)
  {
    SomeLeaf(|matches|, height, pos);
    assert matches[Lo(height, pos)];
  }

  /** With all txids matched the hashes are the txids, in order. */
  lemma {:induction false} AllHashes(hash: Hash2, txids: seq<Digest>, matches: seq<bool>, height: nat, pos: nat)
    requires |matches| == |txids| && AllMatched(matches) && pos < Width(|txids|, height)
    ensures Lo(height, pos) <= Hi(|txids|, height, pos) <= |txids|
    ensures Build(hash, txids, matches, height, pos).hashes == txids[Lo(height, pos)..Hi(|txids|, height, pos)]
    decreases height
  {
    hide Build, Width, Lo, Hi, MatchUnder, AllMatched, Join;
    var n := |txids|;
    SomeLeaf(n, height, pos);
    AllUnder(matches, height, pos);
    if height == 0 {
      LeafHash(hash, txids, matches, pos);
    } else {
      BuildInner(hash, txids, matches, height, pos);
      LeavesSplit(n, height, pos);
      AllHashes(hash, txids, matches, height - 1, 2 * pos);
      if 2 * pos + 1 < Width(n, height - 1) {
        AllHashes(hash, txids, matches, height - 1, 2 * pos + 1);
        JoinHashes(Build(hash, txids, matches, height - 1, 2 * pos), Build(hash, txids, matches, height - 1, 2 * pos + 1));
      } else {
        JoinHashes(Build(hash, txids, matches, height - 1, 2 * pos), Encoded([], []));
      }
    }
  }

  lemma JoinHashes(left: Encoded, right: Encoded)
    ensures Join(left, right).hashes == left.hashes + right.hashes
  {}

  lemma LeafHash(hash: Hash2, txids: seq<Digest>, matches: seq<bool>, pos: nat)
    requires |matches| == |txids| && pos < Width(|txids|, 0)
    ensures Lo(0, pos) <= Hi(|txids|, 0, pos) <= |txids| && pos < |txids|
    ensures Build(hash, txids, matches, 0, pos).hashes == [txids[pos]] == txids[Lo(0, pos)..Hi(|txids|, 0, pos)]
  {
    WidthStep(|txids|, 0);
  }

  /** The last leaf of a tree over 2^k + 1 of them: each of its first k ancestors has no other child. */
  lemma {:induction false} LoneColumn(matches: seq<bool>, k: nat, height: nat)
    requires AllMatched(matches) && |matches| == ShiftLeft(1, k) + 1 && height <= k
    ensures var pos := ShiftLeft(1, k - height);
            pos < Width(|matches|, height) && Singles(matches, height, pos) == height
    decreases height
  {
    var n, pos := |matches|, ShiftLeft(1, k - height);
    ShiftAgain(1, k - height, height);
    WidthIsLeaves(n, height, pos);
    if height > 0 {
      LoneColumn(matches, k, height - 1);
      ShiftLeftAdd(1, 1, k - height);
      assert ShiftLeft(1, k - (height - 1)) == 2 * pos;
      ShiftLeftAdd(2 * pos, 1, height - 1);
      Children(n, height, pos);
      AllUnder(matches, height, pos);
    }
  }

  lemma {:induction false} HeightFromIs(n: nat, height: nat, h: nat)
    requires height <= h && Width(n, h) <= 1 && forall j | height <= j < h :: Width(n, j) > 1
    ensures HeightFrom(n, height) == h
    decreases h - height
  {
    if height < h { HeightFromIs(n, height + 1, h); }
  }

  lemma {:induction false} ShiftMono(j: nat, k: nat)
    requires j <= k
    ensures ShiftLeft(1, j) <= ShiftLeft(1, k)
    decreases k
  {
    if j < k {
      ShiftMono(j, k - 1);
      ShiftLeftAdd(1, 1, k - 1);
    }
  }

  lemma HeightOfColumn(k: nat)
    ensures Height(ShiftLeft(1, k) + 1) == k + 1 && Width(ShiftLeft(1, k) + 1, k) == 2
  {
    var n := ShiftLeft(1, k) + 1;
    forall j | 0 <= j < k + 1 ensures Width(n, j) > 1 {
      ShiftMono(j, k);
      WidthIsLeaves(n, j, 1);
    }
    ShiftLeftAdd(1, 1, k);
    WidthIsLeaves(n, k, 2);
    WidthStep(n, k);
    HeightFromIs(n, 0, k + 1);
  }

  /** With 2^k + 1 txids, all matched, there are 2^k + 1 hashes and k nodes with a single child. */
  lemma ColumnSize(hash: Hash2, txids: seq<Digest>, matches: seq<bool>, k: nat)
    requires |txids| == |matches| == ShiftLeft(1, k) + 1 && AllMatched(matches)
    ensures |Encoding(hash, txids, matches).hashes| == |txids| && Singles(matches, Height(|txids|), 0) == k
  {
    var n := |txids|;
    HeightOfColumn(k);
    RootRange(n);
    AllHashes(hash, txids, matches, k + 1, 0);
    AllUnder(matches, k + 1, 0);
    NoSinglesBefore(matches, k, 0);
    LoneColumn(matches, k, k);
  }

  lemma TenTimes()
    ensures ShiftLeft(1, 10) == 1024
  {
    assert ShiftLeft(32, 5) == 1024;
    assert ShiftLeft(1, 10) == ShiftLeft(32, 5);
  }

  /** With 1025 txids, all matched, the encoding takes 33068 bytes, and the guarantee is 33067. */
  lemma GuaranteedSizeFails(hash: Hash2, txids: seq<Digest>, matches: seq<bool>)
    requires |txids| == |matches| == 1025 && AllMatched(matches)
    ensures var e := Encoding(hash, txids, matches); ByteSize(e) == 33068 && GuaranteedSize(|e.hashes|) == 33067
  {
    hide Build, Height, Singles, ShiftLeft, AllMatched;
    TenTimes();
    ColumnSize(hash, txids, matches, 10);
    GuaranteedSizeIff(hash, txids, matches);
  }
}
