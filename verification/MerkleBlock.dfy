/** CPartialMerkleTree as an object: building it appends to its bit and hash lists, and extracting
  * reads through them with two running counters.
  */
module MerkleBlocks {
  import opened MerkleSpec
  import opened MerkleComplete
  import opened Sequences
  import opened Shifts

  /** The serialized form: transaction count, hashes, packed flag bits. */
  datatype Wire = Wire(nTransactions: nat, hashes: seq<Digest>, bytes: seq<bv8>)

  lemma Appended<T>(s: seq<T>, a: seq<T>, b: seq<T>)
    ensures s + a + b == s + (a + b)
  {}

  /** The encodings of a node's children, one after the other. */
  ghost function BuildChildren(hash: Hash2, txids: seq<Digest>, matches: seq<bool>, height: nat, pos: nat): Encoded
    requires |matches| == |txids| && pos < Width(|txids|, height) && height > 0
  {
    Children(|txids|, height, pos);
    var left := Build(hash, txids, matches, height - 1, 2 * pos);
    if 2 * pos + 1 < Width(|txids|, height - 1) then
      var right := Build(hash, txids, matches, height - 1, 2 * pos + 1);
      Encoded(left.bits + right.bits, left.hashes + right.hashes)
    else left
  }

  lemma BuildIsChildren(hash: Hash2, txids: seq<Digest>, matches: seq<bool>, height: nat, pos: nat)
    requires |matches| == |txids| && pos < Width(|txids|, height) && height > 0 && MatchUnder(matches, height, pos)
    ensures var e := BuildChildren(hash, txids, matches, height, pos);
            Build(hash, txids, matches, height, pos) == Encoded([true] + e.bits, e.hashes)
  {
    hide Build, Width, MatchUnder;
    BuildInner(hash, txids, matches, height, pos);
    var left := Build(hash, txids, matches, height - 1, 2 * pos);
    if 2 * pos + 1 < Width(|txids|, height - 1) {
      JoinIs(left, Build(hash, txids, matches, height - 1, 2 * pos + 1));
    } else {
      JoinIs(left, Encoded([], []));
      assert left.bits + [] == left.bits && left.hashes + [] == left.hashes;
    }
  }

  lemma JoinIs(left: Encoded, right: Encoded)
    ensures Join(left, right) == Encoded([true] + (left.bits + right.bits), left.hashes + right.hashes)
  {
    assert [true] + left.bits + right.bits == [true] + (left.bits + right.bits);
  }

  class PartialMerkleTree {
    const hash: Hash2
    const maxTransactions: nat   // MAX_BLOCK_SIZE / 60
    var nTransactions: nat
    var vBits: seq<bool>
    var vHash: seq<Digest>
    var fBad: bool

    /** An empty, unusable tree, to be filled by Unserialize. */
    constructor Empty(hash: Hash2, maxTransactions: nat)
      ensures this.hash == hash && this.maxTransactions == maxTransactions && nTransactions == 0 && fBad
    {
      this.hash, this.maxTransactions := hash, maxTransactions;
      nTransactions, vBits, vHash, fBad := 0, [], [], true;
    }

    /** Encode a selection of a block's txids. */
    constructor (hash: Hash2, maxTransactions: nat, txids: seq<Digest>, matches: seq<bool>)
      requires txids != [] && |matches| == |txids|
      ensures this.hash == hash && this.maxTransactions == maxTransactions
      ensures nTransactions == |txids| && !fBad
      ensures Encoded(vBits, vHash) == Build(hash, txids, matches, Height(|txids|), 0)
    {
      this.hash, this.maxTransactions := hash, maxTransactions;
      nTransactions, vBits, vHash, fBad := |txids|, [], [], false;
      new;
      var nHeight := CalcHeight();
      RootExists(|txids|, nHeight);
      TraverseAndBuild(nHeight, 0, txids, matches);
    }

    method CalcHeight() returns (nHeight: nat)
      ensures nHeight == Height(nTransactions)
    {
      nHeight := 0;
      while Width(nTransactions, nHeight) > 1
        invariant HeightFrom(nTransactions, nHeight) == Height(nTransactions)
        decreases Width(nTransactions, nHeight)
      {
        WidthStep(nTransactions, nHeight);
        nHeight := nHeight + 1;
      }
    }

    /** Whether a node is the parent of a matched txid. */
    method ParentOfMatch(height: nat, pos: nat, matches: seq<bool>) returns (fParentOfMatch: bool)
      requires nTransactions == |matches| && pos < Width(|matches|, height)
      ensures fParentOfMatch == MatchUnder(matches, height, pos)
    {
      fParentOfMatch := false;
      WidthIsLeaves(nTransactions, height, pos);
      var p := ShiftLeft(pos, height);
      while p < ShiftLeft(pos + 1, height) && p < nTransactions
        invariant p == Lo(height, pos) || p <= Hi(nTransactions, height, pos)
        invariant p >= Lo(height, pos)
        invariant fParentOfMatch <==> AnyMatch(matches, Lo(height, pos), p)
        decreases nTransactions - p
      {
        fParentOfMatch := fParentOfMatch || matches[p];
        p := p + 1;
      }
      ShiftLeftAdd(pos, 1, height);
    }

    method TraverseAndBuild(height: nat, pos: nat, txids: seq<Digest>, matches: seq<bool>)
      requires nTransactions == |txids| == |matches| && pos < Width(|txids|, height)
      modifies this`vBits, this`vHash
      ensures var e := Build(hash, txids, matches, height, pos);
              vBits == old(vBits) + e.bits && vHash == old(vHash) + e.hashes
      decreases height, 1
    {
      var fParentOfMatch := ParentOfMatch(height, pos, matches);
      ghost var bits := vBits;
      vBits := vBits + [fParentOfMatch];
      if height == 0 || !fParentOfMatch {
        vHash := vHash + [CalcHash(hash, txids, height, pos)];
      } else {
        TraverseChildren(height, pos, txids, matches);
        BuildIsChildren(hash, txids, matches, height, pos);
        Appended(bits, [true], BuildChildren(hash, txids, matches, height, pos).bits);
      }
    }

    /** Below a matched node: the left child, then the right child when there is one. */
    method TraverseChildren(height: nat, pos: nat, txids: seq<Digest>, matches: seq<bool>)
      requires nTransactions == |txids| == |matches| && pos < Width(|txids|, height)
      requires height > 0 && MatchUnder(matches, height, pos)
      modifies this`vBits, this`vHash
      ensures var e := BuildChildren(hash, txids, matches, height, pos);
              vBits == old(vBits) + e.bits && vHash == old(vHash) + e.hashes
      decreases height, 0
    {
      hide Build, MatchUnder;
      ghost var bits, hashes := vBits, vHash;
      Children(|txids|, height, pos);
      TraverseAndBuild(height - 1, pos * 2, txids, matches);
      if pos * 2 + 1 < Width(nTransactions, height - 1) {
        TraverseAndBuild(height - 1, pos * 2 + 1, txids, matches);
        ghost var left, right := Build(hash, txids, matches, height - 1, 2 * pos), Build(hash, txids, matches, height - 1, 2 * pos + 1);
        Appended(bits, left.bits, right.bits);
        Appended(hashes, left.hashes, right.hashes);
      }
    }

    method TraverseAndExtract(height: nat, pos: nat, bitsUsed0: nat, hashUsed0: nat, found0: seq<Digest>)
      returns (h: Digest, nBitsUsed: nat, nHashUsed: nat, found: seq<Digest>)
      modifies this`fBad
      ensures Extract(hash, nTransactions, vBits, vHash, height, pos, Cursor(bitsUsed0, hashUsed0, found0, old(fBad)))
              == (h, Cursor(nBitsUsed, nHashUsed, found, fBad))
      decreases height
    {
      nBitsUsed, nHashUsed, found := bitsUsed0, hashUsed0, found0;
      if nBitsUsed >= |vBits| {
        fBad := true;
        return 0, nBitsUsed, nHashUsed, found;
      }
      var fParentOfMatch := vBits[nBitsUsed];
      nBitsUsed := nBitsUsed + 1;
      if height == 0 || !fParentOfMatch {
        if nHashUsed >= |vHash| {
          fBad := true;
          return 0, nBitsUsed, nHashUsed, found;
        }
        h := vHash[nHashUsed];
        nHashUsed := nHashUsed + 1;
        if height == 0 && fParentOfMatch { found := found + [h]; }
      } else {
        var left, right;
        left, nBitsUsed, nHashUsed, found := TraverseAndExtract(height - 1, pos * 2, nBitsUsed, nHashUsed, found);
        if pos * 2 + 1 < Width(nTransactions, height - 1) {
          right, nBitsUsed, nHashUsed, found := TraverseAndExtract(height - 1, pos * 2 + 1, nBitsUsed, nHashUsed, found);
          if right == left { fBad := true; }
        } else {
          right := left;
        }
        h := hash(left, right);
      }
    }

    /** The matched txids and the Merkle root they are proved against, or root 0 on failure. */
    method Matches() returns (root: Digest, found: seq<Digest>)
      modifies this`fBad
      ensures old(fBad) ==> root == 0
      ensures !old(fBad) ==> (root, found) == ExtractMatches(hash, maxTransactions, nTransactions, vBits, vHash)
    {
      found := [];
      if nTransactions == 0 { return 0, found; }
      if nTransactions > maxTransactions { return 0, found; }
      if |vHash| > nTransactions { return 0, found; }
      if |vBits| < |vHash| { return 0, found; }
      var nHeight := CalcHeight();
      var nBitsUsed, nHashUsed;
      BadStays(hash, nTransactions, vBits, vHash, nHeight, 0, START.(bad := fBad));
      root, nBitsUsed, nHashUsed, found := TraverseAndExtract(nHeight, 0, 0, 0, found);
      if fBad || (nBitsUsed + 7) / 8 != (|vBits| + 7) / 8 || nHashUsed != |vHash| { return 0, found; }
    }

    /** Pack the flag bits, eight to a byte. */
    method Serialize() returns (w: Wire)
      ensures w.nTransactions == nTransactions && w.hashes == vHash
      ensures Unpack(w.bytes) == Padded(vBits)
    {
      var bytes: seq<bv8> := seq((|vBits| + 7) / 8, i => 0);
      for p := 0 to |vBits|
        invariant |bytes| == (|vBits| + 7) / 8
        invariant forall q | 0 <= q < 8 * |bytes| :: TestBit(bytes[q / 8], q % 8) == (q < p && vBits[q])
      {
        ghost var before := bytes;
        if vBits[p] {
          bytes := bytes[p / 8 := bytes[p / 8] | Mask(p % 8)];
          forall q | 0 <= q < 8 * |bytes| ensures TestBit(bytes[q / 8], q % 8) == (q < p + 1 && vBits[q]) {
            OrBit(before[q / 8], p % 8, q % 8);
          }
        }
      }
      w := Wire(nTransactions, vHash, bytes);
    }

    method Unserialize(w: Wire)
      modifies this
      ensures nTransactions == w.nTransactions && vHash == w.hashes && vBits == Unpack(w.bytes) && !fBad
    {
      nTransactions, vHash := w.nTransactions, w.hashes;
      vBits := [];
      for p := 0 to 8 * |w.bytes|
        invariant vBits == Unpack(w.bytes)[..p] && nTransactions == w.nTransactions && vHash == w.hashes
      {
        vBits := vBits + [TestBit(w.bytes[p / 8], p % 8)];
      }
      fBad := false;
    }
  }

  /** Build, serialize, unserialize and extract: the receiver gets the true root and exactly the
    * matched txids. */
  method SendProof(hash: Hash2, maxTransactions: nat, txids: seq<Digest>, matches: seq<bool>) returns (root: Digest, found: seq<Digest>)
    requires Injective(hash) && Distinct(txids) && |matches| == |txids| && 1 <= |txids| <= maxTransactions
    ensures root == Root(hash, txids) && found == Matched(txids, matches, 0, |txids|)
  {
    var sent := new PartialMerkleTree(hash, maxTransactions, txids, matches);
    var wire := sent.Serialize();
    var received := new PartialMerkleTree.Empty(hash, maxTransactions);
    received.Unserialize(wire);
    Completeness(hash, maxTransactions, txids, matches);
    root, found := received.Matches();
  }
}
