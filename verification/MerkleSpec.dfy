/** Partial Merkle trees (BIP 37, "Partial Merkle branch format") as functions: the full tree, the
  * depth-first encoding, the decoder, and the packing of the flag bits into bytes.
  */
module MerkleSpec {
  import opened Shifts

  type Digest = nat
  type Hash2 = (Digest, Digest) -> Digest

  ghost predicate Injective(hash: Hash2) {
    forall a, b, c, d :: hash(a, b) == hash(c, d) ==> a == c && b == d
  }

  // ---- Positions in the tree -------------------------------------------------------------

  /** CalcTreeWidth: number of nodes at a height of the tree over n leaves. */
  function Width(n: nat, height: nat): int { ShiftRight(LastLeaf(n, height), height) }

  function LastLeaf(n: nat, height: nat): nat { n + ShiftLeft(1, height) - 1 }

  /** Each level has half as many nodes as the one below, rounded up. */
  lemma WidthStep(n: nat, height: nat)
    ensures Width(n, 0) == n
    ensures Width(n, height + 1) == (Width(n, height) + 1) / 2
  {
    ShiftLeftAdd(1, 1, height);
    ShiftRightAdd(LastLeaf(n, height), 1, height);
  }

  /** A node exists exactly when its leftmost leaf does. */
  lemma {:induction false} WidthIsLeaves(n: nat, height: nat, pos: nat)
    ensures pos < Width(n, height) <==> ShiftLeft(pos, height) < n
  {
    if height == 0 {
      WidthStep(n, 0);
    } else {
      WidthStep(n, height - 1);
      WidthIsLeaves(n, height - 1, 2 * pos);
    }
  }

  lemma Children(n: nat, height: nat, pos: nat)
    requires height > 0 && pos < Width(n, height)
    ensures 2 * pos < Width(n, height - 1)
    ensures 2 * pos + 1 < Width(n, height - 1) <==> ShiftLeft(2 * pos + 1, height - 1) < n
  {
    WidthStep(n, height - 1);
    WidthIsLeaves(n, height - 1, 2 * pos + 1);
  }

  /** The leaves under a node: from its leftmost leaf up to that of its right neighbour. */
  function Lo(height: nat, pos: nat): nat { ShiftLeft(pos, height) }

  function Hi(n: nat, height: nat, pos: nat): nat {
    if ShiftLeft(pos + 1, height) < n then ShiftLeft(pos + 1, height) else n
  }

  lemma LeavesSplit(n: nat, height: nat, pos: nat)
    requires height > 0 && pos < Width(n, height)
    ensures Lo(height, pos) == Lo(height - 1, 2 * pos) <= Hi(n, height - 1, 2 * pos) <= Hi(n, height, pos) <= n
    ensures if 2 * pos + 1 < Width(n, height - 1)
            then Hi(n, height - 1, 2 * pos) == Lo(height - 1, 2 * pos + 1)
                 && Hi(n, height - 1, 2 * pos + 1) == Hi(n, height, pos)
            else Hi(n, height - 1, 2 * pos) == Hi(n, height, pos)
  {
    assert ShiftLeft(pos, height) == ShiftLeft(2 * pos, height - 1);
    assert ShiftLeft(pos + 1, height) == ShiftLeft(2 * pos + 2, height - 1);
    hide Width, ShiftLeft;
    Children(n, height, pos);
    WidthIsLeaves(n, height, pos);
    ShiftLeftAdd(2 * pos, 1, height - 1);
    ShiftLeftAdd(2 * pos + 1, 1, height - 1);
  }

  // ---- The full tree ---------------------------------------------------------------------

  /** CalcHash: a lone left child is paired with itself. */
  function CalcHash(hash: Hash2, txids: seq<Digest>, height: nat, pos: nat): Digest
    requires pos < Width(|txids|, height)
    decreases height
  {
    if height == 0 then
      WidthStep(|txids|, 0);
      txids[pos]
    else
      Children(|txids|, height, pos);
      var left := CalcHash(hash, txids, height - 1, 2 * pos);
      var right := if 2 * pos + 1 < Width(|txids|, height - 1) then CalcHash(hash, txids, height - 1, 2 * pos + 1) else left;
      hash(left, right)
  }

  /** Two nodes of one level with the same hash have the same leftmost txid. */
  lemma {:induction false} SameHashSameLeaf(hash: Hash2, txids: seq<Digest>, height: nat, p: nat, q: nat)
    requires Injective(hash) && p < Width(|txids|, height) && q < Width(|txids|, height)
    requires CalcHash(hash, txids, height, p) == CalcHash(hash, txids, height, q)
    ensures Lo(height, p) < |txids| && Lo(height, q) < |txids| && txids[Lo(height, p)] == txids[Lo(height, q)]
    decreases height
  {
    if height == 0 {
      WidthStep(|txids|, 0);
    } else {
      Children(|txids|, height, p);
      Children(|txids|, height, q);
      SameHashSameLeaf(hash, txids, height - 1, 2 * p, 2 * q);
    }
  }

  /** The first level that has a single node. */
  function Height(n: nat): (h: nat)
    ensures Width(n, h) <= 1
    ensures n >= 1 ==> Width(n, h) == 1
  {
    HeightFrom(n, 0)
  }

  function HeightFrom(n: nat, height: nat): (h: nat)
    ensures Width(n, h) <= 1
    ensures n >= 1 ==> Width(n, h) == 1
    decreases Width(n, height)
  {
    WidthStep(n, height);
    if Width(n, height) > 1 then HeightFrom(n, height + 1)
    else
      RootExists(n, height);
      height
  }

  lemma RootExists(n: nat, height: nat)
    ensures n >= 1 ==> Width(n, height) >= 1
  {
    if n >= 1 {
      WidthIsLeaves(n, height, 0);
      ShiftLeftAdd(0, 0, height);
    }
  }

  function Root(hash: Hash2, txids: seq<Digest>): Digest
    requires txids != []
  {
    CalcHash(hash, txids, Height(|txids|), 0)
  }

  // ---- The encoder -----------------------------------------------------------------------

  predicate AnyMatch(matches: seq<bool>, lo: nat, hi: nat) { exists i | lo <= i < hi && i < |matches| :: matches[i] }

  datatype Encoded = Encoded(bits: seq<bool>, hashes: seq<Digest>)

  /** TraverseAndBuild: what the traversal of one node appends. */
  function Build(hash: Hash2, txids: seq<Digest>, matches: seq<bool>, height: nat, pos: nat): Encoded
    requires pos < Width(|txids|, height)
    decreases height
  {
    var parentOfMatch := AnyMatch(matches, Lo(height, pos), Hi(|txids|, height, pos));
    if height == 0 || !parentOfMatch then Encoded([parentOfMatch], [CalcHash(hash, txids, height, pos)])
    else
      Children(|txids|, height, pos);
      var left := Build(hash, txids, matches, height - 1, 2 * pos);
      if 2 * pos + 1 < Width(|txids|, height - 1) then
        var right := Build(hash, txids, matches, height - 1, 2 * pos + 1);
        Encoded([true] + left.bits + right.bits, left.hashes + right.hashes)
      else Encoded([true] + left.bits, left.hashes)
  }

  // ---- The decoder -----------------------------------------------------------------------

  /** How far a traversal has come: bits and hashes used, matches found, and whether it failed. */
  datatype Cursor = Cursor(bitsUsed: nat, hashUsed: nat, found: seq<Digest>, bad: bool)

  /** TraverseAndExtract; a failure is noted and the traversal goes on with hash 0. */
  function Extract(hash: Hash2, n: nat, bits: seq<bool>, hashes: seq<Digest>, height: nat, pos: nat, c: Cursor): (Digest, Cursor)
    decreases height
  {
    if c.bitsUsed >= |bits| then (0, c.(bad := true))
    else
      var parentOfMatch := bits[c.bitsUsed];
      var c1 := c.(bitsUsed := c.bitsUsed + 1);
      if height == 0 || !parentOfMatch then
        if c1.hashUsed >= |hashes| then (0, c1.(bad := true))
        else
          var h := hashes[c1.hashUsed];
          var found := if height == 0 && parentOfMatch then c1.found + [h] else c1.found;
          (h, c1.(hashUsed := c1.hashUsed + 1, found := found))
      else
        var (left, c2) := Extract(hash, n, bits, hashes, height - 1, 2 * pos, c1);
        if 2 * pos + 1 < Width(n, height - 1) then
          var (right, c3) := Extract(hash, n, bits, hashes, height - 1, 2 * pos + 1, c2);
          (hash(left, right), if right == left then c3.(bad := true) else c3)
        else (hash(left, left), c2)
  }

  const START := Cursor(0, 0, [], false)

  /** ExtractMatches on a freshly received tree: 0 stands for failure. */
  function ExtractMatches(hash: Hash2, maxTransactions: nat, n: nat, bits: seq<bool>, hashes: seq<Digest>): (Digest, seq<Digest>) {
    if n == 0 || n > maxTransactions || |hashes| > n || |bits| < |hashes| then (0, [])
    else
      var (root, c) := Extract(hash, n, bits, hashes, Height(n), 0, START);
      (if c.bad || (c.bitsUsed + 7) / 8 != (|bits| + 7) / 8 || c.hashUsed != |hashes| then 0 else root, c.found)
  }

  // ---- Soundness -------------------------------------------------------------------------

  predicate Increasing(at: seq<nat>) { forall i, j | 0 <= i < j < |at| :: at[i] < at[j] }

  predicate Within(at: seq<nat>, lo: nat, hi: nat) { forall i | 0 <= i < |at| :: lo <= at[i] < hi }

  function Pick(txids: seq<Digest>, at: seq<nat>): (r: seq<Digest>)
    requires Within(at, 0, |txids|)
  {
    seq(|at|, i requires 0 <= i < |at| => txids[at[i]])
  }

  /** found is what one gets by reading txids at some increasing positions. */
  ghost predicate InOrderSubsequence(found: seq<Digest>, txids: seq<Digest>) {
    exists at: seq<nat> :: Increasing(at) && Within(at, 0, |txids|) && found == Pick(txids, at)
  }

  /** Between two moments of the traversal, the txids at these leaves were found. */
  predicate FoundAt(txids: seq<Digest>, lo: nat, hi: nat, before: seq<Digest>, after: seq<Digest>, at: seq<nat>) {
    Increasing(at) && hi <= |txids| && Within(at, lo, hi) && Within(at, 0, |txids|) && after == before + Pick(txids, at)
  }

  lemma FoundHere(txids: seq<Digest>, lo: nat, hi: nat, before: seq<Digest>, at: seq<nat>)
    requires lo < hi <= |txids| && (at == [] || at == [lo])
    ensures FoundAt(txids, lo, hi, before, before + (if at == [] then [] else [txids[lo]]), at)
  {
    assert Pick(txids, at) == if at == [] then [] else [txids[lo]];
  }

  lemma FoundAtJoin(txids: seq<Digest>, lo: nat, mid: nat, hi: nat,
                    f0: seq<Digest>, f1: seq<Digest>, f2: seq<Digest>, at1: seq<nat>, at2: seq<nat>)
    requires FoundAt(txids, lo, mid, f0, f1, at1) && FoundAt(txids, mid, hi, f1, f2, at2) && lo <= mid <= hi
    ensures FoundAt(txids, lo, hi, f0, f2, at1 + at2)
  {
    assert Pick(txids, at1 + at2) == Pick(txids, at1) + Pick(txids, at2);
  }

  lemma {:induction false} BadStays(hash: Hash2, n: nat, bits: seq<bool>, hashes: seq<Digest>, height: nat, pos: nat, c: Cursor)
    ensures c.bad ==> Extract(hash, n, bits, hashes, height, pos, c).1.bad
    decreases height
  {
    if c.bitsUsed < |bits| && height > 0 && bits[c.bitsUsed] {
      var c1 := c.(bitsUsed := c.bitsUsed + 1);
      BadStays(hash, n, bits, hashes, height - 1, 2 * pos, c1);
      BadStays(hash, n, bits, hashes, height - 1, 2 * pos + 1, Extract(hash, n, bits, hashes, height - 1, 2 * pos, c1).1);
    }
  }

  /** The traversal of a node ends well, on the node's true hash. */
  predicate EndsWell(hash: Hash2, txids: seq<Digest>, bits: seq<bool>, hashes: seq<Digest>, height: nat, pos: nat, c: Cursor)
    requires pos < Width(|txids|, height)
  {
    var (h, after) := Extract(hash, |txids|, bits, hashes, height, pos, c);
    !after.bad && h == CalcHash(hash, txids, height, pos)
  }

  function CursorAfter(hash: Hash2, n: nat, bits: seq<bool>, hashes: seq<Digest>, height: nat, pos: nat, c: Cursor): Cursor {
    Extract(hash, n, bits, hashes, height, pos, c).1
  }

  lemma EndsWellWithin(hash: Hash2, txids: seq<Digest>, bits: seq<bool>, hashes: seq<Digest>, height: nat, pos: nat, c: Cursor)
    requires pos < Width(|txids|, height) && EndsWell(hash, txids, bits, hashes, height, pos, c)
    ensures c.bitsUsed < |bits|
  {}

  /** At a node whose hash is stored, the one leaf is found or nothing. */
  lemma ExtractLeaf(hash: Hash2, txids: seq<Digest>, bits: seq<bool>, hashes: seq<Digest>, height: nat, pos: nat, c: Cursor)
    returns (at: seq<nat>)
    requires pos < Width(|txids|, height) && c.bitsUsed < |bits| && (height == 0 || !bits[c.bitsUsed])
    requires EndsWell(hash, txids, bits, hashes, height, pos, c)
    ensures FoundAt(txids, Lo(height, pos), Hi(|txids|, height, pos),
                    c.found, CursorAfter(hash, |txids|, bits, hashes, height, pos, c).found, at)
  {
    hide Injective, FoundAt;
    WidthIsLeaves(|txids|, height, pos);
    ShiftLeftAdd(pos, 1, height);
    if height == 0 { WidthStep(|txids|, 0); }
    at := if height == 0 && bits[c.bitsUsed] then [Lo(height, pos)] else [];
    FoundHere(txids, Lo(height, pos), Hi(|txids|, height, pos), c.found, at);
    assert c.found + [] == c.found;
  }

  lemma SamePair(hash: Hash2, a: Digest, b: Digest, c: Digest, d: Digest)
    requires Injective(hash) && hash(a, b) == hash(c, d)
    ensures a == c && b == d
  {}

  /** At a node that is descended into, the children end well, each on its true hash. */
  lemma ExtractChildren(hash: Hash2, txids: seq<Digest>, bits: seq<bool>, hashes: seq<Digest>, height: nat, pos: nat, c: Cursor)
    requires height > 0 && pos < Width(|txids|, height) && c.bitsUsed < |bits| && bits[c.bitsUsed] && Injective(hash)
    requires EndsWell(hash, txids, bits, hashes, height, pos, c)
    ensures 2 * pos < Width(|txids|, height - 1)
    ensures var n, c1 := |txids|, c.(bitsUsed := c.bitsUsed + 1);
            var c2, end := CursorAfter(hash, n, bits, hashes, height - 1, 2 * pos, c1), CursorAfter(hash, n, bits, hashes, height, pos, c);
            && EndsWell(hash, txids, bits, hashes, height - 1, 2 * pos, c1)
            && if 2 * pos + 1 < Width(n, height - 1) then
                 && EndsWell(hash, txids, bits, hashes, height - 1, 2 * pos + 1, c2)
                 && end.found == CursorAfter(hash, n, bits, hashes, height - 1, 2 * pos + 1, c2).found
               else end.found == c2.found
  {
    hide Injective, LastLeaf, ShiftLeft, ShiftRight;
    Children(|txids|, height, pos);
    var n, c1 := |txids|, c.(bitsUsed := c.bitsUsed + 1);
    var (l, c2) := Extract(hash, n, bits, hashes, height - 1, 2 * pos, c1);
    var left := CalcHash(hash, txids, height - 1, 2 * pos);
    if 2 * pos + 1 < Width(n, height - 1) {
      var (r, c3) := Extract(hash, n, bits, hashes, height - 1, 2 * pos + 1, c2);
      var right := CalcHash(hash, txids, height - 1, 2 * pos + 1);
      BadStays(hash, n, bits, hashes, height - 1, 2 * pos + 1, c2);
      SamePair(hash, l, r, left, right);
    } else {
      SamePair(hash, l, l, left, left);
    }
  }

  /** Whatever bits and hashes a traversal reads: if it ends well on the node's true hash, the
    * matches it found are leaves under the node, in order. */
  lemma {:induction false} ExtractSound(hash: Hash2, txids: seq<Digest>, bits: seq<bool>, hashes: seq<Digest>,
                                        height: nat, pos: nat, c: Cursor)
    returns (at: seq<nat>)
    requires Injective(hash) && pos < Width(|txids|, height) && EndsWell(hash, txids, bits, hashes, height, pos, c)
    ensures FoundAt(txids, Lo(height, pos), Hi(|txids|, height, pos),
                    c.found, CursorAfter(hash, |txids|, bits, hashes, height, pos, c).found, at)
    decreases height
  {
    hide Injective, Width, EndsWell, CursorAfter, FoundAt, Lo, Hi;
    var n := |txids|;
    EndsWellWithin(hash, txids, bits, hashes, height, pos, c);
    if height == 0 || !bits[c.bitsUsed] {
      at := ExtractLeaf(hash, txids, bits, hashes, height, pos, c);
    } else {
      ExtractChildren(hash, txids, bits, hashes, height, pos, c);
      LeavesSplit(n, height, pos);
      var c1, right := c.(bitsUsed := c.bitsUsed + 1), 2 * pos + 1;
      var c2 := CursorAfter(hash, n, bits, hashes, height - 1, 2 * pos, c1);
      at := ExtractSound(hash, txids, bits, hashes, height - 1, 2 * pos, c1);
      if right < Width(n, height - 1) {
        var c3 := CursorAfter(hash, n, bits, hashes, height - 1, right, c2);
        var at2 := ExtractSound(hash, txids, bits, hashes, height - 1, right, c2);
        FoundAtJoin(txids, Lo(height, pos), Lo(height - 1, right), Hi(n, height, pos), c1.found, c2.found, c3.found, at, at2);
        at := at + at2;
      }
    }
  }

  /** A decoded proof that yields the root of a list of the same length proves its matches to be
    * an in-order subsequence of that list, for any bits and hashes at all. */
  lemma Soundness(hash: Hash2, maxTransactions: nat, txids: seq<Digest>, bits: seq<bool>, hashes: seq<Digest>)
    requires Injective(hash) && txids != [] && Root(hash, txids) != 0
    requires ExtractMatches(hash, maxTransactions, |txids|, bits, hashes).0 == Root(hash, txids)
    ensures InOrderSubsequence(ExtractMatches(hash, maxTransactions, |txids|, bits, hashes).1, txids)
  {
    var at := ExtractSound(hash, txids, bits, hashes, Height(|txids|), 0, START);
  }

  // ---- When the root is 0 ------------------------------------------------------------------

  function AllTrue(n: nat): seq<bool> { seq(n, i => true) }

  /** Once the one hash is used up, the traversal finds nothing more and fails. */
  lemma {:induction false} ForgedRest(hash: Hash2, n: nat, m: nat, x: Digest, height: nat, pos: nat, c: Cursor)
    requires c.hashUsed == 1
    ensures var after := Extract(hash, n, AllTrue(m), [x], height, pos, c).1;
            after.bad && after.hashUsed == 1 && after.found == c.found
    decreases height
  {
    var bits := AllTrue(m);
    if c.bitsUsed < m && height > 0 {
      var c1 := c.(bitsUsed := c.bitsUsed + 1);
      ForgedRest(hash, n, m, x, height - 1, 2 * pos, c1);
      ForgedRest(hash, n, m, x, height - 1, 2 * pos + 1, Extract(hash, n, bits, [x], height - 1, 2 * pos, c1).1);
    }
  }

  /** Descending to the first leaf under a node takes the hash for a match; any second leaf fails. */
  lemma {:induction false} ForgedFirst(hash: Hash2, n: nat, m: nat, x: Digest, height: nat, pos: nat, c: Cursor)
    requires pos < Width(n, height) && c.hashUsed == 0 && c.bitsUsed + height < m
    ensures var after := Extract(hash, n, AllTrue(m), [x], height, pos, c).1;
            && after.found == c.found + [x] && after.hashUsed == 1
            && (height > 0 && 1 < Width(n, height - 1) && pos == 0 ==> after.bad)
    decreases height
  {
    if height > 0 {
      Children(n, height, pos);
      var c1 := c.(bitsUsed := c.bitsUsed + 1);
      ForgedFirst(hash, n, m, x, height - 1, 2 * pos, c1);
      if 2 * pos + 1 < Width(n, height - 1) {
        ForgedRest(hash, n, m, x, height - 1, 2 * pos + 1, Extract(hash, n, AllTrue(m), [x], height - 1, 2 * pos, c1).1);
      }
    }
  }

  /** Of the levels below the root, each has at least two nodes. */
  lemma TwoBelowRoot(n: nat)
    requires n >= 1 && Height(n) > 0
    ensures Width(n, Height(n) - 1) > 1
  {
    HeightIsFirst(n, 0);
  }

  lemma {:induction false} HeightIsFirst(n: nat, h: nat)
    ensures HeightFrom(n, h) > h ==> Width(n, HeightFrom(n, h) - 1) > 1
    decreases Width(n, h)
  {
    if Width(n, h) > 1 {
      WidthStep(n, h);
      HeightIsFirst(n, h + 1);
    }
  }

  /** One hash and enough true bits make the decoder answer 0 and report that hash, for any block. */
  lemma Forged(hash: Hash2, maxTransactions: nat, n: nat, x: Digest)
    requires 1 <= n <= maxTransactions
    ensures ExtractMatches(hash, maxTransactions, n, AllTrue(Height(n) + 9), [x]) == (0, [x])
  {
    var m := Height(n) + 9;
    RootExists(n, Height(n));
    ForgedFirst(hash, n, m, x, Height(n), 0, START);
    assert START.found + [x] == [x];
    if Height(n) > 0 {
      TwoBelowRoot(n);
    } else {
      assert Extract(hash, n, AllTrue(m), [x], 0, 0, START).1.bitsUsed == 1;
    }
  }

  lemma {:induction false} AbsentDigest(txids: seq<Digest>) returns (x: Digest)
    ensures forall i | 0 <= i < |txids| :: txids[i] < x
  {
    if txids == [] {
      x := 0;
    } else {
      var last := |txids| - 1;
      var y := AbsentDigest(txids[..last]);
      x := if txids[last] < y then y else txids[last] + 1;
      forall i | 0 <= i < |txids| ensures txids[i] < x { if i < last { assert txids[..last][i] == txids[i]; } }
    }
  }

  /** Whatever is sent, matches that come with the root of the list belong to the list. */
  ghost predicate AlwaysSound(hash: Hash2, maxTransactions: nat, txids: seq<Digest>)
    requires txids != []
  {
    forall bits: seq<bool>, hashes: seq<Digest> ::
      ExtractMatches(hash, maxTransactions, |txids|, bits, hashes).0 == Root(hash, txids)
      ==> InOrderSubsequence(ExtractMatches(hash, maxTransactions, |txids|, bits, hashes).1, txids)
  }

  /** Soundness holds if and only if the root is not 0, the value that also stands for failure, or the
    * list is too long to be decoded at all. */
  lemma SoundnessIff(hash: Hash2, maxTransactions: nat, txids: seq<Digest>)
    requires Injective(hash) && txids != []
    ensures AlwaysSound(hash, maxTransactions, txids) <==> Root(hash, txids) != 0 || |txids| > maxTransactions
  {
    if Root(hash, txids) != 0 || |txids| > maxTransactions {
      forall bits: seq<bool>, hashes: seq<Digest>
        | ExtractMatches(hash, maxTransactions, |txids|, bits, hashes).0 == Root(hash, txids)
        ensures InOrderSubsequence(ExtractMatches(hash, maxTransactions, |txids|, bits, hashes).1, txids)
      {
        if |txids| > maxTransactions {
          assert [] == Pick(txids, []) && Increasing([]);
        } else {
          Soundness(hash, maxTransactions, txids, bits, hashes);
        }
      }
    } else {
      var x := AbsentDigest(txids);
      Forged(hash, maxTransactions, |txids|, x);
      var found := ExtractMatches(hash, maxTransactions, |txids|, AllTrue(Height(|txids|) + 9), [x]).1;
      assert found == [x];
      forall at: seq<nat> | Increasing(at) && Within(at, 0, |txids|) ensures found != Pick(txids, at) {
        if |at| == 1 { assert Pick(txids, at)[0] == txids[at[0]] < x; }
      }
      assert !InOrderSubsequence(found, txids);
    }
  }
}
