/** What the encoder writes, the decoder reads back; how large the encoding is; and the trip over
  * the wire, where the flag bits are padded to whole bytes.
  */
module MerkleComplete {
  import opened MerkleSpec
  import opened Sequences
  import opened Shifts

  /** The matched txids of a range of leaves, in order. */
  function Matched(txids: seq<Digest>, matches: seq<bool>, lo: nat, hi: nat): seq<Digest>
    requires |matches| == |txids|
    decreases hi - lo
  {
    if lo >= hi || lo >= |txids| then []
    else (if matches[lo] then [txids[lo]] else []) + Matched(txids, matches, lo + 1, hi)
  }

  lemma {:induction false} MatchedSplit(txids: seq<Digest>, matches: seq<bool>, lo: nat, mid: nat, hi: nat)
    requires |matches| == |txids| && lo <= mid <= hi <= |txids|
    ensures Matched(txids, matches, lo, hi) == Matched(txids, matches, lo, mid) + Matched(txids, matches, mid, hi)
    decreases mid - lo
  {
    if lo < mid { MatchedSplit(txids, matches, lo + 1, mid, hi); }
  }

  lemma {:induction false} NoMatch(txids: seq<Digest>, matches: seq<bool>, lo: nat, hi: nat)
    requires |matches| == |txids| && lo <= hi <= |txids|
    ensures AnyMatch(matches, lo, hi) <==> Matched(txids, matches, lo, hi) != []
    decreases hi - lo
  {
    if lo < hi {
      NoMatch(txids, matches, lo + 1, hi);
      if AnyMatch(matches, lo, hi) {
        var i :| lo <= i < hi && i < |matches| && matches[i];
        assert i > lo ==> AnyMatch(matches, lo + 1, hi);
      }
    }
  }

  // ---- Decoding what was encoded ---------------------------------------------------------

  /** From position k on, s continues with part. */
  predicate At<T(==)>(s: seq<T>, k: nat, part: seq<T>) { k + |part| <= |s| && s[k..k + |part|] == part }

  lemma AtSplit<T>(s: seq<T>, k: nat, a: seq<T>, b: seq<T>)
    requires At(s, k, a + b)
    ensures At(s, k, a) && At(s, k + |a|, b)
  {
    assert s[k..k + |a|] == (a + b)[..|a|];
    assert s[k + |a|..k + |a| + |b|] == (a + b)[|a|..];
  }

  lemma AtHead<T>(s: seq<T>, k: nat, x: T, b: seq<T>)
    requires At(s, k, [x] + b)
    ensures k < |s| && s[k] == x && At(s, k + 1, b)
  {
    AtSplit(s, k, [x], b);
    assert s[k..k + 1][0] == x;
  }

  /** Where the cursor stands after reading one encoded node. */
  function Advance(c: Cursor, e: Encoded, found: seq<Digest>): Cursor {
    c.(bitsUsed := c.bitsUsed + |e.bits|, hashUsed := c.hashUsed + |e.hashes|, found := c.found + found)
  }

  predicate AtCursor(bits: seq<bool>, hashes: seq<Digest>, c: Cursor, e: Encoded) {
    !c.bad && At(bits, c.bitsUsed, e.bits) && At(hashes, c.hashUsed, e.hashes)
  }

  /** The matched txids below a node. */
  function MatchedUnder(txids: seq<Digest>, matches: seq<bool>, height: nat, pos: nat): seq<Digest>
    requires |matches| == |txids|
  {
    Matched(txids, matches, Lo(height, pos), Hi(|txids|, height, pos))
  }

  predicate MatchUnder(matches: seq<bool>, height: nat, pos: nat) {
    AnyMatch(matches, Lo(height, pos), Hi(|matches|, height, pos))
  }

  /** Decoding a node yields its hash, uses up its encoding, and finds its matches. */
  ghost predicate Reads(hash: Hash2, txids: seq<Digest>, matches: seq<bool>, bits: seq<bool>, hashes: seq<Digest>,
                        height: nat, pos: nat, c: Cursor)
    requires |matches| == |txids| && pos < Width(|txids|, height)
  {
    Extract(hash, |txids|, bits, hashes, height, pos, c) ==
    (CalcHash(hash, txids, height, pos),
     Advance(c, Build(hash, txids, matches, height, pos), MatchedUnder(txids, matches, height, pos)))
  }

  lemma SiblingsDiffer(hash: Hash2, txids: seq<Digest>, height: nat, pos: nat)
    requires Injective(hash) && Distinct(txids) && pos + 1 < Width(|txids|, height)
    ensures CalcHash(hash, txids, height, pos) != CalcHash(hash, txids, height, pos + 1)
  {
    ShiftLeftAdd(pos, 1, height);
    if CalcHash(hash, txids, height, pos) == CalcHash(hash, txids, height, pos + 1) {
      SameHashSameLeaf(hash, txids, height, pos, pos + 1);
      assert false;
    }
  }

  lemma ExtractStored(hash: Hash2, n: nat, bits: seq<bool>, hashes: seq<Digest>, height: nat, pos: nat, c: Cursor, flag: bool, h: Digest)
    requires AtCursor(bits, hashes, c, Encoded([flag], [h])) && (height == 0 || !flag)
    ensures Extract(hash, n, bits, hashes, height, pos, c) ==
            (h, Advance(c, Encoded([flag], [h]), if height == 0 && flag then [h] else []))
  {
    assert bits[c.bitsUsed..c.bitsUsed + 1][0] == flag;
    assert hashes[c.hashUsed..c.hashUsed + 1][0] == h;
    assert c.found + [] == c.found;
  }

  lemma MatchedStored(hash: Hash2, txids: seq<Digest>, matches: seq<bool>, height: nat, pos: nat)
    requires |matches| == |txids| && pos < Width(|txids|, height)
    requires height == 0 || !MatchUnder(matches, height, pos)
    ensures MatchedUnder(txids, matches, height, pos) ==
            if height == 0 && MatchUnder(matches, height, pos) then [CalcHash(hash, txids, height, pos)] else []
  {
    WidthIsLeaves(|txids|, height, pos);
    ShiftLeftAdd(pos, 1, height);
    NoMatch(txids, matches, Lo(height, pos), Hi(|txids|, height, pos));
    if height == 0 { assert MatchedUnder(txids, matches, 0, pos) == if matches[pos] then [txids[pos]] else []; }
  }

  /** At a stored hash the decoder reads one bit and one hash. */
  lemma ReadsStored(hash: Hash2, txids: seq<Digest>, matches: seq<bool>, bits: seq<bool>, hashes: seq<Digest>,
                    height: nat, pos: nat, c: Cursor)
    requires |matches| == |txids| && pos < Width(|txids|, height)
    requires height == 0 || !MatchUnder(matches, height, pos)
    requires AtCursor(bits, hashes, c, Build(hash, txids, matches, height, pos))
    ensures Reads(hash, txids, matches, bits, hashes, height, pos, c)
  {
    MatchedStored(hash, txids, matches, height, pos);
    ExtractStored(hash, |txids|, bits, hashes, height, pos, c, MatchUnder(matches, height, pos), CalcHash(hash, txids, height, pos));
  }

  function Join(left: Encoded, right: Encoded): Encoded {
    Encoded([true] + left.bits + right.bits, left.hashes + right.hashes)
  }

  lemma AtCursorJoin(bits: seq<bool>, hashes: seq<Digest>, c: Cursor, left: Encoded, right: Encoded, found: seq<Digest>)
    requires AtCursor(bits, hashes, c, Join(left, right))
    ensures !c.bad && c.bitsUsed < |bits| && bits[c.bitsUsed]
    ensures var c1 := c.(bitsUsed := c.bitsUsed + 1);
            AtCursor(bits, hashes, c1, left) && AtCursor(bits, hashes, Advance(c1, left, found), right)
  {
    assert [true] + left.bits + right.bits == [true] + (left.bits + right.bits);
    AtHead(bits, c.bitsUsed, true, left.bits + right.bits);
    AtSplit(bits, c.bitsUsed + 1, left.bits, right.bits);
    AtSplit(hashes, c.hashUsed, left.hashes, right.hashes);
  }

  lemma AdvanceJoin(c: Cursor, left: Encoded, right: Encoded, found1: seq<Digest>, found2: seq<Digest>)
    ensures Advance(Advance(c.(bitsUsed := c.bitsUsed + 1), left, found1), right, found2)
            == Advance(c, Join(left, right), found1 + found2)
  {
    assert c.found + found1 + found2 == c.found + (found1 + found2);
  }

  lemma ExtractInner(hash: Hash2, n: nat, bits: seq<bool>, hashes: seq<Digest>, height: nat, pos: nat, c: Cursor)
    requires height > 0 && c.bitsUsed < |bits| && bits[c.bitsUsed]
    ensures var l := Extract(hash, n, bits, hashes, height - 1, 2 * pos, c.(bitsUsed := c.bitsUsed + 1));
            var r := Extract(hash, n, bits, hashes, height - 1, 2 * pos + 1, l.1);
            Extract(hash, n, bits, hashes, height, pos, c) ==
            if 2 * pos + 1 < Width(n, height - 1) then (hash(l.0, r.0), if r.0 == l.0 then r.1.(bad := true) else r.1)
            else (hash(l.0, l.0), l.1)
  {}

  lemma ExtractPair(hash: Hash2, n: nat, bits: seq<bool>, hashes: seq<Digest>, height: nat, pos: nat, c: Cursor,
                    left: Encoded, right: Encoded, hl: Digest, hr: Digest, found1: seq<Digest>, found2: seq<Digest>)
    requires height > 0 && c.bitsUsed < |bits| && bits[c.bitsUsed] && hl != hr && 2 * pos + 1 < Width(n, height - 1)
    requires var c1 := c.(bitsUsed := c.bitsUsed + 1);
             var c2 := Advance(c1, left, found1);
             && Extract(hash, n, bits, hashes, height - 1, 2 * pos, c1) == (hl, c2)
             && Extract(hash, n, bits, hashes, height - 1, 2 * pos + 1, c2) == (hr, Advance(c2, right, found2))
    ensures Extract(hash, n, bits, hashes, height, pos, c) == (hash(hl, hr), Advance(c, Join(left, right), found1 + found2))
  {
    ExtractInner(hash, n, bits, hashes, height, pos, c);
    AdvanceJoin(c, left, right, found1, found2);
  }

  lemma HashPair(hash: Hash2, txids: seq<Digest>, height: nat, pos: nat)
    requires height > 0 && pos < Width(|txids|, height) && 2 * pos + 1 < Width(|txids|, height - 1)
    ensures CalcHash(hash, txids, height, pos) ==
            hash(CalcHash(hash, txids, height - 1, 2 * pos), CalcHash(hash, txids, height - 1, 2 * pos + 1))
  {}

  /** Both children read back: so does their parent. */
  lemma ReadsPair(hash: Hash2, txids: seq<Digest>, matches: seq<bool>, bits: seq<bool>, hashes: seq<Digest>,
                  height: nat, pos: nat, c: Cursor, left: Encoded, right: Encoded)
    requires Injective(hash) && Distinct(txids) && |matches| == |txids| && pos < Width(|txids|, height) && height > 0
    requires 2 * pos + 1 < Width(|txids|, height - 1) && !c.bad && c.bitsUsed < |bits| && bits[c.bitsUsed]
    requires left == Build(hash, txids, matches, height - 1, 2 * pos)
    requires right == Build(hash, txids, matches, height - 1, 2 * pos + 1)
    requires Build(hash, txids, matches, height, pos) == Join(left, right)
    requires var c1 := c.(bitsUsed := c.bitsUsed + 1);
             && Reads(hash, txids, matches, bits, hashes, height - 1, 2 * pos, c1)
             && Reads(hash, txids, matches, bits, hashes, height - 1, 2 * pos + 1,
                      Advance(c1, left, MatchedUnder(txids, matches, height - 1, 2 * pos)))
    ensures Reads(hash, txids, matches, bits, hashes, height, pos, c)
  {
    hide Build, Extract, CalcHash, Width, Injective, Distinct, MatchedUnder, Advance, Join;
    var l, r := 2 * pos, 2 * pos + 1;
    MatchedJoin(txids, matches, height, pos);
    HashPair(hash, txids, height, pos);
    SiblingsDiffer(hash, txids, height - 1, l);
    ExtractPair(hash, |txids|, bits, hashes, height, pos, c, left, right,
                CalcHash(hash, txids, height - 1, l), CalcHash(hash, txids, height - 1, r),
                MatchedUnder(txids, matches, height - 1, l), MatchedUnder(txids, matches, height - 1, r));
  }

  lemma MatchedJoin(txids: seq<Digest>, matches: seq<bool>, height: nat, pos: nat)
    requires |matches| == |txids| && height > 0 && pos < Width(|txids|, height) && 2 * pos + 1 < Width(|txids|, height - 1)
    ensures MatchedUnder(txids, matches, height, pos) ==
            MatchedUnder(txids, matches, height - 1, 2 * pos) + MatchedUnder(txids, matches, height - 1, 2 * pos + 1)
  {
    LeavesSplit(|txids|, height, pos);
    MatchedSplit(txids, matches, Lo(height, pos), Lo(height - 1, 2 * pos + 1), Hi(|txids|, height, pos));
  }

  lemma ReadsLone(hash: Hash2, txids: seq<Digest>, matches: seq<bool>, bits: seq<bool>, hashes: seq<Digest>,
                  height: nat, pos: nat, c: Cursor, left: Encoded)
    requires |matches| == |txids| && pos < Width(|txids|, height) && height > 0
    requires 2 * pos < Width(|txids|, height - 1) <= 2 * pos + 1 && c.bitsUsed < |bits| && bits[c.bitsUsed]
    requires left == Build(hash, txids, matches, height - 1, 2 * pos)
    requires Build(hash, txids, matches, height, pos) == Join(left, Encoded([], []))
    requires Reads(hash, txids, matches, bits, hashes, height - 1, 2 * pos, c.(bitsUsed := c.bitsUsed + 1))
    ensures Reads(hash, txids, matches, bits, hashes, height, pos, c)
  {
    LeavesSplit(|txids|, height, pos);
    ExtractInner(hash, |txids|, bits, hashes, height, pos, c);
  }

  lemma BuildInner(hash: Hash2, txids: seq<Digest>, matches: seq<bool>, height: nat, pos: nat)
    requires |matches| == |txids| && pos < Width(|txids|, height) && height > 0 && MatchUnder(matches, height, pos)
    ensures 2 * pos < Width(|txids|, height - 1)
    ensures Build(hash, txids, matches, height, pos) ==
            Join(Build(hash, txids, matches, height - 1, 2 * pos),
                 if 2 * pos + 1 < Width(|txids|, height - 1) then Build(hash, txids, matches, height - 1, 2 * pos + 1)
                 else Encoded([], []))
  {
    Children(|txids|, height, pos);
    var left := Build(hash, txids, matches, height - 1, 2 * pos);
    assert [true] + left.bits + [] == [true] + left.bits && left.hashes + [] == left.hashes;
  }

  /** The decoder reads back exactly what the encoder wrote for a node, and nothing more. */
  lemma {:induction false} ReadsBack(hash: Hash2, txids: seq<Digest>, matches: seq<bool>, bits: seq<bool>, hashes: seq<Digest>,
                                     height: nat, pos: nat, c: Cursor)
    requires Injective(hash) && Distinct(txids) && |matches| == |txids| && pos < Width(|txids|, height)
    requires AtCursor(bits, hashes, c, Build(hash, txids, matches, height, pos))
    ensures Reads(hash, txids, matches, bits, hashes, height, pos, c)
    decreases height
  {
    hide Build, Extract, Width, Injective, Distinct, MatchUnder, MatchedUnder, AtCursor, Advance, Reads, Join;
    if height == 0 || !MatchUnder(matches, height, pos) {
      ReadsStored(hash, txids, matches, bits, hashes, height, pos, c);
    } else {
      BuildInner(hash, txids, matches, height, pos);
      var l, r := 2 * pos, 2 * pos + 1;
      var left := Build(hash, txids, matches, height - 1, l);
      var c1, found := c.(bitsUsed := c.bitsUsed + 1), MatchedUnder(txids, matches, height - 1, l);
      if r < Width(|txids|, height - 1) {
        var right := Build(hash, txids, matches, height - 1, r);
        AtCursorJoin(bits, hashes, c, left, right, found);
        ReadsBack(hash, txids, matches, bits, hashes, height - 1, l, c1);
        ReadsBack(hash, txids, matches, bits, hashes, height - 1, r, Advance(c1, left, found));
        ReadsPair(hash, txids, matches, bits, hashes, height, pos, c, left, right);
      } else {
        AtCursorJoin(bits, hashes, c, left, Encoded([], []), found);
        ReadsBack(hash, txids, matches, bits, hashes, height - 1, l, c1);
        ReadsLone(hash, txids, matches, bits, hashes, height, pos, c, left);
      }
    }
  }

  /** The first flag of a node tells whether a leaf under it is matched; when none is, that and the node's hash are
    * all there is. */
  lemma FirstFlag(hash: Hash2, txids: seq<Digest>, matches: seq<bool>, height: nat, pos: nat)
    requires |matches| == |txids| && pos < Width(|txids|, height)
    ensures var e, matched := Build(hash, txids, matches, height, pos),
                              exists i | Lo(height, pos) <= i < Hi(|txids|, height, pos) && i < |matches| :: matches[i];
            && |e.bits| >= 1 && (e.bits[0] <==> matched)
            && (!matched ==> e == Encoded([false], [CalcHash(hash, txids, height, pos)]))
  {
    if height > 0 && MatchUnder(matches, height, pos) { Children(|txids|, height, pos); }
  }

  // ---- Sizes -----------------------------------------------------------------------------

  function Count(matches: seq<bool>, lo: nat, hi: nat): nat
    decreases hi - lo
  {
    if lo >= hi || lo >= |matches| then 0 else (if matches[lo] then 1 else 0) + Count(matches, lo + 1, hi)
  }

  lemma {:induction false} CountSplit(matches: seq<bool>, lo: nat, mid: nat, hi: nat)
    requires lo <= mid <= hi <= |matches|
    ensures Count(matches, lo, hi) == Count(matches, lo, mid) + Count(matches, mid, hi)
    decreases mid - lo
  {
    if lo < mid { CountSplit(matches, lo + 1, mid, hi); }
  }

  lemma {:induction false} CountAny(matches: seq<bool>, lo: nat, hi: nat)
    requires lo <= hi <= |matches|
    ensures AnyMatch(matches, lo, hi) <==> Count(matches, lo, hi) >= 1
    decreases hi - lo
  {
    if lo < hi {
      CountAny(matches, lo + 1, hi);
      if AnyMatch(matches, lo, hi) {
        var i :| lo <= i < hi && i < |matches| && matches[i];
        assert i > lo ==> AnyMatch(matches, lo + 1, hi);
      }
    }
  }

  /** Nodes the encoder descends into that have only one child. */
  function Singles(matches: seq<bool>, height: nat, pos: nat): nat
    requires pos < Width(|matches|, height)
    decreases height
  {
    if height == 0 || !AnyMatch(matches, Lo(height, pos), Hi(|matches|, height, pos)) then 0
    else
      Children(|matches|, height, pos);
      var left := Singles(matches, height - 1, 2 * pos);
      if 2 * pos + 1 < Width(|matches|, height - 1) then left + Singles(matches, height - 1, 2 * pos + 1) else 1 + left
  }

  /** Bits are two per stored hash, less one, plus one per descended node with a single child. */
  lemma {:induction false} BitCount(hash: Hash2, txids: seq<Digest>, matches: seq<bool>, height: nat, pos: nat)
    requires |matches| == |txids| && pos < Width(|txids|, height)
    ensures var e := Build(hash, txids, matches, height, pos);
            |e.hashes| >= 1 && |e.bits| == 2 * |e.hashes| - 1 + Singles(matches, height, pos)
    decreases height
  {
    if height > 0 && AnyMatch(matches, Lo(height, pos), Hi(|txids|, height, pos)) {
      Children(|txids|, height, pos);
      BitCount(hash, txids, matches, height - 1, 2 * pos);
      if 2 * pos + 1 < Width(|txids|, height - 1) { BitCount(hash, txids, matches, height - 1, 2 * pos + 1); }
    }
  }

  /** A node that has a right neighbour has a complete subtree. */
  lemma {:induction false} NoSinglesBefore(matches: seq<bool>, height: nat, pos: nat)
    requires pos + 1 < Width(|matches|, height)
    ensures pos < Width(|matches|, height) && Singles(matches, height, pos) == 0
    decreases height
  {
    WidthIsLeaves(|matches|, height, pos);
    WidthIsLeaves(|matches|, height, pos + 1);
    if height > 0 {
      WidthIsLeaves(|matches|, height - 1, 2 * pos + 2);
      Children(|matches|, height, pos);
      ShiftLeftAdd(2 * pos + 1, 1, height - 1);
      WidthIsLeaves(|matches|, height - 1, 2 * pos + 1);
      NoSinglesBefore(matches, height - 1, 2 * pos + 1);
      NoSinglesBefore(matches, height - 1, 2 * pos);
    }
  }

  /** Only the right edge of the tree has nodes with a single child: at most one per level. */
  lemma {:induction false} SinglesPerLevel(matches: seq<bool>, height: nat, pos: nat)
    requires pos < Width(|matches|, height)
    ensures Singles(matches, height, pos) <= height
    decreases height
  {
    if height > 0 {
      Children(|matches|, height, pos);
      if 2 * pos + 1 < Width(|matches|, height - 1) {
        NoSinglesBefore(matches, height - 1, 2 * pos);
        SinglesPerLevel(matches, height - 1, 2 * pos + 1);
      } else {
        SinglesPerLevel(matches, height - 1, 2 * pos);
      }
    }
  }

  /** An upper bound on the hashes stored below a node with m matches. */
  function HashBound(m: nat, height: nat): nat { if height == 0 then 1 else HashBound(m, height - 1) + m }

  lemma {:induction false} HashBoundIs(m: nat, height: nat)
    ensures HashBound(m, height) == 1 + m * height
  {
    if height > 0 { HashBoundIs(m, height - 1); }
  }

  lemma {:induction false} HashBoundSum(a: nat, b: nat, height: nat)
    ensures HashBound(a, height) + HashBound(b, height) == HashBound(a + b, height) + 1
  {
    if height > 0 { HashBoundSum(a, b, height - 1); }
  }

  /** A node whose subtree is not descended into stores one hash. */
  lemma OneHash(hash: Hash2, txids: seq<Digest>, matches: seq<bool>, height: nat, pos: nat)
    requires |matches| == |txids| && pos < Width(|txids|, height) && (height == 0 || !MatchUnder(matches, height, pos))
    ensures |Build(hash, txids, matches, height, pos).hashes| == 1
  {}

  /** There is a leaf under every node. */
  lemma SomeLeaf(n: nat, height: nat, pos: nat)
    requires pos < Width(n, height)
    ensures Lo(height, pos) < Hi(n, height, pos)
  {
    WidthIsLeaves(n, height, pos);
    ShiftLeftAdd(pos, 1, height);
  }

  /** At most one hash per leaf. */
  lemma {:induction false} HashPerLeaf(hash: Hash2, txids: seq<Digest>, matches: seq<bool>, height: nat, pos: nat)
    requires |matches| == |txids| && pos < Width(|txids|, height)
    ensures |Build(hash, txids, matches, height, pos).hashes| <= Hi(|txids|, height, pos) - Lo(height, pos)
    decreases height
  {
    var n := |txids|;
    SomeLeaf(n, height, pos);
    hide Build, Width, Lo, Hi, MatchUnder;
    if height > 0 && MatchUnder(matches, height, pos) {
      BuildInner(hash, txids, matches, height, pos);
      LeavesSplit(n, height, pos);
      HashPerLeaf(hash, txids, matches, height - 1, 2 * pos);
      if 2 * pos + 1 < Width(n, height - 1) { HashPerLeaf(hash, txids, matches, height - 1, 2 * pos + 1); }
    } else {
      OneHash(hash, txids, matches, height, pos);
    }
  }

  /** At most one hash, plus one per match and level. */
  lemma {:induction false} HashCount(hash: Hash2, txids: seq<Digest>, matches: seq<bool>, height: nat, pos: nat)
    requires |matches| == |txids| && pos < Width(|txids|, height)
    ensures |Build(hash, txids, matches, height, pos).hashes|
            <= HashBound(Count(matches, Lo(height, pos), Hi(|txids|, height, pos)), height)
    decreases height
  {
    hide Build, Count, Width, MatchUnder, ShiftLeft;
    var n, lo, hi := |txids|, Lo(height, pos), Hi(|txids|, height, pos);
    WidthIsLeaves(n, height, pos);
    if height > 0 && MatchUnder(matches, height, pos) {
      BuildInner(hash, txids, matches, height, pos);
      LeavesSplit(n, height, pos);
      CountMatch(matches, height, pos);
      HashCount(hash, txids, matches, height - 1, 2 * pos);
      if 2 * pos + 1 < Width(n, height - 1) {
        var mid := Lo(height - 1, 2 * pos + 1);
        HashCount(hash, txids, matches, height - 1, 2 * pos + 1);
        CountSplit(matches, lo, mid, hi);
        HashBoundSum(Count(matches, lo, mid), Count(matches, mid, hi), height - 1);
      }
    } else {
      OneHash(hash, txids, matches, height, pos);
      HashBoundIs(Count(matches, lo, hi), height);
    }
  }

  lemma CountMatch(matches: seq<bool>, height: nat, pos: nat)
    requires MatchUnder(matches, height, pos)
    ensures Count(matches, Lo(height, pos), Hi(|matches|, height, pos)) >= 1
  {
    CountAny(matches, Lo(height, pos), Hi(|matches|, height, pos));
  }

  // ---- When the documented bound of 2N-1 bits holds --------------------------------------

  /** Every node above the leaves on the way from leaf i up to the given height has two children. */
  predicate Paired(n: nat, i: nat, height: nat) {
    forall k | 1 <= k <= height :: 2 * ShiftRight(i, k) + 1 < Width(n, k - 1)
  }

  lemma HalfIs(y: nat, pos: nat)
    ensures y / 2 == pos <==> y == 2 * pos || y == 2 * pos + 1
  {}

  lemma ShiftStep(i: nat, height: nat, pos: nat)
    requires height > 0
    ensures ShiftRight(i, height) == ShiftRight(i, height - 1) / 2
    ensures ShiftLeft(pos, height) == ShiftLeft(2 * pos, height - 1)
    ensures ShiftLeft(pos + 1, height) == ShiftLeft(2 * pos + 2, height - 1)
  {}

  lemma {:induction false} LeafIsUnder(i: nat, height: nat, pos: nat)
    ensures ShiftRight(i, height) == pos <==> ShiftLeft(pos, height) <= i < ShiftLeft(pos + 1, height)
    decreases height
  {
    if height > 0 {
      ShiftStep(i, height, pos);
      hide ShiftLeft, ShiftRight;
      LeafIsUnder(i, height - 1, 2 * pos);
      LeafIsUnder(i, height - 1, 2 * pos + 1);
      ShiftLeftAdd(2 * pos, 1, height - 1);
      ShiftLeftAdd(2 * pos + 1, 1, height - 1);
      HalfIs(ShiftRight(i, height - 1), pos);
    }
  }

  lemma PairedStep(n: nat, i: nat, height: nat)
    requires height >= 1
    ensures Paired(n, i, height) <==> Paired(n, i, height - 1) && 2 * ShiftRight(i, height) + 1 < Width(n, height - 1)
  {}

  /** The matched leaves of a range are paired up to a height. */
  predicate AllPaired(matches: seq<bool>, lo: nat, hi: nat, height: nat) {
    forall i | lo <= i < hi && i < |matches| && matches[i] :: Paired(|matches|, i, height)
  }

  /** Leaves under a node are paired up to it when they are below it and it has two children. */
  lemma PairedUnder(matches: seq<bool>, height: nat, pos: nat)
    requires height > 0 && pos < Width(|matches|, height) && MatchUnder(matches, height, pos)
    ensures var n, lo, hi := |matches|, Lo(height, pos), Hi(|matches|, height, pos);
            AllPaired(matches, lo, hi, height) <==> 2 * pos + 1 < Width(n, height - 1) && AllPaired(matches, lo, hi, height - 1)
  {
    hide Width, ShiftLeft, ShiftRight, Paired;
    var n, lo, hi := |matches|, Lo(height, pos), Hi(|matches|, height, pos);
    forall i | lo <= i < hi
      ensures Paired(n, i, height) <==> Paired(n, i, height - 1) && 2 * pos + 1 < Width(n, height - 1)
    {
      LeafIsUnder(i, height, pos);
      PairedStep(n, i, height);
    }
    var i :| lo <= i < hi && i < |matches| && matches[i];
  }

  lemma {:induction false} NoSingles(matches: seq<bool>, height: nat, pos: nat)
    requires pos < Width(|matches|, height)
    ensures Singles(matches, height, pos) == 0 <==> AllPaired(matches, Lo(height, pos), Hi(|matches|, height, pos), height)
    decreases height
  {
    hide Width, ShiftLeft, ShiftRight, Lo, Hi, Paired;
    if height > 0 && MatchUnder(matches, height, pos) {
      Children(|matches|, height, pos);
      LeavesSplit(|matches|, height, pos);
      PairedUnder(matches, height, pos);
      NoSingles(matches, height - 1, 2 * pos);
      if 2 * pos + 1 < Width(|matches|, height - 1) { NoSingles(matches, height - 1, 2 * pos + 1); }
    } else {
      UnpairedNone(matches, height, pos);
    }
  }

  lemma UnpairedNone(matches: seq<bool>, height: nat, pos: nat)
    requires height == 0 || !MatchUnder(matches, height, pos)
    ensures AllPaired(matches, Lo(height, pos), Hi(|matches|, height, pos), height)
  {}

  /** The documented bound of 2N-1 flag bits for N stored hashes holds if and only if no match lies
    * below a node that lacks its right child. */
  lemma DocumentedBitBoundIff(hash: Hash2, txids: seq<Digest>, matches: seq<bool>)
    requires txids != [] && |matches| == |txids|
    ensures var e, h := Build(hash, txids, matches, Height(|txids|), 0), Height(|txids|);
            |e.bits| <= 2 * |e.hashes| - 1 <==> AllPaired(matches, 0, |txids|, h)
  {
    var n, h := |txids|, Height(|txids|);
    BitCount(hash, txids, matches, h, 0);
    NoSingles(matches, h, 0);
    RootRange(n);
  }

  lemma RootRange(n: nat)
    requires n >= 1
    ensures Lo(Height(n), 0) == 0 && Hi(n, Height(n), 0) == n
  {
    ShiftLeftAdd(0, 0, Height(n));
    WidthIsLeaves(n, Height(n), 1);
  }

  /** With five txids of which only the last is matched there are five bits for two hashes. */
  lemma DocumentedBitBoundFails(hash: Hash2)
    ensures var e := Build(hash, [1, 2, 3, 4, 5], [false, false, false, false, true], Height(5), 0);
            |e.bits| == 5 && |e.hashes| == 2
  {
    var txids, matches := [1, 2, 3, 4, 5], [false, false, false, false, true];
    WidthStep(5, 0);
    WidthStep(5, 1);
    WidthStep(5, 2);
    assert Width(5, 1) == 3 && Width(5, 2) == 2 && Width(5, 3) == 1;
    assert Height(5) == HeightFrom(5, 1) == HeightFrom(5, 2) == HeightFrom(5, 3) == 3;
    assert matches[4];
    assert Lo(3, 0) == 0 && Hi(5, 3, 0) == 5 && Lo(2, 0) == 0 && Hi(5, 2, 0) == 4 && Lo(2, 1) == 4 && Hi(5, 2, 1) == 5;
    assert Lo(1, 2) == 4 && Hi(5, 1, 2) == 5 && Lo(0, 4) == 4 && Hi(5, 0, 4) == 5;
    assert |Build(hash, txids, matches, 2, 0).bits| == 1;
    assert |Build(hash, txids, matches, 0, 4).bits| == 1;
    assert |Build(hash, txids, matches, 1, 2).bits| == 2;
    assert |Build(hash, txids, matches, 2, 1).bits| == 3;
  }

  // ---- The wire --------------------------------------------------------------------------

  /** 1 << k in a byte. */
  function Mask(k: nat): bv8
    requires k < 8
  {
    if k == 0 then 1 else if k == 1 then 2 else if k == 2 then 4 else if k == 3 then 8
    else if k == 4 then 16 else if k == 5 then 32 else if k == 6 then 64 else 128
  }

  predicate TestBit(b: bv8, k: nat)
    requires k < 8
  {
    b & Mask(k) != 0
  }

  lemma OrBit(b: bv8, k: nat, j: nat)
    requires k < 8 && j < 8
    ensures TestBit(b | Mask(k), j) <==> TestBit(b, j) || j == k
  {}

  /** Eight bits per byte, least significant first. */
  function Unpack(bytes: seq<bv8>): (bits: seq<bool>)
    ensures |bits| == 8 * |bytes|
  {
    seq(8 * |bytes|, p requires 0 <= p < 8 * |bytes| => TestBit(bytes[p / 8], p % 8))
  }

  /** Bit 8i + k of the flags is the k-th lowest bit of byte i. */
  lemma UnpackIs(bytes: seq<bv8>, i: nat, k: nat)
    requires i < |bytes| && k < 8
    ensures Unpack(bytes)[8 * i + k] <==> (bytes[i] >> k) & 1 != 0
  {
    assert (8 * i + k) / 8 == i && (8 * i + k) % 8 == k;
    LowestFirst(bytes[i], k);
  }

  lemma LowestFirst(b: bv8, k: nat)
    requires k < 8
    ensures TestBit(b, k) <==> (b >> k) & 1 != 0
  {
    if k == 0 {
    } else if k == 1 {
    } else if k == 2 {
    } else if k == 3 {
    } else if k == 4 {
    } else if k == 5 {
    } else if k == 6 {
    } else {
    }
  }

  /** The bits as they arrive: padded with zeros to whole bytes. */
  function Padded(bits: seq<bool>): (r: seq<bool>)
    ensures |r| == 8 * ((|bits| + 7) / 8)
  {
    seq(8 * ((|bits| + 7) / 8), p requires 0 <= p => if p < |bits| then bits[p] else false)
  }

  /** A block with distinct txids, encoded, sent and decoded: the decoder accepts, and returns the
    * true root and exactly the matched txids in block order. */
  lemma Completeness(hash: Hash2, maxTransactions: nat, txids: seq<Digest>, matches: seq<bool>)
    requires Injective(hash) && Distinct(txids) && |matches| == |txids| && 1 <= |txids| <= maxTransactions
    ensures var e := Build(hash, txids, matches, Height(|txids|), 0);
            ExtractMatches(hash, maxTransactions, |txids|, Padded(e.bits), e.hashes)
            == (Root(hash, txids), Matched(txids, matches, 0, |txids|))
  {
    var e := Build(hash, txids, matches, Height(|txids|), 0);
    EncodedSize(hash, txids, matches);
    DecodesRoot(hash, txids, matches);
    Accepts(hash, maxTransactions, |txids|, Padded(e.bits), e.hashes, Root(hash, txids), |e.bits|, Matched(txids, matches, 0, |txids|));
  }

  lemma AtStart(e: Encoded)
    ensures AtCursor(Padded(e.bits), e.hashes, START, e)
  {
    assert Padded(e.bits)[0..|e.bits|] == e.bits;
    assert e.hashes[0..|e.hashes|] == e.hashes;
  }

  lemma DecodesRoot(hash: Hash2, txids: seq<Digest>, matches: seq<bool>)
    requires Injective(hash) && Distinct(txids) && |matches| == |txids| && txids != []
    ensures var e := Build(hash, txids, matches, Height(|txids|), 0);
            Extract(hash, |txids|, Padded(e.bits), e.hashes, Height(|txids|), 0, START) ==
            (Root(hash, txids), Cursor(|e.bits|, |e.hashes|, Matched(txids, matches, 0, |txids|), false))
  {
    var h := Height(|txids|);
    var e := Build(hash, txids, matches, h, 0);
    AtStart(e);
    RootRange(|txids|);
    ReadsBack(hash, txids, matches, Padded(e.bits), e.hashes, h, 0, START);
    var found := Matched(txids, matches, 0, |txids|);
    assert MatchedUnder(txids, matches, h, 0) == found && START.found + found == found;
  }

  /** A traversal that ends well and uses up bits and hashes passes the final checks. */
  lemma Accepts(hash: Hash2, maxTransactions: nat, n: nat, bits: seq<bool>, hashes: seq<Digest>,
                root: Digest, used: nat, found: seq<Digest>)
    requires 1 <= n <= maxTransactions && |hashes| <= n && |hashes| <= used && |bits| == 8 * ((used + 7) / 8)
    requires Extract(hash, n, bits, hashes, Height(n), 0, START) == (root, Cursor(used, |hashes|, found, false))
    ensures ExtractMatches(hash, maxTransactions, n, bits, hashes) == (root, found)
  {
    hide Extract, Height;
    assert (used + 7) / 8 == (|bits| + 7) / 8;
  }

  /** What is accepted has used up all hashes, and all bits but those that pad the last byte, and is no larger than any
    * proof for that many transactions. */
  lemma AcceptedUsesAll(hash: Hash2, maxTransactions: nat, n: nat, bits: seq<bool>, hashes: seq<Digest>)
    requires ExtractMatches(hash, maxTransactions, n, bits, hashes).0 != 0
    ensures 1 <= n <= maxTransactions && |hashes| <= n && |hashes| <= |bits|
    ensures var (root, c) := Extract(hash, n, bits, hashes, Height(n), 0, START);
            && !c.bad && c.hashUsed == |hashes| && c.bitsUsed <= |bits| && (|bits| % 8 == 0 ==> |bits| < c.bitsUsed + 8)
            && ExtractMatches(hash, maxTransactions, n, bits, hashes) == (root, c.found)
  {
    BitsWithin(hash, n, bits, hashes, Height(n), 0, START);
  }

  lemma {:induction false} BitsWithin(hash: Hash2, n: nat, bits: seq<bool>, hashes: seq<Digest>, height: nat, pos: nat, c: Cursor)
    requires c.bitsUsed <= |bits|
    ensures Extract(hash, n, bits, hashes, height, pos, c).1.bitsUsed <= |bits|
    ensures c.bad ==> Extract(hash, n, bits, hashes, height, pos, c).1.bad
    decreases height
  {
    if c.bitsUsed < |bits| && height > 0 && bits[c.bitsUsed] {
      var c1 := c.(bitsUsed := c.bitsUsed + 1);
      BitsWithin(hash, n, bits, hashes, height - 1, 2 * pos, c1);
      BitsWithin(hash, n, bits, hashes, height - 1, 2 * pos + 1, Extract(hash, n, bits, hashes, height - 1, 2 * pos, c1).1);
    }
  }

  /** A node whose two children come out with the same hash is refused, as the twins of a repeated list would be. */
  lemma TwinsRefused(hash: Hash2, n: nat, bits: seq<bool>, hashes: seq<Digest>, height: nat, pos: nat, c: Cursor)
    requires height > 0 && c.bitsUsed < |bits| && bits[c.bitsUsed] && 2 * pos + 1 < Width(n, height - 1)
    requires var (left, c2) := Extract(hash, n, bits, hashes, height - 1, 2 * pos, c.(bitsUsed := c.bitsUsed + 1));
             Extract(hash, n, bits, hashes, height - 1, 2 * pos + 1, c2).0 == left
    ensures Extract(hash, n, bits, hashes, height, pos, c).1.bad
  {
    hide Width, Height;
  }

  /** Size of the encoding of a whole block. */
  lemma EncodedSize(hash: Hash2, txids: seq<Digest>, matches: seq<bool>)
    requires txids != [] && |matches| == |txids|
    ensures var e, h := Build(hash, txids, matches, Height(|txids|), 0), Height(|txids|);
            && |e.hashes| <= |txids|
            && |e.hashes| <= 1 + Count(matches, 0, |txids|) * h
            && |e.hashes| <= |e.bits| <= 2 * |e.hashes| - 1 + h
  {
    RootRange(|txids|);
    SinglesPerLevel(matches, Height(|txids|), 0);
    HashPerLeaf(hash, txids, matches, Height(|txids|), 0);
    HashCount(hash, txids, matches, Height(|txids|), 0);
    HashBoundIs(Count(matches, 0, |txids|), Height(|txids|));
    BitCount(hash, txids, matches, Height(|txids|), 0);
  }
}
