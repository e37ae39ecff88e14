/** When a block counts as linked: rules on the totals of a forest of blocks, as values. */
module BlockLinks {
  import opened BlockTree
  import opened Sequences

  /** For each parent, the children that wait for it, in order of arrival (mapBlocksUnlinked). */
  type Unlinked = map<BlockIndex, seq<BlockIndex>>

  function Waiting(u: Unlinked, p: BlockIndex): seq<BlockIndex> { if p in u then u[p] else [] }

  /** The blocks known, those with data, their transaction counts, nChainTx, and who waits for whom. */
  datatype Links = Links(nodes: set<BlockIndex>, data: set<BlockIndex>, nTx: map<BlockIndex, nat>,
                         chainTx: map<BlockIndex, nat>, unlinked: Unlinked)

  /** Parents of the blocks are among the blocks. */
  predicate Closed(blocks: set<BlockIndex>) {
    forall b {:trigger b.pprev} | b in blocks :: b.pprev != null ==> b.pprev in blocks
  }

  /** Then so is the whole branch of each of them. */
  lemma {:induction false} BranchInside(b: BlockIndex, blocks: set<BlockIndex>)
    requires b.Rooted() && b in blocks && Closed(blocks)
    ensures forall c | c in b.Path() :: c in blocks
    decreases b.nHeight
  {
    if b.pprev != null {
      BranchInside(b.pprev, blocks);
      assert b.ancestors == b.pprev.Path();
    }
  }

  predicate Shape(s: Links) {
    && s.nTx.Keys == s.nodes && s.chainTx.Keys == s.nodes && s.data <= s.nodes && Closed(s.nodes)
    && (forall b {:trigger s.nTx[b]} | b in s.data :: s.nTx[b] >= 1)
  }

  predicate ParentLinked(s: Links, b: BlockIndex)
    requires Shape(s) && b in s.nodes
  {
    b.pprev == null || s.chainTx[b.pprev] > 0
  }

  function ParentTotal(s: Links, b: BlockIndex): nat
    requires Shape(s) && b in s.nodes
  {
    if b.pprev == null then 0 else s.chainTx[b.pprev]
  }

  /** The rule for nChainTx of one block, in terms of its parent's. */
  predicate Local(s: Links, b: BlockIndex)
    requires Shape(s) && b in s.nodes
  {
    s.chainTx[b] == if b in s.data && ParentLinked(s, b) then ParentTotal(s, b) + s.nTx[b] else 0
  }

  /** The list of one parent names no block twice, and only children among the given ones, with data;
    * and the parent, if there are any, is not linked. */
  predicate ListRight(s: Links, children: set<BlockIndex>, p: BlockIndex)
    requires Shape(s) && p in s.unlinked
  {
    && p in s.nodes && Distinct(s.unlinked[p])
    && forall c | c in s.unlinked[p] :: c in children && c in s.data && c.pprev == p && s.chainTx[p] == 0
  }

  predicate OnlyWaiters(s: Links, children: set<BlockIndex>)
    requires Shape(s)
  {
    forall p | p in s.unlinked :: ListRight(s, children, p)
  }

  /** And each of those waits. */
  predicate AllWaiters(s: Links, children: set<BlockIndex>)
    requires Shape(s)
  {
    forall c {:trigger Waiting(s.unlinked, c.pprev)} | c in children && c in s.data && c.pprev != null && s.chainTx[c.pprev] == 0 ::
      c in Waiting(s.unlinked, c.pprev)
  }

  /** c waits for p exactly when c is one of the given children of p, has data, and p is not linked. */
  predicate UnlinkedExact(s: Links, children: set<BlockIndex>)
    requires Shape(s)
  {
    OnlyWaiters(s, children) && AllWaiters(s, children)
  }

  /** Blocks about to be linked: they have data, their parent is linked, they are not yet. */
  predicate Pending(s: Links, queue: seq<BlockIndex>)
    requires Shape(s)
  {
    && Distinct(queue)
    && forall b | b in queue :: b in s.data && s.chainTx[b] == 0 && ParentLinked(s, b)
  }

  /** The state of the worklist loop; with an empty queue, the state between arrivals. */
  predicate Linking(s: Links, queue: seq<BlockIndex>) {
    && Shape(s)
    && (forall b {:trigger Local(s, b)} | b in s.nodes && b !in queue :: Local(s, b))
    && Pending(s, queue)
    && UnlinkedExact(s, s.nodes)
  }

  /** The blocks that have data and are not linked. */
  function Unreached(s: Links): set<BlockIndex>
    requires Shape(s)
  {
    set b | b in s.data && s.chainTx[b] == 0
  }

  /** One round: link the first block of the queue and release the children that waited for it. */
  function LinkFirst(s: Links, b: BlockIndex): Links
    requires Shape(s) && b in s.nodes
  {
    s.(chainTx := s.chainTx[b := ParentTotal(s, b) + s.nTx[b]], unlinked := s.unlinked - {b})
  }

  lemma ChildrenWait(s: Links, queue: seq<BlockIndex>, b: BlockIndex, c: BlockIndex)
    requires Linking(s, queue) && b in s.nodes && s.chainTx[b] == 0
    ensures c in Waiting(s.unlinked, b) <==> c in s.data && c.pprev == b
    ensures c in Waiting(s.unlinked, b) ==> c !in queue && s.chainTx[c] == 0
  {
    if c in s.data && c.pprev == b && c !in queue { assert Local(s, c); }
  }

  lemma LinkFirstLocal(s: Links, queue: seq<BlockIndex>, c: BlockIndex)
    requires queue != [] && Linking(s, queue) && c in s.nodes
    requires c !in queue[1..] + Waiting(s.unlinked, queue[0])
    ensures Shape(LinkFirst(s, queue[0])) && Local(LinkFirst(s, queue[0]), c)
  {
    var b := queue[0];
    assert queue == [b] + queue[1..];
    ChildrenWait(s, queue, b, c);
    if c != b { assert Local(s, c); }
  }

  lemma LinkFirstPending(s: Links, queue: seq<BlockIndex>)
    requires queue != [] && Linking(s, queue)
    ensures Shape(LinkFirst(s, queue[0]))
    ensures Pending(LinkFirst(s, queue[0]), queue[1..] + Waiting(s.unlinked, queue[0]))
  {
    var b, kids, z := queue[0], Waiting(s.unlinked, queue[0]), LinkFirst(s, queue[0]);
    assert queue == [b] + queue[1..];
    forall c | c in kids ensures c in s.data && c.pprev == b && c !in queue && s.chainTx[c] == 0 {
      ChildrenWait(s, queue, b, c);
    }
    DistinctConcat(queue[1..], kids);
  }

  lemma LinkFirstUnlinked(s: Links, queue: seq<BlockIndex>)
    requires queue != [] && Linking(s, queue)
    ensures Shape(LinkFirst(s, queue[0])) && UnlinkedExact(LinkFirst(s, queue[0]), s.nodes)
  {
    var b, z := queue[0], LinkFirst(s, queue[0]);
    forall c | c in s.nodes && c in s.data && c.pprev != null && z.chainTx[c.pprev] == 0
      ensures c in Waiting(z.unlinked, c.pprev)
    {
      assert c.pprev != b && c in Waiting(s.unlinked, c.pprev);
    }
  }

  /** A round keeps the state of the loop and leaves fewer blocks unreached. */
  lemma LinkFirstKeeps(s: Links, queue: seq<BlockIndex>)
    requires queue != [] && Linking(s, queue)
    ensures var z := LinkFirst(s, queue[0]);
            Linking(z, queue[1..] + Waiting(s.unlinked, queue[0])) && Unreached(z) < Unreached(s)
  {
    var z, next := LinkFirst(s, queue[0]), queue[1..] + Waiting(s.unlinked, queue[0]);
    LinkFirstPending(s, queue);
    LinkFirstUnlinked(s, queue);
    forall c | c in s.nodes && c !in next ensures Local(z, c) { LinkFirstLocal(s, queue, c); }
    assert queue[0] in Unreached(s) && queue[0] !in Unreached(z);
  }

  // ---- Data arrives ----------------------------------------------------------------------

  function WithData(s: Links, b: BlockIndex, n: nat): Links
    requires Shape(s) && b in s.nodes
  {
    s.(data := s.data + {b}, nTx := s.nTx[b := n], chainTx := s.chainTx[b := 0])
  }

  lemma ArriveLinked(s: Links, b: BlockIndex, n: nat)
    requires Linking(s, []) && b in s.nodes && b !in s.data && n >= 1 && ParentLinked(s, b)
    ensures Linking(WithData(s, b, n), [b])
  {
    var z := WithData(s, b, n);
    assert Local(s, b);
    assert z.chainTx == s.chainTx;
    forall c | c in s.nodes && c !in [b] ensures Local(z, c) { assert Local(s, c); }
  }

  function WithWaiter(s: Links, b: BlockIndex): Links
    requires b.pprev != null
  {
    s.(unlinked := s.unlinked[b.pprev := Waiting(s.unlinked, b.pprev) + [b]])
  }

  /** A block that starts to wait is in the multimap exactly once. */
  lemma WaiterAdded(s: Links, children: set<BlockIndex>, b: BlockIndex)
    requires Shape(s) && UnlinkedExact(s, children) && b in s.nodes && b.pprev != null && b !in children
    requires b in s.data && s.chainTx[b.pprev] == 0
    ensures Shape(WithWaiter(s, b)) && UnlinkedExact(WithWaiter(s, b), children + {b})
  {
    var z := WithWaiter(s, b);
    DistinctConcat(Waiting(s.unlinked, b.pprev), [b]);
    forall c | c in children + {b} && c in z.data && c.pprev != null && z.chainTx[c.pprev] == 0
      ensures c in Waiting(z.unlinked, c.pprev)
    {
      if c != b { assert c in Waiting(s.unlinked, c.pprev); }
    }
  }

  lemma DataUnlinked(s: Links, b: BlockIndex, n: nat)
    requires Linking(s, []) && b in s.nodes && b !in s.data && n >= 1 && s.chainTx[b] == 0
    ensures Shape(WithData(s, b, n)) && UnlinkedExact(WithData(s, b, n), s.nodes - {b})
  {
    hide Local, Pending, Distinct;
    var y := WithData(s, b, n);
    assert y.chainTx == s.chainTx;
    forall p | p in y.unlinked ensures ListRight(y, s.nodes - {b}, p) { assert ListRight(s, s.nodes, p); }
    assert AllWaiters(y, s.nodes - {b});
  }

  lemma ArriveUnlinked(s: Links, b: BlockIndex, n: nat)
    requires Linking(s, []) && b in s.nodes && b !in s.data && n >= 1 && !ParentLinked(s, b)
    ensures Linking(WithWaiter(WithData(s, b, n), b), [])
  {
    hide UnlinkedExact;
    var y := WithData(s, b, n);
    var z := WithWaiter(y, b);
    assert Local(s, b);
    DataUnlinked(s, b, n);
    WaiterAdded(y, s.nodes - {b}, b);
    assert s.nodes - {b} + {b} == s.nodes;
    forall c | c in s.nodes ensures Local(z, c) { assert Local(s, c); }
  }

  function WithHeader(s: Links, b: BlockIndex): Links {
    s.(nodes := s.nodes + {b}, nTx := s.nTx[b := 0], chainTx := s.chainTx[b := 0])
  }

  lemma HeaderShape(s: Links, b: BlockIndex)
    requires Shape(s) && b !in s.nodes && (b.pprev != null ==> b.pprev in s.nodes)
    ensures Shape(WithHeader(s, b)) && forall c | c in s.nodes :: WithHeader(s, b).chainTx[c] == s.chainTx[c]
  {}

  lemma HeaderUnlinked(s: Links, b: BlockIndex)
    requires Linking(s, []) && b !in s.nodes && (b.pprev != null ==> b.pprev in s.nodes)
    ensures Shape(WithHeader(s, b)) && UnlinkedExact(WithHeader(s, b), s.nodes + {b})
  {
    hide Local, Pending, Distinct;
    var z := WithHeader(s, b);
    HeaderShape(s, b);
    forall p | p in z.unlinked ensures ListRight(z, s.nodes + {b}, p) { assert ListRight(s, s.nodes, p); }
    forall c {:trigger Waiting(s.unlinked, c.pprev)} | c in s.nodes + {b} && c in s.data && c.pprev != null && z.chainTx[c.pprev] == 0
      ensures c in Waiting(s.unlinked, c.pprev)
    {
      DataKnown(s, c);
    }
    assert AllWaiters(z, s.nodes + {b});
  }

  lemma DataKnown(s: Links, c: BlockIndex)
    requires Shape(s) && c in s.data
    ensures c in s.nodes && (c.pprev != null ==> c.pprev in s.nodes)
  {}

  /** A header without data, whose parent if any is known. */
  lemma ArriveHeader(s: Links, b: BlockIndex)
    requires Linking(s, []) && b !in s.nodes && (b.pprev != null ==> b.pprev in s.nodes)
    requires forall c | c in s.nodes :: c.pprev != b
    ensures Linking(WithHeader(s, b), [])
  {
    var z := WithHeader(s, b);
    HeaderUnlinked(s, b);
    forall c | c in z.nodes ensures Local(z, c) { if c != b { assert Local(s, c); } }
  }

  // ---- Rebuilding at start-up ------------------------------------------------------------

  /** The blocks in done have been processed; nothing else has been touched yet. */
  predicate Rebuilt(s: Links, done: set<BlockIndex>) {
    && Shape(s) && done <= s.nodes
    && Closed(done)
    && (forall b {:trigger Local(s, b)} | b in done :: Local(s, b))
    && (forall b {:trigger s.chainTx[b]} | b in s.nodes && b !in done :: s.chainTx[b] == 0)
    && UnlinkedExact(s, done)
  }

  /** The step of LoadBlockIndexDB for one block. */
  function RebuildOne(s: Links, b: BlockIndex): Links
    requires Shape(s) && b in s.nodes
  {
    if b !in s.data then s
    else if ParentLinked(s, b) then s.(chainTx := s.chainTx[b := ParentTotal(s, b) + s.nTx[b]])
    else WithWaiter(s.(chainTx := s.chainTx[b := 0]), b)
  }

  lemma RebuildOneUnlinked(s: Links, done: set<BlockIndex>, b: BlockIndex)
    requires Rebuilt(s, done) && b in s.nodes && b !in done && (b.pprev != null ==> b.pprev in done)
    ensures Shape(RebuildOne(s, b)) && UnlinkedExact(RebuildOne(s, b), done + {b})
  {
    var z := RebuildOne(s, b);
    assert s.chainTx[b] == 0;
    if b in s.data && !ParentLinked(s, b) {
      assert s.chainTx[b := 0] == s.chainTx;
      WaiterAdded(s, done, b);
    } else {
      forall p, c | p in s.unlinked && c in s.unlinked[p] ensures z.chainTx[p] == 0 { assert c in done && c.pprev == p; }
      forall c | c in done + {b} && c in z.data && c.pprev != null && z.chainTx[c.pprev] == 0
        ensures c in Waiting(z.unlinked, c.pprev)
      {
        if c != b { assert c.pprev in done && c in Waiting(s.unlinked, c.pprev); }
      }
    }
  }

  lemma RebuildOneKeeps(s: Links, done: set<BlockIndex>, b: BlockIndex)
    requires Rebuilt(s, done) && b in s.nodes && b !in done && (b.pprev != null ==> b.pprev in done)
    ensures Rebuilt(RebuildOne(s, b), done + {b})
  {
    var z := RebuildOne(s, b);
    RebuildOneUnlinked(s, done, b);
    forall c | c in done + {b} ensures Local(z, c) { if c != b { assert Local(s, c); } }
  }

  lemma RebuiltAll(s: Links)
    requires Rebuilt(s, s.nodes)
    ensures Linking(s, [])
  {}

  // ---- The rules fix the totals ----------------------------------------------------------

  function SumOver(path: seq<BlockIndex>, n: map<BlockIndex, nat>): nat
    requires forall b | b in path :: b in n
  {
    if path == [] then 0 else SumOver(path[..|path| - 1], n) + n[path[|path| - 1]]
  }

  predicate AllIn(path: seq<BlockIndex>, data: set<BlockIndex>) { forall b | b in path :: b in data }

  /** Whatever the order in which data arrived, and after a restart as well: nChainTx is positive
    * exactly when the block and all its ancestors have data, and is then the number of
    * transactions on its branch. */
  lemma {:induction false} TotalsExact(s: Links, b: BlockIndex)
    requires Linking(s, []) && b in s.nodes && b.Rooted()
    ensures forall c | c in b.Path() :: c in s.nodes
    ensures s.chainTx[b] > 0 <==> AllIn(b.Path(), s.data)
    ensures s.chainTx[b] == if AllIn(b.Path(), s.data) then SumOver(b.Path(), s.nTx) else 0
    decreases b.nHeight
  {
    BranchInside(b, s.nodes);
    assert Local(s, b);
    assert b.Path()[..|b.Path()| - 1] == b.ancestors;
    assert b in b.Path();
    if b.pprev != null {
      assert b.ancestors == b.pprev.Path();
      TotalsExact(s, b.pprev);
      assert forall c | c in b.pprev.Path() :: c in b.Path();
      assert forall c | c in b.Path() :: c in b.pprev.Path() || c == b;
    } else {
      assert b.Path() == [b];
    }
  }

  /** Two states over the same blocks, with the same data, agree on all totals: an index rebuilt at
    * start-up equals the one that was running, however its data had arrived. */
  lemma SameTotals(s: Links, z: Links)
    requires Linking(s, []) && Linking(z, []) && s.nodes == z.nodes && s.data == z.data
    requires forall b | b in s.nodes :: b.Rooted()
    requires forall b | b in s.data :: s.nTx[b] == z.nTx[b]
    ensures s.chainTx == z.chainTx
    ensures forall p, c :: c in Waiting(s.unlinked, p) <==> c in Waiting(z.unlinked, p)
  {
    forall b | b in s.nodes ensures s.chainTx[b] == z.chainTx[b] {
      TotalsExact(s, b);
      TotalsExact(z, b);
      if AllIn(b.Path(), s.data) { SameSum(b.Path(), s.nTx, z.nTx); }
    }
    forall p, c ensures c in Waiting(s.unlinked, p) <==> c in Waiting(z.unlinked, p) {
      WaitingIff(s, p, c);
      WaitingIff(z, p, c);
    }
  }

  lemma WaitingIff(s: Links, p: BlockIndex, c: BlockIndex)
    requires Linking(s, [])
    ensures c in Waiting(s.unlinked, p) <==> p in s.nodes && c in s.data && c.pprev == p && s.chainTx[p] == 0
  {
    assert c in s.nodes && c.pprev != null ==> c.pprev in s.nodes;
  }

  lemma {:induction false} SameSum(path: seq<BlockIndex>, n: map<BlockIndex, nat>, m: map<BlockIndex, nat>)
    requires forall b | b in path :: b in n && b in m && n[b] == m[b]
    ensures SumOver(path, n) == SumOver(path, m)
  {
    if path != [] { SameSum(path[..|path| - 1], n, m); }
  }
}
