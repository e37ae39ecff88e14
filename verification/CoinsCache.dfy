/** Layers of caches over the coin database. Entries are pulled up on demand, marked dirty when
  * modified and fresh when the layer below has nothing for them, and written down in bulk. However
  * many layers there are, they behave like the one flat view that the rest of the model uses.
  */
module CoinsCaches {
  import opened Coins
  import opened Sequences

  datatype Entry = Entry(coins: Coin, dirty: bool, isFresh: bool)

  type Cache = map<TxId, Entry>

  datatype Layers = Disk(db: View) | Cached(cache: Cache, base: Layers)

  /** What a lookup finds: a record, possibly with nothing left unspent, or nothing. */
  function Get(s: Layers, id: TxId): Option<Coin> {
    match s
    case Disk(db) => if id in db then Some(db[id]) else None
    case Cached(cache, base) => if id in cache then Some(cache[id].coins) else Get(base, id)
  }

  /** A lookup copies what it finds into every layer it passes. */
  function Fetch(s: Layers, id: TxId): Layers {
    match s
    case Disk(_) => s
    case Cached(cache, base) =>
      if id in cache then s
      else
        match Get(base, id)
        case None => Cached(cache, Fetch(base, id))
        case Some(c) => Cached(cache[id := Entry(c, false, c.IsPruned())], Fetch(base, id))
  }

  /** The entry a modification starts from; absent and empty records of the base make it fresh. */
  function Opened(s: Layers, id: TxId): Layers
    requires s.Cached?
  {
    if id !in s.cache && Get(s.base, id).None? then Cached(s.cache[id := Entry(CLEAR, false, true)], Fetch(s.base, id))
    else Fetch(s, id)
  }

  lemma OpenedHas(s: Layers, id: TxId)
    requires s.Cached?
    ensures Opened(s, id).Cached? && id in Opened(s, id).cache
  {}

  /** A modification that leaves the record as c: trim it, mark it dirty, and drop it again if it is
    * fresh and nothing is left. */
  function Modified(s: Layers, id: TxId, c: Coin): Layers
    requires s.Cached?
  {
    OpenedHas(s, id);
    var t := Opened(s, id);
    var e := Entry(c.(vout := Trim(c.vout)), true, t.cache[id].isFresh);
    if e.isFresh && e.coins.IsPruned() then Cached(t.cache - {id}, t.base) else Cached(t.cache[id := e], t.base)
  }

  // ---- What the layers show ----------------------------------------------------------------

  predicate Live(c: Option<Coin>) { c.Some? && !c.value.IsPruned() }

  /** The flat view: exactly the records with something unspent. */
  ghost predicate Shows(s: Layers, v: View) {
    forall id: TxId :: (id in v <==> Live(Get(s, id))) && (id in v ==> v[id] == Get(s, id).value)
  }

  predicate Trimmed(c: Coin) { c.vout == Trim(c.vout) }

  /** The layer holds the entry itself; the database counts as holding everything. */
  predicate Holds(s: Layers, id: TxId) { s.Disk? || id in s.cache }

  /** A fresh entry has nothing below it, a clean one agrees with what is below, and one that is not
    * fresh has been pulled through the layer below. */
  predicate GoodEntry(e: Entry, base: Layers, id: TxId) {
    && Trimmed(e.coins)
    && (e.isFresh ==> !Live(Get(base, id)))
    && (!e.dirty ==> Get(base, id) == Some(e.coins))
    && (!e.isFresh ==> Holds(base, id))
  }

  ghost predicate Good(s: Layers) {
    match s
    case Disk(db) => forall id | id in db :: Trimmed(db[id]) && !db[id].IsPruned()
    case Cached(cache, base) => Good(base) && forall id | id in cache :: GoodEntry(cache[id], base, id)
  }

  lemma {:induction false} GetTrimmed(s: Layers, id: TxId)
    requires Good(s) && Get(s, id).Some?
    ensures Trimmed(Get(s, id).value)
  {
    match s
    case Disk(_) =>
    case Cached(cache, base) =>
      if id in cache { assert GoodEntry(cache[id], base, id); } else { GetTrimmed(base, id); }
  }

  lemma {:induction false} FetchGet(s: Layers, id: TxId, j: TxId)
    ensures Get(Fetch(s, id), j) == Get(s, j)
    ensures Holds(s, j) ==> Holds(Fetch(s, id), j)
    ensures Get(s, id).Some? ==> Holds(Fetch(s, id), id)
  {
    if s.Cached? { FetchGet(s.base, id, j); }
  }

  /** Lookups change no layer's content. */
  lemma {:induction false} FetchKeeps(s: Layers, id: TxId)
    requires Good(s)
    ensures Good(Fetch(s, id)) && forall v :: Shows(s, v) ==> Shows(Fetch(s, id), v)
  {
    forall j { FetchGet(s, id, j); }
    if s.Cached? {
      FetchKeeps(s.base, id);
      var t := Fetch(s, id);
      forall j | j in t.cache ensures GoodEntry(t.cache[j], t.base, j) {
        FetchGet(s.base, id, j);
        if j in s.cache {
          assert GoodEntry(s.cache[j], s.base, j);
        } else {
          GetTrimmed(s.base, id);
        }
      }
    }
  }

  lemma OpenedGood(s: Layers, id: TxId)
    requires Good(s) && s.Cached?
    ensures var t := Opened(s, id);
            && t.Cached? && id in t.cache && Good(t.base) && (forall j :: Get(t.base, j) == Get(s.base, j))
            && (forall j | j in t.cache ::
                  if j == id then if t.cache[j].isFresh then !Live(Get(t.base, j)) else Holds(t.base, j)
                  else GoodEntry(t.cache[j], t.base, j))
            && (forall j | j != id :: (j in t.cache <==> j in s.cache) && (j in t.cache ==> t.cache[j] == s.cache[j]))
  {
    FetchKeeps(s.base, id);
    FetchKeeps(s, id);
    forall j { FetchGet(s.base, id, j); }
    var t := Opened(s, id);
    forall j | j in t.cache && j != id ensures GoodEntry(t.cache[j], t.base, j) { assert GoodEntry(s.cache[j], s.base, j); }
  }

  lemma ModifiedGood(s: Layers, id: TxId, c: Coin)
    requires Good(s) && s.Cached?
    ensures var t := Modified(s, id, c);
            t.Cached? && Good(t) && forall w :: Shows(s.base, w) ==> Shows(t.base, w)
  {
    var t := Modified(s, id, c);
    OpenedGood(s, id);
    TrimTwice(c.vout);
    forall j | j in t.cache ensures GoodEntry(t.cache[j], t.base, j) {}
  }

  /** Only the modified record looks different, and it looks like what was written. */
  lemma ModifiedGet(s: Layers, id: TxId, c: Coin, j: TxId)
    requires Good(s) && s.Cached?
    ensures var now := Get(Modified(s, id, c), j);
            if j != id then now == Get(s, j)
            else (Live(now) <==> Trim(c.vout) != []) && (Live(now) ==> now.value == c.(vout := Trim(c.vout)))
  {
    OpenedGood(s, id);
    PrunedIsEmpty(c);
  }

  /** A modification of the top layer is the modification of the flat view; the layers below show
    * what they showed. */
  lemma ModifyRefines(s: Layers, id: TxId, c: Coin, v: View)
    requires Good(s) && s.Cached? && Shows(s, v)
    ensures var t := Modified(s, id, c);
            t.Cached? && Good(t) && Shows(t, Store(v, id, c)) && forall w :: Shows(s.base, w) ==> Shows(t.base, w)
  {
    hide Modified, Good, Get;
    ModifiedGood(s, id, c);
    forall j: TxId { ModifiedGet(s, id, c, j); }
  }

  lemma TrimTwice(vout: seq<TxOut>)
    ensures Trim(Trim(vout)) == Trim(vout)
  {
    TrimKeeps(Trim(vout));
  }

  lemma PrunedIsEmpty(c: Coin)
    ensures c.(vout := Trim(c.vout)).IsPruned() <==> Trim(c.vout) == []
  {
    var t := c.(vout := Trim(c.vout));
    if t.vout != [] { assert !t.vout[|t.vout| - 1].IsNull(); }
  }

  // ---- Writing a layer down ----------------------------------------------------------------

  /** What becomes of one entry when the child's is written over it. */
  function WriteOne(us: Option<Entry>, e: Entry): Option<Entry> {
    if !e.dirty then us
    else
      match us
      case None => if e.coins.IsPruned() then None else Some(Entry(e.coins, true, true))
      case Some(our) => if our.isFresh && e.coins.IsPruned() then None else Some(Entry(e.coins, true, our.isFresh))
  }

  function Find(cache: Cache, id: TxId): Option<Entry> { if id in cache then Some(cache[id]) else None }

  /** The cache below after the child has been written into it, entry by entry. */
  ghost predicate Written(us: Cache, child: Cache, written: set<TxId>, r: Cache) {
    forall id: TxId :: Find(r, id) == if id in written && id in child then WriteOne(Find(us, id), child[id]) else Find(us, id)
  }

  /** A modified record the cache below knows nothing of is marked fresh. */
  ghost predicate FreshWhereNew(us: Cache, child: Cache) {
    forall id | id in child && child[id].dirty && !child[id].coins.IsPruned() && id !in us :: child[id].isFresh
  }

  /** Write the dirty entries of a child cache into this one; the assertion in the middle never fails. */
  method BatchWrite(us: Cache, mapCoins: Cache) returns (r: Cache)
    requires FreshWhereNew(us, mapCoins)
    ensures Written(us, mapCoins, mapCoins.Keys, r)
  {
    r := us;
    var rest := mapCoins.Keys;
    while rest != {}
      invariant rest <= mapCoins.Keys && Written(us, mapCoins, mapCoins.Keys - rest, r)
      decreases rest
    {
      var id :| id in rest;
      var e := mapCoins[id];
      assert Find(r, id) == Find(us, id);
      if e.dirty {
        if id !in r {
          if !e.coins.IsPruned() {
            assert e.isFresh;
            r := r[id := Entry(e.coins, true, true)];
          }
        } else if r[id].isFresh && e.coins.IsPruned() {
          r := r - {id};
        } else {
          r := r[id := Entry(e.coins, true, r[id].isFresh)];
        }
      }
      rest := rest - {id};
    }
  }

  lemma GoodMeansFresh(child: Cache, us: Cache, base: Layers)
    requires Good(Cached(child, Cached(us, base)))
    ensures FreshWhereNew(us, child)
  {
    forall id | id in child && child[id].dirty && !child[id].coins.IsPruned() && id !in us ensures child[id].isFresh {
      assert GoodEntry(child[id], Cached(us, base), id);
    }
  }

  /** What one id looks like below, once the child has been written. */
  lemma WrittenAt(child: Cache, us: Cache, base: Layers, r: Cache, id: TxId)
    requires Good(Cached(child, Cached(us, base))) && Written(us, child, child.Keys, r)
    ensures id in r ==> GoodEntry(r[id], base, id)
    ensures var above, below := Get(Cached(child, Cached(us, base)), id), Get(Cached(r, base), id);
            (Live(above) <==> Live(below)) && (Live(above) ==> above == below)
  {
    assert Find(r, id) == if id in child then WriteOne(Find(us, id), child[id]) else Find(us, id);
    if id in us { assert GoodEntry(us[id], base, id); }
    if id in child { assert GoodEntry(child[id], Cached(us, base), id); }
  }

  /** Flushing a cache into the one below: that one now shows what the upper one showed. */
  lemma FlushToCache(child: Cache, us: Cache, base: Layers, r: Cache, v: View)
    requires Good(Cached(child, Cached(us, base))) && Written(us, child, child.Keys, r)
    requires Shows(Cached(child, Cached(us, base)), v)
    ensures Good(Cached(r, base)) && Shows(Cached(r, base), v)
  {
    forall id: TxId { WrittenAt(child, us, base, r, id); }
  }

  /** The database after a cache has been written to it: dirty records replace or erase what it had. */
  function WrittenToDisk(db: View, child: Cache): View {
    (map id | id in db.Keys + child.Keys && (if id in child && child[id].dirty then !child[id].coins.IsPruned() else id in db) ::
       if id in child && child[id].dirty then child[id].coins else db[id])
  }

  lemma FlushToDisk(child: Cache, db: View, v: View)
    requires Good(Cached(child, Disk(db))) && Shows(Cached(child, Disk(db)), v)
    ensures Good(Disk(WrittenToDisk(db, child))) && v == WrittenToDisk(db, child)
  {
    var d := WrittenToDisk(db, child);
    forall id: TxId ensures (id in d <==> id in v) && (id in d ==> Trimmed(d[id]) && d[id] == v[id]) {
      var top := Get(Cached(child, Disk(db)), id);
      assert (id in v <==> Live(top)) && (id in v ==> v[id] == top.value);
      if id in child {
        assert GoodEntry(child[id], Disk(db), id) && top == Some(child[id].coins);
        assert !child[id].dirty ==> Get(Disk(db), id) == top;
      } else {
        assert top == Get(Disk(db), id);
      }
    }
    assert d == v;
  }

  // ---- A scratch cache, used and then flushed or thrown away --------------------------------

  datatype Op = Read(id: TxId) | Write(id: TxId, c: Coin)

  function Do(s: Layers, op: Op): (t: Layers)
    requires s.Cached?
    ensures t.Cached?
  {
    match op
    case Read(id) => Fetch(s, id)
    case Write(id, c) => Modified(s, id, c)
  }

  function DoAll(s: Layers, ops: seq<Op>): (t: Layers)
    requires s.Cached?
    ensures t.Cached?
  {
    if ops == [] then s else Do(DoAll(s, Init(ops)), Last(ops))
  }

  function FlatAll(v: View, ops: seq<Op>): View {
    if ops == [] then v
    else
      var w := FlatAll(v, Init(ops));
      match Last(ops)
      case Read(_) => w
      case Write(id, c) => Store(w, id, c)
  }

  lemma FetchBase(s: Layers, id: TxId, w: View)
    requires Good(s) && s.Cached? && Shows(s.base, w)
    ensures Shows(Fetch(s, id).base, w)
  {
    FetchKeeps(s.base, id);
  }

  /** A new cache over some layers, after any sequence of lookups and modifications: it shows what a
    * flat view would, and the layers below still show what they did, so that the cache can be thrown
    * away without a trace. */
  lemma {:induction false} ScratchRefines(s: Layers, ops: seq<Op>, v: View)
    requires Good(s) && Shows(s, v)
    ensures var t := DoAll(Cached(map[], s), ops); Good(t) && Shows(t, FlatAll(v, ops)) && Shows(t.base, v)
  {
    if ops != [] {
      ScratchRefines(s, Init(ops), v);
      var t := DoAll(Cached(map[], s), Init(ops));
      match Last(ops)
      case Read(id) =>
        FetchKeeps(t, id);
        FetchBase(t, id, v);
      case Write(id, c) => ModifyRefines(t, id, c, FlatAll(v, Init(ops)));
    }
  }
}
