/** The coin record of a transaction on disk: which outputs are left is a bit mask, and a negative
  * version is not written faithfully.
  */
module CoinRecords {
  import opened Coins
  import opened Sequences
  import opened Shifts
  import opened UndoRecords
  import opened UndoDisk

  // ---- The bit mask ------------------------------------------------------------------------

  function Bits(s: seq<bool>): nat { if s == [] then 0 else (if s[0] then 1 else 0) + 2 * Bits(s[1..]) }

  predicate BitAt(b: nat, p: nat) { if p == 0 then b % 2 == 1 else BitAt(b / 2, p - 1) }

  lemma {:induction false} BitsAt(s: seq<bool>, p: nat)
    requires p < |s|
    ensures BitAt(Bits(s), p) == s[p]
  {
    if p > 0 {
      assert Bits(s) / 2 == Bits(s[1..]);
      BitsAt(s[1..], p - 1);
    }
  }

  lemma {:induction false} BitsSmall(s: seq<bool>)
    ensures Bits(s) < ShiftLeft(1, |s|)
  {
    if s != [] {
      BitsSmall(s[1..]);
      ShiftLeftAdd(1, 1, |s| - 1);
    }
  }

  lemma {:induction false} BitsNone(s: seq<bool>, p: nat)
    requires p < |s| && s[p]
    ensures Bits(s) != 0
  {
    if p > 0 { BitsNone(s[1..], p - 1); }
  }

  predicate Has(vout: seq<TxOut>, i: nat) { i < |vout| && !vout[i].IsNull() }

  /** Eight outputs per byte, from the third output on. */
  function ByteFlags(vout: seq<TxOut>, b: nat): (r: seq<bool>)
    ensures |r| == 8
  {
    seq(8, i requires 0 <= i < 8 => Has(vout, 2 + b * 8 + i))
  }

  function MaskByte(vout: seq<TxOut>, b: nat): (r: nat)
    ensures r < 256
  {
    BitsSmall(ByteFlags(vout, b));
    assert ShiftLeft(1, 8) == ShiftLeft(4, 6) == ShiftLeft(16, 4) == ShiftLeft(64, 2) == 256;
    Bits(ByteFlags(vout, b))
  }

  /** CalcMaskSize: the bytes up to the last that is not zero, of the first n. */
  function UsedBytes(vout: seq<TxOut>, n: nat): (r: nat)
    ensures r <= n
  {
    if n == 0 then 0 else if MaskByte(vout, n - 1) != 0 then n else UsedBytes(vout, n - 1)
  }

  function AllBytes(vout: seq<TxOut>): nat { (|vout| + 5) / 8 }

  function Mask(vout: seq<TxOut>): (r: seq<nat>)
    ensures forall b | 0 <= b < |r| :: r[b] < 256
  {
    seq(UsedBytes(vout, AllBytes(vout)), b requires 0 <= b => MaskByte(vout, b))
  }

  function NonZero(mask: seq<nat>): nat {
    if mask == [] then 0 else (if mask[0] != 0 then 1 else 0) + NonZero(mask[1..])
  }

  /** The mask bytes of the first n. */
  function FirstBytes(vout: seq<TxOut>, n: nat): (r: seq<nat>)
    ensures |r| == n
  {
    seq(n, b requires 0 <= b => MaskByte(vout, b))
  }

  lemma {:induction false} NonZeroAppend(mask: seq<nat>, b: nat)
    ensures NonZero(mask + [b]) == NonZero(mask) + (if b != 0 then 1 else 0)
  {
    if mask != [] {
      assert (mask + [b])[1..] == mask[1..] + [b];
      NonZeroAppend(mask[1..], b);
    }
  }

  /** Bytes after the last used one are zero. */
  lemma {:induction false} UnusedBytes(vout: seq<TxOut>, n: nat)
    ensures NonZero(FirstBytes(vout, n)) == NonZero(FirstBytes(vout, UsedBytes(vout, n)))
  {
    if n > 0 {
      assert FirstBytes(vout, n) == FirstBytes(vout, n - 1) + [MaskByte(vout, n - 1)];
      NonZeroAppend(FirstBytes(vout, n - 1), MaskByte(vout, n - 1));
      UnusedBytes(vout, n - 1);
    }
  }

  lemma {:induction false} BitsZero(s: seq<bool>)
    requires forall p | 0 <= p < |s| :: !s[p]
    ensures Bits(s) == 0
  {
    if s != [] { BitsZero(s[1..]); }
  }

  predicate AnyFlag(vout: seq<TxOut>, b: nat, n: nat)
    requires n <= 8
  {
    exists i | 0 <= i < n :: ByteFlags(vout, b)[i]
  }

  lemma MaskByteZero(vout: seq<TxOut>, b: nat)
    ensures MaskByte(vout, b) != 0 <==> AnyFlag(vout, b, 8)
  {
    if i :| 0 <= i < 8 && ByteFlags(vout, b)[i] { BitsNone(ByteFlags(vout, b), i); } else { BitsZero(ByteFlags(vout, b)); }
  }

  lemma AnyFlagNext(vout: seq<TxOut>, b: nat, n: nat)
    requires n < 8
    ensures AnyFlag(vout, b, n + 1) <==> AnyFlag(vout, b, n) || Has(vout, 2 + b * 8 + n)
  {
    assert ByteFlags(vout, b)[n] == Has(vout, 2 + b * 8 + n);
  }

  /** Flags past the end of the outputs are down. */
  lemma {:induction false} AnyFlagRest(vout: seq<TxOut>, b: nat, n: nat)
    requires n <= 8 && 2 + b * 8 + n >= |vout|
    ensures AnyFlag(vout, b, 8) <==> AnyFlag(vout, b, n)
    decreases 8 - n
  {
    if n < 8 {
      AnyFlagNext(vout, b, n);
      AnyFlagRest(vout, b, n + 1);
    }
  }

  /** Is a byte of the mask zero? */
  method IsZero(vout: seq<TxOut>, b: nat) returns (fZero: bool)
    ensures fZero <==> MaskByte(vout, b) == 0
  {
    hide AnyFlag, MaskByte;
    fZero := true;
    var i := 0;
    NoFlag(vout, b);
    while i < 8 && 2 + b * 8 + i < |vout|
      invariant 0 <= i <= 8 && (fZero <==> !AnyFlag(vout, b, i))
    {
      AnyFlagNext(vout, b, i);
      if !vout[2 + b * 8 + i].IsNull() { fZero := false; }
      i := i + 1;
    }
    if i < 8 { AnyFlagRest(vout, b, i); }
    MaskByteZero(vout, b);
  }

  lemma NoFlag(vout: seq<TxOut>, b: nat)
    ensures !AnyFlag(vout, b, 0)
  {}

  /** The number of bytes of the mask, and of those that are not zero. */
  method CalcMaskSize(vout: seq<TxOut>) returns (nBytes: nat, nNonzeroBytes: nat)
    ensures nBytes == |Mask(vout)| && nNonzeroBytes == NonZero(Mask(vout))
  {
    hide MaskByte, Has;
    var nLastUsedByte := 0;
    nNonzeroBytes := 0;
    var b := 0;
    while 2 + b * 8 < |vout|
      invariant 0 <= b <= AllBytes(vout)
      invariant nLastUsedByte == UsedBytes(vout, b) && nNonzeroBytes == NonZero(FirstBytes(vout, b))
      decreases |vout| - b
    {
      var fZero := IsZero(vout, b);
      assert FirstBytes(vout, b + 1) == FirstBytes(vout, b) + [MaskByte(vout, b)];
      NonZeroAppend(FirstBytes(vout, b), MaskByte(vout, b));
      if !fZero {
        nLastUsedByte := b + 1;
        nNonzeroBytes := nNonzeroBytes + 1;
      }
      b := b + 1;
    }
    UnusedBytes(vout, b);
    assert Mask(vout) == FirstBytes(vout, UsedBytes(vout, b));
    nBytes := nLastUsedByte;
  }

  // ---- Writing -----------------------------------------------------------------------------

  /** Coinbase flag, the first two outputs, and how many bytes of the mask are not zero; the one that
    * is certain when both first outputs are spent is not counted. */
  function CoinCode(c: Coin): int {
    var first, second := Has(c.vout, 0), Has(c.vout, 1);
    8 * (NonZero(Mask(c.vout)) - (if first || second then 0 else 1))
    + (if c.coinbase then 1 else 0) + (if first then 2 else 0) + (if second then 4 else 0)
  }

  /** The lowest bits say what the code's name says; the rest counts bytes of the mask. */
  lemma CoinCodeIs(c: Coin)
    requires c.vout != [] && !c.vout[|c.vout| - 1].IsNull()
    ensures var code := CoinCode(c);
            && code >= 0
            && (code % 2 == 1 <==> c.coinbase)
            && (code / 2 % 2 == 1 <==> Has(c.vout, 0)) && (code / 4 % 2 == 1 <==> Has(c.vout, 1))
            && code / 8 == NonZero(Mask(c.vout)) - (if Has(c.vout, 0) || Has(c.vout, 1) then 0 else 1)
  {
    hide NonZero, Mask;
    var first, second := Has(c.vout, 0), Has(c.vout, 1);
    TrimmedMask(c.vout);
    if !first && !second { NonZeroLast(Mask(c.vout)); }
    CodeParts(NonZero(Mask(c.vout)) - (if first || second then 0 else 1), c.coinbase, first, second);
  }

  /** The outputs left, of the first n. */
  function Outs(vout: seq<TxOut>, n: nat): Stream {
    if n == 0 then [] else Outs(vout, n - 1) + (if Has(vout, n - 1) then [Out(vout[n - 1])] else [])
  }

  function CoinStream(c: Coin): Stream {
    Bytes(VarInt(c.version)) + Bytes(VarInt(CoinCode(c))) + Bytes(Mask(c.vout)) + Outs(c.vout, |c.vout|) + Bytes(VarInt(c.height))
  }

  // ---- Reading -----------------------------------------------------------------------------

  datatype Part<T> = Broken | Part(value: T, next: nat)

  function ByteBits(b: nat): (r: seq<bool>)
    ensures |r| == 8
  {
    seq(8, p requires 0 <= p < 8 => BitAt(b, p))
  }

  /** Bytes of the mask are read until the given number of them was not zero. */
  function ReadMask(s: Stream, i: nat, left: nat): Part<seq<bool>>
    decreases |s| - i
  {
    if left == 0 then Part([], i)
    else if i >= |s| || !s[i].Byte? then Broken
    else
      match ReadMask(s, i + 1, if s[i].b != 0 then left - 1 else left)
      case Broken => Broken
      case Part(rest, next) => Part(ByteBits(s[i].b) + rest, next)
  }

  function ReadOuts(s: Stream, i: nat, avail: seq<bool>): Part<seq<TxOut>> {
    if avail == [] then Part([], i)
    else
      match ReadOuts(s, i, Init(avail))
      case Broken => Broken
      case Part(vout, next) =>
        if !Last(avail) then Part(vout + [NULL_OUT], next)
        else if next < |s| && s[next].Out? then Part(vout + [s[next].txout], next + 1) else Broken
  }

  function ReadCoin(s: Stream): Option<Coin> {
    match ReadFrom(s, 0, 0)
    case Failed => None
    case Read(version, i) =>
      match ReadFrom(s, i, 0)
      case Failed => None
      case Read(code, j) =>
        var first, second := code / 2 % 2 == 1, code / 4 % 2 == 1;
        match ReadMask(s, j, code / 8 + (if first || second then 0 else 1))
        case Broken => None
        case Part(mask, k) =>
          match ReadOuts(s, k, [first, second] + mask)
          case Broken => None
          case Part(vout, m) =>
            match ReadFrom(s, m, 0)
            case Failed => None
            case Read(height, _) => Some(Coin(code % 2 == 1, Trim(vout), Signed(height), Signed(version)))
  }

  // ---- The mask is read back ---------------------------------------------------------------

  function MaskBits(mask: seq<nat>): seq<bool> { if mask == [] then [] else ByteBits(mask[0]) + MaskBits(mask[1..]) }

  lemma {:induction false} MaskReadBack(s: Stream, i: nat, mask: seq<nat>)
    requires Continues(s, i, mask) && (mask == [] || Last(mask) != 0)
    ensures ReadMask(s, i, NonZero(mask)) == Part(MaskBits(mask), i + |mask|)
    decreases |mask|
  {
    if mask != [] {
      assert s[i + 0] == Byte(mask[0]);
      assert [mask[0]] + mask[1..] == mask;
      ContinuesSplit(s, i, [mask[0]], mask[1..]);
      NonZeroLast(mask);
      MaskReadBack(s, i + 1, mask[1..]);
    }
  }

  lemma {:induction false} NonZeroLast(mask: seq<nat>)
    requires mask != [] && Last(mask) != 0
    ensures NonZero(mask) >= 1
  {
    if |mask| > 1 { NonZeroLast(mask[1..]); }
  }

  lemma {:induction false} MaskBitsAt(mask: seq<nat>, p: nat)
    requires p < 8 * |mask|
    ensures |MaskBits(mask)| == 8 * |mask| && MaskBits(mask)[p] == BitAt(mask[p / 8], p % 8)
  {
    if p >= 8 {
      MaskBitsAt(mask[1..], p - 8);
    } else if |mask| > 1 {
      MaskBitsAt(mask[1..], 0);
    } else {
      assert mask[1..] == [];
    }
  }

  lemma MaskByteAt(vout: seq<TxOut>, b: nat, p: nat)
    requires p < 8
    ensures BitAt(MaskByte(vout, b), p) == Has(vout, 2 + b * 8 + p)
  {
    BitsAt(ByteFlags(vout, b), p);
  }

  lemma {:induction false} ShiftHalf(b: nat, p: nat)
    ensures ShiftRight(b, p + 1) == ShiftRight(b / 2, p)
  {
    if p > 0 { ShiftHalf(b, p - 1); }
  }

  lemma {:induction false} BitAtIs(b: nat, p: nat)
    ensures BitAt(b, p) <==> ShiftRight(b, p) % 2 == 1
  {
    if p > 0 {
      BitAtIs(b / 2, p - 1);
      ShiftHalf(b, p - 1);
    }
  }

  /** In the mask, least significant bit first, each bit tells of one output, from the third on. */
  lemma MaskIs(vout: seq<TxOut>, b: nat, p: nat)
    requires p < 8 && b < |Mask(vout)|
    ensures ShiftRight(Mask(vout)[b], p) % 2 == 1 <==> 2 + 8 * b + p < |vout| && vout[2 + 8 * b + p].value != -1
  {
    MaskByteAt(vout, b, p);
    BitAtIs(MaskByte(vout, b), p);
  }

  /** A trimmed list of outputs needs all bytes of the mask. */
  lemma TrimmedMask(vout: seq<TxOut>)
    requires vout != [] && !vout[|vout| - 1].IsNull()
    ensures |Mask(vout)| == AllBytes(vout)
    ensures |vout| > 2 ==> Mask(vout) != [] && Last(Mask(vout)) != 0
    ensures |vout| <= 2 ==> Mask(vout) == []
  {
    var n := AllBytes(vout);
    if |vout| > 2 {
      var p := |vout| - 3 - 8 * (n - 1);
      assert 0 <= p < 8 && 2 + (n - 1) * 8 + p == |vout| - 1;
      assert Has(vout, 2 + (n - 1) * 8 + p) && ByteFlags(vout, n - 1)[p];
      BitsNone(ByteFlags(vout, n - 1), p);
      assert MaskByte(vout, n - 1) != 0;
    }
  }

  /** The availability flags, as reading finds them. */
  function Flags(vout: seq<TxOut>): seq<bool> { [Has(vout, 0), Has(vout, 1)] + MaskBits(Mask(vout)) }

  lemma FlagsAre(vout: seq<TxOut>)
    requires vout != [] && !vout[|vout| - 1].IsNull()
    ensures |Flags(vout)| == 2 + 8 * AllBytes(vout) >= |vout|
    ensures forall i | 0 <= i < |Flags(vout)| :: Flags(vout)[i] == Has(vout, i)
  {
    var mask := Mask(vout);
    TrimmedMask(vout);
    if mask != [] { MaskBitsAt(mask, 0); }
    forall i | 2 <= i < |Flags(vout)| ensures Flags(vout)[i] == Has(vout, i) {
      MaskBitsAt(mask, i - 2);
      MaskByteAt(vout, (i - 2) / 8, (i - 2) % 8);
    }
  }

  // ---- The outputs are read back -----------------------------------------------------------

  /** From position i on, s continues with part. */
  predicate ContinuesWith(s: Stream, i: nat, part: Stream) { i + |part| <= |s| && s[i..i + |part|] == part }

  lemma {:induction false} OutsAre(vout: seq<TxOut>, n: nat)
    ensures |vout| <= n ==> Outs(vout, n) == Outs(vout, |vout|)
  {
    if n > |vout| { OutsAre(vout, n - 1); }
  }

  /** The first n outputs, with blanks for those that are spent. */
  function Blanked(vout: seq<TxOut>, n: nat): (r: seq<TxOut>)
    ensures |r| == n
  {
    seq(n, k requires 0 <= k => if Has(vout, k) then vout[k] else NULL_OUT)
  }

  lemma {:induction false} OutsReadBack(s: Stream, i: nat, vout: seq<TxOut>, avail: seq<bool>)
    requires forall k | 0 <= k < |avail| :: avail[k] == Has(vout, k)
    requires ContinuesWith(s, i, Outs(vout, |avail|))
    ensures ReadOuts(s, i, avail) == Part(Blanked(vout, |avail|), i + |Outs(vout, |avail|)|)
    decreases |avail|
  {
    if avail != [] {
      var n := |avail| - 1;
      var before := Outs(vout, n);
      assert s[i..i + |before|] == s[i..i + |Outs(vout, n + 1)|][..|before|];
      OutsReadBack(s, i, vout, Init(avail));
      if Has(vout, n) { assert s[i + |before|] == s[i..i + |Outs(vout, n + 1)|][|before|]; }
      assert Blanked(vout, n + 1) == Blanked(vout, n) + [if Has(vout, n) then vout[n] else NULL_OUT];
    }
  }

  lemma BlankedTrimmed(vout: seq<TxOut>, n: nat)
    requires |vout| <= n && vout != [] && !vout[|vout| - 1].IsNull()
    requires forall i | 0 <= i < |vout| && vout[i].IsNull() :: vout[i] == NULL_OUT
    ensures Trim(Blanked(vout, n)) == vout
  {
    var back := Blanked(vout, n);
    assert back[..|vout|] == vout;
    assert Has(back, |vout| - 1);
    assert |Trim(back)| >= |vout|;
  }

  // ---- The record is read back -------------------------------------------------------------

  lemma CodeIs(c: Coin)
    requires GoodCoin(c)
    ensures var code, first, second := CoinCode(c), Has(c.vout, 0), Has(c.vout, 1);
            && code >= 0 && code % 2 == (if c.coinbase then 1 else 0)
            && code / 2 % 2 == (if first then 1 else 0) && code / 4 % 2 == (if second then 1 else 0)
            && code / 8 + (if first || second then 0 else 1) == NonZero(Mask(c.vout))
  {
    hide NonZero, Mask;
    TrimmedMask(c.vout);
    if !Has(c.vout, 0) && !Has(c.vout, 1) { NonZeroLast(Mask(c.vout)); }
    CodeParts(NonZero(Mask(c.vout)) - (if Has(c.vout, 0) || Has(c.vout, 1) then 0 else 1), c.coinbase, Has(c.vout, 0), Has(c.vout, 1));
  }

  lemma CodeParts(n: nat, coinbase: bool, first: bool, second: bool)
    ensures var code := 8 * n + (if coinbase then 1 else 0) + (if first then 2 else 0) + (if second then 4 else 0);
            && code % 2 == (if coinbase then 1 else 0) && code / 2 % 2 == (if first then 1 else 0)
            && code / 4 % 2 == (if second then 1 else 0) && code / 8 == n
  {}

  lemma {:induction false} NonZeroBound(mask: seq<nat>)
    ensures NonZero(mask) <= |mask|
  {
    if mask != [] { NonZeroBound(mask[1..]); }
  }

  lemma CodeBound(c: Coin)
    requires GoodCoin(c) && |c.vout| < WORD / 2
    ensures CoinCode(c) < WORD
  {
    hide NonZero, Mask;
    TrimmedMask(c.vout);
    NonZeroBound(Mask(c.vout));
  }

  lemma Regroup(a: Stream, b: Stream, c: Stream, d: Stream, e: Stream)
    ensures var s := a + b + c + d + e;
            s == [] + a + (b + c + d + e) && s == a + b + (c + d + e) && s == a + b + c + (d + e) && s == a + b + c + d + e + []
  {}

  lemma PlacedWith(before: Stream, part: Stream, after: Stream)
    ensures ContinuesWith(before + part + after, |before|, part)
  {}

  /** Where the parts of a record lie. */
  lemma PartsPlaced(v: seq<nat>, k: seq<nat>, m: seq<nat>, o: Stream, h: seq<nat>)
    ensures var s := Bytes(v) + Bytes(k) + Bytes(m) + o + Bytes(h);
            && Continues(s, 0, v) && Continues(s, |v|, k) && Continues(s, |v| + |k|, m)
            && ContinuesWith(s, |v| + |k| + |m|, o) && Continues(s, |v| + |k| + |m| + |o|, h)
  {
    hide Continues, ContinuesWith, Bytes;
    var bv, bk, bm, bh := Bytes(v), Bytes(k), Bytes(m), Bytes(h);
    Regroup(bv, bk, bm, o, bh);
    Placed([], v, bk + bm + o + bh);
    Placed(bv, k, bm + o + bh);
    Placed(bv + bk, m, o + bh);
    PlacedWith(bv + bk + bm, o, bh);
    Placed(bv + bk + bm + o, h, []);
  }

  /** A coin record comes back from the disk with the same outputs, height and flag, and a worn version. */
  lemma CoinReadBack(c: Coin)
    requires GoodCoin(c) && c.height < WORD / 2 && |c.vout| < WORD / 2
    ensures ReadCoin(CoinStream(c)) == Some(WornCoin(c))
  {
    hide VarInt, Mask, Outs, CoinCode, ReadFrom, ReadMask, ReadOuts, NonZero, Has, Flags, Trim, Blanked, Continues, ContinuesWith,
         AllBytes;
    var s, v, k, m := CoinStream(c), |VarInt(c.version)|, |VarInt(CoinCode(c))|, |Mask(c.vout)|;
    PartsPlaced(VarInt(c.version), VarInt(CoinCode(c)), Mask(c.vout), Outs(c.vout, |c.vout|), VarInt(c.height));
    SignedReadBack(s, 0, c.version);
    CodeIs(c);
    CodeBound(c);
    VarIntReadBack(s, v, CoinCode(c));
    TrimmedMask(c.vout);
    MaskReadBack(s, v + k, Mask(c.vout));
    FlagsAre(c.vout);
    OutsAre(c.vout, |Flags(c.vout)|);
    OutsReadBack(s, v + k + m, c.vout, Flags(c.vout));
    BlankedTrimmed(c.vout, |Flags(c.vout)|);
    FlagsSplit(c.vout);
    VarIntReadBack(s, v + k + m + |Outs(c.vout, |c.vout|)|, c.height);
  }

  lemma FlagsSplit(vout: seq<TxOut>)
    ensures Flags(vout) == [Has(vout, 0), Has(vout, 1)] + MaskBits(Mask(vout))
  {}

  predicate SizesBelow(v: View, limit: int) { forall id | id in v :: |v[id].vout| < limit }

  /** Coins that have been flushed, when they are read back, are worn, and the others are untouched. */
  lemma ReloadIs(v: View, ids: set<TxId>)
    requires GoodView(v) && HeightsBelow(v, WORD / 2) && SizesBelow(v, WORD / 2)
    ensures forall id | id in v :: if id in ids then ReadCoin(CoinStream(v[id])) == Some(WornView(v, ids)[id]) else WornView(v, ids)[id] == v[id]
  {
    hide ReadCoin, CoinStream, GoodCoin;
    forall id | id in v && id in ids ensures ReadCoin(CoinStream(v[id])) == Some(WornView(v, ids)[id]) { CoinReadBack(v[id]); }
  }
}
