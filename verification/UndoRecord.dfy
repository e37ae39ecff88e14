/** The undo record of one input on disk: variable-length integers, and which records survive being
  * written and read back.
  */
module UndoRecords {
  import opened Coins
  import opened Sequences

  const WORD := 0x1_0000_0000   // an unsigned int

  /** A stream of bytes, in which a compressed output is taken as one item. */
  datatype Item = Byte(b: nat) | Out(txout: TxOut)

  type Stream = seq<Item>

  // ---- Variable-length integers --------------------------------------------------------------

  /** The leading digits of a number, all with the high bit; one is subtracted at each step. */
  function High(n: nat): (r: seq<nat>)
    ensures |r| >= 1 && forall i | 0 <= i < |r| :: 128 <= r[i] < 256
  {
    if n <= 0x7F then [n + 128] else High(n / 128 - 1) + [n % 128 + 128]
  }

  /** WriteVarInt; a negative number leaves only its lowest seven bits. */
  function VarInt(n: int): (r: seq<nat>)
    ensures |r| >= 1 && r[|r| - 1] < 128 && forall i | 0 <= i < |r| - 1 :: 128 <= r[i] < 256
  {
    if n <= 0x7F then [n % 128] else High(n / 128 - 1) + [n % 128]
  }

  datatype ReadResult = Failed | Read(n: nat, next: nat)

  /** ReadVarInt from a position, with the value accumulated so far, in machine words. */
  function ReadFrom(s: Stream, i: nat, n: nat): ReadResult
    decreases |s| - i
  {
    if i >= |s| || !s[i].Byte? then Failed
    else
      var m := (n * 128 + s[i].b % 128) % WORD;
      if s[i].b >= 128 then ReadFrom(s, i + 1, (m + 1) % WORD) else Read(m, i + 1)
  }

  function Bytes(r: seq<nat>): (s: Stream)
    ensures |s| == |r|
  {
    seq(|r|, i requires 0 <= i < |r| => Byte(r[i]))
  }

  /** From position i on, s continues with the bytes r. */
  predicate Continues(s: Stream, i: nat, r: seq<nat>) {
    i + |r| <= |s| && forall k | 0 <= k < |r| :: s[i + k] == Byte(r[k])
  }

  lemma ContinuesSplit(s: Stream, i: nat, a: seq<nat>, b: seq<nat>)
    requires Continues(s, i, a + b)
    ensures Continues(s, i, a) && Continues(s, i + |a|, b)
  {
    forall k | 0 <= k < |a| ensures s[i + k] == Byte(a[k]) { assert (a + b)[k] == a[k]; }
    forall k | 0 <= k < |b| ensures s[i + |a| + k] == Byte(b[k]) {
      assert (a + b)[|a| + k] == b[k] && s[i + (|a| + k)] == Byte((a + b)[|a| + k]);
    }
  }

  lemma ReadDigit(s: Stream, i: nat, n: nat, b: nat)
    requires Continues(s, i, [b]) && b < 256 && n * 128 + b % 128 + (if b >= 128 then 1 else 0) < WORD
    ensures ReadFrom(s, i, n) == if b >= 128 then ReadFrom(s, i + 1, n * 128 + b % 128 + 1) else Read(n * 128 + b % 128, i + 1)
  {
    assert s[i] == Byte(b) by { assert s[i + 0] == Byte([b][0]); }
    hide Continues;
    var m := n * 128 + b % 128;
    assert m % WORD == m;
    if b >= 128 { assert (m + 1) % WORD == m + 1; }
  }

  lemma {:induction false} ReadHigh(s: Stream, i: nat, p: nat)
    requires p + 1 < WORD && Continues(s, i, High(p))
    ensures ReadFrom(s, i, 0) == ReadFrom(s, i + |High(p)|, p + 1)
  {
    hide ReadFrom, Continues;
    if p > 0x7F {
      var q := p / 128 - 1;
      ContinuesSplit(s, i, High(q), [p % 128 + 128]);
      ReadHigh(s, i, q);
      ReadDigit(s, i + |High(q)|, q + 1, p % 128 + 128);
    } else {
      ReadDigit(s, i, 0, p + 128);
    }
  }

  /** A number of machine size is read back, and reading stops right behind it. */
  lemma VarIntReadBack(s: Stream, i: nat, n: nat)
    requires n < WORD && Continues(s, i, VarInt(n))
    ensures ReadFrom(s, i, 0) == Read(n, i + |VarInt(n)|)
  {
    hide ReadFrom, Continues, High;
    if n > 0x7F {
      var p := n / 128 - 1;
      ContinuesSplit(s, i, High(p), [n % 128]);
      ReadHigh(s, i, p);
      ReadDigit(s, i + |High(p)|, p + 1, n % 128);
    } else {
      ReadDigit(s, i, 0, n);
    }
  }

  /** The value of leading digits, before the next digit is added. */
  function HighValue(h: seq<nat>): nat
    requires forall i | 0 <= i < |h| :: 128 <= h[i] < 256
  {
    if h == [] then 0 else HighValue(Init(h)) * 128 + (Last(h) - 128) + 1
  }

  lemma {:induction false} HighOfValue(h: seq<nat>)
    requires h != [] && forall i | 0 <= i < |h| :: 128 <= h[i] < 256
    ensures HighValue(h) >= 1 && High(HighValue(h) - 1) == h
  {
    if |h| > 1 {
      HighOfValue(Init(h));
      var p := HighValue(h) - 1;
      assert p / 128 == HighValue(Init(h)) && p % 128 == Last(h) - 128;
    } else {
      assert Init(h) == [];
    }
  }

  function Power128(k: nat): nat { if k == 0 then 1 else 128 * Power128(k - 1) }

  /** The number that digits stand for: the last one as it is, the k-th before it, without its high bit and plus one,
    * times the k-th power of 128. */
  function Encoded(r: seq<nat>): int {
    if r == [] then 0
    else if |r| == 1 then r[0]
    else Power128(|r| - 1) * (r[0] % 128 + 1) + Encoded(r[1..])
  }

  lemma {:induction false} EncodedAppend(h: seq<nat>, d: nat)
    requires forall i | 0 <= i < |h| :: 128 <= h[i] < 256
    ensures Encoded(h + [d]) == HighValue(h) * 128 + d
  {
    if h != [] {
      assert (h + [d])[1..] == h[1..] + [d];
      EncodedAppend(h[1..], d);
      HighFirst(h);
    }
  }

  lemma {:induction false} HighFirst(h: seq<nat>)
    requires h != [] && forall i | 0 <= i < |h| :: 128 <= h[i] < 256
    ensures HighValue(h) * 128 == Power128(|h|) * (h[0] % 128 + 1) + HighValue(h[1..]) * 128
  {
    if |h| > 1 {
      HighFirst(Init(h));
      assert Init(h)[1..] == Init(h[1..]) && Last(h[1..]) == Last(h) && Init(h)[0] == h[0];
      PowerStep(|h|, h[0] % 128 + 1);
    } else {
      assert Init(h) == [] && h[1..] == [];
      assert HighValue(h) == h[0] - 128 + 1 && Power128(1) == 128 * Power128(0) == 128;
    }
  }

  lemma PowerStep(k: nat, x: int)
    requires k >= 1
    ensures Power128(k) * x == 128 * (Power128(k - 1) * x)
  {}

  /** What is written for a number stands for it, in the sense of the format. */
  lemma VarIntIs(n: nat)
    ensures Encoded(VarInt(n)) == n
  {
    if n > 0x7F {
      HighIs(n / 128 - 1);
      EncodedAppend(High(n / 128 - 1), n % 128);
    }
  }

  lemma {:induction false} HighIs(p: nat)
    ensures HighValue(High(p)) == p + 1
  {
    if p > 0x7F {
      HighIs(p / 128 - 1);
      assert Init(High(p)) == High(p / 128 - 1);
    } else {
      assert Init(High(p)) == [];
    }
  }

  /** One byte for numbers up to 127, two up to 16511, three up to 2113663. */
  lemma VarIntSizes(n: nat)
    ensures |VarInt(n)| == 1 <==> n <= 127
    ensures |VarInt(n)| == 2 <==> 128 <= n <= 16511
    ensures |VarInt(n)| == 3 <==> 16512 <= n <= 2113663
  {
    hide High;
    HighSizes(n);
  }

  /** The comment of the format gives the bytes 80 FF 7F for 16511; they stand for another number. */
  lemma DocumentedExampleFails()
    ensures VarInt(16511) == [0xFF, 0x7F] && Encoded([0x80, 0xFF, 0x7F]) == 32895
  {
    assert High(127) == [0xFF];
    assert [0x80, 0xFF, 0x7F][1..] == [0xFF, 0x7F] && [0xFF, 0x7F][1..] == [0x7F];
    assert Power128(2) == 128 * Power128(1) && Power128(1) == 128 * Power128(0);
  }

  lemma HighSizes(n: nat)
    ensures n > 127 ==>
              && (|High(n / 128 - 1)| == 1 <==> n <= 16511)
              && (|High(n / 128 - 1)| == 2 <==> 16512 <= n <= 2113663)
  {
    hide High;
    if n > 127 {
      HighLength(n / 128 - 1);
      HighLimit(n, 127);
      HighLimit(n, 16511);
    }
  }

  lemma HighLimit(n: nat, limit: nat)
    ensures n / 128 - 1 <= limit <==> n <= 128 * limit + 255
  {}

  lemma HighLength(p: nat)
    ensures |High(p)| == 1 <==> p <= 127
    ensures |High(p)| == 2 <==> 128 <= p <= 16511
  {
    if p > 127 {
      var q := p / 128 - 1;
      assert |High(p)| == |High(q)| + 1;
      assert |High(q)| == 1 <==> q <= 127;
      hide High;
      HighLimit(p, 127);
    }
  }

  /** No redundancy: every terminated sequence of digits is the encoding of exactly one number. */
  lemma VarIntOnto(r: seq<nat>) returns (n: nat)
    requires r != [] && r[|r| - 1] < 128 && forall i | 0 <= i < |r| - 1 :: 128 <= r[i] < 256
    ensures VarInt(n) == r && forall m: nat :: VarInt(m) == r ==> m == n
  {
    var h := Init(r);
    n := HighValue(h) * 128 + Last(r);
    if h != [] { HighOfValue(h); }
    assert n / 128 == HighValue(h) && n % 128 == Last(r);
    assert VarInt(n) == r;
    forall m: nat | VarInt(m) == r ensures m == n { VarIntInjective(m, n); }
  }

  lemma {:induction false} HighInjective(m: nat, n: nat)
    requires High(m) == High(n)
    ensures m == n
  {
    assert Last(High(m)) == Last(High(n)) && Init(High(m)) == Init(High(n));
    if m > 0x7F && n > 0x7F {
      assert Init(High(m)) == High(m / 128 - 1) && Init(High(n)) == High(n / 128 - 1);
      HighInjective(m / 128 - 1, n / 128 - 1);
    }
  }

  lemma VarIntInjective(m: nat, n: nat)
    requires VarInt(m) == VarInt(n)
    ensures m == n
  {
    assert Last(VarInt(m)) == Last(VarInt(n)) && Init(VarInt(m)) == Init(VarInt(n));
    if m > 0x7F && n > 0x7F {
      assert Init(VarInt(m)) == High(m / 128 - 1) && Init(VarInt(n)) == High(n / 128 - 1);
      HighInjective(m / 128 - 1, n / 128 - 1);
    }
  }

  lemma DigitsStep(n: int, done: seq<nat>)
    requires n > 0x7F
    ensures VarInt(n) == High(n / 128 - 1) + [n % 128]
    ensures High(n) + done == High(n / 128 - 1) + ([n % 128 + 128] + done)
  {}

  /** The digits are found from the last to the first, and written from the first to the last. */
  method WriteVarInt(n0: int) returns (s: Stream)
    ensures s == Bytes(VarInt(n0))
  {
    hide High, VarInt;
    var n := n0;
    var tmp: seq<nat> := [];
    ghost var done: seq<nat> := [];   // the digits found so far, in the order in which they are written
    while n > 0x7F
      invariant done != [] ==> n >= 0
      invariant if done == [] then n == n0 else VarInt(n0) == High(n) + done
      invariant Reversed(tmp, done)
      decreases n
    {
      DigitsStep(n, done);
      var digit: nat := n % 128 + (if |tmp| == 0 then 0 else 128);
      done := [digit] + done;
      tmp := tmp + [digit];
      n := n / 128 - 1;
    }
    var first: nat := n % 128 + (if |tmp| == 0 then 0 else 128);
    LastDigits(n0, n, done);
    done := [first] + done;
    s := WriteReversed(tmp + [first], done);
  }

  lemma LastDigits(n0: int, n: int, done: seq<nat>)
    requires n <= 0x7F && (done != [] ==> n >= 0) && if done == [] then n == n0 else VarInt(n0) == High(n) + done
    ensures VarInt(n0) == [n % 128 + (if done == [] then 0 else 128)] + done
  {}

  predicate Reversed(tmp: seq<nat>, r: seq<nat>) {
    |tmp| == |r| && forall k | 0 <= k < |tmp| :: tmp[k] == r[|r| - 1 - k]
  }

  method WriteReversed(tmp: seq<nat>, ghost r: seq<nat>) returns (s: Stream)
    requires Reversed(tmp, r)
    ensures s == Bytes(r)
  {
    s := [];
    var len := |tmp|;
    while len > 0
      invariant 0 <= len <= |tmp|
      invariant |s| == |tmp| - len && forall k | 0 <= k < |s| :: s[k] == Byte(r[k])
    {
      len := len - 1;
      s := s + [Byte(tmp[len])];
    }
  }

  method ReadVarInt(s: Stream, i0: nat) returns (r: ReadResult)
    ensures r == ReadFrom(s, i0, 0)
  {
    var n: nat, i: nat := 0, i0;
    while true
      invariant ReadFrom(s, i, n) == ReadFrom(s, i0, 0)
      decreases |s| - i
    {
      if i >= |s| || !s[i].Byte? { return Failed; }
      var chData := s[i].b;
      n := (n * 128 + chData % 128) % WORD;
      i := i + 1;
      if chData >= 128 { n := (n + 1) % WORD; } else { return Read(n, i); }
    }
  }

  // ---- The record ----------------------------------------------------------------------------

  /** Height and coinbase flag share one number; the version is only written with a height. */
  function Code(u: TxInUndo): nat {
    (2 * u.height + (if u.coinbase then 1 else 0)) % WORD
  }

  function Serialized(u: TxInUndo): Stream {
    Bytes(VarInt(Code(u))) + (if u.height != 0 then Bytes(VarInt(u.version)) else []) + [Out(u.txout)]
  }

  /** A word taken as a signed number. */
  function Signed(n: nat): Int32 { if n % WORD < WORD / 2 then n % WORD else n % WORD - WORD }

  function Unserialized(s: Stream): Option<TxInUndo> {
    match ReadFrom(s, 0, 0)
    case Failed => None
    case Read(code, i) =>
      if code / 2 == 0 then
        if i < |s| && s[i].Out? then Some(TxInUndo(s[i].txout, code % 2 == 1, 0, 0)) else None
      else
        match ReadFrom(s, i, 0)
        case Failed => None
        case Read(version, j) =>
          if j < |s| && s[j].Out? then Some(TxInUndo(s[j].txout, code % 2 == 1, code / 2, Signed(version))) else None
  }

  /** What is lost: heights from 2^31 on, negative versions, and a version without a height. */
  predicate Survives(u: TxInUndo) {
    u.height < WORD / 2 && if u.height > 0 then u.version >= 0 else u.version == 0
  }

  lemma CodeBack(u: TxInUndo)
    requires 0 <= u.height < WORD
    ensures Code(u) < WORD && Code(u) % 2 == (if u.coinbase then 1 else 0)
    ensures Code(u) / 2 == if u.height < WORD / 2 then u.height else u.height - WORD / 2
  {}

  lemma Placed(before: Stream, r: seq<nat>, after: Stream)
    ensures Continues(before + Bytes(r) + after, |before|, r)
  {}

  lemma CodeRead(u: TxInUndo)
    requires 0 <= u.height < WORD
    ensures ReadFrom(Serialized(u), 0, 0) == Read(Code(u), |VarInt(Code(u))|)
  {
    hide ReadFrom, VarInt, Code;
    CodeBack(u);
    var rest := (if u.height != 0 then Bytes(VarInt(u.version)) else []) + [Out(u.txout)];
    Placed([], VarInt(Code(u)), rest);
    assert Serialized(u) == [] + Bytes(VarInt(Code(u))) + rest;
    VarIntReadBack(Serialized(u), 0, Code(u));
  }

  /** A version as the disk gives it back: a negative one is a single byte there, and becomes a number
    * below 128. */
  function LowVersion(n: Int32): Int32 { if n >= 0 then n else n % 128 }

  lemma SignedReadBack(s: Stream, i: nat, n: Int32)
    requires Continues(s, i, VarInt(n))
    ensures ReadFrom(s, i, 0) == Read(LowVersion(n), i + |VarInt(n)|)
  {
    hide ReadFrom, Continues;
    if n >= 0 {
      VarIntReadBack(s, i, n);
    } else {
      assert VarInt(n) == [n % 128];
      ReadDigit(s, i, 0, n % 128);
    }
  }

  lemma VersionRead(u: TxInUndo)
    requires 0 < u.height < WORD
    ensures var i := |VarInt(Code(u))|;
            ReadFrom(Serialized(u), i, 0) == Read(LowVersion(u.version), i + |VarInt(u.version)|)
  {
    hide ReadFrom, Continues, Code;
    var i, s := |VarInt(Code(u))|, Serialized(u);
    Placed(Bytes(VarInt(Code(u))), VarInt(u.version), [Out(u.txout)]);
    assert Continues(s, i, VarInt(u.version));
    SignedReadBack(s, i, u.version);
  }

  /** An undo record survives the disk if and only if its height is below 2^31 and its version is not
    * negative, or, without a height, is 0. */
  lemma UndoSurvivesIff(u: TxInUndo)
    requires 0 <= u.height < WORD
    ensures Unserialized(Serialized(u)) == Some(u) <==> Survives(u)
  {
    ReadsRecord(u);
    CodeBack(u);
  }

  lemma ReadsRecord(u: TxInUndo)
    requires 0 <= u.height < WORD
    ensures var cb, h := Code(u) % 2 == 1, Code(u) / 2;
            h != 0 || u.height == 0 ==>
              Unserialized(Serialized(u)) == Some(TxInUndo(u.txout, cb, h, if h == 0 then 0 else LowVersion(u.version)))
    ensures Code(u) / 2 == 0 && u.height != 0 ==> Unserialized(Serialized(u)) != Some(u)
  {
    hide ReadFrom, VarInt, Code;
    var s := Serialized(u);
    CodeRead(u);
    if u.height > 0 {
      VersionRead(u);
      assert s[|VarInt(Code(u))| + |VarInt(u.version)|] == Out(u.txout);
    } else {
      assert s[|VarInt(Code(u))|] == Out(u.txout);
      CodeBack(u);
    }
  }

  /** A record as the disk gives it back. */
  function Worn(u: TxInUndo): TxInUndo { u.(version := LowVersion(u.version)) }

  predicate Writable(u: TxInUndo) { 0 <= u.height < WORD / 2 && (u.height == 0 ==> u.version == 0) }

  lemma ReadBackWorn(u: TxInUndo)
    requires Writable(u)
    ensures Unserialized(Serialized(u)) == Some(Worn(u))
  {
    hide Unserialized, Serialized;
    ReadsRecord(u);
    CodeBack(u);
  }

  class InUndo {
    var txout: TxOut
    var fCoinBase: bool
    var nHeight: nat
    var nVersion: Int32

    function Record(): TxInUndo
      reads this
    {
      TxInUndo(txout, fCoinBase, nHeight, nVersion)
    }

    constructor ()
      ensures Record() == TxInUndo(NULL_OUT, false, 0, 0)
    {
      txout, fCoinBase, nHeight, nVersion := NULL_OUT, false, 0, 0;
    }

    method Serialize() returns (s: Stream)
      ensures s == Serialized(Record())
    {
      hide VarInt, Bytes;
      s := WriteVarInt((nHeight * 2 + (if fCoinBase then 1 else 0)) % WORD);
      if nHeight > 0 {
        var version := WriteVarInt(nVersion);
        s := s + version;
      }
      s := s + [Out(txout)];
    }

    /** Read the fields one by one; without a height the version stays what it was. */
    method Unserialize(s: Stream) returns (ok: bool)
      modifies this
      ensures ok <==> Unserialized(s).Some?
      ensures ok ==> var u := Unserialized(s).value;
                     Record() == if u.height == 0 then u.(version := old(nVersion)) else u
    {
      var code := ReadVarInt(s, 0);
      if code.Failed? { return false; }
      var i := code.next;
      nHeight := code.n / 2;
      fCoinBase := code.n % 2 == 1;
      if nHeight > 0 {
        var version := ReadVarInt(s, i);
        if version.Failed? { return false; }
        nVersion, i := Signed(version.n), version.next;
      }
      if i >= |s| || !s[i].Out? { return false; }
      txout := s[i].txout;
      ok := true;
    }
  }
}
