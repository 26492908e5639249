/**
 Cells, builders and read cursors of the TON virtual machine (section 3.1.1 of the TVM whitepaper),
 with the field encodings of TON block.tlb that the STON.fi route messages use.

 A cell holds at most 1023 bits and 4 references.  Two cells are the same cell exactly when their
 representation hashes agree, so the hash of a cell is modelled by the cell itself.
 */
module Cells {
  import opened Results

  type Bits = seq<bool>

  datatype Cell = Cell(bits: Bits, refs: seq<Cell>)

  const MAX_BITS := 1023
  const MAX_REFS := 4

  /** The representation hash, an injective function of the cell. */
  datatype Hash = HashOf(cell: Cell)

  datatype CellError =
    | BitOverflow
    | RefOverflow
    | IntOutOfRange
    | Underflow
    | BadAddressTag
    | TrailingData

  // ---------------------------------------------------------------- unsigned integers

  // Widths are counted over a blank of `n` bits rather than over the number `n`, so that the
  // verifier never unrolls a field of a fixed width bit by bit.

  function Blank(n: nat): (b: Bits)
    ensures |b| == n
  {
    seq(n, _ => false)
  }

  /** The number of bit strings as long as `z`. */
  function Span(z: Bits): (p: nat)
    ensures p >= 1
  {
    if |z| == 0 then 1 else 2 * Span(z[1..])
  }

  function Pow2(n: nat): (p: nat)
    ensures p >= 1
  {
    Span(Blank(n))
  }

  function BitsLike(v: nat, z: Bits): (b: Bits)
    ensures |b| == |z|
  {
    if |z| == 0 then [] else BitsLike(v / 2, z[1..]) + [v % 2 == 1]
  }

  /** Big-endian encoding of `v` on exactly `n` bits. */
  function UintBits(v: nat, n: nat): (b: Bits)
    ensures |b| == n
  {
    BitsLike(v, Blank(n))
  }

  function BitsUint(b: Bits): nat {
    if |b| == 0 then 0 else 2 * BitsUint(b[..|b| - 1]) + (if b[|b| - 1] then 1 else 0)
  }

  lemma Pow2Step(n: nat)
    ensures Pow2(n + 1) == 2 * Pow2(n)
    ensures Pow2(0) == 1
  {
    assert Blank(n + 1)[1..] == Blank(n);
  }

  lemma {:induction false} BitsUintBound(b: Bits)
    ensures BitsUint(b) < Pow2(|b|)
  {
    if |b| == 0 {
    } else {
      BitsUintBound(b[..|b| - 1]);
      Pow2Step(|b| - 1);
    }
  }

  lemma {:induction false} UintBitsDecodes(v: nat, n: nat)
    requires v < Pow2(n)
    ensures BitsUint(UintBits(v, n)) == v
  {
    if n == 0 {
    } else {
      Pow2Step(n - 1);
      UintBitsDecodes(v / 2, n - 1);
      assert Blank(n)[1..] == Blank(n - 1);
      assert UintBits(v, n)[..n - 1] == UintBits(v / 2, n - 1);
    }
  }

  lemma {:induction false} BitsUintEncodes(b: Bits)
    ensures UintBits(BitsUint(b), |b|) == b
  {
    if |b| == 0 {
    } else {
      BitsUintEncodes(b[..|b| - 1]);
      assert Blank(|b|)[1..] == Blank(|b| - 1);
      assert b == b[..|b| - 1] + [b[|b| - 1]];
    }
  }

  // ---------------------------------------------------------------- VarUInteger 16

  /** A Coins field as it stands in a cell: a byte count and that many bytes. */
  datatype CoinsField = CoinsField(width: nat, amount: nat) {
    ghost predicate Valid() {
      width <= 15 && amount < Pow2(8 * width)
    }

    function Bits(): Bits {
      UintBits(width, 4) + UintBits(amount, 8 * width)
    }
  }

  /** The number of bytes `v` needs. */
  function ByteLen(v: nat): nat {
    if v == 0 then 0 else 1 + ByteLen(v / 256)
  }

  /** The field a builder writes: the shortest one. */
  function MinimalCoins(v: nat): CoinsField {
    CoinsField(ByteLen(v), v)
  }

  lemma Pow2Byte(k: nat)
    ensures Pow2(8 * (k + 1)) == 256 * Pow2(8 * k)
  {
    hide Pow2;
    var n := 8 * k;
    Pow2Step(n + 7); Pow2Step(n + 6); Pow2Step(n + 5); Pow2Step(n + 4);
    Pow2Step(n + 3); Pow2Step(n + 2); Pow2Step(n + 1); Pow2Step(n);
  }

  lemma Pow2Small()
    ensures Pow2(0) == 1 && Pow2(4) == 16 && Pow2(8) == 256 && Pow2(9) == 512 && Pow2(16) == 65536
  {
    hide Pow2;
    Pow2Step(0); Pow2Step(1); Pow2Step(2); Pow2Step(3);
    Pow2Byte(0); Pow2Byte(1); Pow2Step(8);
  }

  /** `ByteLen` is the least byte count that holds the value. */
  lemma {:induction false} ByteLenIsLeast(v: nat, k: nat)
    ensures ByteLen(v) <= k <==> v < Pow2(8 * k)
  {
    hide Pow2;
    Pow2Small();
    if v != 0 && k != 0 {
      Pow2Byte(k - 1);
      ByteLenIsLeast(v / 256, k - 1);
    }
  }

  // ---------------------------------------------------------------- addresses

  datatype Address = Address(workchain: int, hash: Bits)

  /** An internal address: a signed 8-bit workchain and a 256-bit account id. */
  type StdAddress = a: Address | -128 <= a.workchain < 128 && |a.hash| == 256
    witness Address(0, seq(256, _ => false))

  /** What `loadAddressAny` can find. */
  datatype AnyAddress = NoAddress | Internal(address: StdAddress) | External(bits: Bits)

  function ByteOf(wc: int): nat
    requires -128 <= wc < 128
  {
    if wc < 0 then wc + 256 else wc
  }

  function SignedByte(b: nat): (wc: int)
    requires b < 256
    ensures -128 <= wc < 128 && ByteOf(wc) == b
  {
    if b < 128 then b else b - 256
  }

  function StdAddressBits(a: StdAddress): (b: Bits)
    ensures |b| == 267
  {
    [true, false, false] + UintBits(ByteOf(a.workchain), 8) + a.hash
  }

  function MaybeAddressBits(a: Option<StdAddress>): Bits {
    match a
    case None => [false, false]
    case Some(x) => StdAddressBits(x)
  }

  ghost predicate ValidAny(a: AnyAddress) {
    a.External? ==> |a.bits| < 512
  }

  function AnyAddressBits(a: AnyAddress): Bits {
    match a
    case NoAddress => [false, false]
    case Internal(x) => StdAddressBits(x)
    case External(b) => [false, true] + UintBits(|b|, 9) + b
  }

  // ---------------------------------------------------------------- builder

  /** A cell under construction.  Every store fails as soon as a limit would be exceeded. */
  datatype Builder = Builder(bits: Bits, refs: seq<Cell>) {

    function StoreBits(b: Bits): Result<Builder, CellError> {
      if |bits| + |b| > MAX_BITS then Err(BitOverflow) else Ok(Builder(bits + b, refs))
    }

    function StoreUint(v: int, n: nat): Result<Builder, CellError> {
      if 0 <= v < Pow2(n) then StoreBits(UintBits(v, n)) else Err(IntOutOfRange)
    }

    function StoreCoins(v: int): Result<Builder, CellError> {
      if v < 0 || ByteLen(v) > 15 then Err(IntOutOfRange) else StoreBits(MinimalCoins(v).Bits())
    }

    function StoreAddress(a: Option<StdAddress>): Result<Builder, CellError> {
      StoreBits(MaybeAddressBits(a))
    }

    function StoreRef(c: Cell): Result<Builder, CellError> {
      if |refs| >= MAX_REFS then Err(RefOverflow) else Ok(Builder(bits, refs + [c]))
    }

    function StoreMaybeRef(c: Option<Cell>): Result<Builder, CellError> {
      match c
      case None => StoreBits([false])
      case Some(x) =>
        var b :- StoreBits([true]);
        b.StoreRef(x)
    }

    function EndCell(): Cell {
      Cell(bits, refs)
    }
  }

  const BEGIN_CELL := Builder([], [])

  /** The limits of a cell: 1023 bits and four references. */
  lemma BuilderLimits(b: Builder, more: Bits, c: Cell)
    ensures b.StoreBits(more) ==
            if |b.bits + more| <= 1023 then Ok(Builder(b.bits + more, b.refs)) else Err(BitOverflow)
    ensures b.StoreRef(c) == if |b.refs + [c]| <= 4 then Ok(Builder(b.bits, b.refs + [c])) else Err(RefOverflow)
  {
  }

  // ---------------------------------------------------------------- cursor

  /** What a read cursor still has in front of it. */
  datatype Rest = Rest(bits: Bits, refs: seq<Cell>)

  function BeginParse(c: Cell): Rest {
    Rest(c.bits, c.refs)
  }

  function LoadUint(s: Rest, n: nat): Result<(nat, Rest), CellError> {
    if |s.bits| < n then Err(Underflow)
    else Ok((BitsUint(s.bits[..n]), Rest(s.bits[n..], s.refs)))
  }

  function LoadBit(s: Rest): Result<(bool, Rest), CellError> {
    if |s.bits| < 1 then Err(Underflow) else Ok((s.bits[0], Rest(s.bits[1..], s.refs)))
  }

  function LoadCoins(s: Rest): Result<(CoinsField, Rest), CellError> {
    var (width, s1) :- LoadUint(s, 4);
    var (amount, s2) :- LoadUint(s1, 8 * width);
    Ok((CoinsField(width, amount), s2))
  }

  /** Internal addresses only: tag 10 and no anycast. */
  function LoadAddress(s: Rest): Result<(StdAddress, Rest), CellError> {
    if |s.bits| < 2 then Err(Underflow)
    else if s.bits[..2] != [true, false] then Err(BadAddressTag)
    else if |s.bits| < 3 then Err(Underflow)
    else if s.bits[2] then Err(BadAddressTag)
    else if |s.bits| < 267 then Err(Underflow)
    else
      Ok((Address(SignedByte(BitsByte(s.bits[3..11])), s.bits[11..267]), Rest(s.bits[267..], s.refs)))
  }

  function BitsByte(b: Bits): (v: nat)
    requires |b| == 8
    ensures v < 256 && v == BitsUint(b)
  {
    Pow2Small();
    BitsUintBound(b);
    BitsUint(b)
  }

  function LoadAddressAny(s: Rest): Result<(AnyAddress, Rest), CellError> {
    if |s.bits| < 2 then Err(Underflow)
    else if s.bits[..2] == [false, false] then Ok((NoAddress, Rest(s.bits[2..], s.refs)))
    else if s.bits[..2] == [true, false] then
      var (a, t) :- LoadAddress(s);
      Ok((Internal(a), t))
    else if s.bits[..2] == [false, true] then
      var (n, t) :- LoadUint(Rest(s.bits[2..], s.refs), 9);
      if |t.bits| < n then Err(Underflow)
      else Ok((External(t.bits[..n]), Rest(t.bits[n..], t.refs)))
    else Err(BadAddressTag)
  }

  function LoadRef(s: Rest): Result<(Cell, Rest), CellError> {
    if |s.refs| == 0 then Err(Underflow) else Ok((s.refs[0], Rest(s.bits, s.refs[1..])))
  }

  function LoadMaybeRef(s: Rest): Result<(Option<Cell>, Rest), CellError> {
    var (present, t) :- LoadBit(s);
    if !present then Ok((None, t))
    else
      var (c, u) :- LoadRef(t);
      Ok((Some(c), u))
  }

  function MaybeRefBits(c: Option<Cell>): Bits {
    [c.Some?]
  }

  function MaybeRefRefs(c: Option<Cell>): seq<Cell> {
    if c.Some? then [c.value] else []
  }

  // ------------------------------------------------- each load inverts its encoding, both ways

  lemma LoadUintEncodes(v: nat, n: nat, tail: Bits, refs: seq<Cell>)
    requires v < Pow2(n)
    ensures LoadUint(Rest(UintBits(v, n) + tail, refs), n) == Ok((v, Rest(tail, refs)))
  {
    UintBitsDecodes(v, n);
    assert (UintBits(v, n) + tail)[..n] == UintBits(v, n);
    assert (UintBits(v, n) + tail)[n..] == tail;
  }

  lemma LoadUintInverts(s: Rest, n: nat)
    requires LoadUint(s, n).Ok?
    ensures var (v, t) := LoadUint(s, n).value;
            v < Pow2(n) && s.bits == UintBits(v, n) + t.bits && s.refs == t.refs
  {
    var b := s.bits[..n];
    BitsUintEncodes(b);
    BitsUintBound(b);
    assert s.bits == b + s.bits[n..];
  }

  lemma LoadCoinsEncodes(c: CoinsField, tail: Bits, refs: seq<Cell>)
    requires c.Valid()
    ensures LoadCoins(Rest(c.Bits() + tail, refs)) == Ok((c, Rest(tail, refs)))
  {
    Pow2Small();
    var body := UintBits(c.amount, 8 * c.width) + tail;
    assert c.Bits() + tail == UintBits(c.width, 4) + body;
    LoadUintEncodes(c.width, 4, body, refs);
    LoadUintEncodes(c.amount, 8 * c.width, tail, refs);
  }

  lemma LoadCoinsInverts(s: Rest)
    requires LoadCoins(s).Ok?
    ensures var (c, t) := LoadCoins(s).value;
            c.Valid() && s.bits == c.Bits() + t.bits && s.refs == t.refs
  {
    var (width, s1) := LoadUint(s, 4).value;
    LoadUintInverts(s, 4);
    Pow2Small();
    LoadUintInverts(s1, 8 * width);
    var (c, t) := LoadCoins(s).value;
    assert c.Bits() + t.bits == UintBits(width, 4) + (UintBits(c.amount, 8 * width) + t.bits);
  }

  lemma LoadAddressEncodes(a: StdAddress, tail: Bits, refs: seq<Cell>)
    ensures LoadAddress(Rest(StdAddressBits(a) + tail, refs)) == Ok((a, Rest(tail, refs)))
  {
    var b := StdAddressBits(a) + tail;
    assert b[..2] == [true, false] && !b[2];
    assert b[3..11] == UintBits(ByteOf(a.workchain), 8);
    assert b[11..267] == a.hash;
    assert b[267..] == tail;
    Pow2Small();
    UintBitsDecodes(ByteOf(a.workchain), 8);
  }

  lemma LoadAddressInverts(s: Rest)
    requires LoadAddress(s).Ok?
    ensures var (a, t) := LoadAddress(s).value;
            s.bits == StdAddressBits(a) + t.bits && s.refs == t.refs
  {
    BitsUintEncodes(s.bits[3..11]);
    assert s.bits[..2][0] == s.bits[0] && s.bits[..2][1] == s.bits[1];
    assert s.bits == [true, false, false] + s.bits[3..11] + s.bits[11..267] + s.bits[267..];
  }

  lemma LoadAddressAnyEncodes(a: AnyAddress, tail: Bits, refs: seq<Cell>)
    requires ValidAny(a)
    ensures LoadAddressAny(Rest(AnyAddressBits(a) + tail, refs)) == Ok((a, Rest(tail, refs)))
  {
    var b := AnyAddressBits(a) + tail;
    match a
    case NoAddress =>
      assert b[..2] == [false, false] && b[2..] == tail;
    case Internal(x) =>
      LoadAddressEncodes(x, tail, refs);
      assert b[..2] == [true, false];
    case External(e) =>
      LoadExternalEncodes(e, 9, tail, refs);
  }

  lemma LoadExternalEncodes(e: Bits, n: nat, tail: Bits, refs: seq<Cell>)
    requires n == 9 && |e| < 512
    ensures LoadAddressAny(Rest([false, true] + UintBits(|e|, n) + e + tail, refs)) ==
            Ok((External(e), Rest(tail, refs)))
  {
    var b := [false, true] + UintBits(|e|, n) + e + tail;
    assert b[..2] == [false, true];
    assert b[2..] == UintBits(|e|, n) + (e + tail);
    Pow2Small();
    LoadUintEncodes(|e|, n, e + tail, refs);
    assert (e + tail)[..|e|] == e && (e + tail)[|e|..] == tail;
  }

  lemma LoadAddressAnyInverts(s: Rest)
    requires LoadAddressAny(s).Ok?
    ensures var (a, t) := LoadAddressAny(s).value;
            ValidAny(a) && s.bits == AnyAddressBits(a) + t.bits && s.refs == t.refs
  {
    hide Pow2, UintBits, BitsUint, StdAddressBits, LoadAddress;
    assert s.bits == s.bits[..2] + s.bits[2..];
    if s.bits[..2] == [true, false] {
      LoadAddressInverts(s);
    } else if s.bits[..2] == [false, true] {
      var r := Rest(s.bits[2..], s.refs);
      LoadUintInverts(r, 9);
      var (n, t) := LoadUint(r, 9).value;
      Pow2Small();
      assert t.bits == t.bits[..n] + t.bits[n..];
      assert s.bits == [false, true] + UintBits(n, 9) + t.bits[..n] + t.bits[n..];
    }
  }

  lemma LoadMaybeRefEncodes(c: Option<Cell>, tail: Bits, refs: seq<Cell>)
    ensures LoadMaybeRef(Rest(MaybeRefBits(c) + tail, MaybeRefRefs(c) + refs)) == Ok((c, Rest(tail, refs)))
  {
    assert (MaybeRefBits(c) + tail)[1..] == tail;
    if c.Some? {
      assert (MaybeRefRefs(c) + refs)[1..] == refs;
    } else {
      assert MaybeRefRefs(c) + refs == refs;
    }
  }

  lemma LoadMaybeRefInverts(s: Rest)
    requires LoadMaybeRef(s).Ok?
    ensures var (c, t) := LoadMaybeRef(s).value;
            s.bits == MaybeRefBits(c) + t.bits && s.refs == MaybeRefRefs(c) + t.refs
  {
    assert s.bits == [s.bits[0]] + s.bits[1..];
    if s.bits[0] {
      assert s.refs == [s.refs[0]] + s.refs[1..];
    }
  }
}
