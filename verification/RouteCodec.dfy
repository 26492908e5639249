/**
 The STON.fi v2.1 route messages: the two cell printers, the builder that nests one message in the
 other, and the two strict parsers (scripts/stonfi_v2_1_route_lib.ts).
 */
module RouteCodec {
  import opened Results
  import opened Cells
  import opened Cursor

  const DEX_OP_SWAP := 0x6664de2a
  const PTON_OP_TON_TRANSFER := 0x01f3835d
  const ROUTE_NOTIFY_PAYLOAD_DOMAIN := 0x42594E46
  const DEFAULT_REFERRAL_VALUE_BPS := 10
  const BASE_ROUTER_FORWARD_GAS := 300_000_000
  const PTON_TON_TRANSFER_GAS := 10_000_000

  datatype RouteError =
    | ReferralOutOfRange
    | RefundAddressRequired
    | CellFault(fault: CellError)

  function Lift<T>(r: Result<T, CellError>): (l: Result<T, RouteError>)
    ensures l.Ok? <==> r.Ok?
    ensures r.Ok? ==> l.value == r.value
  {
    match r
    case Ok(v) => Ok(v)
    case Err(e) => Err(CellFault(e))
  }

  // ---------------------------------------------------------------- printers

  /** Absent optional keys are `None`; an address that is null in the source is `None` too. */
  datatype SwapParams = SwapParams(
    askJettonWallet: Option<StdAddress>,
    receiver: Option<StdAddress>,
    minAskAmount: int,
    refund: Option<StdAddress>,
    excesses: Option<StdAddress>,
    customPayloadForwardGas: Option<int>,
    customPayload: Option<Cell>,
    refundForwardGas: Option<int>,
    refundPayload: Option<Cell>,
    referralValue: Option<int>,
    referral: Option<StdAddress>,
    deadline: int)

  function CreateSwapBody(p: SwapParams): Result<Cell, RouteError> {
    var referralValue := p.referralValue.GetOr(DEFAULT_REFERRAL_VALUE_BPS);
    if referralValue < 0 || referralValue > 100 then Err(ReferralOutOfRange)
    else if p.refund.None? then Err(RefundAddressRequired)
    else Lift(SwapRoot(p, p.refund.value, referralValue))
  }

  function SwapRoot(p: SwapParams, refund: StdAddress, referralValue: int): Result<Cell, CellError> {
    var b1 :- BEGIN_CELL.StoreUint(DEX_OP_SWAP, 32);
    var b2 :- b1.StoreAddress(p.askJettonWallet);
    var b3 :- b2.StoreAddress(Some(refund));
    var b4 :- b3.StoreAddress(Some(p.excesses.GetOr(refund)));
    var b5 :- b4.StoreUint(p.deadline, 64);
    var details :- SwapDetails(p, referralValue);
    var b6 :- b5.StoreRef(details);
    Ok(b6.EndCell())
  }

  function SwapDetails(p: SwapParams, referralValue: int): Result<Cell, CellError> {
    var d1 :- BEGIN_CELL.StoreCoins(p.minAskAmount);
    var d2 :- d1.StoreAddress(p.receiver);
    var d3 :- d2.StoreCoins(p.customPayloadForwardGas.GetOr(0));
    var d4 :- d3.StoreMaybeRef(p.customPayload);
    var d5 :- d4.StoreCoins(p.refundForwardGas.GetOr(0));
    var d6 :- d5.StoreMaybeRef(p.refundPayload);
    var d7 :- d6.StoreUint(referralValue, 16);
    var d8 :- d7.StoreAddress(p.referral);
    Ok(d8.EndCell())
  }

  function CreateNotifyPayload(queryId: int): Result<Cell, RouteError> {
    Lift(
      var b1 :- BEGIN_CELL.StoreUint(ROUTE_NOTIFY_PAYLOAD_DOMAIN, 32);
      var b2 :- b1.StoreUint(queryId, 64);
      Ok(b2.EndCell()))
  }

  datatype PtonParams = PtonParams(
    tonAmount: int, refund: Option<StdAddress>, forwardPayload: Option<Cell>, queryId: Option<int>)

  function CreatePtonBody(p: PtonParams): Result<Cell, RouteError> {
    if p.refund.None? then Err(RefundAddressRequired)
    else Lift(PtonRoot(p, p.refund.value))
  }

  function PtonRoot(p: PtonParams, refund: StdAddress): Result<Cell, CellError> {
    var b1 :- BEGIN_CELL.StoreUint(PTON_OP_TON_TRANSFER, 32);
    var b2 :- b1.StoreUint(p.queryId.GetOr(0), 64);
    var b3 :- b2.StoreCoins(p.tonAmount);
    var b4 :- b3.StoreAddress(Some(refund));
    var b5 :- b4.StoreMaybeRef(p.forwardPayload);
    Ok(b5.EndCell())
  }

  datatype RouteParams = RouteParams(
    swap: SwapParams,
    queryId: Option<int>,
    offerAmount: int,
    ptonWallet: Option<StdAddress>,
    forwardGas: Option<int>,
    ptonTransferGas: Option<int>)

  /** The source passes a null pTON wallet through unchecked, so `to` may be `None`. */
  datatype SenderArgs = SenderArgs(to: Option<StdAddress>, value: int, body: Cell, forwardPayload: Cell)

  function BuildRouteTx(p: RouteParams): Result<SenderArgs, RouteError> {
    var forwardPayload :- CreateSwapBody(p.swap);
    var body :- CreatePtonBody(PtonParams(p.offerAmount, p.swap.refund, Some(forwardPayload), p.queryId));
    Ok(SenderArgs(
         p.ptonWallet,
         p.offerAmount + p.forwardGas.GetOr(BASE_ROUTER_FORWARD_GAS) + p.ptonTransferGas.GetOr(PTON_TON_TRANSFER_GAS),
         body,
         forwardPayload))
  }

  // ---------------------------------------------------------------- the swap grammar

  /** Everything a strict parse of a swap cell sees, coin widths and payload cells included. */
  datatype SwapFields = SwapFields(
    op: nat, ask: StdAddress, refund: StdAddress, excesses: StdAddress, deadline: nat,
    details: DetailFields)

  datatype DetailFields = DetailFields(
    minAsk: CoinsField, receiver: StdAddress, customGas: CoinsField, customPayload: Option<Cell>,
    refundGas: CoinsField, refundPayload: Option<Cell>, referralValue: nat, referral: AnyAddress)

  ghost predicate ValidDetails(d: DetailFields) {
    && d.minAsk.Valid() && d.customGas.Valid() && d.refundGas.Valid()
    && d.referralValue < Pow2(16) && ValidAny(d.referral)
  }

  ghost predicate ValidSwap(f: SwapFields) {
    f.op < Pow2(32) && f.deadline < Pow2(64) && ValidDetails(f.details)
  }

  function DetailBits(d: DetailFields): Bits {
    d.minAsk.Bits() + (StdAddressBits(d.receiver) + (d.customGas.Bits() + (MaybeRefBits(d.customPayload)
    + (d.refundGas.Bits() + (MaybeRefBits(d.refundPayload) + (UintBits(d.referralValue, 16)
    + AnyAddressBits(d.referral)))))))
  }

  function PrintDetails(d: DetailFields): Cell {
    Cell(DetailBits(d), MaybeRefRefs(d.customPayload) + MaybeRefRefs(d.refundPayload))
  }

  function PrintSwap(f: SwapFields): Cell {
    Cell(UintBits(f.op, 32) + (StdAddressBits(f.ask) + (StdAddressBits(f.refund)
         + (StdAddressBits(f.excesses) + UintBits(f.deadline, 64)))),
         [PrintDetails(f.details)])
  }

  function ReadDetails(s: Rest): Result<(DetailFields, Rest), CellError> {
    var (minAsk, s1) :- LoadCoins(s);
    var (receiver, s2) :- LoadAddress(s1);
    var (customGas, s3) :- LoadCoins(s2);
    var (customPayload, s4) :- LoadMaybeRef(s3);
    var (refundGas, s5) :- LoadCoins(s4);
    var (refundPayload, s6) :- LoadMaybeRef(s5);
    var (referralValue, s7) :- LoadUint(s6, 16);
    var (referral, s8) :- LoadAddressAny(s7);
    Ok((DetailFields(minAsk, receiver, customGas, customPayload, refundGas, refundPayload, referralValue,
                     referral), s8))
  }

  function ReadSwap(c: Cell): Result<SwapFields, CellError> {
    var (op, s1) :- LoadUint(BeginParse(c), 32);
    var (ask, s2) :- LoadAddress(s1);
    var (refund, s3) :- LoadAddress(s2);
    var (excesses, s4) :- LoadAddress(s3);
    var (deadline, s5) :- LoadUint(s4, 64);
    var (inner, s6) :- LoadRef(s5);
    var (details, t) :- ReadDetails(BeginParse(inner));
    if s6 != Rest([], []) || t != Rest([], []) then Err(TrailingData)
    else Ok(SwapFields(op, ask, refund, excesses, deadline, details))
  }

  lemma PrintedDetailsParse(d: DetailFields)
    requires ValidDetails(d)
    ensures ReadDetails(BeginParse(PrintDetails(d))) == Ok((d, Rest([], [])))
  {
    hide LoadUint, LoadCoins, LoadAddress, LoadAddressAny, LoadMaybeRef;
    hide UintBits, StdAddressBits, AnyAddressBits, MaybeRefBits, Pow2, CoinsField.Bits, CoinsField.Valid;
    var t7 := AnyAddressBits(d.referral);
    var t6 := UintBits(d.referralValue, 16) + t7;
    var t5 := MaybeRefBits(d.refundPayload) + t6;
    var t4 := d.refundGas.Bits() + t5;
    var t3 := MaybeRefBits(d.customPayload) + t4;
    var t2 := d.customGas.Bits() + t3;
    var t1 := StdAddressBits(d.receiver) + t2;
    var r2 := MaybeRefRefs(d.refundPayload);
    var r1 := MaybeRefRefs(d.customPayload) + r2;
    LoadCoinsEncodes(d.minAsk, t1, r1);
    LoadAddressEncodes(d.receiver, t2, r1);
    LoadCoinsEncodes(d.customGas, t3, r1);
    LoadMaybeRefEncodes(d.customPayload, t4, r2);
    LoadCoinsEncodes(d.refundGas, t5, r2);
    assert r2 == r2 + [];
    LoadMaybeRefEncodes(d.refundPayload, t6, []);
    LoadUintEncodes(d.referralValue, 16, t7, []);
    assert t7 == t7 + [];
    LoadAddressAnyEncodes(d.referral, [], []);
  }

  lemma ParsedDetailsPrint(s: Rest)
    requires ReadDetails(s).Ok?
    ensures var (d, t) := ReadDetails(s).value;
            ValidDetails(d) && (t == Rest([], []) ==> s == BeginParse(PrintDetails(d)))
  {
    hide LoadUint, LoadCoins, LoadAddress, LoadAddressAny, LoadMaybeRef;
    hide UintBits, StdAddressBits, AnyAddressBits, MaybeRefBits, Pow2, CoinsField.Bits, CoinsField.Valid;
    var (minAsk, s1) := LoadCoins(s).value;
    var (receiver, s2) := LoadAddress(s1).value;
    var (customGas, s3) := LoadCoins(s2).value;
    var (customPayload, s4) := LoadMaybeRef(s3).value;
    var (refundGas, s5) := LoadCoins(s4).value;
    var (refundPayload, s6) := LoadMaybeRef(s5).value;
    var (referralValue, s7) := LoadUint(s6, 16).value;
    LoadCoinsInverts(s);
    LoadAddressInverts(s1);
    LoadCoinsInverts(s2);
    LoadMaybeRefInverts(s3);
    LoadCoinsInverts(s4);
    LoadMaybeRefInverts(s5);
    LoadUintInverts(s6, 16);
    LoadAddressAnyInverts(s7);
    var (d, t) := ReadDetails(s).value;
    if t == Rest([], []) {
      assert s7.bits == AnyAddressBits(d.referral);
      assert s5.refs == MaybeRefRefs(refundPayload);
    }
  }

  /**
   The strict parser and the printer are inverse to each other: a cell parses to `f` exactly when
   it is the printing of `f`, with no bit or reference left over in either cell.
   */
  lemma SwapGrammarExact(c: Cell, f: SwapFields)
    ensures ReadSwap(c) == Ok(f) <==> ValidSwap(f) && c == PrintSwap(f)
  {
    if ReadSwap(c) == Ok(f) {
      ParsedSwapPrints(c);
    }
    if ValidSwap(f) && c == PrintSwap(f) {
      PrintedSwapParses(f);
    }
  }

  lemma PrintedSwapParses(f: SwapFields)
    requires ValidSwap(f)
    ensures ReadSwap(PrintSwap(f)) == Ok(f)
  {
    hide LoadUint, LoadCoins, LoadAddress, LoadAddressAny, LoadMaybeRef;
    hide UintBits, StdAddressBits, AnyAddressBits, MaybeRefBits, Pow2, CoinsField.Bits, CoinsField.Valid;
    var t4 := UintBits(f.deadline, 64);
    var t3 := StdAddressBits(f.excesses) + t4;
    var t2 := StdAddressBits(f.refund) + t3;
    var t1 := StdAddressBits(f.ask) + t2;
    var refs := [PrintDetails(f.details)];
    LoadUintEncodes(f.op, 32, t1, refs);
    LoadAddressEncodes(f.ask, t2, refs);
    LoadAddressEncodes(f.refund, t3, refs);
    LoadAddressEncodes(f.excesses, t4, refs);
    assert t4 == t4 + [];
    LoadUintEncodes(f.deadline, 64, [], refs);
    PrintedDetailsParse(f.details);
  }

  lemma ParsedSwapPrints(c: Cell)
    requires ReadSwap(c).Ok?
    ensures ValidSwap(ReadSwap(c).value) && c == PrintSwap(ReadSwap(c).value)
  {
    hide LoadUint, LoadCoins, LoadAddress, LoadAddressAny, LoadMaybeRef;
    hide UintBits, StdAddressBits, AnyAddressBits, MaybeRefBits, Pow2, CoinsField.Bits, CoinsField.Valid;
    var s0 := BeginParse(c);
    var (op, s1) := LoadUint(s0, 32).value;
    var (ask, s2) := LoadAddress(s1).value;
    var (refund, s3) := LoadAddress(s2).value;
    var (excesses, s4) := LoadAddress(s3).value;
    var (deadline, s5) := LoadUint(s4, 64).value;
    LoadUintInverts(s0, 32);
    LoadAddressInverts(s1);
    LoadAddressInverts(s2);
    LoadAddressInverts(s3);
    LoadUintInverts(s4, 64);
    var inner := s5.refs[0];
    ParsedDetailsPrint(BeginParse(inner));
    assert s4.bits == UintBits(deadline, 64);
    assert s5.refs == [inner];
  }

  // ------------------------------------------------------------ what the swap decoder reports

  /** The decoder keeps every field but reduces the payloads to presence and, for one, its hash. */
  datatype DecodedSwap = DecodedSwap(
    op: nat, ask: StdAddress, refund: StdAddress, excesses: StdAddress, deadline: nat,
    minAskAmount: nat, receiver: StdAddress, customGas: nat, hasCustomPayload: bool,
    customPayloadHash: Option<Hash>, refundGas: nat, hasRefundPayload: bool, referralValue: nat,
    referral: AnyAddress)

  function HashOption(c: Option<Cell>): Option<Hash> {
    if c.Some? then Some(HashOf(c.value)) else None
  }

  function SwapView(f: SwapFields): DecodedSwap {
    var d := f.details;
    DecodedSwap(f.op, f.ask, f.refund, f.excesses, f.deadline, d.minAsk.amount, d.receiver, d.customGas.amount,
                d.customPayload.Some?, HashOption(d.customPayload), d.refundGas.amount, d.refundPayload.Some?,
                d.referralValue, d.referral)
  }

  /** The decoder, load by load; it reports exactly what the grammar reads. */
  method DecodeSwapBody(cell: Cell) returns (r: Result<DecodedSwap, CellError>)
    ensures r.Ok? <==> ReadSwap(cell).Ok?
    ensures r.Ok? ==> r.value == SwapView(ReadSwap(cell).value)
    ensures r.Err? ==> r.error == ReadSwap(cell).error
  {
    hide LoadUint, LoadCoins, LoadAddress, LoadAddressAny, LoadMaybeRef, LoadRef;
    var s := new Slice(cell);
    var op :- s.TakeUint(32);
    var ask :- s.TakeAddress();
    var refund :- s.TakeAddress();
    var excesses :- s.TakeAddress();
    var deadline :- s.TakeUint(64);
    var inner :- s.TakeRef();
    var ref := new Slice(inner);
    var minAsk :- ref.TakeCoins();
    var receiver :- ref.TakeAddress();
    var customGas :- ref.TakeCoins();
    var customPayload :- ref.TakeMaybeRef();
    var refundGas :- ref.TakeCoins();
    var refundPayload :- ref.TakeMaybeRef();
    var referralValue :- ref.TakeUint(16);
    var referral :- ref.TakeAddressAny();
    if |s.rest.bits| != 0 || |s.rest.refs| != 0 {
      return Err(TrailingData);
    }
    if |ref.rest.bits| != 0 || |ref.rest.refs| != 0 {
      return Err(TrailingData);
    }
    r := Ok(DecodedSwap(op, ask, refund, excesses, deadline, minAsk.amount, receiver, customGas.amount,
                        customPayload.Some?, HashOption(customPayload), refundGas.amount, refundPayload.Some?,
                        referralValue, referral));
  }

  // ---------------------------------------------------------------- the pTON grammar

  datatype PtonFields = PtonFields(
    op: nat, queryId: nat, tonAmount: CoinsField, refund: StdAddress, forwardPayload: Option<Cell>)

  ghost predicate ValidPton(f: PtonFields) {
    f.op < Pow2(32) && f.queryId < Pow2(64) && f.tonAmount.Valid()
  }

  function PrintPton(f: PtonFields): Cell {
    Cell(UintBits(f.op, 32) + (UintBits(f.queryId, 64) + (f.tonAmount.Bits()
         + (StdAddressBits(f.refund) + MaybeRefBits(f.forwardPayload)))),
         MaybeRefRefs(f.forwardPayload))
  }

  function ReadPton(c: Cell): Result<PtonFields, CellError> {
    var (op, s1) :- LoadUint(BeginParse(c), 32);
    var (queryId, s2) :- LoadUint(s1, 64);
    var (tonAmount, s3) :- LoadCoins(s2);
    var (refund, s4) :- LoadAddress(s3);
    var (forwardPayload, s5) :- LoadMaybeRef(s4);
    if s5 != Rest([], []) then Err(TrailingData)
    else Ok(PtonFields(op, queryId, tonAmount, refund, forwardPayload))
  }

  lemma PrintedPtonParses(f: PtonFields)
    requires ValidPton(f)
    ensures ReadPton(PrintPton(f)) == Ok(f)
  {
    hide LoadUint, LoadCoins, LoadAddress, LoadAddressAny, LoadMaybeRef;
    hide UintBits, StdAddressBits, AnyAddressBits, MaybeRefBits, Pow2, CoinsField.Bits, CoinsField.Valid;
    var t4 := MaybeRefBits(f.forwardPayload);
    var t3 := StdAddressBits(f.refund) + t4;
    var t2 := f.tonAmount.Bits() + t3;
    var t1 := UintBits(f.queryId, 64) + t2;
    var refs := MaybeRefRefs(f.forwardPayload);
    LoadUintEncodes(f.op, 32, t1, refs);
    LoadUintEncodes(f.queryId, 64, t2, refs);
    LoadCoinsEncodes(f.tonAmount, t3, refs);
    LoadAddressEncodes(f.refund, t4, refs);
    assert t4 == t4 + [] && refs == refs + [];
    LoadMaybeRefEncodes(f.forwardPayload, [], []);
  }

  lemma ParsedPtonPrints(c: Cell)
    requires ReadPton(c).Ok?
    ensures ValidPton(ReadPton(c).value) && c == PrintPton(ReadPton(c).value)
  {
    hide LoadUint, LoadCoins, LoadAddress, LoadAddressAny, LoadMaybeRef;
    hide UintBits, StdAddressBits, AnyAddressBits, MaybeRefBits, Pow2, CoinsField.Bits, CoinsField.Valid;
    var s0 := BeginParse(c);
    var (op, s1) := LoadUint(s0, 32).value;
    var (queryId, s2) := LoadUint(s1, 64).value;
    var (tonAmount, s3) := LoadCoins(s2).value;
    var (refund, s4) := LoadAddress(s3).value;
    LoadUintInverts(s0, 32);
    LoadUintInverts(s1, 64);
    LoadCoinsInverts(s2);
    LoadAddressInverts(s3);
    LoadMaybeRefInverts(s4);
    assert s4.bits == MaybeRefBits(ReadPton(c).value.forwardPayload);
    assert s4.refs == MaybeRefRefs(ReadPton(c).value.forwardPayload);
  }

  /** The same for the pTON transfer cell. */
  lemma PtonGrammarExact(c: Cell, f: PtonFields)
    ensures ReadPton(c) == Ok(f) <==> ValidPton(f) && c == PrintPton(f)
  {
    if ReadPton(c) == Ok(f) {
      ParsedPtonPrints(c);
    }
    if ValidPton(f) && c == PrintPton(f) {
      PrintedPtonParses(f);
    }
  }

  datatype DecodedPton = DecodedPton(
    op: nat, queryId: nat, tonAmount: nat, refund: StdAddress, forwardPayload: Option<Cell>)

  function PtonView(f: PtonFields): DecodedPton {
    DecodedPton(f.op, f.queryId, f.tonAmount.amount, f.refund, f.forwardPayload)
  }

  method DecodePtonBody(cell: Cell) returns (r: Result<DecodedPton, CellError>)
    ensures r.Ok? <==> ReadPton(cell).Ok?
    ensures r.Ok? ==> r.value == PtonView(ReadPton(cell).value)
    ensures r.Err? ==> r.error == ReadPton(cell).error
  {
    hide LoadUint, LoadCoins, LoadAddress, LoadRef;
    var s := new Slice(cell);
    var op :- s.TakeUint(32);
    var queryId :- s.TakeUint(64);
    var tonAmount :- s.TakeCoins();
    var refund :- s.TakeAddress();
    var hasForwardPayload :- s.TakeBit();
    var forwardPayload := None;
    if hasForwardPayload {
      var p :- s.TakeRef();
      forwardPayload := Some(p);
    }
    if |s.rest.bits| != 0 || |s.rest.refs| != 0 {
      return Err(TrailingData);
    }
    r := Ok(DecodedPton(op, queryId, tonAmount.amount, refund, forwardPayload));
  }
}
