/**
 Round trips of the STON.fi v2.1 route messages: exactly which parameters the printers accept, what
 the strict parsers give back for them, and what nesting one message in the other preserves.
 */
module RouteRoundTrip {
  import opened Results
  import opened Cells
  import opened RouteCodec

  // ---------------------------------------------------------------- acceptance of the printers

  /** An amount that fits a Coins field, `0 <= v < 2^120`. */
  ghost predicate FitsCoins(v: int) {
    0 <= v && v < Pow2(120)
  }

  ghost predicate FitsUint64(v: int) {
    0 <= v < Pow2(64)
  }

  ghost predicate DetailsInRange(p: SwapParams) {
    && FitsCoins(p.minAskAmount)
    && FitsCoins(p.customPayloadForwardGas.GetOr(0))
    && FitsCoins(p.refundForwardGas.GetOr(0))
  }

  ghost predicate SwapInRange(p: SwapParams) {
    && 0 <= p.referralValue.GetOr(DEFAULT_REFERRAL_VALUE_BPS) <= 100
    && p.refund.Some?
    && FitsUint64(p.deadline)
    && DetailsInRange(p)
  }

  /** The details cell of a swap, addresses printed as `addr_none` when they are null. */
  function DetailsImage(p: SwapParams, referralValue: nat): Cell
    requires p.minAskAmount >= 0 && p.customPayloadForwardGas.GetOr(0) >= 0 && p.refundForwardGas.GetOr(0) >= 0
  {
    Cell(MinimalCoins(p.minAskAmount).Bits() + (MaybeAddressBits(p.receiver)
         + (MinimalCoins(p.customPayloadForwardGas.GetOr(0)).Bits() + (MaybeRefBits(p.customPayload)
         + (MinimalCoins(p.refundForwardGas.GetOr(0)).Bits() + (MaybeRefBits(p.refundPayload)
         + (UintBits(referralValue, 16) + MaybeAddressBits(p.referral))))))),
         MaybeRefRefs(p.customPayload) + MaybeRefRefs(p.refundPayload))
  }

  function RootImage(ask: Option<StdAddress>, refund: StdAddress, excesses: StdAddress, deadline: nat,
                     details: Cell): Cell
  {
    Cell(UintBits(DEX_OP_SWAP, 32) + (MaybeAddressBits(ask) + (StdAddressBits(refund)
         + (StdAddressBits(excesses) + UintBits(deadline, 64)))),
         [details])
  }

  lemma Regroup(a: Bits, b: Bits, c: Bits)
    ensures (a + b) + c == a + (b + c)
  {
  }

  lemma Regroup5(a: Bits, b: Bits, c: Bits, d: Bits, e: Bits)
    ensures a + b + c + d + e == a + (b + (c + (d + e)))
  {
    Regroup(a + b + c, d, e);
    Regroup(a + b, c, d + e);
    Regroup(a, b, c + (d + e));
  }

  lemma CoinsFieldFits(v: nat)
    ensures ByteLen(v) <= 15 <==> v < Pow2(120)
    ensures v < Pow2(120) ==> MinimalCoins(v).Valid() && |MinimalCoins(v).Bits()| <= 124
  {
    ByteLenIsLeast(v, 15);
    ByteLenIsLeast(v, ByteLen(v));
  }

  lemma CoinsStored(b: Builder, v: int)
    requires |b.bits| <= MAX_BITS - 124
    ensures b.StoreCoins(v).Ok? <==> FitsCoins(v)
    ensures FitsCoins(v) ==> b.StoreCoins(v) == Ok(Builder(b.bits + MinimalCoins(v).Bits(), b.refs))
    ensures FitsCoins(v) ==> |MinimalCoins(v).Bits()| <= 124
  {
    if v >= 0 {
      CoinsFieldFits(v);
    }
  }

  lemma MaybeRefStored(b: Builder, c: Option<Cell>)
    requires |b.bits| < MAX_BITS && |b.refs| < MAX_REFS
    ensures b.StoreMaybeRef(c) == Ok(Builder(b.bits + MaybeRefBits(c), b.refs + MaybeRefRefs(c)))
  {
    if c.None? {
      assert b.refs + [] == b.refs;
    }
  }

  lemma AddressStored(b: Builder, a: Option<StdAddress>)
    requires |b.bits| <= MAX_BITS - 267
    ensures b.StoreAddress(a) == Ok(Builder(b.bits + MaybeAddressBits(a), b.refs))
    ensures |MaybeAddressBits(a)| <= 267
  {
  }

  lemma UintStored(b: Builder, v: int, n: nat)
    requires |b.bits| + n <= MAX_BITS
    ensures b.StoreUint(v, n).Ok? <==> 0 <= v < Pow2(n)
    ensures 0 <= v < Pow2(n) ==> b.StoreUint(v, n) == Ok(Builder(b.bits + UintBits(v, n), b.refs))
  {
  }

  lemma Regroup8(a: Bits, b: Bits, c: Bits, d: Bits, e: Bits, f: Bits, g: Bits, h: Bits)
    ensures a + b + c + d + e + f + g + h == a + (b + (c + (d + (e + (f + (g + h))))))
  {
    Regroup5(a + b + c + d, e, f, g, h);
    Regroup5(a, b, c, d, e + (f + (g + h)));
  }

  lemma DetailsPrinted(p: SwapParams, referralValue: nat)
    requires referralValue <= 100
    ensures SwapDetails(p, referralValue).Ok? <==> DetailsInRange(p)
    ensures DetailsInRange(p) ==> SwapDetails(p, referralValue) == Ok(DetailsImage(p, referralValue))
  {
    hide Builder.StoreCoins, Builder.StoreAddress, Builder.StoreMaybeRef, Builder.StoreUint, Pow2;
    hide UintBits, MaybeAddressBits, CoinsField.Bits, MaybeRefRefs;
    var c1, c2, c3 := p.minAskAmount, p.customPayloadForwardGas.GetOr(0), p.refundForwardGas.GetOr(0);
    CoinsStored(BEGIN_CELL, c1);
    if !FitsCoins(c1) {
      return;
    }
    var x1, x2 := MinimalCoins(c1).Bits(), MaybeAddressBits(p.receiver);
    assert [] + x1 == x1;
    AddressStored(Builder(x1, []), p.receiver);
    CoinsStored(Builder(x1 + x2, []), c2);
    if !FitsCoins(c2) {
      return;
    }
    var x3, x4, r4 := MinimalCoins(c2).Bits(), MaybeRefBits(p.customPayload), MaybeRefRefs(p.customPayload);
    assert [] + r4 == r4;
    assert |r4| <= 1 by { AtMostOneRef(p.customPayload); }
    MaybeRefStored(Builder(x1 + x2 + x3, []), p.customPayload);
    CoinsStored(Builder(x1 + x2 + x3 + x4, r4), c3);
    if !FitsCoins(c3) {
      return;
    }
    DetailsTailPrinted(p, referralValue, Builder(x1 + x2 + x3 + x4 + MinimalCoins(c3).Bits(), r4));
    Regroup8(x1, x2, x3, x4, MinimalCoins(c3).Bits(), MaybeRefBits(p.refundPayload), UintBits(referralValue, 16),
             MaybeAddressBits(p.referral));
  }

  lemma AtMostOneRef(c: Option<Cell>)
    ensures |MaybeRefRefs(c)| <= 1
  {
  }

  lemma DetailsTailPrinted(p: SwapParams, referralValue: nat, d5: Builder)
    requires referralValue <= 100 && |d5.bits| <= 700 && |d5.refs| <= 1
    ensures var d6 := d5.StoreMaybeRef(p.refundPayload);
            d6.Ok? &&
            var d7 := d6.value.StoreUint(referralValue, 16);
            d7.Ok? &&
            d7.value.StoreAddress(p.referral) ==
            Ok(Builder(d5.bits + MaybeRefBits(p.refundPayload) + UintBits(referralValue, 16)
                       + MaybeAddressBits(p.referral),
                       d5.refs + MaybeRefRefs(p.refundPayload)))
  {
    MaybeRefStored(d5, p.refundPayload);
    Pow2Small();
  }

  lemma SwapRootPrinted(p: SwapParams, refund: StdAddress, referralValue: nat)
    requires referralValue <= 100
    ensures SwapRoot(p, refund, referralValue).Ok? <==> FitsUint64(p.deadline) && DetailsInRange(p)
    ensures FitsUint64(p.deadline) && DetailsInRange(p) ==>
              SwapRoot(p, refund, referralValue) == Ok(RootImage(p.askJettonWallet, refund, p.excesses.GetOr(refund),
                                                                 p.deadline, DetailsImage(p, referralValue)))
  {
    hide SwapDetails, DetailsImage, Builder.StoreAddress, Builder.StoreUint, UintBits, MaybeAddressBits, Pow2;
    var x1 := UintBits(DEX_OP_SWAP, 32);
    OpcodesFit();
    UintStored(BEGIN_CELL, DEX_OP_SWAP, 32);
    assert [] + x1 == x1;
    var x2 := MaybeAddressBits(p.askJettonWallet);
    AddressStored(Builder(x1, []), p.askJettonWallet);
    var x3 := MaybeAddressBits(Some(refund));
    AddressStored(Builder(x1 + x2, []), Some(refund));
    var x4 := MaybeAddressBits(Some(p.excesses.GetOr(refund)));
    AddressStored(Builder(x1 + x2 + x3, []), Some(p.excesses.GetOr(refund)));
    UintStored(Builder(x1 + x2 + x3 + x4, []), p.deadline, 64);
    DetailsPrinted(p, referralValue);
    if FitsUint64(p.deadline) && DetailsInRange(p) {
      Regroup5(x1, x2, x3, x4, UintBits(p.deadline, 64));
      assert [] + [DetailsImage(p, referralValue)] == [DetailsImage(p, referralValue)];
      assert x3 == StdAddressBits(refund) && x4 == StdAddressBits(p.excesses.GetOr(refund)) by {
        SomeAddressBits(refund);
        SomeAddressBits(p.excesses.GetOr(refund));
      }
    }
  }

  lemma SomeAddressBits(a: StdAddress)
    ensures MaybeAddressBits(Some(a)) == StdAddressBits(a)
  {
  }

  lemma OpcodesFit()
    ensures DEX_OP_SWAP < Pow2(32) && PTON_OP_TON_TRANSFER < Pow2(32) && ROUTE_NOTIFY_PAYLOAD_DOMAIN < Pow2(32)
  {
    Pow2Small();
    Pow2Byte(2);
    Pow2Byte(3);
  }

  /**
   Exactly the parameters the swap printer accepts, and what it prints for them.  The cell it
   returns is always within 1023 bits and 4 references, and so is its details cell.
   */
  lemma SwapBodyAccepted(p: SwapParams)
    ensures CreateSwapBody(p).Ok? <==> SwapInRange(p)
    ensures SwapInRange(p) ==>
              var c := CreateSwapBody(p).value;
              && c == RootImage(p.askJettonWallet, p.refund.value, p.excesses.GetOr(p.refund.value), p.deadline,
                                DetailsImage(p, p.referralValue.GetOr(DEFAULT_REFERRAL_VALUE_BPS)))
              && |c.bits| <= 897 && |c.refs| == 1
              && |c.refs[0].bits| <= 924 && |c.refs[0].refs| <= 2
  {
    hide SwapRoot, Pow2, UintBits, DetailsImage, RootImage;
    var referralValue := p.referralValue.GetOr(DEFAULT_REFERRAL_VALUE_BPS);
    if 0 <= referralValue <= 100 && p.refund.Some? {
      SwapRootPrinted(p, p.refund.value, referralValue);
      if SwapInRange(p) {
        ImageBounds(p, p.refund.value, referralValue);
      }
    }
  }

  lemma ImageBounds(p: SwapParams, refund: StdAddress, referralValue: nat)
    requires FitsUint64(p.deadline) && DetailsInRange(p)
    ensures var details := DetailsImage(p, referralValue);
            var c := RootImage(p.askJettonWallet, refund, p.excesses.GetOr(refund), p.deadline, details);
            && |c.bits| <= 897 && c.refs == [details]
            && |details.bits| <= 924 && |details.refs| <= 2
  {
    hide Pow2, UintBits, CoinsField.Bits;
    CoinsFieldFits(p.minAskAmount);
    CoinsFieldFits(p.customPayloadForwardGas.GetOr(0));
    CoinsFieldFits(p.refundForwardGas.GetOr(0));
  }

  // ---------------------------------------------------------------- swap round trip

  function AnyOf(a: Option<StdAddress>): AnyAddress {
    if a.Some? then Internal(a.value) else NoAddress
  }

  /** The fields a parse of the printed swap must give back. */
  ghost function SwapFieldsOf(p: SwapParams): SwapFields
    requires SwapInRange(p) && p.askJettonWallet.Some? && p.receiver.Some?
  {
    SwapFields(DEX_OP_SWAP, p.askJettonWallet.value, p.refund.value, p.excesses.GetOr(p.refund.value), p.deadline,
               DetailFields(MinimalCoins(p.minAskAmount), p.receiver.value,
                            MinimalCoins(p.customPayloadForwardGas.GetOr(0)), p.customPayload,
                            MinimalCoins(p.refundForwardGas.GetOr(0)), p.refundPayload,
                            p.referralValue.GetOr(DEFAULT_REFERRAL_VALUE_BPS), AnyOf(p.referral)))
  }

  lemma FieldsValid(p: SwapParams)
    requires SwapInRange(p) && p.askJettonWallet.Some? && p.receiver.Some?
    ensures ValidSwap(SwapFieldsOf(p))
  {
    hide Pow2, ByteLen;
    OpcodesFit();
    Pow2Small();
    CoinsFieldFits(p.minAskAmount);
    CoinsFieldFits(p.customPayloadForwardGas.GetOr(0));
    CoinsFieldFits(p.refundForwardGas.GetOr(0));
  }

  lemma NullAskUnreadable(p: SwapParams, c: Cell)
    requires SwapInRange(p) && p.askJettonWallet.None? && CreateSwapBody(p) == Ok(c)
    ensures ReadSwap(c) == Err(BadAddressTag)
  {
    SwapBodyAccepted(p);
    hide CreateSwapBody, DetailsImage, ReadDetails, UintBits, StdAddressBits;
    var tail := StdAddressBits(p.refund.value)
      + (StdAddressBits(p.excesses.GetOr(p.refund.value)) + UintBits(p.deadline, 64));
    OpcodesFit();
    LoadUintEncodes(DEX_OP_SWAP, 32, [false, false] + tail, c.refs);
    assert ([false, false] + tail)[..2] == [false, false];
  }

  lemma NullReceiverUnreadable(p: SwapParams, c: Cell)
    requires SwapInRange(p) && p.askJettonWallet.Some? && p.receiver.None? && CreateSwapBody(p) == Ok(c)
    ensures ReadSwap(c) == Err(BadAddressTag)
  {
    SwapBodyAccepted(p);
    hide CreateSwapBody, ReadDetails, DetailsImage, ReadSwap;
    NullReceiverDetails(p);
    NullReceiverRoot(p, c);
  }

  lemma NullReceiverDetails(p: SwapParams)
    requires SwapInRange(p) && p.receiver.None?
    ensures ReadDetails(BeginParse(DetailsImage(p, p.referralValue.GetOr(DEFAULT_REFERRAL_VALUE_BPS)))) ==
            Err(BadAddressTag)
  {
    hide CoinsField.Bits, MaybeRefBits, UintBits, LoadCoins, Pow2;
    var inner := DetailsImage(p, p.referralValue.GetOr(DEFAULT_REFERRAL_VALUE_BPS));
    var rest := MinimalCoins(p.customPayloadForwardGas.GetOr(0)).Bits() + (MaybeRefBits(p.customPayload)
      + (MinimalCoins(p.refundForwardGas.GetOr(0)).Bits() + (MaybeRefBits(p.refundPayload)
      + (UintBits(p.referralValue.GetOr(DEFAULT_REFERRAL_VALUE_BPS), 16) + MaybeAddressBits(p.referral)))));
    CoinsFieldFits(p.minAskAmount);
    LoadCoinsEncodes(MinimalCoins(p.minAskAmount), [false, false] + rest, inner.refs);
    assert ([false, false] + rest)[..2] == [false, false];
  }

  lemma NullReceiverRoot(p: SwapParams, c: Cell)
    requires SwapInRange(p) && p.askJettonWallet.Some? && CreateSwapBody(p) == Ok(c) && |c.refs| == 1
    requires ReadDetails(BeginParse(c.refs[0])) == Err(BadAddressTag)
    ensures ReadSwap(c) == Err(BadAddressTag)
  {
    SwapBodyAccepted(p);
    hide CreateSwapBody, DetailsImage, ReadDetails, UintBits, StdAddressBits, LoadUint, LoadAddress, Pow2;
    var t4 := UintBits(p.deadline, 64);
    var t3 := StdAddressBits(p.excesses.GetOr(p.refund.value)) + t4;
    var t2 := StdAddressBits(p.refund.value) + t3;
    var t1 := StdAddressBits(p.askJettonWallet.value) + t2;
    OpcodesFit();
    LoadUintEncodes(DEX_OP_SWAP, 32, t1, c.refs);
    LoadAddressEncodes(p.askJettonWallet.value, t2, c.refs);
    LoadAddressEncodes(p.refund.value, t3, c.refs);
    LoadAddressEncodes(p.excesses.GetOr(p.refund.value), t4, c.refs);
    assert t4 == t4 + [];
    LoadUintEncodes(p.deadline, 64, [], c.refs);
  }

  /**
   Swap round trip.  Every accepted parameter set whose ask wallet and receiver are given parses
   back field by field, excesses defaulting to the refund address, with nothing left over.  When
   either address is null the printer still succeeds and the strict parser refuses its output.
   */
  lemma SwapRoundTrip(p: SwapParams)
    requires SwapInRange(p)
    ensures CreateSwapBody(p).Ok?
    ensures var r := ReadSwap(CreateSwapBody(p).value);
            if p.askJettonWallet.Some? && p.receiver.Some? then r == Ok(SwapFieldsOf(p)) else r == Err(BadAddressTag)
  {
    SwapBodyAccepted(p);
    var c := CreateSwapBody(p).value;
    if p.askJettonWallet.None? {
      NullAskUnreadable(p, c);
    } else if p.receiver.None? {
      NullReceiverUnreadable(p, c);
    } else {
      FieldsValid(p);
      ImageIsPrinting(p, c);
      PrintedSwapParses(SwapFieldsOf(p));
    }
  }

  lemma ImageIsPrinting(p: SwapParams, c: Cell)
    requires SwapInRange(p) && p.askJettonWallet.Some? && p.receiver.Some? && CreateSwapBody(p) == Ok(c)
    ensures c == PrintSwap(SwapFieldsOf(p))
  {
    SwapBodyAccepted(p);
    hide CreateSwapBody, UintBits, StdAddressBits, Pow2, MaybeRefBits, MaybeRefRefs, CoinsField.Bits;
  }

  // ---------------------------------------------------------------- how much a decode pins

  /**
   Two swap cells with the same decoded report are the same cell exactly when they spell their
   amounts with the same widths and carry the same refund payload: nothing else escapes the report.
   */
  lemma DecodedSwapPins(c1: Cell, c2: Cell)
    requires ReadSwap(c1).Ok? && ReadSwap(c2).Ok?
    requires SwapView(ReadSwap(c1).value) == SwapView(ReadSwap(c2).value)
    ensures var d1, d2 := ReadSwap(c1).value.details, ReadSwap(c2).value.details;
            c1 == c2 <==>
            && d1.minAsk.width == d2.minAsk.width && d1.customGas.width == d2.customGas.width
            && d1.refundGas.width == d2.refundGas.width && d1.refundPayload == d2.refundPayload
  {
    ParsedSwapPrints(c1);
    ParsedSwapPrints(c2);
    hide ReadSwap, PrintSwap;
  }

  /** The same swap with its minimum amount spelt one byte wider. */
  function Widened(f: SwapFields): SwapFields {
    var m := f.details.minAsk;
    f.(details := f.details.(minAsk := CoinsField(m.width + 1, m.amount)))
  }

  /** Any swap whose minimum amount has a spare byte has a twin: another cell, the same report. */
  lemma WidenedTwin(f: SwapFields)
    requires ValidSwap(f) && f.details.minAsk.width < 15
    ensures PrintSwap(Widened(f)) != PrintSwap(f)
    ensures ReadSwap(PrintSwap(f)) == Ok(f) && ReadSwap(PrintSwap(Widened(f))) == Ok(Widened(f))
    ensures SwapView(Widened(f)) == SwapView(f)
  {
    hide ReadSwap, PrintSwap, Pow2, CoinsField.Valid;
    WiderIsValid(f.details.minAsk);
    PrintedSwapParses(f);
    PrintedSwapParses(Widened(f));
    assert Widened(f).details.minAsk != f.details.minAsk;
  }

  lemma WiderIsValid(m: CoinsField)
    requires m.Valid() && m.width < 15
    ensures CoinsField(m.width + 1, m.amount).Valid()
  {
    hide Pow2;
    Pow2Byte(m.width);
  }

  // ---------------------------------------------------------------- pTON transfer

  ghost predicate PtonInRange(p: PtonParams) {
    p.refund.Some? && FitsUint64(p.queryId.GetOr(0)) && FitsCoins(p.tonAmount)
  }

  ghost function PtonFieldsOf(p: PtonParams): PtonFields
    requires PtonInRange(p)
  {
    PtonFields(PTON_OP_TON_TRANSFER, p.queryId.GetOr(0), MinimalCoins(p.tonAmount), p.refund.value, p.forwardPayload)
  }

  /** The pTON printer accepts exactly the in-range parameters, and its output parses back whole. */
  lemma PtonRoundTrip(p: PtonParams)
    ensures CreatePtonBody(p).Ok? <==> PtonInRange(p)
    ensures PtonInRange(p) ==> ReadPton(CreatePtonBody(p).value) == Ok(PtonFieldsOf(p))
    ensures PtonInRange(p) ==>
              CreatePtonBody(p).value == PrintPton(PtonFieldsOf(p)) && |CreatePtonBody(p).value.bits| <= 488
  {
    if p.refund.Some? {
      PtonPrinted(p, p.refund.value);
      if PtonInRange(p) {
        OpcodesFit();
        CoinsFieldFits(p.tonAmount);
        PrintedPtonParses(PtonFieldsOf(p));
      }
    }
  }

  lemma PtonPrinted(p: PtonParams, refund: StdAddress)
    requires p.refund == Some(refund)
    ensures PtonRoot(p, refund).Ok? <==> PtonInRange(p)
    ensures PtonInRange(p) ==> PtonRoot(p, refund) == Ok(PrintPton(PtonFieldsOf(p)))
  {
    hide Builder.StoreAddress, Builder.StoreUint, Builder.StoreCoins, Builder.StoreMaybeRef;
    hide UintBits, MaybeAddressBits, CoinsField.Bits, Pow2, MaybeRefRefs;
    var q, t := p.queryId.GetOr(0), p.tonAmount;
    var x1, x2 := UintBits(PTON_OP_TON_TRANSFER, 32), if q >= 0 then UintBits(q, 64) else [];
    OpcodesFit();
    UintStored(BEGIN_CELL, PTON_OP_TON_TRANSFER, 32);
    assert [] + x1 == x1;
    UintStored(Builder(x1, []), q, 64);
    if !FitsUint64(q) {
      return;
    }
    CoinsStored(Builder(x1 + x2, []), t);
    if !FitsCoins(t) {
      return;
    }
    var x3, x4 := MinimalCoins(t).Bits(), MaybeAddressBits(Some(refund));
    AddressStored(Builder(x1 + x2 + x3, []), Some(refund));
    MaybeRefStored(Builder(x1 + x2 + x3 + x4, []), p.forwardPayload);
    Regroup5(x1, x2, x3, x4, MaybeRefBits(p.forwardPayload));
    SomeAddressBits(refund);
    assert [] + MaybeRefRefs(p.forwardPayload) == MaybeRefRefs(p.forwardPayload);
  }

  // ---------------------------------------------------------------- from the parameters to the report

  /** What the decoder reports of a printed swap are the parameters it was printed from, defaults filled in. */
  lemma SwapReported(p: SwapParams)
    requires SwapInRange(p) && p.askJettonWallet.Some? && p.receiver.Some?
    ensures CreateSwapBody(p).Ok?
    ensures var read := ReadSwap(CreateSwapBody(p).value);
            read.Ok? &&
            var d := SwapView(read.value);
            && d.op == 0x6664de2a && d.deadline == p.deadline && d.ask == p.askJettonWallet.value
            && d.refund == p.refund.value && d.excesses == p.excesses.GetOr(p.refund.value)
            && d.receiver == p.receiver.value && d.minAskAmount == p.minAskAmount
            && d.customGas == p.customPayloadForwardGas.GetOr(0) && d.refundGas == p.refundForwardGas.GetOr(0)
            && d.hasCustomPayload == p.customPayload.Some? && d.hasRefundPayload == p.refundPayload.Some?
            && d.customPayloadHash == (match p.customPayload case Some(c) => Some(HashOf(c)) case None => None)
            && d.referralValue == p.referralValue.GetOr(10)
            && d.referral == (match p.referral case Some(a) => Internal(a) case None => NoAddress)
  {
    hide ReadSwap, CreateSwapBody, ByteLen, Pow2;
    SwapRoundTrip(p);
  }

  lemma PtonReported(p: PtonParams)
    requires PtonInRange(p)
    ensures CreatePtonBody(p).Ok?
    ensures var read := ReadPton(CreatePtonBody(p).value);
            read.Ok? &&
            PtonView(read.value) ==
            DecodedPton(0x01f3835d, p.queryId.GetOr(0), p.tonAmount, p.refund.value, p.forwardPayload)
  {
    hide ReadPton, CreatePtonBody, PrintPton, Pow2, ByteLen;
    PtonRoundTrip(p);
  }

  // ---------------------------------------------------------------- nesting

  lemma PrintedRefs(f: PtonFields)
    ensures PrintPton(f).refs == (match f.forwardPayload case Some(c) => [c] case None => [])
  {
  }

  /**
   Nested transfer.  The builder accepts exactly when both messages are in range; its body then
   parses to the query id, the offer and the refund address, and carries, as its only reference, a
   forward payload that itself parses to the swap fields.  The attached value is offer + gas + gas.
   */
  lemma NestedTransfer(p: RouteParams)
    ensures BuildRouteTx(p).Ok? <==>
            SwapInRange(p.swap) && FitsUint64(p.queryId.GetOr(0)) && FitsCoins(p.offerAmount)
    ensures BuildRouteTx(p).Ok? ==>
              var tx := BuildRouteTx(p).value;
              && tx.to == p.ptonWallet
              && tx.value == p.offerAmount + p.forwardGas.GetOr(300_000_000) + p.ptonTransferGas.GetOr(10_000_000)
              && ReadPton(tx.body) == Ok(PtonFields(PTON_OP_TON_TRANSFER, p.queryId.GetOr(0),
                                                    MinimalCoins(p.offerAmount),
                                                    p.swap.refund.value, Some(tx.forwardPayload)))
              && tx.body.refs == [tx.forwardPayload]
              && (p.swap.askJettonWallet.Some? && p.swap.receiver.Some? ==>
                    ReadSwap(tx.forwardPayload) == Ok(SwapFieldsOf(p.swap)))
  {
    hide ReadPton, ReadSwap, CreateSwapBody, CreatePtonBody, RootImage, DetailsImage, PrintPton, SwapFieldsOf;
    SwapBodyAccepted(p.swap);
    if SwapInRange(p.swap) {
      SwapRoundTrip(p.swap);
      var forward := CreateSwapBody(p.swap).value;
      var pton := PtonParams(p.offerAmount, p.swap.refund, Some(forward), p.queryId);
      PtonRoundTrip(pton);
      if PtonInRange(pton) {
        PrintedRefs(PtonFieldsOf(pton));
      }
    }
  }
}
