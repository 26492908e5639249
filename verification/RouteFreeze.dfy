/**
 The freeze gate: `validateStonfiRouteFreezeCandidateV21` decodes a sample transfer, rebuilds it
 from the candidate and accepts only when nothing at all is wrong.
 */
module RouteFreeze {
  import opened Results
  import opened Cells
  import opened RouteCodec
  import opened RouteRoundTrip

  const OFFER_50_TON := 50_000_000_000
  const ROUTE_FORWARD_GAS := 1_000_000_000
  const PTON_GAS := 50_000_000
  const TOTAL_SEND_VALUE := 51_050_000_000
  const NOTIFY_FORWARD_GAS := 40_000_000

  // ---------------------------------------------------------------- the candidate

  /** `null` or `undefined`; a string `Address.parse` rejects; an address. */
  datatype AddressLike = Absent | Malformed | Parsed(address: StdAddress)

  datatype AddressSlot =
    | AthMaster | BuybackBurn | BuybackAthWallet | Router | Pool | SourceOwner | SourceWallet
    | PtonWallet | Vault | AskWallet

  const SLOTS: seq<AddressSlot> :=
    [AthMaster, BuybackBurn, BuybackAthWallet, Router, Pool, SourceOwner, SourceWallet, PtonWallet, Vault, AskWallet]

  datatype HashSlot = AthMasterCode | AthWalletCode | RouterCode | PoolCode | PtonCode | VaultCode

  const HASH_SLOTS: seq<HashSlot> := [AthMasterCode, AthWalletCode, RouterCode, PoolCode, PtonCode, VaultCode]

  datatype LiveProof =
    | TxParamsCaptured | QuoteCaptured | ExcessesObserved | MinOutRefundObserved | PtonRefundObserved
    | FailureDocumented

  const PROOFS: seq<LiveProof> :=
    [TxParamsCaptured, QuoteCaptured, ExcessesObserved, MinOutRefundObserved, PtonRefundObserved, FailureDocumented]

  datatype Status = Draft | FinalCandidate

  datatype Amounts = Amounts(
    queryId: int, deadline: int, offer: int, totalValue: int, routeForwardGas: int, ptonTransferGas: int,
    quoteOut: int, dexMinOut: int, buybackMin: int)

  /** A base64 bag of cells: unreadable, or its single root. */
  datatype Sample = Unreadable | Root(cell: Cell)

  datatype Candidate = Candidate(
    status: Status,
    addresses: AddressSlot -> AddressLike,
    codeHashes: HashSlot -> Option<string>,
    swap: Amounts,
    samplePton: Sample,
    sampleSwap: Sample,
    proofs: LiveProof -> bool)
  {
    function At(slot: AddressSlot): Option<StdAddress> {
      if addresses(slot).Parsed? then Some(addresses(slot).address) else None
    }
  }

  datatype ProfileError =
    | AddressUnparseable | AddressesRequired | RefundNotBuyback | ExcessesNotBuyback | OfferNot50Ton
    | ForwardGasBelowDefault | PtonGasBelowDefault

  datatype Issue =
    // sections in the order the source visits them
    | BadBuybackBurnAddress | BadPtonWalletAddress | BadAskWalletAddress | BadSourceWalletAddress
    | BadBuybackAthWalletAddress
    | MissingAddress(slot: AddressSlot) | BadAddress(slot: AddressSlot) | NotBasechain(slot: AddressSlot)
    | BadCodeHash(hash: HashSlot)
    | BadOfferAmount | BadTotalValueFormula | BadConservativeTotalValue | RouteForwardGasTooLow
    | PtonTransferGasTooLow | MissingQuoteOut | MissingBuybackMinOut | DexMinOutBelowBuybackMin
    | DexMinOutBelow95Percent | AskWalletNotSourceWallet | BadConservativeProfile(why: ProfileError)
    | ForwardPayloadMismatch | InternalPtonAddressError | BadPtonOpcode | BadSwapOpcode | OfferAmountMismatch
    | PtonRefundNotBuyback | MinOutMismatch | SwapRefundNotBuyback | SwapExcessesNotBuyback
    | ReceiverNotBuybackWallet | AskWalletMismatch | NotifyForwardGasMismatch | NotifyPayloadMissing
    | NotifyPayloadMismatch | RebuiltValueMismatch | RebuiltPtonBodyMismatch | RebuiltSwapPayloadMismatch
    | SampleDecodeFailed
    | MissingProof(proof: LiveProof)
    | StatusNotFinal

  datatype Section = Addresses | Hashes | Money | Samples | Closing

  function SectionOf(x: Issue): Section {
    match x
    case BadBuybackBurnAddress | BadPtonWalletAddress | BadAskWalletAddress | BadSourceWalletAddress
       | BadBuybackAthWalletAddress | MissingAddress(_) | BadAddress(_) | NotBasechain(_) => Addresses
    case BadCodeHash(_) => Hashes
    case BadOfferAmount | BadTotalValueFormula | BadConservativeTotalValue | RouteForwardGasTooLow
       | PtonTransferGasTooLow | MissingQuoteOut | MissingBuybackMinOut | DexMinOutBelowBuybackMin
       | DexMinOutBelow95Percent | AskWalletNotSourceWallet | BadConservativeProfile(_) => Money
    case MissingProof(_) | StatusNotFinal => Closing
    case _ => Samples
  }

  // ---------------------------------------------------------------- pieces of the gate

  /** BigInt division, which truncates toward zero. */
  function TruncatingDivide(a: int, b: int): int
    requires b > 0
  {
    if a >= 0 then a / b else -((-a) / b)
  }

  function FloorPercent(value: int, numerator: int, denominator: int): int
    requires denominator > 0
  {
    TruncatingDivide(value * numerator, denominator)
  }

  predicate IsHexDigit(c: char) {
    '0' <= c <= '9' || 'a' <= c <= 'f' || 'A' <= c <= 'F'
  }

  predicate PlausibleHash(h: Option<string>) {
    h.Some? && |h.value| == 64 && forall i | 0 <= i < 64 :: IsHexDigit(h.value[i])
  }

  function ConservativeProfile(
    buyback: AddressLike, refund: AddressLike, excesses: AddressLike, offer: int, routeForwardGas: int,
    ptonTransferGas: int): Result<bool, ProfileError>
  {
    if buyback.Malformed? || refund.Malformed? || excesses.Malformed? then Err(AddressUnparseable)
    else if buyback.Absent? || refund.Absent? || excesses.Absent? then Err(AddressesRequired)
    else if refund.address != buyback.address then Err(RefundNotBuyback)
    else if excesses.address != buyback.address then Err(ExcessesNotBuyback)
    else if offer != OFFER_50_TON then Err(OfferNot50Ton)
    else if routeForwardGas < BASE_ROUTER_FORWARD_GAS then Err(ForwardGasBelowDefault)
    else if ptonTransferGas < PTON_TON_TRANSFER_GAS then Err(PtonGasBelowDefault)
    else Ok(true)
  }

  function ProfileOf(c: Candidate): Result<bool, ProfileError> {
    var b := c.addresses(BuybackBurn);
    ConservativeProfile(b, b, b, c.swap.offer, c.swap.routeForwardGas, c.swap.ptonTransferGas)
  }

  /** The parameters the gate rebuilds the transfer with. */
  function RebuildParams(
    c: Candidate, pton: StdAddress, ask: StdAddress, buyback: StdAddress, receiver: StdAddress,
    notify: Cell): RouteParams
  {
    RouteParams(
      SwapParams(Some(ask), Some(receiver), c.swap.dexMinOut, Some(buyback), Some(buyback), Some(NOTIFY_FORWARD_GAS),
                 Some(notify), None, None, None, None, c.swap.deadline),
      Some(c.swap.queryId), c.swap.offer, Some(pton), Some(c.swap.routeForwardGas), Some(c.swap.ptonTransferGas))
  }

  // ---------------------------------------------------------------- when each issue applies

  predicate Decodes(c: Candidate) {
    && c.samplePton.Root? && c.sampleSwap.Root?
    && ReadPton(c.samplePton.cell).Ok? && ReadSwap(c.sampleSwap.cell).Ok?
  }

  function Pton(c: Candidate): DecodedPton
    requires Decodes(c)
  {
    PtonView(ReadPton(c.samplePton.cell).value)
  }

  function Swap(c: Candidate): DecodedSwap
    requires Decodes(c)
  {
    SwapView(ReadSwap(c.sampleSwap.cell).value)
  }

  /** The rebuild is attempted only when all four addresses parsed. */
  predicate Rebuilds(c: Candidate) {
    c.At(PtonWallet).Some? && c.At(AskWallet).Some? && c.At(BuybackBurn).Some? && c.At(BuybackAthWallet).Some?
  }

  function Rebuilt(c: Candidate): Result<SenderArgs, RouteError>
    requires Rebuilds(c)
  {
    var notify :- CreateNotifyPayload(c.swap.queryId);
    BuildRouteTx(RebuildParams(c, c.At(PtonWallet).value, c.At(AskWallet).value, c.At(BuybackBurn).value,
                               c.At(BuybackAthWallet).value, notify))
  }

  // How far the sample section gets before it throws: comparing with a null address throws.
  predicate PastBuyback(c: Candidate) { Decodes(c) && c.At(BuybackBurn).Some? }
  predicate PastReceiver(c: Candidate) { PastBuyback(c) && c.At(BuybackAthWallet).Some? }
  predicate PastAsk(c: Candidate) { PastReceiver(c) && c.At(AskWallet).Some? }
  predicate PastNotify(c: Candidate) { PastAsk(c) && CreateNotifyPayload(c.swap.queryId).Ok? }
  predicate PastRebuild(c: Candidate) { PastNotify(c) && Rebuilds(c) && Rebuilt(c).Ok? }

  ghost predicate AddressApplies(c: Candidate, x: Issue) {
    match x
    case BadBuybackBurnAddress => c.addresses(BuybackBurn).Malformed?
    case BadPtonWalletAddress => c.addresses(PtonWallet).Malformed?
    case BadAskWalletAddress => c.addresses(AskWallet).Malformed?
    case BadSourceWalletAddress => c.addresses(SourceWallet).Malformed?
    case BadBuybackAthWalletAddress => c.addresses(BuybackAthWallet).Malformed?
    case MissingAddress(slot) => slot != Vault && c.addresses(slot).Absent?
    case BadAddress(slot) => c.addresses(slot).Malformed?
    case NotBasechain(slot) => c.addresses(slot).Parsed? && c.addresses(slot).address.workchain != 0
    case _ => false
  }

  ghost predicate MoneyApplies(c: Candidate, x: Issue) {
    match x
    case BadOfferAmount => c.swap.offer != OFFER_50_TON
    case BadTotalValueFormula => c.swap.totalValue != c.swap.offer + c.swap.routeForwardGas + c.swap.ptonTransferGas
    case BadConservativeTotalValue => c.swap.totalValue != TOTAL_SEND_VALUE
    case RouteForwardGasTooLow => c.swap.routeForwardGas < ROUTE_FORWARD_GAS
    case PtonTransferGasTooLow => c.swap.ptonTransferGas < PTON_GAS
    case MissingQuoteOut => c.swap.quoteOut <= 0
    case MissingBuybackMinOut => c.swap.buybackMin <= 0
    case DexMinOutBelowBuybackMin => c.swap.dexMinOut < c.swap.buybackMin
    case DexMinOutBelow95Percent => c.swap.quoteOut > 0 && c.swap.dexMinOut < FloorPercent(c.swap.quoteOut, 95, 100)
    case AskWalletNotSourceWallet =>
      c.At(AskWallet).Some? && c.At(SourceWallet).Some? && c.At(AskWallet) != c.At(SourceWallet)
    case BadConservativeProfile(why) => ProfileOf(c) == Err(why)
    case _ => false
  }

  ghost predicate SampleApplies(c: Candidate, x: Issue) {
    match x
    case ForwardPayloadMismatch => Decodes(c) && Pton(c).forwardPayload != Some(c.sampleSwap.cell)
    case BadPtonOpcode => Decodes(c) && Pton(c).op != PTON_OP_TON_TRANSFER
    case BadSwapOpcode => Decodes(c) && Swap(c).op != DEX_OP_SWAP
    case OfferAmountMismatch => Decodes(c) && Pton(c).tonAmount != c.swap.offer
    case PtonRefundNotBuyback => PastBuyback(c) && Some(Pton(c).refund) != c.At(BuybackBurn)
    case MinOutMismatch => PastBuyback(c) && Swap(c).minAskAmount != c.swap.dexMinOut
    case SwapRefundNotBuyback => PastBuyback(c) && Some(Swap(c).refund) != c.At(BuybackBurn)
    case SwapExcessesNotBuyback => PastBuyback(c) && Some(Swap(c).excesses) != c.At(BuybackBurn)
    case ReceiverNotBuybackWallet => PastReceiver(c) && Some(Swap(c).receiver) != c.At(BuybackAthWallet)
    case AskWalletMismatch => PastAsk(c) && Some(Swap(c).ask) != c.At(AskWallet)
    case NotifyForwardGasMismatch => PastAsk(c) && Swap(c).customGas != NOTIFY_FORWARD_GAS
    case NotifyPayloadMissing => PastAsk(c) && !Swap(c).hasCustomPayload
    case NotifyPayloadMismatch =>
      PastNotify(c) && Swap(c).customPayloadHash != Some(HashOf(CreateNotifyPayload(c.swap.queryId).value))
    case RebuiltValueMismatch => PastRebuild(c) && Rebuilt(c).value.value != c.swap.totalValue
    case RebuiltPtonBodyMismatch => PastRebuild(c) && Rebuilt(c).value.body != c.samplePton.cell
    case RebuiltSwapPayloadMismatch => PastRebuild(c) && Rebuilt(c).value.forwardPayload != c.sampleSwap.cell
    case SampleDecodeFailed => !PastNotify(c) || (Rebuilds(c) && Rebuilt(c).Err?)
    case _ => false // the pTON address is compared with itself, so that check never fires
  }

  ghost predicate Applies(c: Candidate, x: Issue) {
    match SectionOf(x)
    case Addresses => AddressApplies(c, x)
    case Hashes =>
      x.BadCodeHash? && !(x.hash == VaultCode && c.codeHashes(x.hash).None?) && !PlausibleHash(c.codeHashes(x.hash))
    case Money => MoneyApplies(c, x)
    case Samples => SampleApplies(c, x)
    case Closing => if x.MissingProof? then !c.proofs(x.proof) else c.status != FinalCandidate
  }

  // ---------------------------------------------------------------- the gate itself

  datatype Report = Report(
    freezeReady: bool, issues: seq<Issue>, decoded: Option<(DecodedPton, DecodedSwap)>,
    rebuilt: Option<RebuiltHashes>)

  ghost predicate Complete(c: Candidate, section: Section, found: seq<Issue>) {
    forall x :: x in found <==> SectionOf(x) == section && Applies(c, x)
  }

  lemma EverySlotListed()
    ensures forall s: AddressSlot :: s in SLOTS
    ensures forall h: HashSlot :: h in HASH_SLOTS
    ensures forall p: LiveProof :: p in PROOFS
  {
    forall s: AddressSlot ensures s in SLOTS {
      match s
      case AthMaster => assert SLOTS[0] == s;
      case BuybackBurn => assert SLOTS[1] == s;
      case BuybackAthWallet => assert SLOTS[2] == s;
      case Router => assert SLOTS[3] == s;
      case Pool => assert SLOTS[4] == s;
      case SourceOwner => assert SLOTS[5] == s;
      case SourceWallet => assert SLOTS[6] == s;
      case PtonWallet => assert SLOTS[7] == s;
      case Vault => assert SLOTS[8] == s;
      case AskWallet => assert SLOTS[9] == s;
    }
    forall h: HashSlot ensures h in HASH_SLOTS {
      match h
      case AthMasterCode => assert HASH_SLOTS[0] == h;
      case AthWalletCode => assert HASH_SLOTS[1] == h;
      case RouterCode => assert HASH_SLOTS[2] == h;
      case PoolCode => assert HASH_SLOTS[3] == h;
      case PtonCode => assert HASH_SLOTS[4] == h;
      case VaultCode => assert HASH_SLOTS[5] == h;
    }
    forall p: LiveProof ensures p in PROOFS {
      match p
      case TxParamsCaptured => assert PROOFS[0] == p;
      case QuoteCaptured => assert PROOFS[1] == p;
      case ExcessesObserved => assert PROOFS[2] == p;
      case MinOutRefundObserved => assert PROOFS[3] == p;
      case PtonRefundObserved => assert PROOFS[4] == p;
      case FailureDocumented => assert PROOFS[5] == p;
    }
  }

  method AddressIssues(c: Candidate) returns (issues: seq<Issue>)
    ensures Complete(c, Addresses, issues)
  {
    hide MoneyApplies, SampleApplies, PlausibleHash;
    issues := [];
    if c.addresses(BuybackBurn).Malformed? { issues := issues + [BadBuybackBurnAddress]; }
    if c.addresses(PtonWallet).Malformed? { issues := issues + [BadPtonWalletAddress]; }
    if c.addresses(AskWallet).Malformed? { issues := issues + [BadAskWalletAddress]; }
    if c.addresses(SourceWallet).Malformed? { issues := issues + [BadSourceWalletAddress]; }
    if c.addresses(BuybackAthWallet).Malformed? { issues := issues + [BadBuybackAthWalletAddress]; }
    var present := PresenceIssues(c);
    var basechain := BasechainIssues(c);
    issues := issues + present + basechain;
  }

  method PresenceIssues(c: Candidate) returns (issues: seq<Issue>)
    ensures forall x :: x in issues <==> (x.MissingAddress? || x.BadAddress?) && Applies(c, x)
  {
    issues := [];
    for i := 0 to |SLOTS|
      invariant forall x :: x in issues <==>
                  (x.MissingAddress? || x.BadAddress?) && Applies(c, x) && x.slot in SLOTS[..i]
    {
      var slot := SLOTS[i];
      assert SLOTS[..i + 1] == SLOTS[..i] + [slot];
      if c.addresses(slot).Absent? {
        if slot == Vault {
          continue;
        }
        issues := issues + [MissingAddress(slot)];
        continue;
      }
      if c.addresses(slot).Malformed? {
        issues := issues + [BadAddress(slot)];
      }
    }
    EverySlotListed();
    assert SLOTS[..|SLOTS|] == SLOTS;
  }

  /** The nine pinned addresses in their own order, then the optional vault. */
  method BasechainIssues(c: Candidate) returns (issues: seq<Issue>)
    ensures forall x :: x in issues <==> x.NotBasechain? && Applies(c, x)
  {
    issues := [];
    var pinned := SLOTS[..8] + [AskWallet];
    for i := 0 to |pinned|
      invariant forall x :: x in issues <==> x.NotBasechain? && Applies(c, x) && x.slot in pinned[..i]
    {
      assert pinned[..i + 1] == pinned[..i] + [pinned[i]];
      var like := c.addresses(pinned[i]);
      if like.Parsed? && like.address.workchain != 0 {
        issues := issues + [NotBasechain(pinned[i])];
      }
    }
    assert pinned[..|pinned|] == pinned;
    var vault := c.addresses(Vault);
    if vault.Parsed? && vault.address.workchain != 0 {
      issues := issues + [NotBasechain(Vault)];
    }
    EverySlotListed();
    assert SLOTS == SLOTS[..8] + [Vault] + [AskWallet];
    assert forall s: AddressSlot :: s in SLOTS ==> s in pinned || s == Vault;
  }

  method HashIssues(c: Candidate) returns (issues: seq<Issue>)
    ensures Complete(c, Hashes, issues)
  {
    issues := [];
    for i := 0 to |HASH_SLOTS|
      invariant forall x :: x in issues <==> x.BadCodeHash? && Applies(c, x) && x.hash in HASH_SLOTS[..i]
    {
      var h := HASH_SLOTS[i];
      assert HASH_SLOTS[..i + 1] == HASH_SLOTS[..i] + [h];
      if h == VaultCode && c.codeHashes(h).None? {
        continue;
      }
      if !PlausibleHash(c.codeHashes(h)) {
        issues := issues + [BadCodeHash(h)];
      }
    }
    EverySlotListed();
    assert HASH_SLOTS[..|HASH_SLOTS|] == HASH_SLOTS;
  }

  predicate AboutValue(x: Issue) {
    x.BadOfferAmount? || x.BadTotalValueFormula? || x.BadConservativeTotalValue? || x.RouteForwardGasTooLow?
    || x.PtonTransferGasTooLow?
  }

  method MoneyIssues(c: Candidate) returns (issues: seq<Issue>)
    ensures Complete(c, Money, issues)
  {
    var values := ValueIssues(c);
    var quotes := QuoteIssues(c);
    issues := values + quotes;
  }

  method ValueIssues(c: Candidate) returns (issues: seq<Issue>)
    ensures forall x :: x in issues <==> AboutValue(x) && Applies(c, x)
  {
    var a := c.swap;
    issues := [];
    if a.offer != OFFER_50_TON { issues := issues + [BadOfferAmount]; }
    if a.totalValue != a.offer + a.routeForwardGas + a.ptonTransferGas { issues := issues + [BadTotalValueFormula]; }
    if a.totalValue != TOTAL_SEND_VALUE { issues := issues + [BadConservativeTotalValue]; }
    if a.routeForwardGas < ROUTE_FORWARD_GAS { issues := issues + [RouteForwardGasTooLow]; }
    if a.ptonTransferGas < PTON_GAS { issues := issues + [PtonTransferGasTooLow]; }
  }

  predicate AboutMinimum(x: Issue) {
    x.MissingQuoteOut? || x.MissingBuybackMinOut? || x.DexMinOutBelowBuybackMin? || x.DexMinOutBelow95Percent?
  }

  method QuoteIssues(c: Candidate) returns (issues: seq<Issue>)
    ensures forall x :: x in issues <==> SectionOf(x) == Money && !AboutValue(x) && Applies(c, x)
  {
    hide FloorPercent, ConservativeProfile, PlausibleHash, SampleApplies, AddressApplies;
    issues := MinimumIssues(c);
    var ask, source := c.At(AskWallet), c.At(SourceWallet);
    if ask.Some? && source.Some? && ask != source { issues := issues + [AskWalletNotSourceWallet]; }
    var profile := ProfileOf(c);
    if profile.Err? { issues := issues + [BadConservativeProfile(profile.error)]; }
  }

  method MinimumIssues(c: Candidate) returns (issues: seq<Issue>)
    ensures forall x :: x in issues <==> AboutMinimum(x) && Applies(c, x)
  {
    hide FloorPercent, ConservativeProfile, PlausibleHash, SampleApplies, AddressApplies;
    var a := c.swap;
    issues := [];
    if a.quoteOut <= 0 { issues := issues + [MissingQuoteOut]; }
    if a.buybackMin <= 0 { issues := issues + [MissingBuybackMinOut]; }
    if a.dexMinOut < a.buybackMin { issues := issues + [DexMinOutBelowBuybackMin]; }
    if a.quoteOut > 0 && a.dexMinOut < FloorPercent(a.quoteOut, 95, 100) {
      issues := issues + [DexMinOutBelow95Percent];
    }
  }

  // The checks inside the `try`, in the groups between which it can throw.

  predicate AboutEnvelope(x: Issue) {
    x.ForwardPayloadMismatch? || x.BadPtonOpcode? || x.BadSwapOpcode? || x.OfferAmountMismatch?
  }

  predicate AboutBuyback(x: Issue) {
    x.PtonRefundNotBuyback? || x.MinOutMismatch? || x.SwapRefundNotBuyback? || x.SwapExcessesNotBuyback?
  }

  predicate AboutWallets(x: Issue) {
    x.ReceiverNotBuybackWallet? || x.AskWalletMismatch? || x.NotifyForwardGasMismatch? || x.NotifyPayloadMissing?
  }

  predicate AboutRebuild(x: Issue) {
    x.RebuiltValueMismatch? || x.RebuiltPtonBodyMismatch? || x.RebuiltSwapPayloadMismatch?
  }

  method EnvelopeIssues(c: Candidate, pton: DecodedPton, swap: DecodedSwap) returns (issues: seq<Issue>)
    requires Decodes(c) && pton == Pton(c) && swap == Swap(c)
    ensures forall x :: x in issues <==> AboutEnvelope(x) && SampleApplies(c, x)
  {
    hide ReadPton, ReadSwap, Rebuilt, CreateNotifyPayload, PtonView, SwapView;
    issues := [];
    if pton.forwardPayload != Some(c.sampleSwap.cell) { issues := issues + [ForwardPayloadMismatch]; }
    if pton.op != PTON_OP_TON_TRANSFER { issues := issues + [BadPtonOpcode]; }
    if swap.op != DEX_OP_SWAP { issues := issues + [BadSwapOpcode]; }
    if pton.tonAmount != c.swap.offer { issues := issues + [OfferAmountMismatch]; }
  }

  method BuybackIssues(c: Candidate, pton: DecodedPton, swap: DecodedSwap, buyback: StdAddress)
    returns (issues: seq<Issue>)
    requires Decodes(c) && pton == Pton(c) && swap == Swap(c) && c.At(BuybackBurn) == Some(buyback)
    ensures forall x :: x in issues <==> AboutBuyback(x) && SampleApplies(c, x)
  {
    hide ReadPton, ReadSwap, Rebuilt, CreateNotifyPayload, PtonView, SwapView;
    issues := [];
    if pton.refund != buyback { issues := issues + [PtonRefundNotBuyback]; }
    if swap.minAskAmount != c.swap.dexMinOut { issues := issues + [MinOutMismatch]; }
    if swap.refund != buyback { issues := issues + [SwapRefundNotBuyback]; }
    if swap.excesses != buyback { issues := issues + [SwapExcessesNotBuyback]; }
  }

  /** `throws` when an address to compare with is null. */
  method WalletIssues(c: Candidate, swap: DecodedSwap) returns (issues: seq<Issue>, throws: bool)
    requires PastBuyback(c) && swap == Swap(c)
    ensures forall x :: x in issues <==> AboutWallets(x) && SampleApplies(c, x)
    ensures throws <==> !PastAsk(c)
  {
    hide ReadPton, ReadSwap, Rebuilt, CreateNotifyPayload, PtonView, SwapView;
    issues := [];
    throws := true;
    var receiver := c.At(BuybackAthWallet);
    if receiver.None? { return; }
    if swap.receiver != receiver.value { issues := issues + [ReceiverNotBuybackWallet]; }
    var ask := c.At(AskWallet);
    if ask.None? { return; }
    if swap.ask != ask.value { issues := issues + [AskWalletMismatch]; }
    if swap.customGas != NOTIFY_FORWARD_GAS { issues := issues + [NotifyForwardGasMismatch]; }
    if !swap.hasCustomPayload { issues := issues + [NotifyPayloadMissing]; }
    throws := false;
  }

  /** `throws` when the query id does not fit its field. */
  method NotifyIssues(c: Candidate, swap: DecodedSwap) returns (issues: seq<Issue>, throws: bool)
    requires PastAsk(c) && swap == Swap(c)
    ensures forall x :: x in issues <==> x.NotifyPayloadMismatch? && SampleApplies(c, x)
    ensures throws <==> !PastNotify(c)
  {
    hide ReadPton, ReadSwap, Rebuilt, CreateNotifyPayload, PtonView, SwapView;
    issues := [];
    var notify := CreateNotifyPayload(c.swap.queryId);
    throws := notify.Err?;
    if notify.Ok? && swap.customPayloadHash != Some(HashOf(notify.value)) { issues := [NotifyPayloadMismatch]; }
  }

  /** The rebuilt and the sample hashes, in the order the report lists them. */
  type RebuiltHashes = (Hash, Hash, Hash, Hash)

  /** What the report says of the rebuild: the two rebuilt cells beside the two samples, once it was reached. */
  ghost function RebuiltReport(c: Candidate): Option<RebuiltHashes> {
    if PastRebuild(c) then
      Some((HashOf(Rebuilt(c).value.body), HashOf(c.samplePton.cell),
            HashOf(Rebuilt(c).value.forwardPayload), HashOf(c.sampleSwap.cell)))
    else None
  }

  method RebuildIssues(c: Candidate) returns (issues: seq<Issue>, rebuilt: Option<RebuiltHashes>, throws: bool)
    requires PastNotify(c)
    ensures forall x :: x in issues <==> AboutRebuild(x) && SampleApplies(c, x)
    ensures throws <==> Rebuilds(c) && Rebuilt(c).Err?
    ensures rebuilt == RebuiltReport(c)
  {
    hide ReadPton, ReadSwap, Rebuilt, CreateNotifyPayload, PtonView, SwapView;
    issues, rebuilt, throws := [], None, false;
    if !Rebuilds(c) { return; }
    var tx := Rebuilt(c);
    if tx.Err? {
      throws := true;
      return;
    }
    if tx.value.value != c.swap.totalValue { issues := issues + [RebuiltValueMismatch]; }
    rebuilt := Some((HashOf(tx.value.body), HashOf(c.samplePton.cell),
                     HashOf(tx.value.forwardPayload), HashOf(c.sampleSwap.cell)));
    if HashOf(tx.value.body) != HashOf(c.samplePton.cell) { issues := issues + [RebuiltPtonBodyMismatch]; }
    if HashOf(tx.value.forwardPayload) != HashOf(c.sampleSwap.cell) { issues := issues + [RebuiltSwapPayloadMismatch]; }
  }

  method ClosingIssues(c: Candidate) returns (issues: seq<Issue>)
    ensures Complete(c, Closing, issues)
  {
    issues := [];
    for i := 0 to |PROOFS|
      invariant forall x :: x in issues <==> x.MissingProof? && Applies(c, x) && x.proof in PROOFS[..i]
    {
      assert PROOFS[..i + 1] == PROOFS[..i] + [PROOFS[i]];
      if !c.proofs(PROOFS[i]) {
        issues := issues + [MissingProof(PROOFS[i])];
      }
    }
    EverySlotListed();
    assert PROOFS[..|PROOFS|] == PROOFS;
    if c.status != FinalCandidate {
      issues := issues + [StatusNotFinal];
    }
  }

  datatype SampleOutcome = SampleOutcome(
    issues: seq<Issue>, decoded: Option<(DecodedPton, DecodedSwap)>, rebuilt: Option<RebuiltHashes>)

  /** What the sample section has found so far: the groups it got through, and whether it threw. */
  ghost predicate FoundSoFar(c: Candidate, found: seq<Issue>, threw: bool) {
    forall x :: x in found <==>
      ((AboutEnvelope(x) || AboutBuyback(x) || AboutWallets(x) || x.NotifyPayloadMismatch? || AboutRebuild(x)) &&
       SampleApplies(c, x))
      || (threw && x == SampleDecodeFailed)
  }

  lemma FoundIsComplete(c: Candidate, found: seq<Issue>, threw: bool)
    requires FoundSoFar(c, found, threw) && (threw <==> SampleApplies(c, SampleDecodeFailed))
    ensures Complete(c, Samples, found)
  {
    hide ReadPton, ReadSwap, Rebuilt, CreateNotifyPayload, PtonView, SwapView;
    forall x
      ensures x in found <==> SectionOf(x) == Samples && Applies(c, x)
    {
    }
  }

  /** The groups the section has not reached when it throws do not apply. */
  lemma NotReached(c: Candidate, x: Issue)
    ensures !Decodes(c) && AboutEnvelope(x) ==> !SampleApplies(c, x)
    ensures !PastBuyback(c) && AboutBuyback(x) ==> !SampleApplies(c, x)
    ensures !PastBuyback(c) && AboutWallets(x) ==> !SampleApplies(c, x)
    ensures !PastAsk(c) && x.NotifyPayloadMismatch? ==> !SampleApplies(c, x)
    ensures !PastNotify(c) && AboutRebuild(x) ==> !SampleApplies(c, x)
    ensures SampleApplies(c, SampleDecodeFailed) <==> !PastNotify(c) || (Rebuilds(c) && Rebuilt(c).Err?)
  {
    hide ReadPton, ReadSwap, Rebuilt, CreateNotifyPayload, PtonView, SwapView;
  }

  /** The section inside the `try`: whatever throws, the issues found so far stay. */
  method SampleIssues(c: Candidate) returns (o: SampleOutcome)
    ensures Complete(c, Samples, o.issues)
    ensures o.decoded == (if Decodes(c) then Some((Pton(c), Swap(c))) else None)
    ensures o.rebuilt == RebuiltReport(c)
  {
    hide ReadPton, ReadSwap, CreateNotifyPayload, BuildRouteTx, Rebuilt, PtonView, SwapView, SampleApplies, Complete;
    forall x {
      NotReached(c, x);
    }
    o := SampleOutcome([SampleDecodeFailed], None, None);
    var threw := true;
    if c.samplePton.Root? && c.sampleSwap.Root? {
      var pton := DecodePtonBody(c.samplePton.cell);
      var swap := DecodeSwapBody(c.sampleSwap.cell);
      if pton.Ok? && swap.Ok? {
        o, threw := DecodedIssues(c, pton.value, swap.value);
      }
    }
    FoundIsComplete(c, o.issues, threw);
  }

  method DecodedIssues(c: Candidate, pton: DecodedPton, swap: DecodedSwap) returns (o: SampleOutcome, threw: bool)
    requires Decodes(c) && pton == Pton(c) && swap == Swap(c)
    ensures FoundSoFar(c, o.issues, threw) && (threw <==> SampleApplies(c, SampleDecodeFailed))
    ensures o.decoded == Some((pton, swap)) && o.rebuilt == RebuiltReport(c)
  {
    hide ReadPton, ReadSwap, CreateNotifyPayload, BuildRouteTx, Rebuilt, PtonView, SwapView, SampleApplies;
    forall x {
      NotReached(c, x);
    }
    threw := true;
    var rebuilt: Option<RebuiltHashes> := None;
    var issues := EnvelopeIssues(c, pton, swap);
    var buyback := c.At(BuybackBurn);
    if buyback.Some? {
      var own := BuybackIssues(c, pton, swap, buyback.value);
      var wallets, nullAddress := WalletIssues(c, swap);
      issues := issues + own + wallets;
      if !nullAddress {
        var notify, badQueryId := NotifyIssues(c, swap);
        issues := issues + notify;
        if !badQueryId {
          var rebuild;
          rebuild, rebuilt, threw := RebuildIssues(c);
          issues := issues + rebuild;
        }
      }
    }
    o := SampleOutcome(if threw then issues + [SampleDecodeFailed] else issues, Some((pton, swap)), rebuilt);
  }

  /**
   The gate.  It reports exactly the issues that apply, and is ready exactly for the candidates of
   `Acceptable`, a description that mentions neither the decoders nor the order of the checks.
   */
  method ValidateRouteFreeze(c: Candidate) returns (report: Report)
    ensures forall x :: x in report.issues <==> Applies(c, x)
    ensures report.freezeReady <==> report.issues == []
    ensures report.freezeReady <==> Acceptable(c)
    ensures report.decoded == (if Decodes(c) then Some((Pton(c), Swap(c))) else None)
    ensures report.rebuilt == RebuiltReport(c)
  {
    hide Applies, Decodes, Acceptable, RebuiltReport;
    var addresses := AddressIssues(c);
    var hashes := HashIssues(c);
    var money := MoneyIssues(c);
    var sample := SampleIssues(c);
    var closing := ClosingIssues(c);
    var issues := addresses + hashes + money + sample.issues + closing;
    report := Report(|issues| == 0, issues, sample.decoded, sample.rebuilt);
    AcceptableMeansNoIssue(c);
    assert issues == [] <==> forall x :: !Applies(c, x) by {
      if issues != [] {
        assert issues[0] in issues;
      }
    }
  }

  // ---------------------------------------------------------------- what acceptance means

  ghost predicate Basechain(c: Candidate, slot: AddressSlot) {
    c.At(slot).Some? && c.At(slot).value.workchain == 0
  }

  ghost predicate GoodAddresses(c: Candidate) {
    && (forall slot: AddressSlot | slot != Vault :: Basechain(c, slot))
    && (c.addresses(Vault).Absent? || Basechain(c, Vault))
    && c.At(AskWallet) == c.At(SourceWallet)
  }

  const DIGITS := "0123456789abcdef"
  const CAPITALS := "0123456789ABCDEF"

  /** The digit `c` stands for `v`, in either case. */
  predicate StandsFor(c: char, v: nat) {
    v < 16 && (c == DIGITS[v] || c == CAPITALS[v])
  }

  /** `text` prints the bytes, two digits each. */
  ghost predicate Spells(text: string, bytes: seq<nat>) {
    |text| == 2 * |bytes| &&
    forall i | 0 <= i < |bytes| ::
      bytes[i] < 256 && StandsFor(text[2 * i], bytes[i] / 16) && StandsFor(text[2 * i + 1], bytes[i] % 16)
  }

  /** A code hash is given: 32 bytes in hex. */
  ghost predicate IsHash(h: Option<string>) {
    h.Some? && exists bytes: seq<nat> :: |bytes| == 32 && Spells(h.value, bytes)
  }

  function DigitValue(c: char): (v: nat)
    requires IsHexDigit(c)
    ensures v < 16 && StandsFor(c, v)
  {
    (c - (if '0' <= c <= '9' then '0' else if 'a' <= c <= 'f' then 'a' else 'A')) as nat
    + (if '0' <= c <= '9' then 0 else 10)
  }

  ghost predicate GoodHashes(c: Candidate) {
    && (forall h: HashSlot | h != VaultCode :: IsHash(c.codeHashes(h)))
    && (c.codeHashes(VaultCode).None? || IsHash(c.codeHashes(VaultCode)))
  }

  /** The amounts: the profile pins every TON figure, and the minimum output is bounded from below. */
  ghost predicate GoodMoney(a: Amounts) {
    && a.offer == 50_000_000_000
    && a.routeForwardGas == 1_000_000_000
    && a.ptonTransferGas == 50_000_000
    && a.totalValue == 51_050_000_000
    && a.quoteOut > 0
    && 0 < a.buybackMin <= a.dexMinOut
    && 95 * a.quoteOut < 100 * (a.dexMinOut + 1)
  }

  /** BYNF(query_id). */
  function NotifyCell(queryId: nat): Cell {
    Cell(UintBits(0x42594E46, 32) + UintBits(queryId, 64), [])
  }

  /** The one swap cell the gate lets through, field by field. */
  function PinnedSwap(a: Amounts, ask: StdAddress, buyback: StdAddress, receiver: StdAddress): SwapFields
    requires a.dexMinOut >= 0 && a.queryId >= 0 && a.deadline >= 0
  {
    SwapFields(0x6664de2a, ask, buyback, buyback, a.deadline,
               DetailFields(MinimalCoins(a.dexMinOut), receiver, MinimalCoins(40_000_000), Some(NotifyCell(a.queryId)),
                            MinimalCoins(0), None, 10, NoAddress))
  }

  /** The one pTON cell the gate lets through, around that swap cell. */
  function PinnedPton(a: Amounts, buyback: StdAddress, swap: Cell): PtonFields
    requires a.queryId >= 0
  {
    PtonFields(0x01f3835d, a.queryId, MinimalCoins(50_000_000_000), buyback, Some(swap))
  }

  /** The samples are the two pinned cells, bit for bit, and the numbers fit the fields they are printed in. */
  ghost predicate GoodSamples(c: Candidate)
    requires Rebuilds(c)
  {
    var a := c.swap;
    && FitsUint64(a.queryId) && FitsUint64(a.deadline) && FitsCoins(a.dexMinOut)
    && var swap := PrintSwap(PinnedSwap(a, c.At(AskWallet).value, c.At(BuybackBurn).value,
                                        c.At(BuybackAthWallet).value));
    && c.sampleSwap == Root(swap)
    && c.samplePton == Root(PrintPton(PinnedPton(a, c.At(BuybackBurn).value, swap)))
  }

  /** What the gate accepts. */
  ghost predicate Acceptable(c: Candidate) {
    && GoodAddresses(c) && GoodHashes(c) && GoodMoney(c.swap)
    && (forall p: LiveProof :: c.proofs(p)) && c.status == FinalCandidate
    && Rebuilds(c) && GoodSamples(c)
  }

  // ---------------------------------------------------------------- section by section

  ghost predicate Silent(c: Candidate, section: Section) {
    forall x :: SectionOf(x) == section ==> !Applies(c, x)
  }

  ghost predicate PinnedAddresses(c: Candidate) {
    && (forall slot: AddressSlot | slot != Vault :: Basechain(c, slot))
    && (c.addresses(Vault).Absent? || Basechain(c, Vault))
  }

  lemma AddressesSilent(c: Candidate)
    ensures Silent(c, Addresses) <==> PinnedAddresses(c)
  {
    if Silent(c, Addresses) {
      forall slot: AddressSlot
        ensures slot != Vault || !c.addresses(slot).Absent? ==> Basechain(c, slot)
      {
        assert !Applies(c, MissingAddress(slot));
        assert !Applies(c, BadAddress(slot));
        assert !Applies(c, NotBasechain(slot));
      }
    }
    if PinnedAddresses(c) {
      assert Basechain(c, BuybackBurn) && Basechain(c, PtonWallet) && Basechain(c, AskWallet);
      assert Basechain(c, SourceWallet) && Basechain(c, BuybackAthWallet);
      forall x | SectionOf(x) == Addresses
        ensures !Applies(c, x)
      {
        if x.MissingAddress? || x.BadAddress? || x.NotBasechain? {
          assert x.slot != Vault ==> Basechain(c, x.slot);
        }
      }
    }
  }

  lemma DigitIsHex(c: char, v: nat)
    requires StandsFor(c, v)
    ensures IsHexDigit(c)
  {
  }

  /** Two digits print one byte. */
  lemma ByteOfDigits(a: nat, b: nat)
    requires a < 16 && b < 16
    ensures (16 * a + b) / 16 == a && (16 * a + b) % 16 == b && 16 * a + b < 256
  {
  }

  lemma HexSpells(text: string)
    requires |text| == 64 && forall i | 0 <= i < 64 :: IsHexDigit(text[i])
    ensures exists bytes: seq<nat> :: |bytes| == 32 && Spells(text, bytes)
  {
    hide StandsFor, IsHexDigit, DigitValue;
    var value := (i: nat) requires i < 64 => DigitValue(text[i]);
    var bytes: seq<nat> := seq(32, i requires 0 <= i < 32 => 16 * value(2 * i) + value(2 * i + 1));
    forall i | 0 <= i < 32
      ensures bytes[i] < 256 && StandsFor(text[2 * i], bytes[i] / 16) && StandsFor(text[2 * i + 1], bytes[i] % 16)
    {
      ByteOfDigits(DigitValue(text[2 * i]), DigitValue(text[2 * i + 1]));
    }
    assert Spells(text, bytes);
  }

  lemma SpelledIsHex(text: string, bytes: seq<nat>)
    requires |bytes| == 32 && Spells(text, bytes)
    ensures |text| == 64 && forall i | 0 <= i < 64 :: IsHexDigit(text[i])
  {
    hide StandsFor, IsHexDigit;
    forall i | 0 <= i < 64
      ensures IsHexDigit(text[i])
    {
      var byte := bytes[i / 2];
      if i % 2 == 0 {
        assert StandsFor(text[2 * (i / 2)], byte / 16);
        DigitIsHex(text[i], byte / 16);
      } else {
        assert StandsFor(text[2 * (i / 2) + 1], byte % 16);
        DigitIsHex(text[i], byte % 16);
      }
    }
  }

  /** The gate's test of a hash lets through exactly what spells 32 bytes. */
  lemma PlausibleIsHash(h: Option<string>)
    ensures PlausibleHash(h) <==> IsHash(h)
  {
    hide IsHexDigit, Spells;
    if PlausibleHash(h) {
      HexSpells(h.value);
    }
    if IsHash(h) {
      var bytes: seq<nat> :| |bytes| == 32 && Spells(h.value, bytes);
      SpelledIsHex(h.value, bytes);
    }
  }

  lemma HashesSilent(c: Candidate)
    ensures Silent(c, Hashes) <==> GoodHashes(c)
  {
    hide PlausibleHash, IsHash;
    forall h: HashSlot
      ensures PlausibleHash(c.codeHashes(h)) <==> IsHash(c.codeHashes(h))
    {
      PlausibleIsHash(c.codeHashes(h));
    }
    if Silent(c, Hashes) {
      forall h: HashSlot
        ensures h != VaultCode || c.codeHashes(h).Some? ==> IsHash(c.codeHashes(h))
      {
        assert !Applies(c, BadCodeHash(h));
      }
    }
  }

  lemma ClosingSilent(c: Candidate)
    ensures Silent(c, Closing) <==> (forall p: LiveProof :: c.proofs(p)) && c.status == FinalCandidate
  {
    if Silent(c, Closing) {
      assert !Applies(c, StatusNotFinal);
      forall p: LiveProof
        ensures c.proofs(p)
      {
        assert !Applies(c, MissingProof(p));
      }
    }
  }

  /** For every quote: at least floor(95%) of it means strictly more than 95% of it less one unit. */
  lemma FloorBound(quoteOut: int, dexMinOut: int)
    requires quoteOut > 0
    ensures dexMinOut >= FloorPercent(quoteOut, 95, 100) <==> 95 * quoteOut < 100 * (dexMinOut + 1)
  {
  }

  lemma MoneySilent(c: Candidate)
    requires PinnedAddresses(c)
    ensures Silent(c, Money) <==> GoodMoney(c.swap) && c.At(AskWallet) == c.At(SourceWallet)
  {
    hide Silent, GoodMoney;
    if Silent(c, Money) {
      SilentMoneyPins(c);
    } else if GoodMoney(c.swap) && c.At(AskWallet) == c.At(SourceWallet) {
      PinnedMoneySilent(c);
    }
  }

  /** Lower bounds and a fixed total leave one value for each gas figure. */
  lemma SilentMoneyPins(c: Candidate)
    requires PinnedAddresses(c) && Silent(c, Money)
    ensures GoodMoney(c.swap) && c.At(AskWallet) == c.At(SourceWallet)
  {
    assert Basechain(c, AskWallet) && Basechain(c, SourceWallet);
    hide FloorPercent, MoneyApplies, Applies, Silent;
    forall x | SectionOf(x) == Money
      ensures !MoneyApplies(c, x)
    {
      QuietMoney(c, x);
    }
    MoneyReads(c);
    FloorBound(c.swap.quoteOut, c.swap.dexMinOut);
  }

  lemma QuietMoney(c: Candidate, x: Issue)
    requires Silent(c, Money) && SectionOf(x) == Money
    ensures !MoneyApplies(c, x)
  {
    hide MoneyApplies;
  }

  lemma MoneyReads(c: Candidate)
    requires forall x :: SectionOf(x) == Money ==> !MoneyApplies(c, x)
    ensures var a := c.swap;
            a.offer == OFFER_50_TON &&
            a.totalValue == a.offer + a.routeForwardGas + a.ptonTransferGas == TOTAL_SEND_VALUE &&
            a.routeForwardGas >= ROUTE_FORWARD_GAS && a.ptonTransferGas >= PTON_GAS && a.quoteOut > 0 &&
            a.buybackMin > 0 &&
            a.dexMinOut >= a.buybackMin && a.dexMinOut >= FloorPercent(a.quoteOut, 95, 100) &&
            (c.At(AskWallet).Some? && c.At(SourceWallet).Some? ==> c.At(AskWallet) == c.At(SourceWallet))
  {
    hide FloorPercent, ProfileOf;
    assert !MoneyApplies(c, BadOfferAmount) && !MoneyApplies(c, BadTotalValueFormula);
    assert !MoneyApplies(c, BadConservativeTotalValue);
    assert !MoneyApplies(c, RouteForwardGasTooLow) && !MoneyApplies(c, PtonTransferGasTooLow);
    assert !MoneyApplies(c, MissingQuoteOut) && !MoneyApplies(c, MissingBuybackMinOut);
    assert !MoneyApplies(c, DexMinOutBelowBuybackMin) && !MoneyApplies(c, DexMinOutBelow95Percent);
    assert !MoneyApplies(c, AskWalletNotSourceWallet);
  }

  lemma PinnedMoneySilent(c: Candidate)
    requires PinnedAddresses(c) && GoodMoney(c.swap) && c.At(AskWallet) == c.At(SourceWallet)
    ensures Silent(c, Money)
  {
    hide FloorPercent;
    assert Basechain(c, BuybackBurn);
    FloorBound(c.swap.quoteOut, c.swap.dexMinOut);
  }

  lemma NotifyPrinted(queryId: int)
    ensures CreateNotifyPayload(queryId).Ok? <==> FitsUint64(queryId)
    ensures FitsUint64(queryId) ==> CreateNotifyPayload(queryId) == Ok(NotifyCell(queryId))
  {
    hide Builder.StoreUint, UintBits, Pow2;
    OpcodesFit();
    UintStored(BEGIN_CELL, ROUTE_NOTIFY_PAYLOAD_DOMAIN, 32);
    var x := UintBits(ROUTE_NOTIFY_PAYLOAD_DOMAIN, 32);
    assert [] + x == x;
    UintStored(Builder(x, []), queryId, 64);
  }

  lemma FixedCoinsFit()
    ensures FitsCoins(50_000_000_000) && FitsCoins(40_000_000) && FitsCoins(0)
  {
    hide Pow2;
    assert ByteLen(50_000_000_000) == 5 && ByteLen(40_000_000) == 4;
    CoinsFieldFits(50_000_000_000);
    CoinsFieldFits(40_000_000);
    CoinsFieldFits(0);
  }

  /** What the rebuild inside the gate produces: the two pinned cells, whenever they are printable. */
  lemma RebuildPinned(c: Candidate)
    requires Rebuilds(c) && c.swap.offer == 50_000_000_000
    ensures Rebuilt(c).Ok? <==> FitsUint64(c.swap.queryId) && FitsUint64(c.swap.deadline) && FitsCoins(c.swap.dexMinOut)
    ensures Rebuilt(c).Ok? ==>
              var ask, buyback := c.At(AskWallet).value, c.At(BuybackBurn).value;
              var receiver := c.At(BuybackAthWallet).value;
              var tx := Rebuilt(c).value;
              && tx.forwardPayload == PrintSwap(PinnedSwap(c.swap, ask, buyback, receiver))
              && tx.body == PrintPton(PinnedPton(c.swap, buyback, tx.forwardPayload))
              && tx.value == c.swap.offer + c.swap.routeForwardGas + c.swap.ptonTransferGas
  {
    hide BuildRouteTx, CreateNotifyPayload, ReadPton, ReadSwap, PrintSwap, PrintPton, Pow2, ByteLen, UintBits,
      NotifyCell;
    NotifyPrinted(c.swap.queryId);
    FixedCoinsFit();
    if FitsUint64(c.swap.queryId) {
      var notify := NotifyCell(c.swap.queryId);
      var p := RebuildParams(c, c.At(PtonWallet).value, c.At(AskWallet).value, c.At(BuybackBurn).value,
                             c.At(BuybackAthWallet).value, notify);
      NestedTransfer(p);
      if BuildRouteTx(p).Ok? {
        var tx := BuildRouteTx(p).value;
        ParsedPtonPrints(tx.body);
        ParsedSwapPrints(tx.forwardPayload);
      }
    }
  }

  /** The pinned cells decode to what the field checks of the gate compare with. */
  lemma PinnedDecode(a: Amounts, ask: StdAddress, buyback: StdAddress, receiver: StdAddress)
    requires FitsUint64(a.queryId) && FitsUint64(a.deadline) && FitsCoins(a.dexMinOut)
    ensures var swap := PrintSwap(PinnedSwap(a, ask, buyback, receiver));
            && ReadSwap(swap) == Ok(PinnedSwap(a, ask, buyback, receiver))
            && ReadPton(PrintPton(PinnedPton(a, buyback, swap))) == Ok(PinnedPton(a, buyback, swap))
  {
    hide ReadPton, ReadSwap, PrintSwap, PrintPton, PinnedSwap, PinnedPton;
    PinnedSwapParses(a, ask, buyback, receiver);
    PinnedPtonParses(a, buyback, PrintSwap(PinnedSwap(a, ask, buyback, receiver)));
  }

  lemma PinnedSwapParses(a: Amounts, ask: StdAddress, buyback: StdAddress, receiver: StdAddress)
    requires FitsUint64(a.queryId) && FitsUint64(a.deadline) && FitsCoins(a.dexMinOut)
    ensures ReadSwap(PrintSwap(PinnedSwap(a, ask, buyback, receiver))) == Ok(PinnedSwap(a, ask, buyback, receiver))
  {
    hide ReadPton, ReadSwap, PrintSwap, PrintPton, Pow2;
    FixedCoinsFit();
    OpcodesFit();
    Pow2Small();
    CoinsFieldFits(a.dexMinOut);
    CoinsFieldFits(40_000_000);
    CoinsFieldFits(0);
    PrintedSwapParses(PinnedSwap(a, ask, buyback, receiver));
  }

  lemma PinnedPtonParses(a: Amounts, buyback: StdAddress, swap: Cell)
    requires FitsUint64(a.queryId) && FitsUint64(a.deadline) && FitsCoins(a.dexMinOut)
    ensures ReadPton(PrintPton(PinnedPton(a, buyback, swap))) == Ok(PinnedPton(a, buyback, swap))
  {
    hide ReadPton, ReadSwap, PrintSwap, PrintPton, Pow2;
    FixedCoinsFit();
    OpcodesFit();
    CoinsFieldFits(50_000_000_000);
    PrintedPtonParses(PinnedPton(a, buyback, swap));
  }

  lemma SilentSamplesRebuilt(c: Candidate)
    requires Rebuilds(c) && Silent(c, Samples)
    ensures Rebuilt(c).Ok? && c.samplePton == Root(Rebuilt(c).value.body) &&
            c.sampleSwap == Root(Rebuilt(c).value.forwardPayload)
  {
    hide Rebuilt, ReadPton, ReadSwap, CreateNotifyPayload, PtonView, SwapView;
    assert !Applies(c, SampleDecodeFailed);
    assert !Applies(c, RebuiltPtonBodyMismatch);
    assert !Applies(c, RebuiltSwapPayloadMismatch);
  }

  lemma SilentSamplesPin(c: Candidate)
    requires Rebuilds(c) && c.swap.offer == 50_000_000_000 && Silent(c, Samples)
    ensures GoodSamples(c)
  {
    hide Rebuilt, PrintSwap, PrintPton, Silent;
    SilentSamplesRebuilt(c);
    RebuildPinned(c);
  }

  lemma PinnedSamplesSilent(c: Candidate)
    requires Rebuilds(c) && GoodMoney(c.swap) && GoodSamples(c)
    ensures Silent(c, Samples)
  {
    hide Rebuilt, ReadPton, ReadSwap, PrintSwap, PrintPton, CreateNotifyPayload, Pow2, MinimalCoins;
    hide FitsCoins, FitsUint64;
    RebuildPinned(c);
    NotifyPrinted(c.swap.queryId);
    PinnedDecode(c.swap, c.At(AskWallet).value, c.At(BuybackBurn).value, c.At(BuybackAthWallet).value);
    MinimalAmounts(c.swap);
    forall x | SectionOf(x) == Samples ensures !Applies(c, x) {
    }
  }

  lemma MinimalAmounts(a: Amounts)
    requires a.dexMinOut >= 0
    ensures MinimalCoins(a.dexMinOut).amount == a.dexMinOut
    ensures MinimalCoins(50_000_000_000).amount == 50_000_000_000 && MinimalCoins(40_000_000).amount == 40_000_000
  {
  }

  lemma AcceptableMeansNoIssue(c: Candidate)
    ensures Acceptable(c) <==> forall x :: !Applies(c, x)
  {
    hide Applies, GoodHashes, GoodSamples, GoodMoney;
    AddressesSilent(c);
    HashesSilent(c);
    ClosingSilent(c);
    assert (forall x :: !Applies(c, x)) <==>
           Silent(c, Addresses) && Silent(c, Hashes) && Silent(c, Money) && Silent(c, Samples) && Silent(c, Closing);
    if PinnedAddresses(c) {
      assert Basechain(c, PtonWallet) && Basechain(c, AskWallet) && Basechain(c, BuybackBurn) &&
             Basechain(c, BuybackAthWallet);
      MoneySilent(c);
      if GoodMoney(c.swap) {
        MoneyOffer(c.swap);
        if Silent(c, Samples) {
          SilentSamplesPin(c);
        } else if GoodSamples(c) {
          PinnedSamplesSilent(c);
        }
      }
    }
  }

  lemma MoneyOffer(a: Amounts)
    requires GoodMoney(a)
    ensures a.offer == 50_000_000_000
  {
  }

  /**
   Freeze soundness and completeness on the samples alone: with everything else in order, the gate
   is silent about the samples exactly when they are the two rebuilt cells.
   */
  lemma SamplesPinned(c: Candidate)
    requires Rebuilds(c) && GoodMoney(c.swap)
    ensures Silent(c, Samples) <==> GoodSamples(c)
  {
    hide Applies, GoodSamples, GoodMoney;
    MoneyOffer(c.swap);
    if Silent(c, Samples) {
      SilentSamplesPin(c);
    } else if GoodSamples(c) {
      PinnedSamplesSilent(c);
    }
  }

  /**
   Freeze completeness.  Whenever the builder can produce the transfer at all, a candidate in order
   whose samples come from it is accepted.
   */
  lemma BuiltSamplesAccepted(c: Candidate)
    requires GoodAddresses(c) && GoodHashes(c) && GoodMoney(c.swap)
    requires (forall p: LiveProof :: c.proofs(p)) && c.status == FinalCandidate
    requires Rebuilds(c) && Rebuilt(c).Ok?
    requires c.samplePton == Root(Rebuilt(c).value.body) && c.sampleSwap == Root(Rebuilt(c).value.forwardPayload)
    ensures Acceptable(c)
  {
    hide Rebuilt, ReadPton, ReadSwap, PrintSwap, PrintPton;
    MoneyOffer(c.swap);
    RebuildPinned(c);
  }

  /** Candidates that agree on addresses, amounts and samples have the same issues about them. */
  lemma SameSamples(c: Candidate, d: Candidate, x: Issue)
    requires d.addresses == c.addresses && d.swap == c.swap && d.samplePton == c.samplePton &&
             d.sampleSwap == c.sampleSwap
    requires SectionOf(x) == Addresses || SectionOf(x) == Money || SectionOf(x) == Samples
    ensures Applies(d, x) <==> Applies(c, x)
  {
    hide ReadPton, ReadSwap, BuildRouteTx, CreateNotifyPayload, PtonView, SwapView, FloorPercent;
    if SectionOf(x) == Addresses {
      hide MoneyApplies, SampleApplies;
    } else if SectionOf(x) == Money {
      hide AddressApplies, SampleApplies;
    } else {
      SameChecks(c, d, x);
      hide AddressApplies, MoneyApplies, SampleApplies;
    }
  }

  lemma SameChecks(c: Candidate, d: Candidate, x: Issue)
    requires d.addresses == c.addresses && d.swap == c.swap && d.samplePton == c.samplePton &&
             d.sampleSwap == c.sampleSwap
    ensures SampleApplies(d, x) <==> SampleApplies(c, x)
  {
    hide ReadPton, ReadSwap, BuildRouteTx, CreateNotifyPayload, PtonView, SwapView;
    assert forall slot: AddressSlot :: d.At(slot) == c.At(slot);
    assert Rebuilds(c) ==> Rebuilds(d) && Rebuilt(d) == Rebuilt(c);
    hide Rebuilt;
  }

  /**
   Each issue names its fault: a candidate that differs from an acceptable one in its status, its proofs or its code
   hashes has exactly the issues of what it lacks, and no other.
   */
  lemma IssuesNameTheFault(c: Candidate, d: Candidate, x: Issue)
    requires Acceptable(c)
    requires d.addresses == c.addresses && d.swap == c.swap && d.samplePton == c.samplePton &&
             d.sampleSwap == c.sampleSwap
    ensures Applies(d, x) <==>
            (x == StatusNotFinal && d.status != FinalCandidate) ||
            (x.MissingProof? && !d.proofs(x.proof)) ||
            (x.BadCodeHash? && !IsHash(d.codeHashes(x.hash)) && (x.hash == VaultCode ==> d.codeHashes(x.hash).Some?))
  {
    hide Acceptable, IsHash, PlausibleHash, AddressApplies, MoneyApplies, SampleApplies;
    AcceptableMeansNoIssue(c);
    if SectionOf(x) == Hashes {
      PlausibleIsHash(d.codeHashes(x.hash));
    } else if SectionOf(x) != Closing {
      SameSamples(c, d, x);
    }
  }

  /** The conservative profile, and what each of its refusals says. */
  lemma ProfileLaw(buyback: AddressLike, refund: AddressLike, excesses: AddressLike, offer: int, forwardGas: int,
                   ptonGas: int)
    ensures var r := ConservativeProfile(buyback, refund, excesses, offer, forwardGas, ptonGas);
            (r == Ok(true) <==>
               buyback.Parsed? && refund == buyback && excesses == buyback && offer == 50_000_000_000 &&
               forwardGas >= 300_000_000 && ptonGas >= 10_000_000) &&
            (r != Ok(true) ==>
               r.Err? &&
               match r.error
               case AddressUnparseable => Malformed in {buyback, refund, excesses}
               case AddressesRequired => Absent in {buyback, refund, excesses}
               case RefundNotBuyback => refund != buyback
               case ExcessesNotBuyback => excesses != buyback
               case OfferNot50Ton => offer != 50_000_000_000
               case ForwardGasBelowDefault => forwardGas < 300_000_000
               case PtonGasBelowDefault => ptonGas < 10_000_000)
  {
  }

  /** The candidate with its swap sample spelt one byte wider, and its pTON sample carrying that cell. */
  function Twin(c: Candidate): Candidate
    requires Rebuilds(c) && c.sampleSwap.Root? && ReadSwap(c.sampleSwap.cell).Ok? && c.swap.queryId >= 0
  {
    var twinSwap := PrintSwap(Widened(ReadSwap(c.sampleSwap.cell).value));
    c.(sampleSwap := Root(twinSwap),
       samplePton := Root(PrintPton(PinnedPton(c.swap, c.At(BuybackBurn).value, twinSwap))))
  }

  lemma AcceptableSamples(c: Candidate)
    requires Acceptable(c)
    ensures PinnedAddresses(c) && Rebuilds(c) && c.swap.offer == 50_000_000_000
    ensures c.swap.queryId >= 0 && c.swap.deadline >= 0 && c.swap.dexMinOut >= 0 && FitsUint64(c.swap.queryId)
    ensures var f := PinnedSwap(c.swap, c.At(AskWallet).value, c.At(BuybackBurn).value, c.At(BuybackAthWallet).value);
            c.sampleSwap == Root(PrintSwap(f)) && ReadSwap(c.sampleSwap.cell) == Ok(f) && ValidSwap(f)
  {
    hide PrintSwap, ReadSwap, PrintPton, Pow2, MinimalCoins;
    assert Basechain(c, PtonWallet) && Basechain(c, AskWallet) && Basechain(c, BuybackBurn) &&
           Basechain(c, BuybackAthWallet);
    PinnedDecode(c.swap, c.At(AskWallet).value, c.At(BuybackBurn).value, c.At(BuybackAthWallet).value);
    ParsedSwapPrints(c.sampleSwap.cell);
  }

  lemma TwinDecodes(c: Candidate)
    requires Acceptable(c) && ByteLen(c.swap.dexMinOut) < 15
    ensures Rebuilds(c) && c.sampleSwap.Root? && ReadSwap(c.sampleSwap.cell).Ok? && c.swap.queryId >= 0
    ensures var d := Twin(c);
            && Decodes(d) && d.sampleSwap != c.sampleSwap && d.samplePton != c.samplePton
            && Swap(d) == SwapView(ReadSwap(c.sampleSwap.cell).value)
            && Pton(d) == PtonView(PinnedPton(c.swap, c.At(BuybackBurn).value, d.sampleSwap.cell))
  {
    hide ReadPton, ReadSwap, PrintSwap, PrintPton, Pow2, SwapView;
    AcceptableSamples(c);
    var f := ReadSwap(c.sampleSwap.cell).value;
    var twinSwap := PrintSwap(Widened(f));
    WidenedTwin(f);
    var buyback := c.At(BuybackBurn).value;
    FixedCoinsFit();
    CoinsFieldFits(50_000_000_000);
    OpcodesFit();
    PrintedPtonParses(PinnedPton(c.swap, buyback, twinSwap));
    PrintedPtonParses(PinnedPton(c.swap, buyback, c.sampleSwap.cell));
  }

  /**
   The field checks alone do not pin the cell: every acceptable candidate whose minimum output has a
   spare byte has a twin with the same decoded swap report, and the comparison with the rebuilt cells
   is the only check that refuses it.
   */
  lemma OnlyRebuildRefusesTwin(c: Candidate, x: Issue)
    requires Acceptable(c) && ByteLen(c.swap.dexMinOut) < 15
    ensures Rebuilds(c) && c.sampleSwap.Root? && ReadSwap(c.sampleSwap.cell).Ok? && c.swap.queryId >= 0
    ensures Applies(Twin(c), x) <==> x == RebuiltPtonBodyMismatch || x == RebuiltSwapPayloadMismatch
  {
    hide AddressApplies, MoneyApplies, SampleApplies, PlausibleHash, Twin, Rebuilt, Acceptable, ReadSwap;
    TwinDecodes(c);
    AcceptableMeansNoIssue(c);
    TwinDiffersInSamples(c);
    if SectionOf(x) == Samples {
      TwinSamples(c, x);
    } else {
      TwinElsewhere(c, Twin(c), x);
    }
  }

  lemma TwinDiffersInSamples(c: Candidate)
    requires Rebuilds(c) && c.sampleSwap.Root? && ReadSwap(c.sampleSwap.cell).Ok? && c.swap.queryId >= 0
    ensures Twin(c) == c.(samplePton := Twin(c).samplePton, sampleSwap := Twin(c).sampleSwap)
  {
    hide ReadSwap, PrintSwap, PrintPton, Widened;
  }

  lemma TwinElsewhere(c: Candidate, d: Candidate, x: Issue)
    requires d == c.(samplePton := d.samplePton, sampleSwap := d.sampleSwap) && SectionOf(x) != Samples
    ensures Applies(d, x) == Applies(c, x)
  {
    hide PlausibleHash, FloorPercent, ConservativeProfile;
  }

  lemma TwinSamples(c: Candidate, x: Issue)
    requires Acceptable(c) && ByteLen(c.swap.dexMinOut) < 15 && SectionOf(x) == Samples
    requires Rebuilds(c) && c.sampleSwap.Root? && ReadSwap(c.sampleSwap.cell).Ok? && c.swap.queryId >= 0
    ensures SampleApplies(Twin(c), x) <==> x == RebuiltPtonBodyMismatch || x == RebuiltSwapPayloadMismatch
  {
    hide ReadPton, ReadSwap, PrintSwap, PrintPton, Pow2, Rebuilt, CreateNotifyPayload, Widened, ByteLen, Twin;
    hide GoodHashes, GoodMoney, FitsCoins;
    TwinDecodes(c);
    TwinDiffersInSamples(c);
    AcceptableSamples(c);
    MoneyOffer(c.swap);
    TwinRebuilds(c, Twin(c));
    NotifyPrinted(c.swap.queryId);
    MinimalAmounts(c.swap);
    MoneyTotal(c.swap);
    hide Acceptable;
  }

  lemma MoneyTotal(a: Amounts)
    requires GoodMoney(a)
    ensures a.totalValue == a.offer + a.routeForwardGas + a.ptonTransferGas
  {
  }

  /** The rebuild does not look at the samples. */
  lemma TwinRebuilds(c: Candidate, d: Candidate)
    requires Acceptable(c) && d == c.(samplePton := d.samplePton, sampleSwap := d.sampleSwap)
    ensures Rebuilds(d) && Rebuilt(d).Ok? &&
            Rebuilt(d).value.value == c.swap.offer + c.swap.routeForwardGas + c.swap.ptonTransferGas
    ensures c.samplePton == Root(Rebuilt(d).value.body) && c.sampleSwap == Root(Rebuilt(d).value.forwardPayload)
  {
    hide PrintSwap, PrintPton, Pow2, Rebuilt;
    MoneyOffer(c.swap);
    RebuildPinned(d);
  }
}
