/**
 The ATH token contracts as transition functions: what one message does to one wallet
 (contracts/ATHWallet.tact) or to the master (contracts/ATHMaster.tact), with every gate, its exit
 code and its place in the order of checks.  A `Throw` leaves the contract as it was.
 */
module AthProtocol {
  import opened Transactions

  // ---------------------------------------------------------------- values (2-44)

  const NOTIFY_ACK_VALUE := 1_000_000
  const REGISTRY_ACK_VALUE := 3_000_000
  const INTERNAL_ACK_VALUE := 3_000_000
  const SOURCE_ACK_VALUE := 4_000_000
  const FORWARD_FEE_ALLOWANCE := 8_000_000
  const REGISTRY_FEE_ALLOWANCE := 2_000_000
  const NOTIFY_MIN_VALUE := 45_000_000
  const STORAGE_ENDOWMENT := 20_000_000
  const INTERNAL_EXEC_RESERVE := 2_000_000
  const BURN_EXEC_RESERVE := 2_000_000
  const NOTIFY_EXEC_RESERVE := 7_000_000
  const PRUNE_EXEC_RESERVE := 2_000_000
  const OWNER_EXEC_RESERVE := 2_000_000
  const NOTIFY_OWNER_EXEC_RESERVE := 10_000_000
  const GENESIS_EXEC_RESERVE := 2_000_000
  const GENESIS_ACK_VALUE := 1_000_000
  const GENESIS_OWNER_EXEC_RESERVE := 8_000_000
  const ARRIVAL_MIN := INTERNAL_EXEC_RESERVE + INTERNAL_ACK_VALUE + SOURCE_ACK_VALUE + STORAGE_ENDOWMENT
  const REFUND_OWNER_MIN_VALUE := ARRIVAL_MIN + NOTIFY_EXEC_RESERVE + REGISTRY_ACK_VALUE
  const RECOVERY_MIN_VALUE := OWNER_EXEC_RESERVE + NOTIFY_EXEC_RESERVE + REGISTRY_ACK_VALUE
  const RECOVERY_GRACE := 2_592_000
  const NOTIFICATION_TTL := 86_400
  const REGISTRY_TTL := 604_800
  const OWNER_EXCESS_MIN := 100_000
  const EXCESS_MIN := 1_000_000
  const MASTER_EXCESS_MIN := 100_000
  const TOTAL_SUPPLY := 100_000_000_000_000_000

  // ---------------------------------------------------------------- messages

  /** The two truncated hashes of the wallet.  Nothing below needs either to be injective. */
  datatype Hashing = Hashing(senderKey: (nat, Address) -> nat, refundId: (nat, nat, Address) -> nat)

  /** What a registry is asked for; the wallets pass it on unread. */
  datatype Registry =
    | MintUsername(length: nat, username: seq<bool>)
    | ProfileAvatar(hash: nat, entryId: nat, streamId: nat, partCount: nat, mediaFormat: nat)

  /** The four ways to move tokens: same ledger effect, different gates and different notices. */
  datatype Lane =
    | Plain
    | Notify(destination: Address, notifyValue: nat)
    | ForRegistry(registry: Registry, notifyValue: nat, ownerWallet: Address)
    | Jetton(forwardTon: nat)

  datatype Body =
    | Request(lane: Lane, queryId: nat, amount: nat, recipient: Address, response: Address)
    | Internal(lane: Lane, queryId: nat, amount: nat, sender: Address, response: Address)
    | TransferAck(queryId: nat, amount: nat)
    | TransferFailed(queryId: nat, amount: nat)
    | RecoverStuck(queryId: nat, recipientWallet: Address)
    | Notification(lane: Lane, queryId: nat, senderKey: nat, amount: nat, payer: Address)
    | NotificationAck(queryId: nat, amount: nat, senderKey: nat)
    | NotificationRefund(queryId: nat, amount: nat, senderKey: nat)
    | PruneStale(queryId: nat, senderKey: nat)
    | JettonNotification(queryId: nat, amount: nat, payer: Address)
    | Burn(queryId: nat, amount: nat, response: Address)
    | BurnNotification(queryId: nat, amount: nat, holder: Address, response: Address)
    | BurnFinalized(queryId: nat, amount: nat, holder: Address)
    | BurnFailed(queryId: nat, amount: nat)
    | DeploySupply(queryId: nat, response: Address)
    | GenesisCredit(queryId: nat, amount: nat, response: Address)
    | GenesisAck(queryId: nat, amount: nat, holder: Address)
    | TransferExcess(queryId: nat)
    | JettonExcesses(queryId: nat)
    | TopUp
    | Empty
    | Unknown

  datatype Send = Send(to: Address, bounce: bool, value: Attached, body: Body)

  // ---------------------------------------------------------------- wallet state

  /** A debit whose fate is not known yet, keyed by query id and recipient wallet. */
  datatype Outgoing = Outgoing(recipientWallet: Address, response: Address, amount: nat, createdAt: nat)

  /** A credited notification the owner has not settled yet, keyed by the sender key. */
  datatype Escrow = Escrow(sender: Address, response: Address, ackValue: nat, amount: nat, createdAt: nat)

  type OutgoingKey = (nat, Address)

  datatype Wallet = Wallet(balance: nat, outgoing: map<OutgoingKey, Outgoing>, pending: map<nat, Escrow>)

  const NEW_WALLET := Wallet(0, map[], map[])

  datatype Outcome = Done(wallet: Wallet, sends: seq<Send>) | Throw(code: int)

  /** The first gate that fails, if any. */
  datatype Gate = Pass | Fail(code: int)

  function Base(r: Registry, request: bool): int {
    match r
    case MintUsername(_, _) => if request then 14550 else 14560
    case ProfileAvatar(_, _, _, _, _) => if request then 14650 else 14660
  }

  // ---------------------------------------------------------------- the owner's requests (558-750)

  function BasechainGate(owner: Address, recipient: Address, response: Address): Gate {
    if !owner.Basechain() then Fail(14600)
    else if !recipient.Basechain() then Fail(14601)
    else if !response.Basechain() then Fail(14602)
    else Pass
  }

  function PlainRequestGate(w: Wallet, owner: Address, c: Context, amount: nat, recipient: Address,
                            response: Address): Gate
  {
    if c.sender != owner then Fail(14200)
    else if response != owner then Fail(14201)
    else if BasechainGate(owner, recipient, response).Fail? then BasechainGate(owner, recipient, response)
    else if amount == 0 then Fail(14202)
    else if w.balance < amount then Fail(14203)
    else if c.value < OWNER_EXEC_RESERVE + ARRIVAL_MIN + FORWARD_FEE_ALLOWANCE then Fail(14204)
    else Pass
  }

  function NotifyRequestGate(w: Wallet, owner: Address, c: Context, destination: Address, notifyValue: nat,
                             amount: nat, recipient: Address, response: Address): Gate
  {
    if c.sender != owner then Fail(14300)
    else if response != owner then Fail(14301)
    else if destination != recipient then Fail(14302)
    else if BasechainGate(owner, recipient, response).Fail? then BasechainGate(owner, recipient, response)
    else if amount == 0 then Fail(14303)
    else if notifyValue == 0 then Fail(14304)
    else if w.balance < amount then Fail(14305)
    else if notifyValue < NOTIFY_MIN_VALUE then Fail(14306)
    else if c.value < NotifyArrival(notifyValue) + NOTIFY_OWNER_EXEC_RESERVE then Fail(14307)
    else Pass
  }

  function RegistryRequestGate(w: Wallet, owner: Address, c: Context, registry: Registry, notifyValue: nat,
                               ownerWallet: Address, amount: nat, recipient: Address, response: Address): Gate
  {
    var base := Base(registry, true);
    if c.sender != owner then Fail(base)
    else if response != owner then Fail(base + 1)
    else if BasechainGate(owner, recipient, response).Fail? then BasechainGate(owner, recipient, response)
    else if !ownerWallet.Basechain() then Fail(base + 2)
    else if amount == 0 then Fail(base + 3)
    else if notifyValue == 0 then Fail(base + 4)
    else if w.balance < amount then Fail(base + 5)
    else if notifyValue < NOTIFY_MIN_VALUE then Fail(base + 6)
    else if c.value < RegistryArrival(notifyValue) + REGISTRY_FEE_ALLOWANCE + NOTIFY_OWNER_EXEC_RESERVE
      then Fail(base + 7)
    else Pass
  }

  function JettonRequestGate(w: Wallet, owner: Address, c: Context, forwardTon: nat,
                             amount: nat, recipient: Address, response: Address): Gate
  {
    if c.sender != owner then Fail(14700)
    else if BasechainGate(owner, recipient, response).Fail? then BasechainGate(owner, recipient, response)
    else if amount == 0 then Fail(14701)
    else if w.balance < amount then Fail(14702)
    else if forwardTon >= c.value then Fail(14703)
    else if c.value < OWNER_EXEC_RESERVE + JettonArrival(forwardTon, c.forwardFee) + FORWARD_FEE_ALLOWANCE
      then Fail(14704)
    else Pass
  }

  /** What must arrive with a notified credit for it to be accepted. */
  function NotifyArrival(notifyValue: nat): nat {
    notifyValue + NOTIFY_ACK_VALUE + SOURCE_ACK_VALUE + NOTIFY_EXEC_RESERVE + STORAGE_ENDOWMENT
  }

  function RegistryArrival(notifyValue: nat): nat {
    notifyValue + REGISTRY_ACK_VALUE + SOURCE_ACK_VALUE + NOTIFY_EXEC_RESERVE + STORAGE_ENDOWMENT
  }

  function JettonArrival(forwardTon: nat, forwardFee: nat): nat {
    if forwardTon > 0 then forwardTon + SOURCE_ACK_VALUE + NOTIFY_EXEC_RESERVE + STORAGE_ENDOWMENT + forwardFee
    else INTERNAL_EXEC_RESERVE + SOURCE_ACK_VALUE + STORAGE_ENDOWMENT
  }

  function RequestGate(w: Wallet, owner: Address, c: Context, lane: Lane,
                       amount: nat, recipient: Address, response: Address): Gate
  {
    match lane
    case Plain => PlainRequestGate(w, owner, c, amount, recipient, response)
    case Notify(d, v) => NotifyRequestGate(w, owner, c, d, v, amount, recipient, response)
    case ForRegistry(r, v, o) => RegistryRequestGate(w, owner, c, r, v, o, amount, recipient, response)
    case Jetton(f) => JettonRequestGate(w, owner, c, f, amount, recipient, response)
  }

  /** Debits `amount` against a new outgoing entry (354-363). */
  function Debit(w: Wallet, key: OutgoingKey, amount: nat, response: Address, now: nat): Wallet
    requires amount <= w.balance
  {
    w.(balance := w.balance - amount, outgoing := w.outgoing[key := Outgoing(key.1, response, amount, now)])
  }

  /** What a request sends on with the tokens. */
  function LaunchValue(c: Context, lane: Lane): nat
    requires c.value >= OWNER_EXEC_RESERVE
  {
    match lane
    case Notify(_, v) => NotifyArrival(v)
    case ForRegistry(_, v, _) => RegistryArrival(v) + REGISTRY_FEE_ALLOWANCE
    case _ => c.value - OWNER_EXEC_RESERVE
  }

  /** The notified lanes give the owner back what they did not ask for (403-415). */
  function OwnerExcess(c: Context, lane: Lane, response: Address): seq<Send>
    requires c.value >= OWNER_EXEC_RESERVE
  {
    var excess := c.value - LaunchValue(c, lane) - NOTIFY_OWNER_EXEC_RESERVE;
    if Escrows(lane) && excess >= OWNER_EXCESS_MIN then [Send(response, false, Exactly(excess), Empty)] else []
  }

  function RequestStep(w: Wallet, owner: Address, c: Context, lane: Lane, q: nat,
                       amount: nat, recipient: Address, response: Address): Outcome
  {
    match RequestGate(w, owner, c, lane, amount, recipient, response)
    case Fail(code) => Throw(code)
    case Pass =>
      var key := (q, WalletOf(recipient));
      if key in w.outgoing then Throw(14230)
      else Done(Debit(w, key, amount, response, c.now),
                [Send(key.1, true, Exactly(LaunchValue(c, lane)), Internal(lane, q, amount, owner, response))]
                + OwnerExcess(c, lane, response))
  }

  // ---------------------------------------------------------------- credits (752-1008)

  function PlainCreditGate(c: Context, amount: nat, sender: Address): Gate {
    if amount == 0 then Fail(14210)
    else if c.sender != WalletOf(sender) then Fail(14211)
    else if c.value < ARRIVAL_MIN then Fail(14212)
    else Pass
  }

  function NotifyCreditGate(w: Wallet, owner: Address, c: Context, destination: Address, notifyValue: nat,
                            amount: nat, sender: Address, senderKey: nat): Gate
  {
    if amount == 0 then Fail(14310)
    else if c.sender != WalletOf(sender) then Fail(14311)
    else if destination != owner then Fail(14312)
    else if notifyValue == 0 then Fail(14313)
    else if c.value < NotifyArrival(notifyValue) then Fail(14314)
    else if senderKey in w.pending then Fail(14315)
    else if notifyValue < NOTIFY_MIN_VALUE then Fail(14316)
    else Pass
  }

  function RegistryCreditGate(w: Wallet, c: Context, registry: Registry, notifyValue: nat, ownerWallet: Address,
                              amount: nat, sender: Address, senderKey: nat): Gate
  {
    var base := Base(registry, false);
    if amount == 0 then Fail(base)
    else if c.sender != WalletOf(sender) then Fail(base + 1)
    else if notifyValue == 0 then Fail(base + 2)
    else if c.value < RegistryArrival(notifyValue) then Fail(base + 3)
    else if !ownerWallet.Basechain() then Fail(base + 4)
    else if senderKey in w.pending then Fail(base + 5)
    else if notifyValue < NOTIFY_MIN_VALUE then Fail(base + 6)
    else Pass
  }

  function JettonCreditGate(c: Context, forwardTon: nat, amount: nat, sender: Address): Gate {
    if amount == 0 then Fail(14710)
    else if c.sender != WalletOf(sender) then Fail(14711)
    else if !sender.Basechain() then Fail(14712)
    else if forwardTon > 0 && forwardTon >= c.value then Fail(14713)
    else if c.value < JettonArrival(forwardTon, c.forwardFee) then Fail(if forwardTon > 0 then 14714 else 14717)
    else Pass
  }

  function CreditGate(h: Hashing, w: Wallet, owner: Address, c: Context, lane: Lane, q: nat, amount: nat,
                      sender: Address): Gate
  {
    match lane
    case Plain => PlainCreditGate(c, amount, sender)
    case Notify(d, v) => NotifyCreditGate(w, owner, c, d, v, amount, sender, h.senderKey(q, sender))
    case ForRegistry(r, v, o) => RegistryCreditGate(w, c, r, v, o, amount, sender, h.senderKey(q, sender))
    case Jetton(f) => JettonCreditGate(c, f, amount, sender)
  }

  predicate Escrows(lane: Lane) {
    lane.Notify? || lane.ForRegistry?
  }

  function AckValue(lane: Lane): nat {
    if lane.ForRegistry? then REGISTRY_ACK_VALUE else NOTIFY_ACK_VALUE
  }

  /** Credits `amount`, and holds it as an escrow on the notified lanes. */
  function Credit(h: Hashing, w: Wallet, lane: Lane, q: nat, amount: nat, sender: Address, response: Address,
                  now: nat): Wallet
  {
    var credited := w.(balance := w.balance + amount);
    if Escrows(lane)
    then
      var escrow := Escrow(sender, response, AckValue(lane), amount, now);
      credited.(pending := w.pending[h.senderKey(q, sender) := escrow])
    else credited
  }

  /** The notices of a credit, in order, before the acknowledgement to the source wallet. */
  function CreditNotices(h: Hashing, owner: Address, lane: Lane, q: nat, amount: nat, sender: Address,
                         response: Address): seq<Send>
  {
    match lane
    case Plain => [Send(response, false, Exactly(INTERNAL_ACK_VALUE), TransferAck(q, amount))]
    case Notify(d, v) =>
      [Send(d, true, Exactly(v), Notification(lane, q, h.senderKey(q, sender), amount, sender)),
       Send(response, false, Exactly(NOTIFY_ACK_VALUE), TransferAck(q, amount))]
    case ForRegistry(_, v, _) =>
      [Send(owner, true, Exactly(v), Notification(lane, q, h.senderKey(q, sender), amount, sender))]
    case Jetton(f) =>
      if f > 0 then [Send(owner, false, Exactly(f), JettonNotification(q, amount, sender))] else []
  }

  /** What a credit uses up; the notified lanes also keep the forward fee back. */
  function Consumed(c: Context, lane: Lane): nat {
    match lane
    case Plain => ARRIVAL_MIN
    case Notify(_, v) => NotifyArrival(v) + c.forwardFee
    case ForRegistry(_, v, _) => RegistryArrival(v) + c.forwardFee
    case Jetton(f) => JettonArrival(f, c.forwardFee)
  }

  /** What arrived beyond that goes to the response address. */
  function CreditExcess(c: Context, lane: Lane, q: nat, response: Address): seq<Send> {
    var excess := c.value - Consumed(c, lane);
    if excess < EXCESS_MIN then []
    else [Send(response, false, Exactly(excess), if lane.Jetton? then JettonExcesses(q) else TransferExcess(q))]
  }

  function SourceAck(c: Context, q: nat, amount: nat): Send {
    Send(c.sender, false, Exactly(SOURCE_ACK_VALUE), TransferAck(q, amount))
  }

  function CreditStep(h: Hashing, w: Wallet, owner: Address, c: Context, lane: Lane, q: nat,
                      amount: nat, sender: Address, response: Address): Outcome
  {
    match CreditGate(h, w, owner, c, lane, q, amount, sender)
    case Fail(code) => Throw(code)
    case Pass =>
      Done(Credit(h, w, lane, q, amount, sender, response, c.now),
           CreditNotices(h, owner, lane, q, amount, sender, response) + [SourceAck(c, q, amount)]
           + CreditExcess(c, lane, q, response))
  }

  // ---------------------------------------------------------------- how an outgoing entry ends

  /** Removes the entry and puts its amount back. */
  function Restore(w: Wallet, key: OutgoingKey): Wallet
    requires key in w.outgoing
  {
    w.(balance := w.balance + w.outgoing[key].amount, outgoing := w.outgoing - {key})
  }

  function FailureNotice(owner: Address, response: Address, q: nat, amount: nat): seq<Send> {
    if response == WalletOf(owner) then [] else [Send(response, true, Remaining, TransferFailed(q, amount))]
  }

  /** A bounced transfer comes back (365-388). */
  function BouncedTransferStep(w: Wallet, owner: Address, c: Context, q: nat, amount: nat): Outcome {
    var key := (q, c.sender);
    if amount == 0 then Throw(14220)
    else if key !in w.outgoing then Throw(14221)
    else if w.outgoing[key].amount != amount then Throw(14222)
    else if w.outgoing[key].recipientWallet != c.sender then Throw(14223)
    else Done(Restore(w, key), FailureNotice(owner, w.outgoing[key].response, q, amount))
  }

  /** The recipient wallet acknowledges (1010-1019). */
  function TransferAckStep(w: Wallet, c: Context, q: nat, amount: nat): Outcome {
    var key := (q, c.sender);
    if amount == 0 then Throw(14240)
    else if key !in w.outgoing then Throw(14241)
    else if w.outgoing[key].amount != amount then Throw(14242)
    else if w.outgoing[key].recipientWallet != c.sender then Throw(14243)
    else Done(w.(outgoing := w.outgoing - {key}), [])
  }

  /** Anyone may unwind an entry the grace period has passed over (1021-1044). */
  function RecoverStep(w: Wallet, owner: Address, c: Context, q: nat, recipientWallet: Address): Outcome {
    var key := (q, recipientWallet);
    if c.value < RECOVERY_MIN_VALUE then Throw(14250)
    else if key !in w.outgoing then Throw(14251)
    else if c.now <= w.outgoing[key].createdAt + RECOVERY_GRACE then Throw(14252)
    else Done(Restore(w, key), FailureNotice(owner, w.outgoing[key].response, q, w.outgoing[key].amount))
  }

  // ---------------------------------------------------------------- how an escrow ends

  predicate RegistryEscrow(e: Escrow) {
    e.ackValue == REGISTRY_ACK_VALUE
  }

  function RefundGate(h: Hashing, w: Wallet, c: Context, q: nat, key: nat, amount: nat): Gate {
    if amount == 0 then Fail(14330)
    else if key !in w.pending then Fail(14332)
    else if c.value < INTERNAL_EXEC_RESERVE + NOTIFY_EXEC_RESERVE + w.pending[key].ackValue then Fail(14335)
    else if w.balance < amount then Fail(14331)
    else if w.pending[key].amount != amount then Fail(14333)
    else if h.senderKey(q, w.pending[key].sender) != key then Fail(14334)
    else Pass
  }

  /** The query id a refund travels under: the registry lanes keep the sender's own. */
  function RefundQueryId(h: Hashing, e: Escrow, q: nat, key: nat): nat {
    if RegistryEscrow(e) then q else h.refundId(q, key, WalletOf(e.sender))
  }

  /** Sends the escrowed tokens back to the wallet of their sender (417-470). */
  function RefundStep(h: Hashing, w: Wallet, owner: Address, c: Context, q: nat, key: nat, amount: nat): Outcome {
    match RefundGate(h, w, c, q, key, amount)
    case Fail(code) => Throw(code)
    case Pass =>
      var e := w.pending[key];
      var back := (RefundQueryId(h, e, q, key), WalletOf(e.sender));
      var onFailure := if RegistryEscrow(e) then WalletOf(owner) else e.sender;
      var response := if RegistryEscrow(e) then e.response else e.sender;
      if back in w.outgoing then Throw(14230)
      else Done(Debit(w, back, amount, onFailure, c.now).(pending := w.pending - {key}),
                (if RegistryEscrow(e) then []
                 else [Send(e.response, false, Exactly(e.ackValue), TransferFailed(q, amount))])
                + [Send(back.1, true, Remaining, Internal(Plain, back.0, amount, owner, response))])
  }

  function OwnerRefundStep(h: Hashing, w: Wallet, owner: Address, c: Context, q: nat, key: nat, amount: nat): Outcome {
    if c.sender != owner then Throw(14346)
    else if c.value < REFUND_OWNER_MIN_VALUE then Throw(14347)
    else RefundStep(h, w, owner, c, q, key, amount)
  }

  /** The owner bounced the notification (486-493, 1111-1124). */
  function BouncedNotificationStep(h: Hashing, w: Wallet, owner: Address, c: Context, lane: Lane, q: nat,
                                   key: nat): Outcome
  {
    if c.sender != owner then Throw(match lane case ForRegistry(r, _, _) => Base(r, false) + 10 case _ => 14336)
    else if key !in w.pending then Throw(14337)
    else if h.senderKey(q, w.pending[key].sender) != key then Throw(14338)
    else RefundStep(h, w, owner, c, q, key, w.pending[key].amount)
  }

  /** The owner accepts (1046-1069).  An escrow that is already gone is not an error. */
  function NotificationAckStep(h: Hashing, w: Wallet, owner: Address, c: Context, q: nat, key: nat,
                               amount: nat): Outcome
  {
    if c.sender != owner then Throw(14340)
    else if amount == 0 then Throw(14341)
    else if key !in w.pending then Done(w, [])
    else if w.pending[key].amount != amount then Throw(14343)
    else if h.senderKey(q, w.pending[key].sender) != key then Throw(14344)
    else
      var e := w.pending[key];
      Done(w.(pending := w.pending - {key}), [Send(e.response, false, Exactly(e.ackValue), TransferAck(q, amount))])
  }

  function EscrowTtl(e: Escrow): nat {
    if RegistryEscrow(e) then REGISTRY_TTL else NOTIFICATION_TTL
  }

  /** Anyone may drop an escrow nobody settled in time; the tokens stay (1077-1089). */
  function PruneStep(h: Hashing, w: Wallet, c: Context, q: nat, key: nat): Outcome {
    if c.value < PRUNE_EXEC_RESERVE then Throw(14349)
    else if key !in w.pending then Throw(14350)
    else if h.senderKey(q, w.pending[key].sender) != key then Throw(14351)
    else if c.now < w.pending[key].createdAt + EscrowTtl(w.pending[key]) then Throw(14352)
    else Done(w.(pending := w.pending - {key}), [])
  }

  // ---------------------------------------------------------------- burn and genesis (495-556)

  function BurnStep(w: Wallet, owner: Address, c: Context, q: nat, amount: nat, response: Address): Outcome {
    if c.sender != owner then Throw(14000)
    else if amount == 0 then Throw(14001)
    else if w.balance < amount then Throw(14002)
    else if response != owner then Throw(14005)
    else if c.value < BURN_EXEC_RESERVE + OWNER_EXEC_RESERVE then Throw(14006)
    else Done(w.(balance := w.balance - amount),
              [Send(Master, true, Exactly(c.value - OWNER_EXEC_RESERVE), BurnNotification(q, amount, owner, response))])
  }

  function BouncedBurnStep(w: Wallet, owner: Address, c: Context, q: nat, amount: nat): Outcome {
    if c.sender != Master then Throw(14003)
    else if amount == 0 then Throw(14004)
    else Done(w.(balance := w.balance + amount), [Send(owner, true, Remaining, BurnFailed(q, amount))])
  }

  function GenesisStep(w: Wallet, owner: Address, c: Context, q: nat, amount: nat, response: Address): Outcome {
    if c.sender != Master then Throw(14400)
    else if amount == 0 then Throw(14401)
    else if w.balance != 0 then Throw(14402)
    else if c.value < GENESIS_EXEC_RESERVE + GENESIS_ACK_VALUE then Throw(14403)
    else Done(w.(balance := w.balance + amount),
              [Send(response, false, Exactly(GENESIS_ACK_VALUE), GenesisAck(q, amount, owner))])
  }

  // ---------------------------------------------------------------- one wallet, one message

  const NO_RECEIVER := 130
  const EMPTY_TO_WALLET := 13000
  const EMPTY_TO_MASTER := 13001

  function BouncedStep(h: Hashing, w: Wallet, owner: Address, c: Context, body: Body): Outcome {
    match body
    case Internal(_, q, amount, _, _) => BouncedTransferStep(w, owner, c, q, amount)
    case Notification(lane, q, key, _, _) => BouncedNotificationStep(h, w, owner, c, lane, q, key)
    case BurnNotification(q, amount, _, _) => BouncedBurnStep(w, owner, c, q, amount)
    case _ => Done(w, [])
  }

  function ReceiveStep(h: Hashing, w: Wallet, owner: Address, c: Context, body: Body): Outcome {
    match body
    case Request(lane, q, amount, recipient, response) => RequestStep(w, owner, c, lane, q, amount, recipient, response)
    case Internal(lane, q, amount, sender, response) => CreditStep(h, w, owner, c, lane, q, amount, sender, response)
    case TransferAck(q, amount) => TransferAckStep(w, c, q, amount)
    case RecoverStuck(q, recipientWallet) => RecoverStep(w, owner, c, q, recipientWallet)
    case NotificationAck(q, amount, key) => NotificationAckStep(h, w, owner, c, q, key, amount)
    case NotificationRefund(q, amount, key) => OwnerRefundStep(h, w, owner, c, q, key, amount)
    case PruneStale(q, key) => PruneStep(h, w, c, q, key)
    case Burn(q, amount, response) => BurnStep(w, owner, c, q, amount, response)
    case GenesisCredit(q, amount, response) => GenesisStep(w, owner, c, q, amount, response)
    case TopUp => Done(w, [])
    case Empty => Throw(EMPTY_TO_WALLET)
    case _ => Throw(NO_RECEIVER)
  }

  function WalletStep(h: Hashing, w: Wallet, owner: Address, c: Context, body: Body, bounced: bool): Outcome {
    if bounced then BouncedStep(h, w, owner, c, body) else ReceiveStep(h, w, owner, c, body)
  }

  // ---------------------------------------------------------------- the master

  datatype Ledger = Ledger(totalSupply: nat, deployed: bool)

  datatype MasterOutcome = MasterDone(ledger: Ledger, sends: seq<Send>) | MasterThrow(code: int)

  function FinalizeBurnStep(m: Ledger, c: Context, q: nat, amount: nat, holder: Address,
                            response: Address): MasterOutcome
  {
    if amount == 0 then MasterThrow(14100)
    else if c.sender != WalletOf(holder) then MasterThrow(14101)
    else if m.totalSupply < amount then MasterThrow(14102)
    else if c.value < BURN_EXEC_RESERVE then MasterThrow(14103)
    else MasterDone(m.(totalSupply := m.totalSupply - amount),
                    [Send(response, true, Remaining, BurnFinalized(q, amount, holder))])
  }

  function DeploySupplyStep(m: Ledger, treasury: Address, c: Context, q: nat, response: Address): MasterOutcome {
    if c.sender != treasury then MasterThrow(14120)
    else if m.deployed then MasterThrow(14121)
    else if response != treasury then MasterThrow(14122)
    else if m.totalSupply != TOTAL_SUPPLY then MasterThrow(14123)
    else if c.value < GENESIS_EXEC_RESERVE + GENESIS_ACK_VALUE + GENESIS_OWNER_EXEC_RESERVE then MasterThrow(14124)
    else MasterDone(m.(deployed := true),
                    [Send(WalletOf(treasury), true, Exactly(c.value - GENESIS_OWNER_EXEC_RESERVE),
                          GenesisCredit(q, m.totalSupply, response))])
  }

  function BouncedGenesisStep(m: Ledger, treasury: Address, c: Context, amount: nat): MasterOutcome {
    if c.sender != WalletOf(treasury) then MasterThrow(14130)
    else if amount != m.totalSupply then MasterThrow(14131)
    else MasterDone(m.(deployed := false),
                    if c.value >= MASTER_EXCESS_MIN then [Send(treasury, false, Remaining, Empty)] else [])
  }

  function MasterStep(m: Ledger, treasury: Address, c: Context, body: Body, bounced: bool): MasterOutcome {
    if bounced then
      match body
      case GenesisCredit(_, amount, _) => BouncedGenesisStep(m, treasury, c, amount)
      case _ => MasterDone(m, [])
    else
      match body
      case BurnNotification(q, amount, holder, response) => FinalizeBurnStep(m, c, q, amount, holder, response)
      case DeploySupply(q, response) => DeploySupplyStep(m, treasury, c, q, response)
      case TopUp => MasterDone(m, [])
      case Empty => MasterThrow(EMPTY_TO_MASTER)
      case _ => MasterThrow(NO_RECEIVER)
  }

  // ---------------------------------------------------------------- entries a message opens or ends

  /** A message that debits when it succeeds. */
  predicate Opening(body: Body, bounced: bool) {
    if bounced then body.Notification? else body.Request? || body.NotificationRefund?
  }

  /** A message that ends an outgoing entry when it succeeds. */
  predicate Closing(body: Body, bounced: bool) {
    if bounced then body.Internal? else body.TransferAck? || body.RecoverStuck?
  }

  predicate Crediting(body: Body, bounced: bool) {
    !bounced && body.Internal?
  }

  function RefundKey(h: Hashing, w: Wallet, q: nat, key: nat): OutgoingKey {
    if key in w.pending then (RefundQueryId(h, w.pending[key], q, key), WalletOf(w.pending[key].sender))
    else (q, Master)
  }

  /** The entry a successful opening message opens. */
  function OpeningKey(h: Hashing, w: Wallet, body: Body): OutgoingKey {
    match body
    case Request(_, q, _, recipient, _) => (q, WalletOf(recipient))
    case NotificationRefund(q, _, key) => RefundKey(h, w, q, key)
    case Notification(_, q, key, _, _) => RefundKey(h, w, q, key)
    case _ => (0, Master)
  }

  /** The entry a successful closing message ends. */
  function ClosingKey(body: Body, c: Context): OutgoingKey {
    match body
    case RecoverStuck(q, r) => (q, r)
    case Internal(_, q, _, _, _) => (q, c.sender)
    case TransferAck(q, _) => (q, c.sender)
    case _ => (0, c.sender)
  }

  // ---------------------------------------------------------------- a wallet's history

  /** A message as it arrives at the wallet. */
  datatype Arrival = Arrival(context: Context, body: Body, bounced: bool)

  function Apply(h: Hashing, w: Wallet, owner: Address, a: Arrival): Wallet {
    match WalletStep(h, w, owner, a.context, a.body, a.bounced)
    case Done(w2, _) => w2
    case Throw(_) => w
  }

  function ApplyAll(h: Hashing, w: Wallet, owner: Address, history: seq<Arrival>): Wallet
    decreases |history|
  {
    if |history| == 0 then w else ApplyAll(h, Apply(h, w, owner, history[0]), owner, history[1..])
  }

  // ---------------------------------------------------------------- what a request pays for

  /** The forward fee a launched transfer can lose and still be accepted. */
  function FeeAllowance(lane: Lane): nat {
    match lane
    case Notify(_, _) => 0
    case ForRegistry(_, _, _) => REGISTRY_FEE_ALLOWANCE
    case _ => FORWARD_FEE_ALLOWANCE
  }

  /** What forwarding a TEP-74 notice costs beyond what the request was charged for. */
  function Dearer(lane: Lane, requested: nat, arrived: nat): nat {
    if lane.Jetton? && lane.forwardTon > 0 && arrived > requested then arrived - requested else 0
  }

  /** The gates of a credit that refuse for its value. */
  predicate RefusesForValue(code: int) {
    code in {14212, 14314, 14563, 14663, 14713, 14714, 14717}
  }

  /**
   A request funds its own credit: whatever state the recipient is in, a transfer that arrives with what its
   request attached, less at most the lane's fee allowance, is never refused for its value.  What the TEP-74
   notice costs to forward beyond what the request was charged for comes out of that allowance.
   */
  lemma RequestFundsItsCredit(h: Hashing, w: Wallet, owner: Address, c: Context, lane: Lane, q: nat, amount: nat,
                              recipient: Address, response: Address, w2: Wallet, arrival: Context)
    requires RequestStep(w, owner, c, lane, q, amount, recipient, response).Done?
    requires var sent := RequestStep(w, owner, c, lane, q, amount, recipient, response).sends[0];
             arrival.value + FeeAllowance(lane) >= sent.value.nanotons + Dearer(lane, c.forwardFee, arrival.forwardFee)
    ensures var sent := RequestStep(w, owner, c, lane, q, amount, recipient, response).sends[0];
            var o := WalletStep(h, w2, recipient, arrival, sent.body, false);
            sent.to == WalletOf(recipient) && (o.Throw? ==> !RefusesForValue(o.code))
  {
  }
}
