/**
 What the exit codes of the token say: every refusal carries a code that is true of the message refused, in the
 figures of the design.
 */
module AthCodes {
  import opened AthProtocol
  import opened Transactions

  function AmountIn(b: Body): nat {
    match b
    case Request(_, _, amount, _, _) => amount
    case Internal(_, _, amount, _, _) => amount
    case TransferAck(_, amount) => amount
    case NotificationAck(_, amount, _) => amount
    case NotificationRefund(_, amount, _) => amount
    case Burn(_, amount, _) => amount
    case BurnNotification(_, amount, _, _) => amount
    case GenesisCredit(_, amount, _) => amount
    case _ => 1
  }

  function LaneOf(b: Body): Lane {
    match b
    case Request(lane, _, _, _, _) => lane
    case Internal(lane, _, _, _, _) => lane
    case _ => Plain
  }

  function NotifyValueOf(lane: Lane): nat {
    match lane
    case Notify(_, v) => v
    case ForRegistry(_, v, _) => v
    case _ => 0
  }

  /** The entry a message answers for, and the escrow a message settles. */
  function EntryKey(a: Arrival): OutgoingKey {
    match a.body
    case Internal(_, q, _, _, _) => (q, a.context.sender)
    case TransferAck(q, _) => (q, a.context.sender)
    case RecoverStuck(q, r) => (q, r)
    case _ => (0, a.context.sender)
  }

  function EscrowKey(b: Body): nat {
    match b
    case Notification(_, _, key, _, _) => key
    case NotificationAck(_, _, key) => key
    case NotificationRefund(_, _, key) => key
    case PruneStale(_, key) => key
    case _ => 0
  }

  function QueryIdOf(b: Body): nat {
    match b
    case Internal(_, q, _, _, _) => q
    case Notification(_, q, _, _, _) => q
    case NotificationAck(q, _, _) => q
    case NotificationRefund(q, _, _) => q
    case PruneStale(q, _) => q
    case _ => 0
  }

  /** What can be wrong with a message. */
  datatype Fault =
    | NotFromOwner | NotFromMaster | NotFromItsWallet
    | NoAmount | TooFewTokens | TooLittleValue | ForwardsTooMuch
    | ResponseNotOwner | OtherDestination | NothingToNotify | TooLittleToNotify
    | OwnerElsewhere | RecipientElsewhere | ResponseElsewhere | OwnerWalletElsewhere | SenderElsewhere
    | EntryTaken | NoEntry | OtherEntry | EntryTooYoung
    | EscrowTaken | NoEscrow | OtherEscrow | EscrowTooYoung
    | NotEmpty | NotAMessage

  function FaultOf(code: int): Fault {
    match code
    case 14000 | 14200 | 14300 | 14336 | 14340 | 14346 | 14550 | 14570 | 14650 | 14670 | 14700 => NotFromOwner
    case 14003 | 14400 => NotFromMaster
    case 14211 | 14311 | 14561 | 14661 | 14711 => NotFromItsWallet
    case 14001 | 14004 | 14202 | 14210 | 14220 | 14240 | 14303 | 14310 | 14330 | 14341 | 14401 | 14553 | 14560 | 14653
       | 14660 | 14701 | 14710 => NoAmount
    case 14002 | 14203 | 14305 | 14331 | 14555 | 14655 | 14702 => TooFewTokens
    case 14006 | 14204 | 14212 | 14250 | 14307 | 14314 | 14335 | 14347 | 14349 | 14403 | 14557 | 14563 | 14657 | 14663
       | 14704 | 14714 | 14717 => TooLittleValue
    case 14703 | 14713 => ForwardsTooMuch
    case 14005 | 14201 | 14301 | 14551 | 14651 => ResponseNotOwner
    case 14302 | 14312 => OtherDestination
    case 14304 | 14313 | 14554 | 14562 | 14654 | 14662 => NothingToNotify
    case 14306 | 14316 | 14556 | 14566 | 14656 | 14666 => TooLittleToNotify
    case 14600 => OwnerElsewhere
    case 14601 => RecipientElsewhere
    case 14602 => ResponseElsewhere
    case 14552 | 14564 | 14652 | 14664 => OwnerWalletElsewhere
    case 14712 => SenderElsewhere
    case 14230 => EntryTaken
    case 14221 | 14241 | 14251 => NoEntry
    case 14222 | 14223 | 14242 | 14243 => OtherEntry
    case 14252 => EntryTooYoung
    case 14315 | 14565 | 14665 => EscrowTaken
    case 14332 | 14337 | 14350 => NoEscrow
    case 14333 | 14334 | 14338 | 14343 | 14344 | 14351 => OtherEscrow
    case 14352 => EscrowTooYoung
    case 14402 => NotEmpty
    case _ => NotAMessage
  }

  /** The most a message can ever have to bring. */
  function MostAsked(a: Arrival): nat {
    match LaneOf(a.body)
    case Notify(_, v) => v + 42_000_000
    case ForRegistry(_, v, _) => v + 46_000_000
    case Jetton(f) => f + a.context.forwardFee + 41_000_000
    case Plain => 39_000_000
  }

  /** What a refusal for this fault says of the message. */
  ghost predicate Says(f: Fault, h: Hashing, w: Wallet, owner: Address, a: Arrival) {
    var c, b, lane := a.context, a.body, LaneOf(a.body);
    var entry, escrow := EntryKey(a), EscrowKey(b);
    match f
    case NotFromOwner => c.sender != owner
    case NotFromMaster => c.sender != Master
    case NotFromItsWallet => b.Internal? && c.sender != WalletOf(b.sender)
    case NoAmount => AmountAsked(w, b) == 0
    case TooFewTokens => AmountAsked(w, b) > w.balance
    case TooLittleValue =>
      (c.value < MostAsked(a) && (lane.Jetton? && lane.forwardTon > 0 ==> lane.forwardTon < c.value)) ||
      (escrow in w.pending && c.value < 9_000_000 + w.pending[escrow].ackValue)
    case ForwardsTooMuch => lane.Jetton? && lane.forwardTon >= c.value
    case ResponseNotOwner => (b.Request? || b.Burn?) && b.response != owner
    case OtherDestination => lane.Notify? && lane.destination != (if b.Request? then b.recipient else owner)
    case NothingToNotify => NotifyValueOf(lane) == 0
    case TooLittleToNotify => 0 < NotifyValueOf(lane) < 45_000_000
    case OwnerElsewhere => !owner.Basechain()
    case RecipientElsewhere => b.Request? && !b.recipient.Basechain()
    case ResponseElsewhere => b.Request? && !b.response.Basechain()
    case OwnerWalletElsewhere => lane.ForRegistry? && !lane.ownerWallet.Basechain()
    case SenderElsewhere => b.Internal? && !b.sender.Basechain()
    case EntryTaken =>
      if b.Request? then (b.queryId, WalletOf(b.recipient)) in w.outgoing
      else
        escrow in w.pending &&
        var e := w.pending[escrow];
        (RefundQueryId(h, e, QueryIdOf(b), escrow), WalletOf(e.sender)) in w.outgoing
    case NoEntry => entry !in w.outgoing
    case OtherEntry =>
      entry in w.outgoing && (w.outgoing[entry].amount != AmountIn(b) || w.outgoing[entry].recipientWallet != c.sender)
    case EntryTooYoung => entry in w.outgoing && c.now <= w.outgoing[entry].createdAt + 2_592_000
    case EscrowTaken => b.Internal? && h.senderKey(b.queryId, b.sender) in w.pending
    case NoEscrow => escrow !in w.pending
    case OtherEscrow =>
      escrow in w.pending &&
      (AmountAsked(w, b) != w.pending[escrow].amount || h.senderKey(QueryIdOf(b), w.pending[escrow].sender) != escrow)
    case EscrowTooYoung => escrow in w.pending && c.now < w.pending[escrow].createdAt + 604_800
    case NotEmpty => w.balance != 0
    case NotAMessage => !IsHandled(b)
  }

  /** The amount a message is about; a bounced notification is about the whole escrow. */
  function AmountAsked(w: Wallet, b: Body): nat {
    if b.Notification? && b.senderKey in w.pending then w.pending[b.senderKey].amount else AmountIn(b)
  }

  predicate IsHandled(b: Body) {
    b.Request? || b.Internal? || b.TransferAck? || b.RecoverStuck? || b.NotificationAck? || b.NotificationRefund? ||
    b.PruneStale? || b.Burn? || b.GenesisCredit? || b.TopUp?
  }

  /** Each lane has codes of its own, for the request and for the credit. */
  predicate InFamily(code: int, b: Body, bounced: bool) {
    if !bounced && b.Request? then
      code == 14230 || 14600 <= code <= 14602 ||
      (match b.lane
       case Plain => 14200 <= code <= 14204
       case Notify(_, _) => 14300 <= code <= 14307
       case ForRegistry(MintUsername(_, _), _, _) => 14550 <= code <= 14557
       case ForRegistry(ProfileAvatar(_, _, _, _, _), _, _) => 14650 <= code <= 14657
       case Jetton(_) => 14700 <= code <= 14704)
    else if !bounced && b.Internal? then
      match b.lane
      case Plain => 14210 <= code <= 14212
      case Notify(_, _) => 14310 <= code <= 14316
      case ForRegistry(MintUsername(_, _), _, _) => 14560 <= code <= 14566
      case ForRegistry(ProfileAvatar(_, _, _, _, _), _, _) => 14660 <= code <= 14666
      case Jetton(f) => 14710 <= code <= 14717 && (code == 14714 ==> f > 0) && (code == 14717 ==> f == 0)
    else true
  }

  /** The step refuses, if at all, with a code that says what is wrong. */
  ghost predicate Speaks(h: Hashing, w: Wallet, owner: Address, a: Arrival) {
    var r := WalletStep(h, w, owner, a.context, a.body, a.bounced);
    r.Throw? ==> Says(FaultOf(r.code), h, w, owner, a) && InFamily(r.code, a.body, a.bounced)
  }

  lemma ElsewhereSpeaks(owner: Address, recipient: Address, response: Address)
    ensures match BasechainGate(owner, recipient, response)
            case Pass => true
            case Fail(code) => (code == 14600 && !owner.Basechain()) || (code == 14601 && !recipient.Basechain()) ||
                               (code == 14602 && !response.Basechain())
  {
  }

  lemma PlainRequestSpeaks(h: Hashing, w: Wallet, owner: Address, c: Context, q: nat, amount: nat, recipient: Address,
                           response: Address)
    ensures Speaks(h, w, owner, Arrival(c, Request(Plain, q, amount, recipient, response), false))
  {
    hide RefundStep, TransferAckStep, RecoverStep, BouncedTransferStep, NotificationAckStep, PruneStep, BurnStep;
    hide BouncedBurnStep, GenesisStep, OwnerRefundStep, BouncedNotificationStep;
    hide OwnerExcess, LaunchValue, Debit, CreditStep, BasechainGate, NotifyRequestGate, RegistryRequestGate,
      JettonRequestGate;
    ElsewhereSpeaks(owner, recipient, response);
  }

  lemma NotifiedRequestSpeaks(h: Hashing, w: Wallet, owner: Address, c: Context, destination: Address,
                              notifyValue: nat, q: nat, amount: nat, recipient: Address, response: Address)
    ensures var b := Request(Notify(destination, notifyValue), q, amount, recipient, response);
            Speaks(h, w, owner, Arrival(c, b, false))
  {
    hide RefundStep, TransferAckStep, RecoverStep, BouncedTransferStep, NotificationAckStep, PruneStep, BurnStep;
    hide BouncedBurnStep, GenesisStep, OwnerRefundStep, BouncedNotificationStep;
    hide OwnerExcess, LaunchValue, Debit, CreditStep, BasechainGate, PlainRequestGate, RegistryRequestGate,
      JettonRequestGate;
    ElsewhereSpeaks(owner, recipient, response);
  }

  lemma UsernameRequestSpeaks(h: Hashing, w: Wallet, owner: Address, c: Context, registry: Registry,
                              notifyValue: nat, ownerWallet: Address, q: nat, amount: nat, recipient: Address,
                              response: Address)
    requires registry.MintUsername?
    ensures var b := Request(ForRegistry(registry, notifyValue, ownerWallet), q, amount, recipient, response);
            Speaks(h, w, owner, Arrival(c, b, false))
  {
    hide RefundStep, TransferAckStep, RecoverStep, BouncedTransferStep, NotificationAckStep, PruneStep, BurnStep;
    hide BouncedBurnStep, GenesisStep, OwnerRefundStep, BouncedNotificationStep;
    hide OwnerExcess, LaunchValue, Debit, CreditStep, BasechainGate, PlainRequestGate, NotifyRequestGate,
      JettonRequestGate;
    ElsewhereSpeaks(owner, recipient, response);
  }

  lemma AvatarRequestSpeaks(h: Hashing, w: Wallet, owner: Address, c: Context, registry: Registry,
                            notifyValue: nat, ownerWallet: Address, q: nat, amount: nat, recipient: Address,
                            response: Address)
    requires registry.ProfileAvatar?
    ensures var b := Request(ForRegistry(registry, notifyValue, ownerWallet), q, amount, recipient, response);
            Speaks(h, w, owner, Arrival(c, b, false))
  {
    hide RefundStep, TransferAckStep, RecoverStep, BouncedTransferStep, NotificationAckStep, PruneStep, BurnStep;
    hide BouncedBurnStep, GenesisStep, OwnerRefundStep, BouncedNotificationStep;
    hide OwnerExcess, LaunchValue, Debit, CreditStep, BasechainGate, PlainRequestGate, NotifyRequestGate,
      JettonRequestGate;
    ElsewhereSpeaks(owner, recipient, response);
  }

  lemma RegistryRequestSpeaks(h: Hashing, w: Wallet, owner: Address, c: Context, registry: Registry, notifyValue: nat,
                              ownerWallet: Address, q: nat, amount: nat, recipient: Address, response: Address)
    ensures var b := Request(ForRegistry(registry, notifyValue, ownerWallet), q, amount, recipient, response);
            Speaks(h, w, owner, Arrival(c, b, false))
  {
    hide Speaks;
    if registry.MintUsername? {
      UsernameRequestSpeaks(h, w, owner, c, registry, notifyValue, ownerWallet, q, amount, recipient, response);
    } else {
      AvatarRequestSpeaks(h, w, owner, c, registry, notifyValue, ownerWallet, q, amount, recipient, response);
    }
  }

  lemma JettonRequestSpeaks(h: Hashing, w: Wallet, owner: Address, c: Context, forwardTon: nat, q: nat, amount: nat,
                            recipient: Address, response: Address)
    ensures Speaks(h, w, owner, Arrival(c, Request(Jetton(forwardTon), q, amount, recipient, response), false))
  {
    hide RefundStep, TransferAckStep, RecoverStep, BouncedTransferStep, NotificationAckStep, PruneStep, BurnStep;
    hide BouncedBurnStep, GenesisStep, OwnerRefundStep, BouncedNotificationStep;
    hide OwnerExcess, LaunchValue, Debit, CreditStep, BasechainGate, PlainRequestGate, NotifyRequestGate,
      RegistryRequestGate;
    ElsewhereSpeaks(owner, recipient, response);
  }

  lemma PlainCreditSpeaks(h: Hashing, w: Wallet, owner: Address, c: Context, q: nat, amount: nat, sender: Address,
                          response: Address)
    ensures Speaks(h, w, owner, Arrival(c, Internal(Plain, q, amount, sender, response), false))
  {
    hide RefundStep, TransferAckStep, RecoverStep, BouncedTransferStep, NotificationAckStep, PruneStep, BurnStep;
    hide BouncedBurnStep, GenesisStep, OwnerRefundStep, BouncedNotificationStep;
    hide Credit, CreditNotices, CreditExcess, RequestStep, NotifyCreditGate, RegistryCreditGate, JettonCreditGate;
  }

  lemma NotifiedCreditSpeaks(h: Hashing, w: Wallet, owner: Address, c: Context, destination: Address,
                             notifyValue: nat, q: nat, amount: nat, sender: Address, response: Address)
    ensures var b := Internal(Notify(destination, notifyValue), q, amount, sender, response);
            Speaks(h, w, owner, Arrival(c, b, false))
  {
    hide RefundStep, TransferAckStep, RecoverStep, BouncedTransferStep, NotificationAckStep, PruneStep, BurnStep;
    hide BouncedBurnStep, GenesisStep, OwnerRefundStep, BouncedNotificationStep;
    hide Credit, CreditNotices, CreditExcess, RequestStep, PlainCreditGate, RegistryCreditGate, JettonCreditGate;
  }

  lemma UsernameCreditSpeaks(h: Hashing, w: Wallet, owner: Address, c: Context, registry: Registry,
                             notifyValue: nat, ownerWallet: Address, q: nat, amount: nat, sender: Address,
                             response: Address)
    requires registry.MintUsername?
    ensures var b := Internal(ForRegistry(registry, notifyValue, ownerWallet), q, amount, sender, response);
            Speaks(h, w, owner, Arrival(c, b, false))
  {
    hide RefundStep, TransferAckStep, RecoverStep, BouncedTransferStep, NotificationAckStep, PruneStep, BurnStep;
    hide BouncedBurnStep, GenesisStep, OwnerRefundStep, BouncedNotificationStep;
    hide Credit, CreditNotices, CreditExcess, RequestStep, PlainCreditGate, NotifyCreditGate, JettonCreditGate;
  }

  lemma AvatarCreditSpeaks(h: Hashing, w: Wallet, owner: Address, c: Context, registry: Registry,
                           notifyValue: nat, ownerWallet: Address, q: nat, amount: nat, sender: Address,
                           response: Address)
    requires registry.ProfileAvatar?
    ensures var b := Internal(ForRegistry(registry, notifyValue, ownerWallet), q, amount, sender, response);
            Speaks(h, w, owner, Arrival(c, b, false))
  {
    hide RefundStep, TransferAckStep, RecoverStep, BouncedTransferStep, NotificationAckStep, PruneStep, BurnStep;
    hide BouncedBurnStep, GenesisStep, OwnerRefundStep, BouncedNotificationStep;
    hide Credit, CreditNotices, CreditExcess, RequestStep, PlainCreditGate, NotifyCreditGate, JettonCreditGate;
  }

  lemma RegistryCreditSpeaks(h: Hashing, w: Wallet, owner: Address, c: Context, registry: Registry, notifyValue: nat,
                             ownerWallet: Address, q: nat, amount: nat, sender: Address, response: Address)
    ensures var b := Internal(ForRegistry(registry, notifyValue, ownerWallet), q, amount, sender, response);
            Speaks(h, w, owner, Arrival(c, b, false))
  {
    hide Speaks;
    if registry.MintUsername? {
      UsernameCreditSpeaks(h, w, owner, c, registry, notifyValue, ownerWallet, q, amount, sender, response);
    } else {
      AvatarCreditSpeaks(h, w, owner, c, registry, notifyValue, ownerWallet, q, amount, sender, response);
    }
  }

  lemma JettonCreditSpeaks(h: Hashing, w: Wallet, owner: Address, c: Context, forwardTon: nat, q: nat, amount: nat,
                           sender: Address, response: Address)
    ensures Speaks(h, w, owner, Arrival(c, Internal(Jetton(forwardTon), q, amount, sender, response), false))
  {
    hide RefundStep, TransferAckStep, RecoverStep, BouncedTransferStep, NotificationAckStep, PruneStep, BurnStep;
    hide BouncedBurnStep, GenesisStep, OwnerRefundStep, BouncedNotificationStep;
    hide Credit, CreditNotices, CreditExcess, RequestStep, PlainCreditGate, NotifyCreditGate, RegistryCreditGate;
  }

  lemma RequestSpeaks(h: Hashing, w: Wallet, owner: Address, c: Context, lane: Lane, q: nat, amount: nat,
                      recipient: Address, response: Address)
    ensures Speaks(h, w, owner, Arrival(c, Request(lane, q, amount, recipient, response), false))
  {
    hide Speaks;
    match lane
    case Plain => PlainRequestSpeaks(h, w, owner, c, q, amount, recipient, response);
    case Notify(d, v) => NotifiedRequestSpeaks(h, w, owner, c, d, v, q, amount, recipient, response);
    case ForRegistry(r, v, o) => RegistryRequestSpeaks(h, w, owner, c, r, v, o, q, amount, recipient, response);
    case Jetton(f) => JettonRequestSpeaks(h, w, owner, c, f, q, amount, recipient, response);
  }

  lemma CreditSpeaks(h: Hashing, w: Wallet, owner: Address, c: Context, lane: Lane, q: nat, amount: nat,
                     sender: Address, response: Address)
    ensures Speaks(h, w, owner, Arrival(c, Internal(lane, q, amount, sender, response), false))
  {
    hide Speaks;
    match lane
    case Plain => PlainCreditSpeaks(h, w, owner, c, q, amount, sender, response);
    case Notify(d, v) => NotifiedCreditSpeaks(h, w, owner, c, d, v, q, amount, sender, response);
    case ForRegistry(r, v, o) => RegistryCreditSpeaks(h, w, owner, c, r, v, o, q, amount, sender, response);
    case Jetton(f) => JettonCreditSpeaks(h, w, owner, c, f, q, amount, sender, response);
  }

  lemma RefundSpeaks(h: Hashing, w: Wallet, owner: Address, c: Context, q: nat, amount: nat, key: nat)
    ensures Speaks(h, w, owner, Arrival(c, NotificationRefund(q, amount, key), false))
  {
    hide RequestStep, CreditStep, TransferAckStep, RecoverStep, BouncedTransferStep, NotificationAckStep, PruneStep;
    hide BurnStep, BouncedBurnStep, GenesisStep, BouncedNotificationStep, Debit;
  }

  lemma BounceSpeaks(h: Hashing, w: Wallet, owner: Address, c: Context, lane: Lane, q: nat, key: nat, amount: nat,
                     payer: Address)
    ensures Speaks(h, w, owner, Arrival(c, Notification(lane, q, key, amount, payer), true))
  {
    hide RequestStep, CreditStep, TransferAckStep, RecoverStep, BouncedTransferStep, NotificationAckStep, PruneStep;
    hide BurnStep, BouncedBurnStep, GenesisStep, OwnerRefundStep, Debit;
  }

  lemma BouncedTransferSpeaks(h: Hashing, w: Wallet, owner: Address, c: Context, lane: Lane, q: nat, amount: nat,
                              sender: Address, response: Address)
    ensures Speaks(h, w, owner, Arrival(c, Internal(lane, q, amount, sender, response), true))
  {
    hide RequestStep, CreditStep, RefundStep, TransferAckStep, RecoverStep, NotificationAckStep, PruneStep, BurnStep;
    hide BouncedBurnStep, GenesisStep, OwnerRefundStep, BouncedNotificationStep, Restore, FailureNotice;
  }

  lemma AckSpeaks(h: Hashing, w: Wallet, owner: Address, c: Context, q: nat, amount: nat)
    ensures Speaks(h, w, owner, Arrival(c, TransferAck(q, amount), false))
  {
    hide RequestStep, CreditStep, RefundStep, RecoverStep, BouncedTransferStep, NotificationAckStep, PruneStep;
    hide BurnStep, BouncedBurnStep, GenesisStep, OwnerRefundStep, BouncedNotificationStep;
  }

  lemma RecoverySpeaks(h: Hashing, w: Wallet, owner: Address, c: Context, q: nat, recipientWallet: Address)
    ensures Speaks(h, w, owner, Arrival(c, RecoverStuck(q, recipientWallet), false))
  {
    hide RequestStep, CreditStep, RefundStep, TransferAckStep, BouncedTransferStep, NotificationAckStep, PruneStep;
    hide BurnStep, BouncedBurnStep, GenesisStep, OwnerRefundStep, BouncedNotificationStep, Restore, FailureNotice;
  }

  lemma AcceptanceSpeaks(h: Hashing, w: Wallet, owner: Address, c: Context, q: nat, amount: nat, key: nat)
    ensures Speaks(h, w, owner, Arrival(c, NotificationAck(q, amount, key), false))
  {
    hide RequestStep, CreditStep, RefundStep, TransferAckStep, RecoverStep, BouncedTransferStep, PruneStep, BurnStep;
    hide BouncedBurnStep, GenesisStep, OwnerRefundStep, BouncedNotificationStep;
  }

  lemma PruneSpeaks(h: Hashing, w: Wallet, owner: Address, c: Context, q: nat, key: nat)
    ensures Speaks(h, w, owner, Arrival(c, PruneStale(q, key), false))
  {
    hide RequestStep, CreditStep, RefundStep, TransferAckStep, RecoverStep, BouncedTransferStep, NotificationAckStep;
    hide BurnStep, BouncedBurnStep, GenesisStep, OwnerRefundStep, BouncedNotificationStep;
  }

  lemma BurnSpeaks(h: Hashing, w: Wallet, owner: Address, c: Context, q: nat, amount: nat, holder: Address,
                   response: Address)
    ensures Speaks(h, w, owner, Arrival(c, Burn(q, amount, response), false))
    ensures Speaks(h, w, owner, Arrival(c, BurnNotification(q, amount, holder, response), true))
  {
    hide RequestStep, CreditStep, RefundStep, TransferAckStep, RecoverStep, BouncedTransferStep, NotificationAckStep;
    hide PruneStep, GenesisStep, OwnerRefundStep, BouncedNotificationStep;
  }

  lemma GenesisSpeaks(h: Hashing, w: Wallet, owner: Address, c: Context, q: nat, amount: nat, response: Address)
    ensures Speaks(h, w, owner, Arrival(c, GenesisCredit(q, amount, response), false))
  {
    hide RequestStep, CreditStep, RefundStep, TransferAckStep, RecoverStep, BouncedTransferStep, NotificationAckStep;
    hide PruneStep, BurnStep, BouncedBurnStep, OwnerRefundStep, BouncedNotificationStep;
  }

  /** The other messages: taken without effect, or not meant for a wallet at all. */
  lemma OtherSpeaks(h: Hashing, w: Wallet, owner: Address, a: Arrival)
    requires if a.bounced then !a.body.Internal? && !a.body.Notification? && !a.body.BurnNotification?
             else !IsHandled(a.body) || a.body.TopUp?
    ensures Speaks(h, w, owner, a)
  {
    hide RequestStep, CreditStep, RefundStep, TransferAckStep, RecoverStep, BouncedTransferStep, NotificationAckStep;
    hide PruneStep, BurnStep, BouncedBurnStep, GenesisStep, OwnerRefundStep, BouncedNotificationStep;
  }

  /** Every refusal of the wallet carries a code that says what is wrong with the message. */
  lemma CodesSpeak(h: Hashing, w: Wallet, owner: Address, a: Arrival)
    ensures Speaks(h, w, owner, a)
  {
    hide Speaks;
    var c := a.context;
    if a.bounced {
      match a.body
      case Internal(lane, q, amount, sender, response) =>
        BouncedTransferSpeaks(h, w, owner, c, lane, q, amount, sender, response);
      case Notification(lane, q, key, amount, payer) => BounceSpeaks(h, w, owner, c, lane, q, key, amount, payer);
      case BurnNotification(q, amount, holder, response) => BurnSpeaks(h, w, owner, c, q, amount, holder, response);
      case _ => OtherSpeaks(h, w, owner, a);
    } else {
      match a.body
      case Request(lane, q, amount, recipient, response) =>
        RequestSpeaks(h, w, owner, c, lane, q, amount, recipient, response);
      case Internal(lane, q, amount, sender, response) =>
        CreditSpeaks(h, w, owner, c, lane, q, amount, sender, response);
      case TransferAck(q, amount) => AckSpeaks(h, w, owner, c, q, amount);
      case RecoverStuck(q, r) => RecoverySpeaks(h, w, owner, c, q, r);
      case NotificationAck(q, amount, key) => AcceptanceSpeaks(h, w, owner, c, q, amount, key);
      case NotificationRefund(q, amount, key) => RefundSpeaks(h, w, owner, c, q, amount, key);
      case PruneStale(q, key) => PruneSpeaks(h, w, owner, c, q, key);
      case Burn(q, amount, response) => BurnSpeaks(h, w, owner, c, q, amount, owner, response);
      case GenesisCredit(q, amount, response) => GenesisSpeaks(h, w, owner, c, q, amount, response);
      case _ => OtherSpeaks(h, w, owner, a);
    }
  }

  // ---------------------------------------------------------------- the master

  /** The same of the master. */
  lemma MasterCodesSpeak(m: Ledger, treasury: Address, a: Arrival)
    ensures var r := MasterStep(m, treasury, a.context, a.body, a.bounced);
            var c, b := a.context, a.body;
            r.MasterThrow? ==>
              match r.code
              case 14100 => b.BurnNotification? && b.amount == 0
              case 14101 => b.BurnNotification? && c.sender != WalletOf(b.holder)
              case 14102 => b.BurnNotification? && b.amount > m.totalSupply
              case 14103 => c.value < 2_000_000
              case 14120 => c.sender != treasury
              case 14121 => m.deployed
              case 14122 => b.DeploySupply? && b.response != treasury
              case 14123 => m.totalSupply != 100_000_000_000_000_000
              case 14124 => c.value < 11_000_000
              case 14130 => c.sender != WalletOf(treasury)
              case 14131 => b.GenesisCredit? && b.amount != m.totalSupply
              case 13001 => b.Empty?
              case _ => r.code == 130 && !a.bounced && !b.BurnNotification? && !b.DeploySupply?
  {
  }
}
