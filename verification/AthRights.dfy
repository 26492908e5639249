/**
 Who may move the token: the laws name no handler, so they hold of every message a wallet or the master can
 receive, authentic or forged, and of every history of such messages.
 */
module AthRights {
  import opened AthProtocol
  import opened Transactions

  // ---------------------------------------------------------------- the balance

  /** Only the owner spends. */
  lemma OnlyTheOwnerSpends(h: Hashing, w: Wallet, owner: Address, a: Arrival)
    ensures Apply(h, w, owner, a).balance < w.balance ==> a.context.sender == owner
  {
    hide CreditNotices, CreditExcess, OwnerExcess, FailureNotice, Base;
  }

  /** Tokens arrive from the wallet of the sender they name, from the master, or as what was under way. */
  ghost predicate Authentic(w: Wallet, a: Arrival) {
    a.context.sender == Master ||
    (!a.bounced && a.body.Internal? && a.context.sender == WalletOf(a.body.sender)) ||
    (a.bounced && a.body.Internal? && (a.body.queryId, a.context.sender) in w.outgoing &&
     w.outgoing[(a.body.queryId, a.context.sender)].amount == a.body.amount) ||
    (!a.bounced && a.body.RecoverStuck? && (a.body.queryId, a.body.recipientWallet) in w.outgoing &&
     a.context.now > w.outgoing[(a.body.queryId, a.body.recipientWallet)].createdAt + 2_592_000)
  }

  /** Nobody forges tokens. */
  lemma OnlyAuthenticTokensArrive(h: Hashing, w: Wallet, owner: Address, a: Arrival)
    ensures Apply(h, w, owner, a).balance > w.balance ==> Authentic(w, a)
  {
    hide CreditNotices, CreditExcess, OwnerExcess, FailureNotice, Base;
  }

  /** Without a message from its owner a wallet never loses a token, whatever anybody sends. */
  lemma {:induction false} NobodyElseSpends(h: Hashing, w: Wallet, owner: Address, history: seq<Arrival>)
    requires forall a | a in history :: a.context.sender != owner
    ensures ApplyAll(h, w, owner, history).balance >= w.balance
    decreases |history|
  {
    hide Apply;
    if |history| > 0 {
      OnlyTheOwnerSpends(h, w, owner, history[0]);
      NobodyElseSpends(h, Apply(h, w, owner, history[0]), owner, history[1..]);
    }
  }

  // ---------------------------------------------------------------- what only the owner may ask

  /** The code a message of the owner's is refused with when somebody else sends it. */
  function NotTheOwner(body: Body): int {
    match body
    case Request(Plain, _, _, _, _) => 14200
    case Request(Notify(_, _), _, _, _, _) => 14300
    case Request(ForRegistry(MintUsername(_, _), _, _), _, _, _, _) => 14550
    case Request(ForRegistry(ProfileAvatar(_, _, _, _, _), _, _), _, _, _, _) => 14650
    case Request(Jetton(_), _, _, _, _) => 14700
    case Burn(_, _, _) => 14000
    case NotificationAck(_, _, _) => 14340
    case NotificationRefund(_, _, _) => 14346
    case Notification(ForRegistry(MintUsername(_, _), _, _), _, _, _, _) => 14570
    case Notification(ForRegistry(ProfileAvatar(_, _, _, _, _), _, _), _, _, _, _) => 14670
    case _ => 14336
  }

  predicate OwnersOnly(body: Body, bounced: bool) {
    if bounced then body.Notification?
    else body.Request? || body.Burn? || body.NotificationAck? || body.NotificationRefund?
  }

  /** Sent by anybody else, such a message is refused with its own code before anything else is looked at. */
  lemma OthersAreRefused(h: Hashing, w: Wallet, owner: Address, a: Arrival)
    requires OwnersOnly(a.body, a.bounced) && a.context.sender != owner
    ensures WalletStep(h, w, owner, a.context, a.body, a.bounced) == Throw(NotTheOwner(a.body))
    ensures Apply(h, w, owner, a) == w
  {
  }

  // ---------------------------------------------------------------- the supply

  /** The master's ledger after a message, which a refusal leaves as it is. */
  function LedgerAfter(m: Ledger, treasury: Address, a: Arrival): Ledger {
    match MasterStep(m, treasury, a.context, a.body, a.bounced)
    case MasterDone(m2, _) => m2
    case MasterThrow(_) => m
  }

  /**
   The supply never grows, and falls by exactly the burn that the wallet of its holder reports; it counts as
   deployed by the treasury's order, once, and as undeployed again only when the treasury's wallet sends it back.
   */
  lemma SupplyRights(m: Ledger, treasury: Address, a: Arrival)
    ensures var m2 := LedgerAfter(m, treasury, a);
            var c := a.context;
            m2.totalSupply <= m.totalSupply &&
            (m2.totalSupply < m.totalSupply ==>
               !a.bounced && a.body.BurnNotification? && c.sender == WalletOf(a.body.holder) &&
               m2.totalSupply + a.body.amount == m.totalSupply) &&
            (m2.deployed && !m.deployed ==> c.sender == treasury && m2.totalSupply == 100_000_000_000_000_000) &&
            (m.deployed && !m2.deployed ==>
               a.bounced && a.body.GenesisCredit? && c.sender == WalletOf(treasury) && a.body.amount == m.totalSupply)
  {
  }
}
