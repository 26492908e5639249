/**
 The fate of an escrowed notification at one wallet, over every history of messages, authentic or forged:
 it is opened by a credit and ends at most once, accepted, refunded or pruned.
 */
module AthEscrow {
  import opened AthProtocol
  import opened Transactions

  datatype Fate = Untouched | Opened | Accepted | Refunded | Pruned

  /** What an arrival does to the escrow under `key`. */
  function FateOf(h: Hashing, w: Wallet, owner: Address, a: Arrival, key: nat): Fate {
    if WalletStep(h, w, owner, a.context, a.body, a.bounced).Throw? then Untouched
    else if a.bounced then
      match a.body
      case Notification(_, _, k, _, _) => if k == key then Refunded else Untouched
      case _ => Untouched
    else
      match a.body
      case Internal(lane, q, _, sender, _) =>
        if Escrows(lane) && h.senderKey(q, sender) == key then Opened else Untouched
      case NotificationAck(_, _, k) => if k == key && k in w.pending then Accepted else Untouched
      case NotificationRefund(_, _, k) => if k == key then Refunded else Untouched
      case PruneStale(_, k) => if k == key then Pruned else Untouched
      case _ => Untouched
  }

  /** A credit of `e.amount` from the wallet of `e.sender`. */
  ghost predicate OpensEscrow(w: Wallet, a: Arrival, key: nat, w2: Wallet) {
    key !in w.pending && key in w2.pending &&
    var e := w2.pending[key];
    w2.balance == w.balance + e.amount && e.amount > 0 && w2.outgoing == w.outgoing &&
    a.context.sender == WalletOf(e.sender) && e.createdAt == a.context.now
  }

  /** The tokens stay where they are. */
  ghost predicate KeepsEscrow(w: Wallet, key: nat, w2: Wallet) {
    key in w.pending && key !in w2.pending && w2.balance == w.balance && w2.outgoing == w.outgoing
  }

  /** Exactly the escrowed amount leaves, under a new outgoing entry to the wallet of its sender. */
  ghost predicate ReturnsEscrow(h: Hashing, w: Wallet, a: Arrival, key: nat, w2: Wallet) {
    key in w.pending && key !in w2.pending && (a.body.NotificationRefund? || a.body.Notification?) &&
    var e := w.pending[key];
    var back := (RefundQueryId(h, e, a.body.queryId, key), WalletOf(e.sender));
    w2.balance + e.amount == w.balance && back !in w.outgoing && back in w2.outgoing &&
    w2.outgoing == w.outgoing[back := w2.outgoing[back]] && w2.outgoing[back].amount == e.amount
  }

  lemma CreditFate(h: Hashing, w: Wallet, owner: Address, a: Arrival, key: nat)
    requires !a.bounced && a.body.Internal? && WalletStep(h, w, owner, a.context, a.body, a.bounced).Done?
    ensures FateOf(h, w, owner, a, key) == Opened ==> OpensEscrow(w, a, key, Apply(h, w, owner, a))
    ensures FateOf(h, w, owner, a, key) != Opened ==> SameEscrow(w, key, Apply(h, w, owner, a))
  {
  }

  ghost predicate SameEscrow(w: Wallet, key: nat, w2: Wallet) {
    (key in w.pending <==> key in w2.pending) && (key in w.pending ==> w2.pending[key] == w.pending[key])
  }

  lemma RefundFate(h: Hashing, w: Wallet, owner: Address, a: Arrival, key: nat)
    requires if a.bounced then a.body.Notification? else a.body.NotificationRefund?
    requires WalletStep(h, w, owner, a.context, a.body, a.bounced).Done?
    ensures a.context.sender == owner
    ensures FateOf(h, w, owner, a, key) == Refunded ==> ReturnsEscrow(h, w, a, key, Apply(h, w, owner, a))
    ensures FateOf(h, w, owner, a, key) != Refunded ==> SameEscrow(w, key, Apply(h, w, owner, a))
  {
  }

  /**
   One step of an escrow's life: only a credit opens it; only the owner accepts or refunds it; anyone may
   prune it, but not before its time to live is over; and every other message leaves it as it is.
   */
  lemma EscrowStep(h: Hashing, w: Wallet, owner: Address, a: Arrival, key: nat)
    ensures var w2 := Apply(h, w, owner, a);
            match FateOf(h, w, owner, a, key)
            case Untouched => SameEscrow(w, key, w2)
            case Opened => OpensEscrow(w, a, key, w2)
            case Accepted => KeepsEscrow(w, key, w2) && a.context.sender == owner
            case Refunded => ReturnsEscrow(h, w, a, key, w2) && a.context.sender == owner
            case Pruned => KeepsEscrow(w, key, w2) &&
                           a.context.now >= w.pending[key].createdAt + EscrowTtl(w.pending[key])
  {
    hide CreditGate, CreditNotices, CreditExcess, RequestGate, OwnerExcess, LaunchValue, FailureNotice;
    if WalletStep(h, w, owner, a.context, a.body, a.bounced).Done? {
      if !a.bounced && a.body.Internal? {
        CreditFate(h, w, owner, a, key);
        hide WalletStep;
      } else if if a.bounced then a.body.Notification? else a.body.NotificationRefund? {
        RefundFate(h, w, owner, a, key);
        hide WalletStep;
      }
    }
  }

  /** Once an escrow is gone, no refund, bounce, prune or acceptance for its key changes anything. */
  lemma GoneIsGone(h: Hashing, w: Wallet, owner: Address, a: Arrival, key: nat)
    requires key !in w.pending
    requires if a.bounced then a.body.Notification? && a.body.senderKey == key
             else (a.body.NotificationRefund? || a.body.NotificationAck? || a.body.PruneStale?) &&
                  a.body.senderKey == key
    ensures Apply(h, w, owner, a) == w
    ensures WalletStep(h, w, owner, a.context, a.body, a.bounced).Done? ==> !a.bounced && a.body.NotificationAck?
  {
  }

  /** A refund whose outgoing key is taken is refused with its own code and changes nothing. */
  lemma TakenKeyRefuses(h: Hashing, w: Wallet, owner: Address, c: Context, q: nat, key: nat, amount: nat)
    requires c.sender == owner && c.value >= REFUND_OWNER_MIN_VALUE && RefundGate(h, w, c, q, key, amount).Pass?
    ensures var e := w.pending[key];
            var taken := (RefundQueryId(h, e, q, key), WalletOf(e.sender)) in w.outgoing;
            var a := Arrival(c, NotificationRefund(q, amount, key), false);
            (WalletStep(h, w, owner, c, a.body, false) == Throw(14230) <==> taken) &&
            (Apply(h, w, owner, a) == w <==> taken)
  {
  }

  // ---------------------------------------------------------------- over a history

  /** The tokens escrowed under `key`; an open escrow always holds some. */
  function Open(w: Wallet, key: nat): nat {
    if key in w.pending then w.pending[key].amount else 0
  }

  function IsOpen(w: Wallet, key: nat): nat {
    if key in w.pending then 1 else 0
  }

  /** How often the escrow under `key` met this fate. */
  function Times(h: Hashing, w: Wallet, owner: Address, history: seq<Arrival>, key: nat, fate: Fate): nat
    decreases |history|
  {
    if |history| == 0 then 0
    else
      (if FateOf(h, w, owner, history[0], key) == fate then 1 else 0)
      + Times(h, Apply(h, w, owner, history[0]), owner, history[1..], key, fate)
  }

  function TokensMet(h: Hashing, w: Wallet, owner: Address, a: Arrival, key: nat, fate: Fate): nat {
    if FateOf(h, w, owner, a, key) != fate then 0
    else if fate == Opened then Open(Apply(h, w, owner, a), key)
    else Open(w, key)
  }

  /** How many tokens in all met this fate under `key`. */
  function Tokens(h: Hashing, w: Wallet, owner: Address, history: seq<Arrival>, key: nat, fate: Fate): nat
    decreases |history|
  {
    if |history| == 0 then 0
    else
      TokensMet(h, w, owner, history[0], key, fate)
      + Tokens(h, Apply(h, w, owner, history[0]), owner, history[1..], key, fate)
  }

  lemma StepTokens(h: Hashing, w: Wallet, owner: Address, a: Arrival, key: nat)
    ensures Open(w, key) + TokensMet(h, w, owner, a, key, Opened) ==
            TokensMet(h, w, owner, a, key, Accepted) + TokensMet(h, w, owner, a, key, Refunded) +
            TokensMet(h, w, owner, a, key, Pruned) + Open(Apply(h, w, owner, a), key)
  {
    hide Apply, FateOf, RefundQueryId, EscrowTtl;
    EscrowStep(h, w, owner, a, key);
  }

  lemma StepOpen(h: Hashing, w: Wallet, owner: Address, a: Arrival, key: nat)
    ensures match FateOf(h, w, owner, a, key)
            case Untouched => IsOpen(Apply(h, w, owner, a), key) == IsOpen(w, key)
            case Opened => IsOpen(w, key) == 0 && IsOpen(Apply(h, w, owner, a), key) == 1
            case _ => IsOpen(w, key) == 1 && IsOpen(Apply(h, w, owner, a), key) == 0
  {
    hide Apply, FateOf, RefundQueryId, EscrowTtl;
    EscrowStep(h, w, owner, a, key);
  }

  /**
   One outcome per escrow, over every history at one wallet: the openings under a key are as many as the
   acceptances, the refunds, the prunings and the one still open.
   */
  lemma {:induction false} EscrowsEndOnce(h: Hashing, w: Wallet, owner: Address, history: seq<Arrival>, key: nat)
    ensures IsOpen(w, key) + Times(h, w, owner, history, key, Opened) ==
            Times(h, w, owner, history, key, Accepted) + Times(h, w, owner, history, key, Refunded) +
            Times(h, w, owner, history, key, Pruned) + IsOpen(ApplyAll(h, w, owner, history), key)
    decreases |history|
  {
    hide Apply, FateOf, IsOpen;
    if |history| > 0 {
      StepOpen(h, w, owner, history[0], key);
      EscrowsEndOnce(h, Apply(h, w, owner, history[0]), owner, history[1..], key);
    }
  }

  /** And token for token: what was escrowed was accepted, refunded exactly, left by pruning, or is still held. */
  lemma {:induction false} EscrowedTokensAddUp(h: Hashing, w: Wallet, owner: Address, history: seq<Arrival>, key: nat)
    ensures Open(w, key) + Tokens(h, w, owner, history, key, Opened) ==
            Tokens(h, w, owner, history, key, Accepted) + Tokens(h, w, owner, history, key, Refunded) +
            Tokens(h, w, owner, history, key, Pruned) + Open(ApplyAll(h, w, owner, history), key)
    decreases |history|
  {
    hide Apply, TokensMet, Open;
    if |history| > 0 {
      StepTokens(h, w, owner, history[0], key);
      EscrowedTokensAddUp(h, Apply(h, w, owner, history[0]), owner, history[1..], key);
    }
  }
}
