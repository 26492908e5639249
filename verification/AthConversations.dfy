/**
 Whole conversations of the token, in the figures of its design: what it takes for a transfer, an escrow, a burn
 and the genesis to be accepted, exactly, and that each of them completes, or comes back leaving no trace.
 */
module AthConversations {
  import opened AthProtocol
  import opened Transactions

  // ---------------------------------------------------------------- what each message costs

  /** What a request must bring, in nanotons. */
  function Price(lane: Lane, fee: nat): nat {
    match lane
    case Plain => 39_000_000
    case Notify(_, v) => v + 42_000_000
    case ForRegistry(_, v, _) => v + 46_000_000
    case Jetton(f) => if f == 0 then 36_000_000 else f + fee + 41_000_000
  }

  /** What it sends on with the tokens. */
  function Carries(lane: Lane, value: nat): int {
    match lane
    case Plain => value - 2_000_000
    case Notify(_, v) => v + 32_000_000
    case ForRegistry(_, v, _) => v + 36_000_000
    case Jetton(_) => value - 2_000_000
  }

  /** What the tokens must arrive with. */
  function Cost(lane: Lane, fee: nat): nat {
    match lane
    case Plain => 29_000_000
    case Notify(_, v) => v + 32_000_000
    case ForRegistry(_, v, _) => v + 34_000_000
    case Jetton(f) => if f == 0 then 26_000_000 else f + fee + 31_000_000
  }

  /** What a credit leaves in the wallet that receives it. */
  function Keeps(lane: Lane): nat {
    if lane == Plain || lane == Jetton(0) then 22_000_000
    else if lane.ForRegistry? then 30_000_000
    else 27_000_000
  }

  // ---------------------------------------------------------------- requests

  predicate LaneInOrder(lane: Lane, owner: Address, recipient: Address, response: Address) {
    match lane
    case Plain => response == owner
    case Notify(d, v) => response == owner && d == recipient && v >= 45_000_000
    case ForRegistry(_, v, o) => response == owner && v >= 45_000_000 && o.Basechain()
    case Jetton(_) => true
  }

  predicate MayRequest(w: Wallet, owner: Address, c: Context, lane: Lane, q: nat, amount: nat, recipient: Address,
                       response: Address)
  {
    c.sender == owner && owner.Basechain() && recipient.Basechain() && response.Basechain() &&
    LaneInOrder(lane, owner, recipient, response) && 0 < amount <= w.balance &&
    (q, WalletOf(recipient)) !in w.outgoing && c.value >= Price(lane, c.forwardFee)
  }

  /** The wallet of `owner` runs a request of the owner's. */
  function Requested(h: Hashing, w: Wallet, owner: Address, c: Context, lane: Lane, q: nat, amount: nat,
                     recipient: Address, response: Address): Outcome
  {
    WalletStep(h, w, owner, c, Request(lane, q, amount, recipient, response), false)
  }

  /** The wallet that has sent `amount` on under query id `q` and waits for the answer. */
  function Waiting(w: Wallet, q: nat, amount: nat, recipient: Address, response: Address, now: nat): Wallet
    requires amount <= w.balance
  {
    var key := (q, WalletOf(recipient));
    Wallet(w.balance - amount, w.outgoing[key := Outgoing(WalletOf(recipient), response, amount, now)], w.pending)
  }

  /**
   A request is accepted exactly when the owner may make it, and then sends the tokens to the recipient's wallet;
   what a notified lane brings beyond its price goes back to the owner.
   */
  lemma RequestLaw(h: Hashing, w: Wallet, owner: Address, c: Context, lane: Lane, q: nat, amount: nat,
                   recipient: Address, response: Address)
    ensures var r := Requested(h, w, owner, c, lane, q, amount, recipient, response);
            (r.Done? <==> MayRequest(w, owner, c, lane, q, amount, recipient, response)) &&
            (r.Done? ==>
               var left := c.value - Price(lane, c.forwardFee);
               r.wallet == Waiting(w, q, amount, recipient, response, c.now) &&
               r.sends == [Send(WalletOf(recipient), true, Exactly(Carries(lane, c.value)),
                                Internal(lane, q, amount, owner, response))]
                          + (if (lane.Notify? || lane.ForRegistry?) && left >= 100_000
                             then [Send(response, false, Exactly(left), Empty)] else []))
  {
  }

  // ---------------------------------------------------------------- credits

  predicate MayCredit(h: Hashing, w: Wallet, owner: Address, c: Context, lane: Lane, q: nat, amount: nat,
                      sender: Address)
  {
    amount > 0 && c.sender == WalletOf(sender) && c.value >= Cost(lane, c.forwardFee) &&
    match lane
    case Plain => true
    case Notify(d, v) => d == owner && v >= 45_000_000 && h.senderKey(q, sender) !in w.pending
    case ForRegistry(_, v, o) => o.Basechain() && v >= 45_000_000 && h.senderKey(q, sender) !in w.pending
    case Jetton(_) => sender.Basechain()
  }

  function CreditedBy(h: Hashing, w: Wallet, owner: Address, c: Context, lane: Lane, q: nat, amount: nat,
                      sender: Address, response: Address): Outcome
  {
    WalletStep(h, w, owner, c, Internal(lane, q, amount, sender, response), false)
  }

  /** The wallet that has received `amount`, with an escrow on the notified lanes. */
  function Received(h: Hashing, w: Wallet, lane: Lane, q: nat, amount: nat, sender: Address, response: Address,
                    now: nat): Wallet
  {
    Wallet(w.balance + amount, w.outgoing,
           match lane
           case Notify(_, _) => w.pending[h.senderKey(q, sender) := Escrow(sender, response, 1_000_000, amount, now)]
           case ForRegistry(_, _, _) =>
             w.pending[h.senderKey(q, sender) := Escrow(sender, response, 3_000_000, amount, now)]
           case _ => w.pending)
  }

  /** Everything that is told of a credit: who is told, what amount and payer, and with what value. */
  ghost predicate Tells(h: Hashing, owner: Address, c: Context, lane: Lane, q: nat, amount: nat, sender: Address,
                        response: Address, sends: seq<Send>)
  {
    Send(c.sender, false, Exactly(4_000_000), TransferAck(q, amount)) in sends &&
    match lane
    case Plain => Send(response, false, Exactly(3_000_000), TransferAck(q, amount)) in sends
    case Notify(_, v) =>
      Send(owner, true, Exactly(v), Notification(lane, q, h.senderKey(q, sender), amount, sender)) in sends &&
      Send(response, false, Exactly(1_000_000), TransferAck(q, amount)) in sends
    case ForRegistry(_, v, _) =>
      Send(owner, true, Exactly(v), Notification(lane, q, h.senderKey(q, sender), amount, sender)) in sends
    case Jetton(f) => f > 0 ==> Send(owner, false, Exactly(f), JettonNotification(q, amount, sender)) in sends
  }

  /** What the messages of a step carry away. */
  function Attachments(sends: seq<Send>): nat {
    if |sends| == 0 then 0
    else (match sends[0].value case Exactly(v) => v case Remaining => 0) + Attachments(sends[1..])
  }

  lemma {:induction false} AttachmentsAdd(a: seq<Send>, b: seq<Send>)
    ensures Attachments(a + b) == Attachments(a) + Attachments(b)
  {
    if |a| == 0 {
      assert a + b == b;
    } else {
      assert (a + b)[1..] == a[1..] + b;
      AttachmentsAdd(a[1..], b);
    }
  }

  /**
   A credit is accepted exactly when it comes from the wallet of its sender with what it costs; it puts the tokens
   on the balance, tells everyone who must know, and keeps what the wallet lives on and less than 1,000,000 more.
   */
  lemma CreditLaw(h: Hashing, w: Wallet, owner: Address, c: Context, lane: Lane, q: nat, amount: nat,
                  sender: Address, response: Address)
    ensures var r := CreditedBy(h, w, owner, c, lane, q, amount, sender, response);
            (r.Done? <==> MayCredit(h, w, owner, c, lane, q, amount, sender)) &&
            (r.Done? ==>
               r.wallet == Received(h, w, lane, q, amount, sender, response, c.now) &&
               Tells(h, owner, c, lane, q, amount, sender, response, r.sends) &&
               var taken := Attachments(r.sends) + Keeps(lane);
               taken <= c.value < taken + c.forwardFee + 1_000_000)
  {
    if MayCredit(h, w, owner, c, lane, q, amount, sender) {
      CreditAttachments(h, owner, c, lane, q, amount, sender, response);
    }
    hide Attachments;
  }

  lemma CreditAttachments(h: Hashing, owner: Address, c: Context, lane: Lane, q: nat, amount: nat, sender: Address,
                          response: Address)
    requires c.value >= Cost(lane, c.forwardFee)
    ensures var sends := CreditNotices(h, owner, lane, q, amount, sender, response) + [SourceAck(c, q, amount)]
                         + CreditExcess(c, lane, q, response);
            var taken := Attachments(sends) + Keeps(lane);
            taken <= c.value < taken + c.forwardFee + 1_000_000
  {
    var notices := CreditNotices(h, owner, lane, q, amount, sender, response);
    var source := [SourceAck(c, q, amount)];
    var excess := CreditExcess(c, lane, q, response);
    AttachmentsAdd(notices + source, excess);
    AttachmentsAdd(notices, source);
    if |notices| == 2 {
      assert notices == [notices[0]] + [notices[1]];
      AttachmentsAdd([notices[0]], [notices[1]]);
    }
    assert Attachments(source) == 4_000_000;
  }

  // ---------------------------------------------------------------- a transfer, told to its end

  /** What forwarding a TEP-74 notice costs beyond what its request was charged for, and what any lane may lose. */
  predicate ArrivesWithEnough(lane: Lane, sent: int, requested: nat, arrival: Context) {
    match lane
    case Plain => arrival.value + 8_000_000 >= sent
    case Notify(_, _) => arrival.value >= sent
    case ForRegistry(_, _, _) => arrival.value + 2_000_000 >= sent
    case Jetton(f) =>
      var dearer := if f > 0 && arrival.forwardFee > requested then arrival.forwardFee - requested else 0;
      arrival.value + 8_000_000 >= sent + dearer
  }

  /**
   A transfer completes: what an accepted request sends is credited when it arrives, and the acknowledgement that
   the credit sends closes the entry, so the sender is left with exactly the amount less and nothing open.
   */
  lemma TransferCompletes(h: Hashing, w: Wallet, owner: Address, c: Context, lane: Lane, q: nat, amount: nat,
                          recipient: Address, response: Address, w2: Wallet, arrival: Context, answer: Context)
    requires MayRequest(w, owner, c, lane, q, amount, recipient, response)
    requires arrival.sender == WalletOf(owner) && answer.sender == WalletOf(recipient)
    requires ArrivesWithEnough(lane, Carries(lane, c.value), c.forwardFee, arrival)
    requires lane.Notify? || lane.ForRegistry? ==> h.senderKey(q, owner) !in w2.pending
    ensures var sent := Requested(h, w, owner, c, lane, q, amount, recipient, response);
            var credit := WalletStep(h, w2, recipient, arrival, sent.sends[0].body, false);
            var ack := Send(WalletOf(owner), false, Exactly(4_000_000), TransferAck(q, amount));
            credit == CreditedBy(h, w2, recipient, arrival, lane, q, amount, owner, response) && credit.Done? &&
            credit.wallet == Received(h, w2, lane, q, amount, owner, response, arrival.now) && ack in credit.sends &&
            WalletStep(h, sent.wallet, owner, answer, ack.body, false) ==
            Done(Wallet(w.balance - amount, w.outgoing, w.pending), [])
  {
    RequestLaw(h, w, owner, c, lane, q, amount, recipient, response);
    CreditLaw(h, w2, recipient, arrival, lane, q, amount, owner, response);
    hide CreditStep, RequestStep, Attachments, Received;
    EntryGone(w, (q, WalletOf(recipient)), Outgoing(WalletOf(recipient), response, amount, c.now));
  }

  lemma EntryGone(w: Wallet, key: OutgoingKey, entry: Outgoing)
    requires key !in w.outgoing
    ensures w.outgoing[key := entry] - {key} == w.outgoing
  {
  }

  /** A transfer that bounces leaves the sender's wallet as it was, and the response address knows. */
  lemma TransferBounces(h: Hashing, w: Wallet, owner: Address, c: Context, lane: Lane, q: nat, amount: nat,
                        recipient: Address, response: Address, back: Context)
    requires MayRequest(w, owner, c, lane, q, amount, recipient, response) && back.sender == WalletOf(recipient)
    ensures var sent := Requested(h, w, owner, c, lane, q, amount, recipient, response);
            WalletStep(h, sent.wallet, owner, back, sent.sends[0].body, true) ==
            Done(w, Unanswered(owner, response, q, amount))
  {
    RequestLaw(h, w, owner, c, lane, q, amount, recipient, response);
    hide CreditStep, RequestStep;
    EntryGone(w, (q, WalletOf(recipient)), Outgoing(WalletOf(recipient), response, amount, c.now));
  }

  /** Whoever asked for an answer is told that there is none, unless it is the wallet itself. */
  function Unanswered(owner: Address, response: Address, q: nat, amount: nat): seq<Send> {
    if response == WalletOf(owner) then [] else [Send(response, true, Remaining, TransferFailed(q, amount))]
  }

  /** A transfer that stays away is recovered by anybody, exactly from the 2,592,001st second on. */
  lemma TransferRecovered(h: Hashing, w: Wallet, owner: Address, c: Context, lane: Lane, q: nat, amount: nat,
                          recipient: Address, response: Address, later: Context)
    requires MayRequest(w, owner, c, lane, q, amount, recipient, response)
    ensures var sent := Requested(h, w, owner, c, lane, q, amount, recipient, response);
            var r := WalletStep(h, sent.wallet, owner, later, RecoverStuck(q, WalletOf(recipient)), false);
            (r.Done? <==> later.now > c.now + 2_592_000 && later.value >= 12_000_000) &&
            (r.Done? ==> r == Done(w, Unanswered(owner, response, q, amount)))
  {
    RequestLaw(h, w, owner, c, lane, q, amount, recipient, response);
    hide CreditStep, RequestStep;
    EntryGone(w, (q, WalletOf(recipient)), Outgoing(WalletOf(recipient), response, amount, c.now));
  }

  /** Only the recipient's wallet answers for an entry, with its own query id and amount: exactly then it ends. */
  lemma OnlyItsOwnAnswersEnd(h: Hashing, w: Wallet, owner: Address, c: Context, q: nat, amount: nat, lane: Lane,
                             sender: Address, response: Address)
    ensures var key := (q, c.sender);
            var its := amount > 0 && key in w.outgoing && w.outgoing[key].amount == amount &&
                       w.outgoing[key].recipientWallet == c.sender;
            (WalletStep(h, w, owner, c, TransferAck(q, amount), false).Done? <==> its) &&
            (WalletStep(h, w, owner, c, Internal(lane, q, amount, sender, response), true).Done? <==> its)
  {
  }

  // ---------------------------------------------------------------- an escrow, told to its end

  /** A notified credit that has been accepted at time `c.now`. */
  ghost predicate Escrowed(h: Hashing, w: Wallet, owner: Address, c: Context, lane: Lane, q: nat, amount: nat,
                           sender: Address)
  {
    (lane.Notify? || lane.ForRegistry?) && MayCredit(h, w, owner, c, lane, q, amount, sender)
  }

  function AckOf(lane: Lane): nat {
    if lane.ForRegistry? then 3_000_000 else 1_000_000
  }

  lemma EscrowGone(w: Wallet, key: nat, e: Escrow)
    requires key !in w.pending
    ensures w.pending[key := e] - {key} == w.pending
  {
  }

  /** The owner accepts: the tokens stay, the escrow is gone, and the response address is told. */
  lemma EscrowAccepted(h: Hashing, w: Wallet, owner: Address, c: Context, lane: Lane, q: nat, amount: nat,
                       sender: Address, response: Address, yes: Context)
    requires Escrowed(h, w, owner, c, lane, q, amount, sender) && yes.sender == owner
    ensures var held := Received(h, w, lane, q, amount, sender, response, c.now);
            WalletStep(h, held, owner, yes, NotificationAck(q, amount, h.senderKey(q, sender)), false) ==
            Done(Wallet(w.balance + amount, w.outgoing, w.pending),
                 [Send(response, false, Exactly(AckOf(lane)), TransferAck(q, amount))])
  {
    hide CreditStep, RequestStep;
    EscrowGone(w, h.senderKey(q, sender), Escrow(sender, response, AckOf(lane), amount, c.now));
  }

  /** Nobody answers: anybody may prune it, exactly from one day on, or seven for a registry; the tokens stay. */
  lemma EscrowPruned(h: Hashing, w: Wallet, owner: Address, c: Context, lane: Lane, q: nat, amount: nat,
                     sender: Address, response: Address, later: Context)
    requires Escrowed(h, w, owner, c, lane, q, amount, sender)
    ensures var held := Received(h, w, lane, q, amount, sender, response, c.now);
            var r := WalletStep(h, held, owner, later, PruneStale(q, h.senderKey(q, sender)), false);
            var ttl := if lane.ForRegistry? then 604_800 else 86_400;
            (r.Done? <==> later.now >= c.now + ttl && later.value >= 2_000_000) &&
            (r.Done? ==> r == Done(Wallet(w.balance + amount, w.outgoing, w.pending), []))
  {
    hide CreditStep, RequestStep;
    EscrowGone(w, h.senderKey(q, sender), Escrow(sender, response, AckOf(lane), amount, c.now));
  }

  /** The owner's refusal of an escrow, asked for or by bouncing its notification. */
  function Refused(h: Hashing, held: Wallet, owner: Address, no: Context, lane: Lane, q: nat, amount: nat,
                   sender: Address, bounced: bool): Outcome
  {
    var key := h.senderKey(q, sender);
    var body := if bounced then Notification(lane, q, key, amount, sender) else NotificationRefund(q, amount, key);
    WalletStep(h, held, owner, no, body, bounced)
  }

  /** The query id a refund travels under. */
  function ReturnId(h: Hashing, lane: Lane, q: nat, sender: Address): nat {
    if lane.ForRegistry? then q else h.refundId(q, h.senderKey(q, sender), WalletOf(sender))
  }

  /** Who is told if a refund stays away: the wallet itself on the registry lanes, else the sender. */
  function OnFailure(lane: Lane, owner: Address, sender: Address): Address {
    if lane.ForRegistry? then WalletOf(owner) else sender
  }

  /** The owner refuses: exactly when it brings enough and the way back is free, the tokens are on their way back. */
  lemma RefusalLaw(h: Hashing, w: Wallet, owner: Address, c: Context, lane: Lane, q: nat, amount: nat,
                   sender: Address, response: Address, no: Context, bounced: bool)
    requires Escrowed(h, w, owner, c, lane, q, amount, sender) && no.sender == owner
    ensures var held := Received(h, w, lane, q, amount, sender, response, c.now);
            var id := ReturnId(h, lane, q, sender);
            var r := Refused(h, held, owner, no, lane, q, amount, sender, bounced);
            (r.Done? <==> no.value >= (if bounced then 9_000_000 + AckOf(lane) else 39_000_000) &&
                          (id, WalletOf(sender)) !in w.outgoing) &&
            (r.Done? ==>
               var told := Send(response, false, Exactly(1_000_000), TransferFailed(q, amount));
               var waiting := Waiting(held, id, amount, sender, OnFailure(lane, owner, sender), no.now);
               r == Done(waiting.(pending := w.pending),
                         (if lane.Notify? then [told] else [])
                         + [Send(WalletOf(sender), true, Remaining,
                                 Internal(Plain, id, amount, owner, if lane.ForRegistry? then response else sender))]))
  {
    hide CreditStep, RequestStep, Attachments;
    EscrowGone(w, h.senderKey(q, sender), Escrow(sender, response, AckOf(lane), amount, c.now));
  }

  /**
   And completes: the wallet of their sender credits them, and its acknowledgement leaves this wallet as it was before
   the escrow.
   */
  lemma RefusalCompletes(h: Hashing, w: Wallet, owner: Address, c: Context, lane: Lane, q: nat, amount: nat,
                         sender: Address, response: Address, no: Context, bounced: bool, w2: Wallet, arrival: Context,
                         answer: Context)
    requires Escrowed(h, w, owner, c, lane, q, amount, sender) && no.sender == owner
    requires arrival.sender == WalletOf(owner) && arrival.value >= 29_000_000 && answer.sender == WalletOf(sender)
    requires var held := Received(h, w, lane, q, amount, sender, response, c.now);
             Refused(h, held, owner, no, lane, q, amount, sender, bounced).Done?
    ensures var held := Received(h, w, lane, q, amount, sender, response, c.now);
            var r := Refused(h, held, owner, no, lane, q, amount, sender, bounced);
            var back := r.sends[|r.sends| - 1];
            var credit := WalletStep(h, w2, sender, arrival, back.body, false);
            var ack := TransferAck(ReturnId(h, lane, q, sender), amount);
            back.to == WalletOf(sender) && credit.Done? &&
            credit.wallet == Wallet(w2.balance + amount, w2.outgoing, w2.pending) &&
            Send(WalletOf(owner), false, Exactly(4_000_000), ack) in credit.sends &&
            WalletStep(h, r.wallet, owner, answer, ack, false) == Done(w, [])
  {
    RefusalLaw(h, w, owner, c, lane, q, amount, sender, response, no, bounced);
    hide CreditStep, RequestStep, RefundStep, Attachments, Refused;
    var id := ReturnId(h, lane, q, sender);
    var onFailure := OnFailure(lane, owner, sender);
    EntryGone(w, (id, WalletOf(sender)), Outgoing(WalletOf(sender), onFailure, amount, no.now));
    CreditLaw(h, w2, sender, arrival, Plain, id, amount, owner, if lane.ForRegistry? then response else sender);
  }

  /** Nothing but its own query id and amount settles an escrow: any other answer under its key is refused. */
  lemma OnlyItsOwnAnswers(h: Hashing, w: Wallet, owner: Address, c: Context, lane: Lane, q: nat, amount: nat,
                          sender: Address, response: Address, answer: Context, q2: nat, amount2: nat, lane2: Lane,
                          payer: Address)
    requires Escrowed(h, w, owner, c, lane, q, amount, sender)
    ensures var held := Received(h, w, lane, q, amount, sender, response, c.now);
            var key := h.senderKey(q, sender);
            var its := h.senderKey(q2, sender) == key;
            (WalletStep(h, held, owner, answer, NotificationAck(q2, amount2, key), false).Done? <==>
             answer.sender == owner && amount2 == amount && its) &&
            (WalletStep(h, held, owner, answer, NotificationRefund(q2, amount2, key), false).Done? ==>
               answer.sender == owner && amount2 == amount && its) &&
            (WalletStep(h, held, owner, answer, Notification(lane2, q2, key, amount2, payer), true).Done? ==>
               answer.sender == owner && its) &&
            (WalletStep(h, held, owner, answer, PruneStale(q2, key), false).Done? ==> its)
  {
    hide CreditStep, RequestStep, Debit;
  }

  /** Answers that come too late: an acceptance of the owner's is taken and does nothing, all else is refused. */
  lemma LateAnswers(h: Hashing, w: Wallet, owner: Address, answer: Context, q: nat, amount: nat, key: nat, lane: Lane,
                    payer: Address)
    requires key !in w.pending
    ensures var yes := WalletStep(h, w, owner, answer, NotificationAck(q, amount, key), false);
            (yes.Done? <==> answer.sender == owner && amount > 0) && (yes.Done? ==> yes == Done(w, [])) &&
            WalletStep(h, w, owner, answer, NotificationRefund(q, amount, key), false).Throw? &&
            WalletStep(h, w, owner, answer, Notification(lane, q, key, amount, payer), true).Throw? &&
            WalletStep(h, w, owner, answer, PruneStale(q, key), false).Throw?
  {
    hide CreditStep, RequestStep, Debit;
  }

  // ---------------------------------------------------------------- a burn, told to its end

  /** A burn is accepted exactly when the owner may make it, and its amount is then on the way to the master. */
  lemma BurnLaw(h: Hashing, w: Wallet, owner: Address, c: Context, q: nat, amount: nat, response: Address)
    ensures var r := WalletStep(h, w, owner, c, Burn(q, amount, response), false);
            (r.Done? <==> c.sender == owner == response && 0 < amount <= w.balance && c.value >= 4_000_000) &&
            (r.Done? ==>
               r == Done(Wallet(w.balance - amount, w.outgoing, w.pending),
                         [Send(Master, true, Exactly(c.value - 2_000_000), BurnNotification(q, amount, owner, owner))]))
  {
  }

  /** It completes: the supply falls by it and the owner is told; or it comes back and the wallet is as it was. */
  lemma BurnCompletes(h: Hashing, w: Wallet, owner: Address, q: nat, amount: nat, m: Ledger, treasury: Address,
                      arrival: Context, back: Context)
    requires 0 < amount <= w.balance && arrival.sender == WalletOf(owner) && back.sender == Master
    ensures var notice := BurnNotification(q, amount, owner, owner);
            var r := MasterStep(m, treasury, arrival, notice, false);
            (r.MasterDone? <==> arrival.value >= 2_000_000 && m.totalSupply >= amount) &&
            (r.MasterDone? ==>
               r == MasterDone(Ledger(m.totalSupply - amount, m.deployed),
                               [Send(owner, true, Remaining, BurnFinalized(q, amount, owner))])) &&
            WalletStep(h, Wallet(w.balance - amount, w.outgoing, w.pending), owner, back, notice, true) ==
            Done(w, [Send(owner, true, Remaining, BurnFailed(q, amount))])
  {
  }

  /** The master takes a burn exactly from the wallet of its holder, and a wallet takes one back from the master. */
  lemma BurnNoticeLaw(h: Hashing, w: Wallet, owner: Address, m: Ledger, treasury: Address, c: Context, q: nat,
                      amount: nat, holder: Address, response: Address)
    ensures var notice := BurnNotification(q, amount, holder, response);
            var r := MasterStep(m, treasury, c, notice, false);
            (r.MasterDone? <==> 0 < amount <= m.totalSupply && c.sender == WalletOf(holder) && c.value >= 2_000_000) &&
            (WalletStep(h, w, owner, c, notice, true).Done? <==> amount > 0 && c.sender == Master)
  {
  }

  // ---------------------------------------------------------------- the genesis, told to its end

  /** The supply is deployed exactly once, exactly when the treasury orders it to itself. */
  lemma GenesisLaw(m: Ledger, treasury: Address, c: Context, q: nat, response: Address)
    ensures var r := MasterStep(m, treasury, c, DeploySupply(q, response), false);
            (r.MasterDone? <==> c.sender == treasury == response && !m.deployed &&
                                m.totalSupply == 100_000_000_000_000_000 && c.value >= 11_000_000) &&
            (r.MasterDone? ==>
               r == MasterDone(Ledger(m.totalSupply, true),
                               [Send(WalletOf(treasury), true, Exactly(c.value - 8_000_000),
                                     GenesisCredit(q, m.totalSupply, treasury))]))
  {
  }

  /** A wallet takes a genesis credit exactly from the master, while it is empty. */
  lemma GenesisCreditLaw(h: Hashing, w: Wallet, owner: Address, c: Context, q: nat, amount: nat, response: Address)
    ensures WalletStep(h, w, owner, c, GenesisCredit(q, amount, response), false).Done? <==>
            c.sender == Master && amount > 0 && w.balance == 0 && c.value >= 3_000_000
  {
  }

  /** It completes: an empty wallet of the treasury gets all of it; or it comes back and may be ordered again. */
  lemma GenesisCompletes(h: Hashing, w: Wallet, m: Ledger, treasury: Address, q: nat, arrival: Context, back: Context)
    requires m.totalSupply > 0 && m.deployed && arrival.sender == Master && back.sender == WalletOf(treasury)
    ensures var credit := GenesisCredit(q, m.totalSupply, treasury);
            var r := WalletStep(h, w, treasury, arrival, credit, false);
            (r.Done? <==> w.balance == 0 && arrival.value >= 3_000_000) &&
            (r.Done? ==>
               r == Done(Wallet(m.totalSupply, w.outgoing, w.pending),
                         [Send(treasury, false, Exactly(1_000_000), GenesisAck(q, m.totalSupply, treasury))])) &&
            MasterStep(m, treasury, back, credit, true) ==
            MasterDone(Ledger(m.totalSupply, false),
                       if back.value >= 100_000 then [Send(treasury, false, Remaining, Empty)] else [])
  {
  }
}
