/**
 The ATH wallet and master as the objects they are: fields changed statement by statement, a handler that
 may throw half way, and a transaction that keeps all of it or nothing.  Each is proved against its
 transition function in AthProtocol, and a whole history of messages against what AthEscrow and AthOutgoing
 say of histories.
 */
module AthContracts {
  import AthEscrow
  import AthOutgoing
  import opened AthProtocol
  import opened Transactions

  /** The handler did what `o` says: the same throw, or the same fields and the same messages. */
  ghost predicate Agrees(o: Outcome, s: Status, w: Wallet, outbox: seq<Send>) {
    match o
    case Done(w2, sends) => s == Okay && w == w2 && outbox == sends
    case Throw(code) => s == Thrown(code)
  }

  class AthWallet {
    const hashing: Hashing
    const owner: Address
    var balance: nat
    var pendingNotifications: map<nat, Escrow>
    var pendingOutgoing: map<OutgoingKey, Outgoing>
    var outbox: seq<Send>

    constructor (hashing: Hashing, owner: Address)
      ensures View() == Wallet(0, map[], map[]) && outbox == []
      ensures this.hashing == hashing && this.owner == owner
    {
      this.hashing, this.owner := hashing, owner;
      balance, pendingNotifications, pendingOutgoing, outbox := 0, map[], map[], [];
    }

    function View(): Wallet
      reads this
    {
      Wallet(balance, pendingOutgoing, pendingNotifications)
    }

    // ------------------------------------------------------------- shared steps

    method Emit(to: Address, bounce: bool, value: Attached, body: Body)
      modifies `outbox
      ensures outbox == old(outbox) + [Send(to, bounce, value, body)]
    {
      outbox := outbox + [Send(to, bounce, value, body)];
    }

    function RequireBasechain(recipient: Address, response: Address): Status {
      if !owner.Basechain() then Thrown(14600)
      else if !recipient.Basechain() then Thrown(14601)
      else if !response.Basechain() then Thrown(14602)
      else Okay
    }

    method StorePendingOutgoing(q: nat, amount: nat, recipientWallet: Address, response: Address, now: nat)
      returns (s: Status)
      modifies `pendingOutgoing
      ensures s == ThrowUnless(14230, (q, recipientWallet) !in old(pendingOutgoing))
      ensures s.Okay? ==> pendingOutgoing ==
                          old(pendingOutgoing)[(q, recipientWallet) := Outgoing(recipientWallet, response, amount, now)]
    {
      s := Okay;
      :- ThrowUnless(14230, (q, recipientWallet) !in pendingOutgoing);
      pendingOutgoing := pendingOutgoing[(q, recipientWallet) := Outgoing(recipientWallet, response, amount, now)];
    }

    /** Debits the owner and sends the tokens on their way, once the gates of a lane have passed. */
    method Launch(c: Context, lane: Lane, q: nat, amount: nat, recipient: Address, response: Address, value: nat)
      returns (s: Status)
      requires outbox == [] && RequestGate(View(), owner, c, lane, amount, recipient, response) == Pass
      requires amount <= balance && c.value >= OWNER_EXEC_RESERVE && value == LaunchValue(c, lane)
      modifies this
      ensures s == ThrowUnless(14230, (q, WalletOf(recipient)) !in old(pendingOutgoing))
      ensures s.Okay? ==>
                View() == Debit(old(View()), (q, WalletOf(recipient)), amount, response, c.now) &&
                outbox == [Send(WalletOf(recipient), true, Exactly(value), Internal(lane, q, amount, owner, response))]
    {
      var recipientWallet := WalletOf(recipient);
      :- StorePendingOutgoing(q, amount, recipientWallet, response, c.now);
      balance := balance - amount;
      Emit(recipientWallet, true, Exactly(value), Internal(lane, q, amount, owner, response));
      s := Okay;
    }

    method RefundOwnerExcess(destination: Address, amount: int)
      modifies `outbox
      ensures outbox == old(outbox) + (if amount < OWNER_EXCESS_MIN then []
                                       else [Send(destination, false, Exactly(amount), Empty)])
    {
      if amount < OWNER_EXCESS_MIN {
        return;
      }
      Emit(destination, false, Exactly(amount), Empty);
    }

    method SendSourceWalletAck(c: Context, q: nat, amount: nat)
      modifies `outbox
      ensures outbox == old(outbox) + [SourceAck(c, q, amount)]
    {
      Emit(c.sender, false, Exactly(SOURCE_ACK_VALUE), TransferAck(q, amount));
    }

    method ReturnNotifyLaneExcess(c: Context, q: nat, destination: Address, required: nat)
      modifies `outbox
      ensures var excess := c.value - required - c.forwardFee;
              outbox == old(outbox) + (if excess < EXCESS_MIN then []
                                       else [Send(destination, false, Exactly(excess), TransferExcess(q))])
    {
      var excess := c.value - required - c.forwardFee;
      if excess < EXCESS_MIN {
        return;
      }
      Emit(destination, false, Exactly(excess), TransferExcess(q));
    }

    // ------------------------------------------------------------- the owner's requests

    method TransferRequest(c: Context, q: nat, amount: nat, recipient: Address, response: Address) returns (s: Status)
      requires outbox == []
      modifies this
      ensures Agrees(RequestStep(old(View()), owner, c, Plain, q, amount, recipient, response), s, View(), outbox)
    {
      s := Okay;
      :- ThrowUnless(14200, c.sender == owner);
      :- ThrowUnless(14201, response == owner);
      :- RequireBasechain(recipient, response);
      :- ThrowUnless(14202, amount > 0);
      :- ThrowUnless(14203, balance >= amount);
      var required := OWNER_EXEC_RESERVE + ARRIVAL_MIN + FORWARD_FEE_ALLOWANCE;
      :- ThrowUnless(14204, c.value >= required);
      s := Launch(c, Plain, q, amount, recipient, response, c.value - OWNER_EXEC_RESERVE);
    }

    method TransferRequestWithNotify(c: Context, q: nat, amount: nat, recipient: Address, response: Address,
                                     destination: Address, notifyValue: nat) returns (s: Status)
      requires outbox == []
      modifies this
      ensures Agrees(RequestStep(old(View()), owner, c, Notify(destination, notifyValue), q, amount,
                                 recipient, response),
                     s, View(), outbox)
    {
      s := Okay;
      :- ThrowUnless(14300, c.sender == owner);
      :- ThrowUnless(14301, response == owner);
      :- ThrowUnless(14302, destination == recipient);
      :- RequireBasechain(recipient, response);
      :- ThrowUnless(14303, amount > 0);
      :- ThrowUnless(14304, notifyValue > 0);
      :- ThrowUnless(14305, balance >= amount);
      :- ThrowUnless(14306, notifyValue >= NOTIFY_MIN_VALUE);
      var downstream := NotifyArrival(notifyValue);
      var required := downstream + NOTIFY_OWNER_EXEC_RESERVE;
      :- ThrowUnless(14307, c.value >= required);
      :- Launch(c, Notify(destination, notifyValue), q, amount, recipient, response, downstream);
      RefundOwnerExcess(response, c.value - required);
    }

    method TransferRequestRegistry(c: Context, registry: Registry, q: nat, amount: nat, recipient: Address,
                                   response: Address, notifyValue: nat, ownerWallet: Address) returns (s: Status)
      requires outbox == []
      modifies this
      ensures Agrees(RequestStep(old(View()), owner, c, ForRegistry(registry, notifyValue, ownerWallet), q, amount,
                                 recipient, response),
                     s, View(), outbox)
    {
      var base := Base(registry, true);
      :- ThrowUnless(base, c.sender == owner);
      :- ThrowUnless(base + 1, response == owner);
      :- RequireBasechain(recipient, response);
      :- ThrowUnless(base + 2, ownerWallet.Basechain());
      :- ThrowUnless(base + 3, amount > 0);
      :- ThrowUnless(base + 4, notifyValue > 0);
      :- ThrowUnless(base + 5, balance >= amount);
      :- ThrowUnless(base + 6, notifyValue >= NOTIFY_MIN_VALUE);
      var downstream := RegistryArrival(notifyValue) + REGISTRY_FEE_ALLOWANCE;
      var required := downstream + NOTIFY_OWNER_EXEC_RESERVE;
      :- ThrowUnless(base + 7, c.value >= required);
      :- Launch(c, ForRegistry(registry, notifyValue, ownerWallet), q, amount, recipient, response, downstream);
      RefundOwnerExcess(response, c.value - required);
      s := Okay;
    }

    method JettonTransfer(c: Context, q: nat, amount: nat, destination: Address, response: Address, forwardTon: nat)
      returns (s: Status)
      requires outbox == []
      modifies this
      ensures Agrees(RequestStep(old(View()), owner, c, Jetton(forwardTon), q, amount, destination, response),
                     s, View(), outbox)
    {
      s := Okay;
      :- ThrowUnless(14700, c.sender == owner);
      :- RequireBasechain(destination, response);
      :- ThrowUnless(14701, amount > 0);
      :- ThrowUnless(14702, balance >= amount);
      :- ThrowUnless(14703, forwardTon < c.value);
      var arrivalMin := INTERNAL_EXEC_RESERVE + SOURCE_ACK_VALUE + STORAGE_ENDOWMENT;
      if forwardTon > 0 {
        arrivalMin := forwardTon + SOURCE_ACK_VALUE + NOTIFY_EXEC_RESERVE + STORAGE_ENDOWMENT + c.forwardFee;
      }
      :- ThrowUnless(14704, c.value >= OWNER_EXEC_RESERVE + arrivalMin + FORWARD_FEE_ALLOWANCE);
      s := Launch(c, Jetton(forwardTon), q, amount, destination, response, c.value - OWNER_EXEC_RESERVE);
    }

    // ------------------------------------------------------------- credits

    method InternalTransfer(c: Context, q: nat, amount: nat, sender: Address, response: Address) returns (s: Status)
      requires outbox == []
      modifies this
      ensures Agrees(CreditStep(hashing, old(View()), owner, c, Plain, q, amount, sender, response), s, View(), outbox)
    {
      s := Okay;
      :- ThrowUnless(14210, amount > 0);
      :- ThrowUnless(14211, c.sender == WalletOf(sender));
      :- ThrowUnless(14212, c.value >= ARRIVAL_MIN);
      balance := balance + amount;
      Emit(response, false, Exactly(INTERNAL_ACK_VALUE), TransferAck(q, amount));
      SendSourceWalletAck(c, q, amount);
      var excess := c.value - ARRIVAL_MIN;
      if excess >= EXCESS_MIN {
        Emit(response, false, Exactly(excess), TransferExcess(q));
      }
    }

    /** Credits and tells everyone, once the gates of the TEP-74 lane have passed. */
    method AdmitJetton(c: Context, q: nat, amount: nat, sender: Address, response: Address, forwardTon: nat)
      requires outbox == [] && c.value >= JettonArrival(forwardTon, c.forwardFee)
      modifies this
      ensures var lane := Jetton(forwardTon);
              View() == Credit(hashing, old(View()), lane, q, amount, sender, response, c.now) &&
              outbox == CreditNotices(hashing, owner, lane, q, amount, sender, response) + [SourceAck(c, q, amount)]
                        + CreditExcess(c, lane, q, response)
    {
      balance := balance + amount;
      if forwardTon > 0 {
        Emit(owner, false, Exactly(forwardTon), JettonNotification(q, amount, sender));
      }
      SendSourceWalletAck(c, q, amount);
      var consumed := INTERNAL_EXEC_RESERVE + SOURCE_ACK_VALUE + STORAGE_ENDOWMENT;
      if forwardTon > 0 {
        consumed := forwardTon + SOURCE_ACK_VALUE + NOTIFY_EXEC_RESERVE + STORAGE_ENDOWMENT + c.forwardFee;
      }
      var excess := c.value - consumed;
      if excess >= EXCESS_MIN {
        Emit(response, false, Exactly(excess), JettonExcesses(q));
      }
    }

    method JettonInternalTransfer(c: Context, q: nat, amount: nat, sender: Address, response: Address, forwardTon: nat)
      returns (s: Status)
      requires outbox == []
      modifies this
      ensures Agrees(CreditStep(hashing, old(View()), owner, c, Jetton(forwardTon), q, amount, sender, response),
                     s, View(), outbox)
    {
      hide Credit, CreditNotices, CreditExcess, PlainCreditGate, NotifyCreditGate, RegistryCreditGate;
      s := Okay;
      :- ThrowUnless(14710, amount > 0);
      :- ThrowUnless(14711, c.sender == WalletOf(sender));
      :- ThrowUnless(14712, sender.Basechain());
      if forwardTon > 0 {
        :- ThrowUnless(14713, forwardTon < c.value);
        var required := forwardTon + SOURCE_ACK_VALUE + NOTIFY_EXEC_RESERVE + STORAGE_ENDOWMENT + c.forwardFee;
        :- ThrowUnless(14714, c.value >= required);
      } else {
        :- ThrowUnless(14717, c.value >= INTERNAL_EXEC_RESERVE + SOURCE_ACK_VALUE + STORAGE_ENDOWMENT);
      }
      AdmitJetton(c, q, amount, sender, response, forwardTon);
    }

    /** Credits, holds the escrow and tells everyone, once the gates of the notified lane have passed. */
    method AdmitNotified(c: Context, q: nat, amount: nat, sender: Address, response: Address,
                         destination: Address, notifyValue: nat)
      requires outbox == []
      modifies this
      ensures var lane := Notify(destination, notifyValue);
              View() == Credit(hashing, old(View()), lane, q, amount, sender, response, c.now) &&
              outbox == CreditNotices(hashing, owner, lane, q, amount, sender, response) + [SourceAck(c, q, amount)]
                        + CreditExcess(c, lane, q, response)
    {
      var key := hashing.senderKey(q, sender);
      balance := balance + amount;
      pendingNotifications := pendingNotifications[key := Escrow(sender, response, NOTIFY_ACK_VALUE, amount, c.now)];
      Emit(destination, true, Exactly(notifyValue),
           Notification(Notify(destination, notifyValue), q, key, amount, sender));
      Emit(response, false, Exactly(NOTIFY_ACK_VALUE), TransferAck(q, amount));
      SendSourceWalletAck(c, q, amount);
      ReturnNotifyLaneExcess(c, q, response, NotifyArrival(notifyValue));
    }

    /** The same for a registry lane, which acknowledges to nobody else. */
    method AdmitRegistry(c: Context, registry: Registry, q: nat, amount: nat, sender: Address, response: Address,
                         notifyValue: nat, ownerWallet: Address)
      requires outbox == []
      modifies this
      ensures var lane := ForRegistry(registry, notifyValue, ownerWallet);
              View() == Credit(hashing, old(View()), lane, q, amount, sender, response, c.now) &&
              outbox == CreditNotices(hashing, owner, lane, q, amount, sender, response) + [SourceAck(c, q, amount)]
                        + CreditExcess(c, lane, q, response)
    {
      var key := hashing.senderKey(q, sender);
      balance := balance + amount;
      pendingNotifications := pendingNotifications[key := Escrow(sender, response, REGISTRY_ACK_VALUE, amount, c.now)];
      Emit(owner, true, Exactly(notifyValue),
           Notification(ForRegistry(registry, notifyValue, ownerWallet), q, key, amount, sender));
      SendSourceWalletAck(c, q, amount);
      ReturnNotifyLaneExcess(c, q, response, RegistryArrival(notifyValue));
    }

    method InternalTransferWithNotify(c: Context, q: nat, amount: nat, sender: Address, response: Address,
                                      destination: Address, notifyValue: nat) returns (s: Status)
      requires outbox == []
      modifies this
      ensures Agrees(CreditStep(hashing, old(View()), owner, c, Notify(destination, notifyValue), q, amount,
                                sender, response),
                     s, View(), outbox)
    {
      hide Credit, CreditNotices, CreditExcess, NotifyArrival, PlainCreditGate, RegistryCreditGate, JettonCreditGate;
      s := Okay;
      :- ThrowUnless(14310, amount > 0);
      :- ThrowUnless(14311, c.sender == WalletOf(sender));
      :- ThrowUnless(14312, destination == owner);
      :- ThrowUnless(14313, notifyValue > 0);
      :- ThrowUnless(14314, c.value >= NotifyArrival(notifyValue));
      var key := hashing.senderKey(q, sender);
      :- ThrowUnless(14315, key !in pendingNotifications);
      :- ThrowUnless(14316, notifyValue >= NOTIFY_MIN_VALUE);
      AdmitNotified(c, q, amount, sender, response, destination, notifyValue);
    }

    method InternalTransferRegistry(c: Context, registry: Registry, q: nat, amount: nat, sender: Address,
                                    response: Address, notifyValue: nat, ownerWallet: Address) returns (s: Status)
      requires outbox == []
      modifies this
      ensures Agrees(CreditStep(hashing, old(View()), owner, c, ForRegistry(registry, notifyValue, ownerWallet), q,
                                amount, sender, response),
                     s, View(), outbox)
    {
      hide Credit, CreditNotices, CreditExcess, RegistryArrival, PlainCreditGate, NotifyCreditGate, JettonCreditGate;
      s := Okay;
      var base := Base(registry, false);
      :- ThrowUnless(base, amount > 0);
      :- ThrowUnless(base + 1, c.sender == WalletOf(sender));
      :- ThrowUnless(base + 2, notifyValue > 0);
      :- ThrowUnless(base + 3, c.value >= RegistryArrival(notifyValue));
      :- ThrowUnless(base + 4, ownerWallet.Basechain());
      var key := hashing.senderKey(q, sender);
      :- ThrowUnless(base + 5, key !in pendingNotifications);
      :- ThrowUnless(base + 6, notifyValue >= NOTIFY_MIN_VALUE);
      AdmitRegistry(c, registry, q, amount, sender, response, notifyValue, ownerWallet);
    }

    // ------------------------------------------------------------- ends of an outgoing entry

    method NotifyFailure(response: Address, q: nat, amount: nat)
      requires outbox == []
      modifies `outbox
      ensures outbox == FailureNotice(owner, response, q, amount)
    {
      if response != WalletOf(owner) {
        Emit(response, true, Remaining, TransferFailed(q, amount));
      }
    }

    method RestoreBouncedOutgoing(c: Context, q: nat, amount: nat) returns (s: Status)
      requires outbox == []
      modifies this
      ensures Agrees(BouncedTransferStep(old(View()), owner, c, q, amount), s, View(), outbox)
    {
      s := Okay;
      :- ThrowUnless(14220, amount > 0);
      var key := (q, c.sender);
      :- ThrowUnless(14221, key in pendingOutgoing);
      var entry := pendingOutgoing[key];
      :- ThrowUnless(14222, entry.amount == amount);
      :- ThrowUnless(14223, c.sender == entry.recipientWallet);
      pendingOutgoing := pendingOutgoing - {key};
      balance := balance + amount;
      NotifyFailure(entry.response, q, amount);
    }

    method ConfirmTransfer(c: Context, q: nat, amount: nat) returns (s: Status)
      requires outbox == []
      modifies this
      ensures Agrees(TransferAckStep(old(View()), c, q, amount), s, View(), outbox)
    {
      s := Okay;
      :- ThrowUnless(14240, amount > 0);
      var key := (q, c.sender);
      :- ThrowUnless(14241, key in pendingOutgoing);
      var entry := pendingOutgoing[key];
      :- ThrowUnless(14242, entry.amount == amount);
      :- ThrowUnless(14243, c.sender == entry.recipientWallet);
      pendingOutgoing := pendingOutgoing - {key};
    }

    method RecoverStuckOutgoing(c: Context, q: nat, recipientWallet: Address) returns (s: Status)
      requires outbox == []
      modifies this
      ensures Agrees(RecoverStep(old(View()), owner, c, q, recipientWallet), s, View(), outbox)
    {
      s := Okay;
      :- ThrowUnless(14250, c.value >= RECOVERY_MIN_VALUE);
      var key := (q, recipientWallet);
      :- ThrowUnless(14251, key in pendingOutgoing);
      var entry := pendingOutgoing[key];
      :- ThrowUnless(14252, c.now > entry.createdAt + RECOVERY_GRACE);
      pendingOutgoing := pendingOutgoing - {key};
      balance := balance + entry.amount;
      NotifyFailure(entry.response, q, entry.amount);
    }

    // ------------------------------------------------------------- ends of an escrow

    /** Balance and escrow change before the outgoing key is checked: a taken key throws with both changed. */
    method RefundPendingNotification(c: Context, q: nat, key: nat, amount: nat) returns (s: Status)
      requires outbox == []
      modifies this
      ensures Agrees(RefundStep(hashing, old(View()), owner, c, q, key, amount), s, View(), outbox)
    {
      s := Okay;
      :- ThrowUnless(14330, amount > 0);
      :- ThrowUnless(14332, key in pendingNotifications);
      var entry := pendingNotifications[key];
      :- ThrowUnless(14335, c.value >= INTERNAL_EXEC_RESERVE + NOTIFY_EXEC_RESERVE + entry.ackValue);
      :- ThrowUnless(14331, balance >= amount);
      :- ThrowUnless(14333, entry.amount == amount);
      :- ThrowUnless(14334, hashing.senderKey(q, entry.sender) == key);
      balance := balance - amount;
      pendingNotifications := pendingNotifications - {key};
      var refundWallet := WalletOf(entry.sender);
      var refundQueryId := hashing.refundId(q, key, refundWallet);
      var refundResponse, onFailure := entry.sender, entry.sender;
      if entry.ackValue == REGISTRY_ACK_VALUE {
        refundQueryId, refundResponse, onFailure := q, entry.response, WalletOf(owner);
      } else {
        Emit(entry.response, false, Exactly(entry.ackValue), TransferFailed(q, amount));
      }
      :- StorePendingOutgoing(refundQueryId, amount, refundWallet, onFailure, c.now);
      Emit(refundWallet, true, Remaining, Internal(Plain, refundQueryId, amount, owner, refundResponse));
    }

    method RefundNotification(c: Context, q: nat, key: nat, amount: nat) returns (s: Status)
      requires outbox == []
      modifies this
      ensures Agrees(OwnerRefundStep(hashing, old(View()), owner, c, q, key, amount), s, View(), outbox)
    {
      s := Okay;
      :- ThrowUnless(14346, c.sender == owner);
      :- ThrowUnless(14347, c.value >= REFUND_OWNER_MIN_VALUE);
      s := RefundPendingNotification(c, q, key, amount);
    }

    method BouncedNotification(c: Context, lane: Lane, q: nat, key: nat) returns (s: Status)
      requires outbox == []
      modifies this
      ensures Agrees(BouncedNotificationStep(hashing, old(View()), owner, c, lane, q, key), s, View(), outbox)
    {
      var code := if lane.ForRegistry? then (if lane.registry.MintUsername? then 14570 else 14670) else 14336;
      :- ThrowUnless(code, c.sender == owner);
      :- ThrowUnless(14337, key in pendingNotifications);
      var entry := pendingNotifications[key];
      :- ThrowUnless(14338, hashing.senderKey(q, entry.sender) == key);
      s := RefundPendingNotification(c, q, key, entry.amount);
    }

    method AckNotification(c: Context, q: nat, key: nat, amount: nat) returns (s: Status)
      requires outbox == []
      modifies this
      ensures Agrees(NotificationAckStep(hashing, old(View()), owner, c, q, key, amount), s, View(), outbox)
    {
      s := Okay;
      :- ThrowUnless(14340, c.sender == owner);
      :- ThrowUnless(14341, amount > 0);
      if key !in pendingNotifications {
        return Okay;
      }
      var entry := pendingNotifications[key];
      :- ThrowUnless(14343, entry.amount == amount);
      :- ThrowUnless(14344, hashing.senderKey(q, entry.sender) == key);
      pendingNotifications := pendingNotifications - {key};
      Emit(entry.response, false, Exactly(entry.ackValue), TransferAck(q, amount));
    }

    method PruneNotification(c: Context, q: nat, key: nat) returns (s: Status)
      requires outbox == []
      modifies this
      ensures Agrees(PruneStep(hashing, old(View()), c, q, key), s, View(), outbox)
    {
      s := Okay;
      :- ThrowUnless(14349, c.value >= PRUNE_EXEC_RESERVE);
      :- ThrowUnless(14350, key in pendingNotifications);
      var entry := pendingNotifications[key];
      :- ThrowUnless(14351, hashing.senderKey(q, entry.sender) == key);
      var ttl := if entry.ackValue == REGISTRY_ACK_VALUE then REGISTRY_TTL else NOTIFICATION_TTL;
      :- ThrowUnless(14352, c.now >= entry.createdAt + ttl);
      pendingNotifications := pendingNotifications - {key};
    }

    // ------------------------------------------------------------- burn and genesis

    method BurnTokens(c: Context, q: nat, amount: nat, response: Address) returns (s: Status)
      requires outbox == []
      modifies this
      ensures Agrees(BurnStep(old(View()), owner, c, q, amount, response), s, View(), outbox)
    {
      s := Okay;
      :- ThrowUnless(14000, c.sender == owner);
      :- ThrowUnless(14001, amount > 0);
      :- ThrowUnless(14002, balance >= amount);
      :- ThrowUnless(14005, response == owner);
      :- ThrowUnless(14006, c.value >= BURN_EXEC_RESERVE + OWNER_EXEC_RESERVE);
      balance := balance - amount;
      Emit(Master, true, Exactly(c.value - OWNER_EXEC_RESERVE), BurnNotification(q, amount, owner, response));
    }

    method BouncedBurn(c: Context, q: nat, amount: nat) returns (s: Status)
      requires outbox == []
      modifies this
      ensures Agrees(BouncedBurnStep(old(View()), owner, c, q, amount), s, View(), outbox)
    {
      s := Okay;
      :- ThrowUnless(14003, c.sender == Master);
      :- ThrowUnless(14004, amount > 0);
      balance := balance + amount;
      Emit(owner, true, Remaining, BurnFailed(q, amount));
    }

    method CreditGenesis(c: Context, q: nat, amount: nat, response: Address) returns (s: Status)
      requires outbox == []
      modifies this
      ensures Agrees(GenesisStep(old(View()), owner, c, q, amount, response), s, View(), outbox)
    {
      s := Okay;
      :- ThrowUnless(14400, c.sender == Master);
      :- ThrowUnless(14401, amount > 0);
      :- ThrowUnless(14402, balance == 0);
      :- ThrowUnless(14403, c.value >= GENESIS_EXEC_RESERVE + GENESIS_ACK_VALUE);
      balance := balance + amount;
      Emit(response, false, Exactly(GENESIS_ACK_VALUE), GenesisAck(q, amount, owner));
    }

    // ------------------------------------------------------------- the transaction

    method Dispatch(c: Context, body: Body) returns (s: Status)
      requires outbox == []
      modifies this
      ensures Agrees(ReceiveStep(hashing, old(View()), owner, c, body), s, View(), outbox)
    {
      hide RequestStep, CreditStep, TransferAckStep, RecoverStep, NotificationAckStep, OwnerRefundStep, PruneStep;
      hide BurnStep, GenesisStep;
      match body
      case Request(lane, q, amount, recipient, response) => {
        match lane
        case Plain => s := TransferRequest(c, q, amount, recipient, response);
        case Notify(d, v) => s := TransferRequestWithNotify(c, q, amount, recipient, response, d, v);
        case ForRegistry(r, v, o) => s := TransferRequestRegistry(c, r, q, amount, recipient, response, v, o);
        case Jetton(f) => s := JettonTransfer(c, q, amount, recipient, response, f);
      }
      case Internal(lane, q, amount, sender, response) => {
        match lane
        case Plain => s := InternalTransfer(c, q, amount, sender, response);
        case Notify(d, v) => s := InternalTransferWithNotify(c, q, amount, sender, response, d, v);
        case ForRegistry(r, v, o) => s := InternalTransferRegistry(c, r, q, amount, sender, response, v, o);
        case Jetton(f) => s := JettonInternalTransfer(c, q, amount, sender, response, f);
      }
      case TransferAck(q, amount) => s := ConfirmTransfer(c, q, amount);
      case RecoverStuck(q, recipientWallet) => s := RecoverStuckOutgoing(c, q, recipientWallet);
      case NotificationAck(q, amount, key) => s := AckNotification(c, q, key, amount);
      case NotificationRefund(q, amount, key) => s := RefundNotification(c, q, key, amount);
      case PruneStale(q, key) => s := PruneNotification(c, q, key);
      case Burn(q, amount, response) => s := BurnTokens(c, q, amount, response);
      case GenesisCredit(q, amount, response) => s := CreditGenesis(c, q, amount, response);
      case TopUp => s := Okay;
      case Empty => s := Thrown(EMPTY_TO_WALLET);
      case _ => s := Thrown(NO_RECEIVER);
    }

    method DispatchBounced(c: Context, body: Body) returns (s: Status)
      requires outbox == []
      modifies this
      ensures Agrees(BouncedStep(hashing, old(View()), owner, c, body), s, View(), outbox)
    {
      match body
      case Internal(_, q, amount, _, _) => s := RestoreBouncedOutgoing(c, q, amount);
      case Notification(lane, q, key, _, _) => s := BouncedNotification(c, lane, q, key);
      case BurnNotification(q, amount, _, _) => s := BouncedBurn(c, q, amount);
      case _ => s := Okay;
    }

    /** One transaction: a throw undoes every change and drops every message of its handler. */
    method Receive(c: Context, body: Body, bounced: bool) returns (s: Status)
      modifies this
      ensures Agrees(WalletStep(hashing, old(View()), owner, c, body, bounced), s, View(), outbox)
      ensures s.Thrown? ==> View() == old(View()) && outbox == []
    {
      var balance0, outgoing0, pending0 := balance, pendingOutgoing, pendingNotifications;
      outbox := [];
      if bounced {
        s := DispatchBounced(c, body);
      } else {
        s := Dispatch(c, body);
      }
      if s.Thrown? {
        balance, pendingOutgoing, pendingNotifications, outbox := balance0, outgoing0, pending0, [];
      }
    }

    /** A life of the wallet: message after message, every escrow and every entry settles once. */
    method Process(history: seq<Arrival>)
      modifies this
      ensures View() == ApplyAll(hashing, old(View()), owner, history)
      ensures forall key: nat :: EscrowSettles(hashing, old(View()), owner, history, View(), key)
      ensures forall key: OutgoingKey :: EntrySettles(hashing, old(View()), owner, history, View(), key)
    {
      ghost var start := View();
      var i := 0;
      while i < |history|
        invariant 0 <= i <= |history|
        invariant ApplyAll(hashing, View(), owner, history[i..]) == ApplyAll(hashing, start, owner, history)
      {
        hide WalletStep;
        assert history[i..][1..] == history[i + 1..];
        var s := Receive(history[i].context, history[i].body, history[i].bounced);
        i := i + 1;
      }
      Settlements(hashing, start, owner, history);
    }
  }

  /** Openings of the escrow under `key` are its acceptances, refunds and prunings and the one still open. */
  ghost predicate EscrowSettles(h: Hashing, w: Wallet, owner: Address, history: seq<Arrival>, end: Wallet, key: nat) {
    AthEscrow.IsOpen(w, key) + AthEscrow.Times(h, w, owner, history, key, AthEscrow.Opened) ==
    AthEscrow.Times(h, w, owner, history, key, AthEscrow.Accepted) +
    AthEscrow.Times(h, w, owner, history, key, AthEscrow.Refunded) +
    AthEscrow.Times(h, w, owner, history, key, AthEscrow.Pruned) + AthEscrow.IsOpen(end, key)
  }

  /** Openings of the entry under `key` are its confirmations, bounces and recoveries and the one still open. */
  ghost predicate EntrySettles(h: Hashing, w: Wallet, owner: Address, history: seq<Arrival>, end: Wallet,
                               key: OutgoingKey)
  {
    AthOutgoing.IsOpen(w, key) + AthOutgoing.Times(h, w, owner, history, key, AthOutgoing.Opened) ==
    AthOutgoing.Times(h, w, owner, history, key, AthOutgoing.Confirmed) +
    AthOutgoing.Times(h, w, owner, history, key, AthOutgoing.BouncedBack) +
    AthOutgoing.Times(h, w, owner, history, key, AthOutgoing.Recovered) + AthOutgoing.IsOpen(end, key)
  }

  lemma Settlements(h: Hashing, w: Wallet, owner: Address, history: seq<Arrival>)
    ensures forall key: nat :: EscrowSettles(h, w, owner, history, ApplyAll(h, w, owner, history), key)
    ensures forall key: OutgoingKey :: EntrySettles(h, w, owner, history, ApplyAll(h, w, owner, history), key)
  {
    forall key: nat
      ensures EscrowSettles(h, w, owner, history, ApplyAll(h, w, owner, history), key)
    {
      AthEscrow.EscrowsEndOnce(h, w, owner, history, key);
    }
    forall key: OutgoingKey
      ensures EntrySettles(h, w, owner, history, ApplyAll(h, w, owner, history), key)
    {
      AthOutgoing.EntriesEndOnce(h, w, owner, history, key);
    }
  }

  ghost predicate MasterAgrees(o: MasterOutcome, s: Status, m: Ledger, outbox: seq<Send>) {
    match o
    case MasterDone(m2, sends) => s == Okay && m == m2 && outbox == sends
    case MasterThrow(code) => s == Thrown(code)
  }

  class AthMaster {
    const treasury: Address
    var totalSupply: nat
    var treasurySupplyDeployed: bool
    var outbox: seq<Send>

    /** A treasury outside the basechain cannot be deployed (14104). */
    constructor (treasury: Address)
      requires treasury.Basechain()
      ensures View() == Ledger(TOTAL_SUPPLY, false) && outbox == [] && this.treasury == treasury
    {
      this.treasury := treasury;
      totalSupply, treasurySupplyDeployed, outbox := TOTAL_SUPPLY, false, [];
    }

    function View(): Ledger
      reads this
    {
      Ledger(totalSupply, treasurySupplyDeployed)
    }

    method Emit(to: Address, bounce: bool, value: Attached, body: Body)
      modifies `outbox
      ensures outbox == old(outbox) + [Send(to, bounce, value, body)]
    {
      outbox := outbox + [Send(to, bounce, value, body)];
    }

    method FinalizeBurn(c: Context, q: nat, amount: nat, holder: Address, response: Address) returns (s: Status)
      requires outbox == []
      modifies this
      ensures MasterAgrees(FinalizeBurnStep(old(View()), c, q, amount, holder, response), s, View(), outbox)
    {
      s := Okay;
      :- ThrowUnless(14100, amount > 0);
      :- ThrowUnless(14101, c.sender == WalletOf(holder));
      :- ThrowUnless(14102, totalSupply >= amount);
      :- ThrowUnless(14103, c.value >= BURN_EXEC_RESERVE);
      totalSupply := totalSupply - amount;
      Emit(response, true, Remaining, BurnFinalized(q, amount, holder));
    }

    method DeployTreasurySupply(c: Context, q: nat, response: Address) returns (s: Status)
      requires outbox == []
      modifies this
      ensures MasterAgrees(DeploySupplyStep(old(View()), treasury, c, q, response), s, View(), outbox)
    {
      s := Okay;
      :- ThrowUnless(14120, c.sender == treasury);
      :- ThrowUnless(14121, !treasurySupplyDeployed);
      :- ThrowUnless(14122, response == treasury);
      :- ThrowUnless(14123, totalSupply == TOTAL_SUPPLY);
      :- ThrowUnless(14124, c.value >= GENESIS_EXEC_RESERVE + GENESIS_ACK_VALUE + GENESIS_OWNER_EXEC_RESERVE);
      treasurySupplyDeployed := true;
      Emit(WalletOf(treasury), true, Exactly(c.value - GENESIS_OWNER_EXEC_RESERVE),
           GenesisCredit(q, totalSupply, response));
    }

    method BouncedGenesis(c: Context, amount: nat) returns (s: Status)
      requires outbox == []
      modifies this
      ensures MasterAgrees(BouncedGenesisStep(old(View()), treasury, c, amount), s, View(), outbox)
    {
      s := Okay;
      :- ThrowUnless(14130, c.sender == WalletOf(treasury));
      :- ThrowUnless(14131, amount == totalSupply);
      treasurySupplyDeployed := false;
      if c.value >= MASTER_EXCESS_MIN {
        Emit(treasury, false, Remaining, Empty);
      }
    }

    method Receive(c: Context, body: Body, bounced: bool) returns (s: Status)
      modifies this
      ensures MasterAgrees(MasterStep(old(View()), treasury, c, body, bounced), s, View(), outbox)
      ensures s.Thrown? ==> View() == old(View()) && outbox == []
    {
      var supply0, deployed0 := totalSupply, treasurySupplyDeployed;
      outbox := [];
      s := Okay;
      if bounced {
        if body.GenesisCredit? {
          s := BouncedGenesis(c, body.amount);
        }
      } else {
        match body
        case BurnNotification(q, amount, holder, response) => s := FinalizeBurn(c, q, amount, holder, response);
        case DeploySupply(q, response) => s := DeployTreasurySupply(c, q, response);
        case TopUp => {}
        case Empty => s := Thrown(EMPTY_TO_MASTER);
        case _ => s := Thrown(NO_RECEIVER);
      }
      if s.Thrown? {
        totalSupply, treasurySupplyDeployed, outbox := supply0, deployed0, [];
      }
    }
  }
}
