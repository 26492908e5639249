/**
 The books of one step: what each kind of message does to one wallet, and what settling its outcome does to
 the tracking and the totals of the network.
 */
module AthLedger {
  import opened Results
  import opened AthProtocol
  import opened Transactions
  import opened AthNetwork

  // ---------------------------------------------------------------- what one wallet step does

  /** A message that neither carries tokens nor answers for an entry. */
  ghost predicate Idle(s: Send) {
    !s.body.Internal? && !s.body.BurnNotification? && !s.body.GenesisCredit? && !s.body.Request? &&
    (s.body.TransferAck? ==> !s.to.WalletOf?)
  }

  ghost predicate AllIdle(sends: seq<Send>) {
    forall i | 0 <= i < |sends| :: Idle(sends[i])
  }

  /** Every message but the one at `at` is a notice. */
  ghost predicate IdleBut(sends: seq<Send>, at: nat) {
    at < |sends| && forall i | 0 <= i < |sends| && i != at :: Idle(sends[i])
  }

  /** A debit: one new entry, one message that carries exactly its tokens, and only notices besides. */
  ghost predicate Debited(w: Wallet, c: Context, w2: Wallet, sends: seq<Send>, at: nat) {
    IdleBut(sends, at) &&
    var s := sends[at];
    s.body.Internal? && s.to.WalletOf? && s.bounce &&
    var key := (s.body.queryId, s.to);
    key !in w.outgoing && key in w2.outgoing &&
    w2.outgoing == w.outgoing[key := w2.outgoing[key]] &&
    w2.outgoing[key].amount == s.body.amount && w2.outgoing[key].createdAt == c.now &&
    w2.outgoing[key].recipientWallet == s.to && s.body.amount > 0 &&
    w2.balance + s.body.amount == w.balance
  }

  lemma RequestDebits(w: Wallet, owner: Address, c: Context, body: Body)
    requires body.Request?
    requires RequestStep(w, owner, c, body.lane, body.queryId, body.amount, body.recipient, body.response).Done?
    ensures var r := RequestStep(w, owner, c, body.lane, body.queryId, body.amount, body.recipient, body.response);
            Debited(w, c, r.wallet, r.sends, 0) && r.wallet.pending == w.pending &&
            var b := r.sends[0].body;
            b.lane == body.lane && b.sender == owner == c.sender && (!body.lane.Jetton? ==> b.response == owner) &&
            b.queryId == body.queryId && r.sends[0].to == WalletOf(body.recipient)
  {
  }

  lemma RefundDebits(h: Hashing, w: Wallet, owner: Address, c: Context, q: nat, key: nat, amount: nat)
    requires RefundStep(h, w, owner, c, q, key, amount).Done?
    ensures var r := RefundStep(h, w, owner, c, q, key, amount);
            |r.sends| > 0 && Debited(w, c, r.wallet, r.sends, |r.sends| - 1) &&
            r.wallet.pending == w.pending - {key} && key in w.pending &&
            var s := r.sends[|r.sends| - 1];
            s.body.lane == Plain && s.body.sender == owner && (s.body.queryId, s.to) == RefundKey(h, w, q, key) &&
            (s.body.response == w.pending[key].sender || s.body.response == w.pending[key].response)
  {
  }

  /** A credit: the tokens go on the balance and one message acknowledges them to where they came from. */
  ghost predicate Credited(w: Wallet, c: Context, body: Body, w2: Wallet, sends: seq<Send>, at: nat)
    requires body.Internal?
  {
    IdleBut(sends, at) && sends[at] == SourceAck(c, body.queryId, body.amount) &&
    w2.outgoing == w.outgoing && w2.balance == w.balance + body.amount && body.amount > 0 &&
    c.sender == WalletOf(body.sender)
  }

  lemma CreditCredits(h: Hashing, w: Wallet, owner: Address, c: Context, body: Body) returns (at: nat)
    requires body.Internal? && (!body.lane.Jetton? ==> body.response.User?)
    requires CreditStep(h, w, owner, c, body.lane, body.queryId, body.amount, body.sender, body.response).Done?
    ensures var r := CreditStep(h, w, owner, c, body.lane, body.queryId, body.amount, body.sender, body.response);
            Credited(w, c, body, r.wallet, r.sends, at)
  {
    hide NotifyCreditGate, RegistryCreditGate, JettonCreditGate, PlainCreditGate, Consumed;
    var notices := CreditNotices(h, owner, body.lane, body.queryId, body.amount, body.sender, body.response);
    at := |notices|;
    assert AllIdle(notices) && AllIdle(CreditExcess(c, body.lane, body.queryId, body.response));
    CreditGateFacts(h, w, owner, c, body);
  }

  lemma CreditGateFacts(h: Hashing, w: Wallet, owner: Address, c: Context, body: Body)
    requires body.Internal?
    requires CreditGate(h, w, owner, c, body.lane, body.queryId, body.amount, body.sender).Pass?
    ensures body.amount > 0 && c.sender == WalletOf(body.sender)
    ensures Escrows(body.lane) ==> h.senderKey(body.queryId, body.sender) !in w.pending
  {
  }

  /** An entry ends: it goes, and its amount comes back unless it was acknowledged. */
  ghost predicate Closed(w: Wallet, id: OutgoingKey, restored: bool, w2: Wallet, sends: seq<Send>) {
    id in w.outgoing && AllIdle(sends) && w2.outgoing == w.outgoing - {id} && w2.pending == w.pending &&
    w2.balance == w.balance + (if restored then w.outgoing[id].amount else 0)
  }

  lemma ClosingCloses(h: Hashing, w: Wallet, owner: Address, c: Context, body: Body, bounced: bool)
    requires Closing(body, bounced) && WalletStep(h, w, owner, c, body, bounced).Done?
    ensures var r := WalletStep(h, w, owner, c, body, bounced);
            Closed(w, ClosingKey(body, c), !body.TransferAck?, r.wallet, r.sends)
    ensures body.RecoverStuck? ==> c.now > w.outgoing[ClosingKey(body, c)].createdAt + RECOVERY_GRACE
    ensures !body.RecoverStuck? ==> w.outgoing[ClosingKey(body, c)].amount == body.amount
  {
  }

  /** The other messages leave the entries alone; what leaves the balance is in the message sent. */
  ghost predicate Kept(w: Wallet, incoming: nat, w2: Wallet, sends: seq<Send>) {
    w2.outgoing == w.outgoing &&
    ((AllIdle(sends) && w2.balance == w.balance + incoming) ||
     (|sends| == 1 && sends[0].to == Master && sends[0].body.BurnNotification? && sends[0].bounce &&
      w2.balance + sends[0].body.amount == w.balance + incoming))
  }

  ghost function Incoming(body: Body, bounced: bool): nat {
    match body
    case GenesisCredit(_, amount, _) => if bounced then 0 else amount
    case BurnNotification(_, amount, _, _) => if bounced then amount else 0
    case _ => 0
  }

  ghost predicate Plainly(body: Body, bounced: bool) {
    !Opening(body, bounced) && !Closing(body, bounced) && !Crediting(body, bounced)
  }

  lemma OthersKeep(h: Hashing, w: Wallet, owner: Address, c: Context, body: Body, bounced: bool)
    requires WalletOk(w) && Plainly(body, bounced) && WalletStep(h, w, owner, c, body, bounced).Done?
    ensures var r := WalletStep(h, w, owner, c, body, bounced);
            Kept(w, Incoming(body, bounced), r.wallet, r.sends) &&
            (forall k | k in r.wallet.pending :: k in w.pending && r.wallet.pending[k] == w.pending[k])
    ensures Incoming(body, bounced) > 0 ==> c.sender == Master
  {
  }

  // ---------------------------------------------------------------- shapes kept

  lemma EscrowUsers(w: Wallet)
    requires WalletOk(w)
    ensures forall k | k in w.pending :: w.pending[k].sender.User? && w.pending[k].response.User?
  {
  }

  lemma DebitedMain(w: Wallet, c: Context, w2: Wallet, sends: seq<Send>, at: nat)
    requires Debited(w, c, w2, sends, at)
    ensures at < |sends| && sends[at].body.Internal? && sends[at].bounce
  {
  }

  lemma DebitedIsOk(w: Wallet, c: Context, w2: Wallet, sends: seq<Send>, at: nat)
    requires WalletOk(w) && Debited(w, c, w2, sends, at)
    requires forall k | k in w2.pending :: k in w.pending && w2.pending[k] == w.pending[k]
    ensures WalletOk(w2)
  {
  }

  lemma DebitShape(cfg: Config, w: Wallet, o: Address, c: Context, body: Body, bounced: bool) returns (at: nat)
    requires Opening(body, bounced) && WalletOk(w) && (body.Request? ==> c.sender.User?)
    requires WalletStep(cfg.hashing, w, o, c, body, bounced).Done?
    ensures var r := WalletStep(cfg.hashing, w, o, c, body, bounced);
            Debited(w, c, r.wallet, r.sends, at) && WalletOk(r.wallet) &&
            at < |r.sends| && r.sends[at].body.Internal? && PacketOk(cfg, Posted(WalletOf(o), r.sends[at])) &&
            OpeningKey(cfg.hashing, w, body) == (r.sends[at].body.queryId, r.sends[at].to)
  {
    hide RequestStep, RefundStep, Debited, WalletOk, RefundKey;
    var r := WalletStep(cfg.hashing, w, o, c, body, bounced);
    match body {
      case Request(_, _, _, _, _) =>
        RequestDebits(w, o, c, body);
        at := 0;
      case NotificationRefund(q, amount, key) =>
        RefundDebits(cfg.hashing, w, o, c, q, key, amount);
        at := |r.sends| - 1;
      case Notification(_, q, key, _, _) =>
        RefundDebits(cfg.hashing, w, o, c, q, key, w.pending[key].amount);
        at := |r.sends| - 1;
    }
    DebitedIsOk(w, c, r.wallet, r.sends, at);
    DebitedMain(w, c, r.wallet, r.sends, at);
    EscrowUsers(w);
  }

  lemma CreditIsOk(cfg: Config, w: Wallet, o: Address, c: Context, body: Body)
    requires WalletOk(w) && body.Internal? && (Escrows(body.lane) ==> body.sender.User? && body.response.User?)
    requires CreditStep(cfg.hashing, w, o, c, body.lane, body.queryId, body.amount, body.sender, body.response).Done?
    ensures var r := CreditStep(cfg.hashing, w, o, c, body.lane, body.queryId, body.amount, body.sender,
                                body.response);
            WalletOk(r.wallet)
  {
    hide CreditGate;
  }

  lemma ClosedIsOk(w: Wallet, id: OutgoingKey, restored: bool, w2: Wallet, sends: seq<Send>)
    requires WalletOk(w) && Closed(w, id, restored, w2, sends)
    ensures WalletOk(w2)
  {
  }

  lemma WalletAtOk(cfg: Config, n: Net, o: Address)
    requires ShapeOk(cfg, n)
    ensures WalletOk(WalletAt(n, o))
  {
  }

  // ---------------------------------------------------------------- posting

  lemma IdleIsShaped(cfg: Config, src: Address, s: Send)
    requires Idle(s) && !src.User?
    ensures PacketOk(cfg, Posted(src, s)) && Claim(Posted(src, s)).None? && Value(Posted(src, s)) == 0
  {
  }

  lemma PutSound(cfg: Config, n: Net, c: map<TransferId, nat>, hole: Option<TransferId>, p: Packet)
    requires Tracked(n, c, hole) && ShapeOk(cfg, n) && PacketOk(cfg, p) && Claim(p).None?
    ensures Tracked(Put(n, p), c, hole) && ShapeOk(cfg, Put(n, p)) && Books(Put(n, p)) == Books(n) + Value(p)
  {
    hide Claim, Value, PacketOk;
    PutTracked(n, c, hole, p);
    TravellingPut(n, p);
  }

  lemma {:induction false} PostIdle(cfg: Config, n: Net, c: map<TransferId, nat>, hole: Option<TransferId>,
                                    src: Address, sends: seq<Send>)
    requires Tracked(n, c, hole) && ShapeOk(cfg, n) && AllIdle(sends) && !src.User?
    ensures var n2 := Post(n, src, sends);
            Tracked(n2, c, hole) && ShapeOk(cfg, n2) && Books(n2) == Books(n) &&
            n2.wallets == n.wallets && n2.ledger == n.ledger && n2.now == n.now
    decreases |sends|
  {
    hide Claim, Value, PacketOk, Tracked, ShapeOk, Books, Idle;
    if |sends| > 0 {
      IdleIsShaped(cfg, src, sends[0]);
      PutSound(cfg, n, c, hole, Posted(src, sends[0]));
      PostIdle(cfg, Put(n, Posted(src, sends[0])), c, hole, src, sends[1..]);
    }
  }

  lemma {:induction false} PostSplit(n: Net, src: Address, a: seq<Send>, b: seq<Send>)
    ensures Post(n, src, a + b) == Post(Post(n, src, a), src, b)
    decreases |a|
  {
    if |a| == 0 {
      assert a + b == b;
    } else {
      assert (a + b)[1..] == a[1..] + b;
      PostSplit(Put(n, Posted(src, a[0])), src, a[1..], b);
    }
  }

  /** Messages are posted one by one: those before `at`, that one, and those after it. */
  lemma PostAround(n: Net, src: Address, sends: seq<Send>, at: nat)
    requires at < |sends|
    ensures Post(n, src, sends) == Post(Put(Post(n, src, sends[..at]), Posted(src, sends[at])), src, sends[at + 1..])
  {
    assert sends == sends[..at] + sends[at..] && sends[at..][1..] == sends[at + 1..];
    PostSplit(n, src, sends[..at], sends[at..]);
  }

  lemma AroundIsIdle(sends: seq<Send>, at: nat)
    requires IdleBut(sends, at)
    ensures AllIdle(sends[..at]) && AllIdle(sends[at + 1..])
  {
    hide Idle;
  }

  lemma AnsweringSound(cfg: Config, n: Net, c: map<TransferId, nat>, id: TransferId, p: Packet)
    requires Tracked(n, c, Some(id)) && ShapeOk(cfg, n) && PacketOk(cfg, p)
    requires Claim(p) == Some(id) && Has(n, id) && AmountOf(p.body) == Entry(n, id).amount
    ensures var m := Put(n, p);
            Tracked(m, c[id := n.next], None) && ShapeOk(cfg, m) && Books(m) == Books(n) + Value(p)
  {
    hide Claim, Value, PacketOk, AmountOf;
    PutTracked(n, c, Some(id), p);
    TravellingPut(n, p);
  }

  /** Posting notices around the one packet that answers for the open entry. */
  lemma PostAnswering(cfg: Config, n: Net, c: map<TransferId, nat>, id: TransferId, src: Address, sends: seq<Send>,
                      at: nat)
    returns (c2: map<TransferId, nat>)
    requires Tracked(n, c, Some(id)) && ShapeOk(cfg, n) && src.WalletOf? && IdleBut(sends, at)
    requires var p := Posted(src, sends[at]);
             Claim(p) == Some(id) && PacketOk(cfg, p) && AmountOf(p.body) == Entry(n, id).amount
    ensures var n2 := Post(n, src, sends);
            Tracked(n2, c2, None) && ShapeOk(cfg, n2) && n2.ledger == n.ledger &&
            Books(n2) == Books(n) + Value(Posted(src, sends[at]))
  {
    hide Claim, Value, PacketOk, Idle, AllIdle, AmountOf, Books, ShapeOk;
    PostAround(n, src, sends, at);
    AroundIsIdle(sends, at);
    PostIdle(cfg, n, c, Some(id), src, sends[..at]);
    var m := Post(n, src, sends[..at]);
    var p := Posted(src, sends[at]);
    assert Entry(m, id) == Entry(n, id);
    AnsweringSound(cfg, m, c, id, p);
    c2 := c[id := m.next];
    hide Tracked;
    PostIdle(cfg, Put(m, p), c2, None, src, sends[at + 1..]);
  }

  // ---------------------------------------------------------------- settling a step in the network

  lemma UpdateBooks(cfg: Config, n: Net, o: Address, w: Wallet)
    requires ShapeOk(cfg, n) && WalletOk(w)
    ensures var n2 := n.(wallets := n.wallets[o := w]);
            ShapeOk(cfg, n2) && Books(n2) == Books(n) - WalletAt(n, o).balance + w.balance
  {
    hide WalletOk, PacketOk;
    HeldUpdate(n, o, w);
  }

  lemma SettleDebit(cfg: Config, n: Net, c: map<TransferId, nat>, o: Address, ctx: Context, w: Wallet,
                    sends: seq<Send>, at: nat)
    returns (c2: map<TransferId, nat>)
    requires Tracked(n, c, None) && ShapeOk(cfg, n) && WalletOk(w)
    requires Debited(WalletAt(n, o), ctx, w, sends, at) && PacketOk(cfg, Posted(WalletOf(o), sends[at]))
    ensures var n2 := Settle(n, o, w, sends);
            Tracked(n2, c2, None) && ShapeOk(cfg, n2) && Books(n2) == Books(n) && n2.ledger == n.ledger
  {
    hide PacketOk, WalletOk, Tracked, ShapeOk, Idle, Books;
    var s := sends[at];
    var id := TransferId(o, (s.body.queryId, s.to));
    OpenTracked(n, c, id, w.outgoing[id.key], w);
    UpdateBooks(cfg, n, o, w);
    c2 := PostAnswering(cfg, n.(wallets := n.wallets[o := w]), c, id, WalletOf(o), sends, at);
  }

  lemma SettleCredit(cfg: Config, n: Net, c: map<TransferId, nat>, id: TransferId, o: Address, ctx: Context,
                     body: Body, w: Wallet, sends: seq<Send>, at: nat)
    returns (c2: map<TransferId, nat>)
    requires Tracked(n, c, Some(id)) && ShapeOk(cfg, n) && WalletOk(w) && body.Internal?
    requires Credited(WalletAt(n, o), ctx, body, w, sends, at)
    requires ctx.sender == WalletOf(id.owner) && id.key == (body.queryId, WalletOf(o))
    requires Has(n, id) && Entry(n, id).amount == body.amount
    ensures var n2 := Settle(n, o, w, sends);
            Tracked(n2, c2, None) && ShapeOk(cfg, n2) && Books(n2) == Books(n) + body.amount && n2.ledger == n.ledger
  {
    hide WalletOk, Tracked, ShapeOk, Idle, Books;
    UpdateTracked(n, c, Some(id), o, w);
    UpdateBooks(cfg, n, o, w);
    c2 := PostAnswering(cfg, n.(wallets := n.wallets[o := w]), c, id, WalletOf(o), sends, at);
  }

  lemma SettleClose(cfg: Config, n: Net, c: map<TransferId, nat>, id: TransferId, restored: bool, w: Wallet,
                    sends: seq<Send>)
    requires Tracked(n, c, Some(id)) && ShapeOk(cfg, n) && WalletOk(w)
    requires Closed(WalletAt(n, id.owner), id.key, restored, w, sends)
    ensures var n2 := Settle(n, id.owner, w, sends);
            Tracked(n2, c, None) && ShapeOk(cfg, n2) && n2.ledger == n.ledger &&
            Books(n2) == Books(n) + (if restored then WalletAt(n, id.owner).outgoing[id.key].amount else 0)
  {
    hide WalletOk, Tracked, ShapeOk, Idle, Books, AllIdle;
    CloseTracked(n, c, id, w);
    UpdateBooks(cfg, n, id.owner, w);
    PostIdle(cfg, n.(wallets := n.wallets[id.owner := w]), c, None, WalletOf(id.owner), sends);
  }

  lemma SettleKeep(cfg: Config, n: Net, c: map<TransferId, nat>, o: Address, incoming: nat, w: Wallet,
                   sends: seq<Send>)
    requires Tracked(n, c, None) && ShapeOk(cfg, n) && WalletOk(w)
    requires Kept(WalletAt(n, o), incoming, w, sends)
    ensures var n2 := Settle(n, o, w, sends);
            Tracked(n2, c, None) && ShapeOk(cfg, n2) && Books(n2) == Books(n) + incoming && n2.ledger == n.ledger
  {
    hide WalletOk, Tracked, ShapeOk, Idle, Books;
    var m := n.(wallets := n.wallets[o := w]);
    UpdateTracked(n, c, None, o, w);
    UpdateBooks(cfg, n, o, w);
    if AllIdle(sends) && w.balance == WalletAt(n, o).balance + incoming {
      PostIdle(cfg, m, c, None, WalletOf(o), sends);
    } else {
      PutSound(cfg, m, c, None, Posted(WalletOf(o), sends[0]));
      assert Post(m, WalletOf(o), sends) == Put(m, Posted(WalletOf(o), sends[0]));
    }
  }

  /** Settling a step whose messages are notices moves the books by the balance alone. */
  lemma SettleIdleBooks(n: Net, o: Address, w: Wallet, sends: seq<Send>)
    requires Fresh(n) && AllIdle(sends)
    ensures var n2 := Settle(n, o, w, sends);
            Books(n2) == Books(n) - WalletAt(n, o).balance + w.balance && n2.ledger == n.ledger
  {
    hide Idle;
    HeldUpdate(n, o, w);
    PostIdleBooks(n.(wallets := n.wallets[o := w]), WalletOf(o), sends);
    PostKeeps(n.(wallets := n.wallets[o := w]), WalletOf(o), sends);
  }

  lemma {:induction false} PostIdleBooks(n: Net, src: Address, sends: seq<Send>)
    requires Fresh(n) && AllIdle(sends)
    ensures Books(Post(n, src, sends)) == Books(n)
    decreases |sends|
  {
    hide Books, Idle, Value;
    if |sends| > 0 {
      IdleIsWorthless(src, sends[0]);
      BooksPut(n, Posted(src, sends[0]));
      PostIdleBooks(Put(n, Posted(src, sends[0])), src, sends[1..]);
    }
  }

  lemma IdleIsWorthless(src: Address, s: Send)
    requires Idle(s)
    ensures Value(Posted(src, s)) == 0
  {
  }

  lemma BooksPut(n: Net, p: Packet)
    requires Fresh(n)
    ensures Books(Put(n, p)) == Books(n) + Value(p)
  {
    TravellingPut(n, p);
  }
}
