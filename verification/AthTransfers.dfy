/**
 The fate of one transfer over a whole run of the network: it is debited, then either credited once and
 acknowledged or restored once, never both.
 */
module AthTransfers {
  import opened Results
  import opened AthProtocol
  import opened Transactions
  import opened AthNetwork
  import opened AthLedger
  import opened AthConservation
  import AthOutgoing

  datatype Effect =
    | Silent
    | Debits(id: TransferId)
    | Credits(id: TransferId)
    | Restores(id: TransferId)
    | Confirms(id: TransferId)

  /** What an event does to the entries and acknowledgements. */
  function EffectOf(cfg: Config, n: Net, e: Event): Effect {
    if e.Deliver? && e.index in n.flight && n.flight[e.index].dst.WalletOf? &&
       StepOf(cfg, n, e.index, e.value, e.forwardFee).Done?
    then
      var p := n.flight[e.index];
      var o := p.dst.owner;
      if Opening(p.body, p.bounced) then Debits(TransferId(o, OpeningKey(cfg.hashing, WalletAt(n, o), p.body)))
      else if Crediting(p.body, p.bounced) && p.src.WalletOf? then
        Credits(TransferId(p.src.owner, (p.body.queryId, p.dst)))
      else if Closing(p.body, p.bounced) then
        var id := TransferId(o, ClosingKey(p.body, ContextOf(n, p, e.value, e.forwardFee)));
        if p.body.TransferAck? then Confirms(id) else Restores(id)
      else Silent
    else Silent
  }

  predicate IsAck(p: Packet, id: TransferId) {
    Claim(p) == Some(id) && p.body.TransferAck?
  }

  /** The recipient has been credited and its acknowledgement is under way or lost. */
  ghost predicate Acked(n: Net, id: TransferId) {
    exists i :: i in n.flight && IsAck(n.flight[i], id)
  }

  // ---------------------------------------------------------------- acknowledgements under each move

  ghost predicate SameAcks(n: Net, n2: Net) {
    forall id :: Acked(n, id) <==> Acked(n2, id)
  }

  lemma PutAcks(n: Net, p: Packet, id: TransferId)
    requires Fresh(n)
    ensures Acked(Put(n, p), id) <==> Acked(n, id) || IsAck(p, id)
  {
    var m := Put(n, p);
    if Acked(n, id) {
      var i :| i in n.flight && IsAck(n.flight[i], id);
      assert i in m.flight && IsAck(m.flight[i], id);
    }
    if IsAck(p, id) {
      assert n.next in m.flight && IsAck(m.flight[n.next], id);
    }
  }

  lemma TakeAcks(n: Net, c: map<TransferId, nat>, i: nat, id: TransferId)
    requires Tracked(n, c, None) && i in n.flight
    ensures Acked(Take(n, i), id) <==> Acked(n, id) && !IsAck(n.flight[i], id)
  {
    var m := Take(n, i);
    if Acked(n, id) && !IsAck(n.flight[i], id) {
      var j :| j in n.flight && IsAck(n.flight[j], id);
      assert j in m.flight && IsAck(m.flight[j], id);
    }
    if Acked(m, id) {
      var j :| j in m.flight && IsAck(m.flight[j], id);
      assert j in n.flight && IsAck(n.flight[j], id);
      assert c[id] == j;
    }
  }

  /** An entry is acknowledged exactly when the one packet that carries it is the acknowledgement. */
  lemma CarrierDecides(n: Net, c: map<TransferId, nat>, i: nat, id: TransferId)
    requires Tracked(n, c, None) && i in n.flight && Claim(n.flight[i]) == Some(id)
    ensures Acked(n, id) <==> n.flight[i].body.TransferAck?
  {
    if Acked(n, id) {
      var j :| j in n.flight && IsAck(n.flight[j], id);
      assert c[id] == j && c[id] == i;
    }
    if n.flight[i].body.TransferAck? {
      assert IsAck(n.flight[i], id);
    }
  }

  lemma {:induction false} PostIdleAcks(n: Net, src: Address, sends: seq<Send>)
    requires Fresh(n) && AllIdle(sends)
    ensures var m := Post(n, src, sends); Fresh(m) && SameAcks(n, m) && m.wallets == n.wallets
    decreases |sends|
  {
    if |sends| > 0 {
      var p := Posted(src, sends[0]);
      assert Idle(sends[0]);
      assert forall id :: !IsAck(p, id);
      forall id
        ensures Acked(n, id) <==> Acked(Put(n, p), id)
      {
        PutAcks(n, p, id);
      }
      hide Idle, IsAck, Acked;
      PostIdleAcks(Put(n, p), src, sends[1..]);
    }
  }

  lemma PostMainAcks(n: Net, src: Address, sends: seq<Send>, at: nat, id: TransferId)
    requires Fresh(n) && IdleBut(sends, at)
    ensures var m := Post(n, src, sends);
            m.wallets == n.wallets && (Acked(m, id) <==> Acked(n, id) || IsAck(Posted(src, sends[at]), id))
  {
    hide Idle, IsAck, Acked;
    PostAround(n, src, sends, at);
    AroundIsIdle(sends, at);
    hide IdleBut, AllIdle;
    PostIdleAcks(n, src, sends[..at]);
    var m := Post(n, src, sends[..at]);
    PutAcks(m, Posted(src, sends[at]), id);
    PostIdleAcks(Put(m, Posted(src, sends[at])), src, sends[at + 1..]);
  }

  lemma SettleMain(n: Net, o: Address, w: Wallet, sends: seq<Send>, at: nat, id: TransferId)
    requires Fresh(n) && IdleBut(sends, at)
    ensures var m := Settle(n, o, w, sends);
            m.wallets == n.wallets[o := w] &&
            (Acked(m, id) <==> Acked(n, id) || IsAck(Posted(WalletOf(o), sends[at]), id))
  {
    hide Idle, IsAck;
    PostMainAcks(n.(wallets := n.wallets[o := w]), WalletOf(o), sends, at, id);
  }

  lemma SettleIdle(n: Net, o: Address, w: Wallet, sends: seq<Send>, id: TransferId)
    requires Fresh(n) && AllIdle(sends)
    ensures var m := Settle(n, o, w, sends);
            m.wallets == n.wallets[o := w] && (Acked(m, id) <==> Acked(n, id))
  {
    hide Idle, IsAck;
    PostIdleAcks(n.(wallets := n.wallets[o := w]), WalletOf(o), sends);
  }

  // ---------------------------------------------------------------- what each event does

  /** The entries before and after an event with effect `f`. */
  ghost predicate EntryTransition(n: Net, f: Effect, n2: Net) {
    (forall id :: Has(n2, id) <==> (Has(n, id) || f == Debits(id)) && f != Restores(id) && f != Confirms(id)) &&
    (match f
     case Debits(id) => !Has(n, id)
     case Restores(id) => Has(n, id)
     case Confirms(id) => Has(n, id)
     case _ => true)
  }

  /** The entries and acknowledgements before and after it. */
  ghost predicate Transition(n: Net, f: Effect, n2: Net) {
    EntryTransition(n, f, n2) &&
    (forall id :: Acked(n2, id) <==> (Acked(n, id) || f == Credits(id)) && f != Confirms(id)) &&
    (match f
     case Credits(id) => Has(n, id) && !Acked(n, id)
     case Restores(id) => !Acked(n, id)
     case Confirms(id) => Acked(n, id)
     case _ => true)
  }

  lemma HasAfter(n: Net, o: Address, w: Wallet, n2: Net, id: TransferId)
    requires n2.wallets == n.wallets[o := w]
    ensures Has(n2, id) <==> if id.owner == o then id.key in w.outgoing else Has(n, id)
    ensures id.owner == o ==> (Has(n, id) <==> id.key in WalletAt(n, o).outgoing)
  {
  }

  /** A delivery that succeeds at a wallet. */
  ghost predicate Succeeds(cfg: Config, n: Net, e: Event) {
    e.Deliver? && e.index in n.flight && n.flight[e.index].dst.WalletOf? &&
    StepOf(cfg, n, e.index, e.value, e.forwardFee).Done?
  }

  lemma DebitTransition(cfg: Config, n: Net, c: map<TransferId, nat>, e: Event)
    requires Sound(cfg, n, c) && Succeeds(cfg, n, e) && Opening(n.flight[e.index].body, n.flight[e.index].bounced)
    ensures Transition(n, EffectOf(cfg, n, e), Next(cfg, n, e))
  {
    hide WalletStep, WalletOk, Books, Settle, WriteOff, Arrive, Take, Idle, Acked, Value, PacketOk, ShapeOk, OpeningKey;
    var i := e.index;
    var p := n.flight[i];
    var o := p.dst.owner;
    var w := WalletAt(n, o);
    WalletAtOk(cfg, n, o);
    TakeSound(cfg, n, c, i);
    ClaimShape(p, o, n.now, e.value, e.forwardFee);
    if p.body.Request? {
      RequestsAreFromOutside(cfg, p);
    }
    var at := DebitShape(cfg, w, o, ContextOf(n, p, e.value, e.forwardFee), p.body, p.bounced);
    var r := StepOf(cfg, n, i, e.value, e.forwardFee);
    ArriveDone(cfg, n, i, e.value, e.forwardFee);
    TakeKeeps(n, i);
    var d := TransferId(o, OpeningKey(cfg.hashing, w, p.body));
    var n2 := Next(cfg, n, e);
    hide Tracked;
    forall id
      ensures Has(n2, id) <==> Has(n, id) || id == d
      ensures Acked(n2, id) <==> Acked(n, id)
    {
      SettleMain(Take(n, i), o, r.wallet, r.sends, at, id);
      TakeAcks(n, c, i, id);
      HasAfter(n, o, r.wallet, n2, id);
    }
  }

  lemma RequestsAreFromOutside(cfg: Config, p: Packet)
    requires PacketOk(cfg, p) && p.body.Request? && !p.bounced
    ensures p.src.User?
  {
  }

  /** What a successful credit does, in the terms of the network. */
  lemma CreditFacts(cfg: Config, n: Net, c: map<TransferId, nat>, e: Event) returns (at: nat)
    requires Sound(cfg, n, c) && Succeeds(cfg, n, e) && Crediting(n.flight[e.index].body, n.flight[e.index].bounced)
    ensures var p := n.flight[e.index];
            var r := StepOf(cfg, n, e.index, e.value, e.forwardFee);
            p.src.WalletOf? && IdleBut(r.sends, at) && r.sends[at].to == p.src &&
            r.sends[at].body == TransferAck(p.body.queryId, p.body.amount) &&
            r.wallet.outgoing == WalletAt(n, p.dst.owner).outgoing &&
            Next(cfg, n, e) == Settle(Take(n, e.index), p.dst.owner, r.wallet, r.sends) &&
            var id := TransferId(p.src.owner, (p.body.queryId, p.dst));
            Claim(p) == Some(id) && Has(n, id) && EffectOf(cfg, n, e) == Credits(id)
  {
    hide CreditGate, Credit, CreditNotices, CreditExcess, WalletOk, Books, Settle, WriteOff, Arrive, Take, Idle, Value;
    hide ShapeOk;
    var p := n.flight[e.index];
    var o := p.dst.owner;
    var ctx := ContextOf(n, p, e.value, e.forwardFee);
    CreditGateFacts(cfg.hashing, WalletAt(n, o), o, ctx, p.body);
    TakeSound(cfg, n, c, e.index);
    at := CreditCredits(cfg.hashing, WalletAt(n, o), o, ctx, p.body);
    ArriveDone(cfg, n, e.index, e.value, e.forwardFee);
    ClaimShape(p, o, n.now, e.value, e.forwardFee);
  }

  lemma CreditTransition(cfg: Config, n: Net, c: map<TransferId, nat>, e: Event)
    requires Sound(cfg, n, c) && Succeeds(cfg, n, e) && Crediting(n.flight[e.index].body, n.flight[e.index].bounced)
    ensures Transition(n, EffectOf(cfg, n, e), Next(cfg, n, e))
  {
    hide WalletStep, Settle, Take, Idle, Acked, EffectOf, Next, Balanced, ShapeOk;
    var at := CreditFacts(cfg, n, c, e);
    var i := e.index;
    var p := n.flight[i];
    var id := Claim(p).value;
    var r := StepOf(cfg, n, i, e.value, e.forwardFee);
    var n2 := Next(cfg, n, e);
    TakeKeeps(n, i);
    CarrierDecides(n, c, i, id);
    AckClaims(p, r.sends[at]);
    hide Tracked, Claim, StepOf;
    forall x
      ensures Has(n2, x) <==> Has(n, x)
      ensures Acked(n2, x) <==> Acked(n, x) || x == id
    {
      SettleMain(Take(n, i), p.dst.owner, r.wallet, r.sends, at, x);
      TakeAcks(n, c, i, x);
      HasAfter(n, p.dst.owner, r.wallet, n2, x);
    }
  }

  /** The acknowledgement of a credit claims the transfer it acknowledges. */
  lemma AckClaims(p: Packet, s: Send)
    requires p.src.WalletOf? && p.dst.WalletOf? && p.body.Internal? && !p.bounced
    requires s.to == p.src && s.body == TransferAck(p.body.queryId, p.body.amount)
    ensures forall x :: IsAck(Posted(WalletOf(p.dst.owner), s), x) <==> Claim(p) == Some(x)
    ensures forall x :: !IsAck(p, x)
  {
  }

  lemma CloseFacts(cfg: Config, n: Net, c: map<TransferId, nat>, e: Event)
    requires Sound(cfg, n, c) && Succeeds(cfg, n, e)
    requires Closing(n.flight[e.index].body, n.flight[e.index].bounced) && !n.flight[e.index].body.RecoverStuck?
    ensures var p := n.flight[e.index];
            var o := p.dst.owner;
            var r := StepOf(cfg, n, e.index, e.value, e.forwardFee);
            var key := ClosingKey(p.body, ContextOf(n, p, e.value, e.forwardFee));
            p.src.WalletOf? && Claim(p) == Some(TransferId(o, key)) && Has(n, TransferId(o, key)) &&
            Closed(WalletAt(n, o), key, !p.body.TransferAck?, r.wallet, r.sends) &&
            Next(cfg, n, e) == Settle(Take(n, e.index), o, r.wallet, r.sends)
  {
    hide WalletStep, Books, Settle, WriteOff, Arrive, Take, Idle, Value, PacketOk, ShapeOk, Balanced;
    var i := e.index;
    var p := n.flight[i];
    var o := p.dst.owner;
    var ctx := ContextOf(n, p, e.value, e.forwardFee);
    WalletAtOk(cfg, n, o);
    ClosingCloses(cfg.hashing, WalletAt(n, o), o, ctx, p.body, p.bounced);
    TakeSound(cfg, n, c, i);
    assert p.src.WalletOf?;
    ClaimShape(p, o, n.now, e.value, e.forwardFee);
    ArriveDone(cfg, n, i, e.value, e.forwardFee);
  }

  lemma CloseTransition(cfg: Config, n: Net, c: map<TransferId, nat>, e: Event)
    requires Sound(cfg, n, c) && Succeeds(cfg, n, e)
    requires Closing(n.flight[e.index].body, n.flight[e.index].bounced) && !n.flight[e.index].body.RecoverStuck?
    ensures Transition(n, EffectOf(cfg, n, e), Next(cfg, n, e))
  {
    hide WalletStep, Books, Settle, WriteOff, Arrive, Take, Idle, Acked, Value, PacketOk, ShapeOk;
    var i := e.index;
    var p := n.flight[i];
    var o := p.dst.owner;
    CloseFacts(cfg, n, c, e);
    var r := StepOf(cfg, n, i, e.value, e.forwardFee);
    var id := Claim(p).value;
    TakeKeeps(n, i);
    CarrierDecides(n, c, i, id);
    var n2 := Next(cfg, n, e);
    hide Tracked, WalletOk;
    forall x
      ensures Has(n2, x) <==> Has(n, x) && x != id
      ensures Acked(n2, x) <==> Acked(n, x) && !(p.body.TransferAck? && x == id)
    {
      SettleIdle(Take(n, i), o, r.wallet, r.sends, x);
      TakeAcks(n, c, i, x);
      HasAfter(n, o, r.wallet, n2, x);
    }
  }

  lemma RecoveryTransition(cfg: Config, n: Net, c: map<TransferId, nat>, e: Event)
    requires Sound(cfg, n, c) && Recovers(cfg, n, e) && TokensLost(n, RecoveredId(n.flight[e.index]))
    ensures Transition(n, EffectOf(cfg, n, e), Next(cfg, n, e))
  {
    hide WalletStep, Books, Settle, WriteOff, Arrive, Take, Idle, Acked, Value, PacketOk, WalletOk, TokensLost, ShapeOk;
    var i := e.index;
    var p := n.flight[i];
    var id := RecoveredId(p);
    RecoveryStep(cfg, n, e);
    TokensLostIff(n, c, id);
    TakeSound(cfg, n, c, i);
    ClaimShape(p, p.dst.owner, n.now, e.value, e.forwardFee);
    var rest := Take(n, i);
    var j := c[id];
    TakeKeeps(n, i);
    TakeLeaves(n, i, j);
    WriteOffIsTake(rest, c, p);
    TakeKeeps(rest, j);
    CarrierDecides(n, c, j, id);
    var r := StepOf(cfg, n, i, e.value, e.forwardFee);
    var n2 := Next(cfg, n, e);
    assert forall x :: !IsAck(p, x) && !IsAck(n.flight[j], x);
    hide Tracked, Claim, IsAck, Recovers;
    forall x
      ensures Has(n2, x) <==> Has(n, x) && x != id
      ensures Acked(n2, x) <==> Acked(n, x)
    {
      SettleIdle(Take(rest, j), p.dst.owner, r.wallet, r.sends, x);
      TakeAcks(rest, c, j, x);
      TakeAcks(n, c, i, x);
      HasAfter(n, p.dst.owner, r.wallet, n2, x);
    }
  }

  lemma OtherTransition(cfg: Config, n: Net, c: map<TransferId, nat>, e: Event)
    requires Sound(cfg, n, c) && Succeeds(cfg, n, e) && Plainly(n.flight[e.index].body, n.flight[e.index].bounced)
    ensures Transition(n, Silent, Next(cfg, n, e))
  {
    hide WalletStep, Books, Settle, WriteOff, Arrive, Take, Acked, Value, PacketOk, ShapeOk;
    var i := e.index;
    var p := n.flight[i];
    var o := p.dst.owner;
    WalletAtOk(cfg, n, o);
    OthersKeep(cfg.hashing, WalletAt(n, o), o, ContextOf(n, p, e.value, e.forwardFee), p.body, p.bounced);
    TakeSound(cfg, n, c, i);
    ClaimShape(p, o, n.now, e.value, e.forwardFee);
    var r := StepOf(cfg, n, i, e.value, e.forwardFee);
    ArriveDone(cfg, n, i, e.value, e.forwardFee);
    TakeKeeps(n, i);
    var n2 := Next(cfg, n, e);
    hide Tracked, WalletOk;
    forall x
      ensures Has(n2, x) <==> Has(n, x)
      ensures Acked(n2, x) <==> Acked(n, x)
    {
      if AllIdle(r.sends) {
        SettleIdle(Take(n, i), o, r.wallet, r.sends, x);
      } else {
        SettleMain(Take(n, i), o, r.wallet, r.sends, 0, x);
      }
      TakeAcks(n, c, i, x);
      HasAfter(n, o, r.wallet, n2, x);
    }
  }

  // ---------------------------------------------------------------- events that settle nothing

  /** Same wallets, same acknowledgements. */
  lemma QuietTransition(n: Net, n2: Net)
    requires n2.wallets == n.wallets && SameAcks(n, n2)
    ensures Transition(n, Silent, n2)
  {
    hide Acked;
    assert forall id :: Has(n2, id) <==> Has(n, id);
  }

  lemma TakeQuiet(n: Net, c: map<TransferId, nat>, i: nat)
    requires Tracked(n, c, None) && i in n.flight && (n.flight[i].body.TransferAck? ==> Claim(n.flight[i]).None?)
    ensures SameAcks(n, Take(n, i))
  {
    forall id
      ensures Acked(n, id) <==> Acked(Take(n, i), id)
    {
      TakeAcks(n, c, i, id);
    }
  }

  lemma PutQuiet(n: Net, p: Packet)
    requires Fresh(n) && (p.body.TransferAck? ==> Claim(p).None?)
    ensures SameAcks(n, Put(n, p))
  {
    forall id
      ensures Acked(n, id) <==> Acked(Put(n, p), id)
    {
      PutAcks(n, p, id);
    }
  }

  /** A packet gives way to another that acknowledges the same transfer, if any. */
  lemma SwapQuiet(n: Net, i: nat, q: Packet)
    requires i in n.flight && forall id :: IsAck(q, id) <==> IsAck(n.flight[i], id)
    ensures Transition(n, Silent, n.(flight := n.flight[i := q]))
  {
    hide IsAck;
    var n2 := n.(flight := n.flight[i := q]);
    forall id
      ensures Acked(n, id) <==> Acked(n2, id)
    {
      assert forall j | j in n.flight :: IsAck(n2.flight[j], id) <==> IsAck(n.flight[j], id);
    }
    QuietTransition(n, n2);
  }

  lemma RejectQuiet(n: Net, c: map<TransferId, nat>, i: nat)
    requires Tracked(n, c, None) && i in n.flight && Refusable(n.flight[i])
    ensures Transition(n, Silent, Reject(n, i))
  {
    var p := n.flight[i];
    if p.bounce && !p.bounced {
      SwapQuiet(n, i, Returned(p));
    } else {
      TakeQuiet(n, c, i);
      QuietTransition(n, Take(n, i));
    }
  }

  lemma SameAcksTrans(n: Net, m: Net, n2: Net)
    requires SameAcks(n, m) && SameAcks(m, n2)
    ensures SameAcks(n, n2)
  {
    hide Acked;
    forall id
      ensures Acked(n, id) <==> Acked(n2, id)
    {
      assert Acked(n, id) <==> Acked(m, id);
    }
  }

  lemma MasterQuiet(cfg: Config, n: Net, c: map<TransferId, nat>, e: Event)
    requires Sound(cfg, n, c) && e.Deliver? && e.index in n.flight && n.flight[e.index].dst == Master
    ensures Transition(n, Silent, Next(cfg, n, e))
  {
    hide MasterStep, WalletStep, Value, WalletOk, Books, Acked;
    var i := e.index;
    HoldsAtMostAll(cfg, n, i);
    if MasterStepOf(cfg, n, i, e.value, e.forwardFee).MasterThrow? {
      MasterRefusal(cfg, n, i, e.value, e.forwardFee);
      RejectQuiet(n, c, i);
    } else {
      MasterBooks(cfg, n, i, e.value, e.forwardFee);
      var r := MasterStepOf(cfg, n, i, e.value, e.forwardFee);
      TakeQuiet(n, c, i);
      TakeKeeps(n, i);
      var m := Take(n, i).(ledger := r.ledger);
      assert SameAcks(Take(n, i), m) by {
        SameFlight(Take(n, i), m);
      }
      SameAcksTrans(n, Take(n, i), m);
      if |r.sends| == 1 {
        var s := Posted(Master, r.sends[0]);
        PutQuiet(m, s);
        assert Post(m, Master, r.sends) == Put(m, s);
        SameAcksTrans(n, m, Put(m, s));
      }
      QuietTransition(n, Next(cfg, n, e));
    }
  }

  lemma SameFlight(n: Net, m: Net)
    requires n.flight == m.flight
    ensures SameAcks(n, m)
  {
  }

  lemma WalletTransition(cfg: Config, n: Net, c: map<TransferId, nat>, e: Event)
    requires Sound(cfg, n, c) && Succeeds(cfg, n, e) && Rightful(cfg, n, e)
    ensures Transition(n, EffectOf(cfg, n, e), Next(cfg, n, e))
  {
    hide WalletStep, Transition, Next, Sound, TokensLost;
    var p := n.flight[e.index];
    if Opening(p.body, p.bounced) {
      DebitTransition(cfg, n, c, e);
    } else if Crediting(p.body, p.bounced) {
      CreditTransition(cfg, n, c, e);
    } else if Closing(p.body, p.bounced) {
      if p.body.RecoverStuck? {
        RecoveryTransition(cfg, n, c, e);
      } else {
        CloseTransition(cfg, n, c, e);
      }
    } else {
      OtherTransition(cfg, n, c, e);
    }
  }

  lemma OutsideClaimsNothing(p: Packet)
    requires p.src.User? || p.dst.User?
    ensures Claim(p).None?
  {
  }

  /**
   Every event moves each transfer along one path: debited when its entry opens, then credited and later
   confirmed, or restored; a transfer that was credited is never restored.
   */
  lemma EffectTransition(cfg: Config, n: Net, c: map<TransferId, nat>, e: Event)
    requires Sound(cfg, n, c) && Enabled(n, e) && Rightful(cfg, n, e)
    ensures Transition(n, EffectOf(cfg, n, e), Next(cfg, n, e))
  {
    hide WalletStep, MasterStep, Transition, Claim, Rightful, ShapeOk, Balanced;
    match e
    case Outside(src, dst, body, bounce, bounced) => {
      var p := Packet(src, dst, body, bounce, bounced, false);
      OutsideClaimsNothing(p);
      PutQuiet(n, p);
      QuietTransition(n, Put(n, p));
    }
    case Lose(i) => {
      LostPacket(cfg, n.flight[i]);
      SwapQuiet(n, i, n.flight[i].(lost := true));
    }
    case Tick(t) => {
      SameFlight(n, n.(now := n.now + t));
      QuietTransition(n, n.(now := n.now + t));
    }
    case Deliver(i, value, fee) => {
      var p := n.flight[i];
      if p.dst.User? {
        OutsideClaimsNothing(p);
        TakeQuiet(n, c, i);
        QuietTransition(n, Take(n, i));
      } else if p.dst.Master? {
        MasterQuiet(cfg, n, c, e);
      } else if StepOf(cfg, n, i, value, fee).Throw? {
        AnsweringNeverThrows(cfg, n, c, i, value, fee);
        RejectQuiet(n, c, i);
      } else {
        WalletTransition(cfg, n, c, e);
      }
    }
  }

  // ---------------------------------------------------------------- entries, in every state

  function ArrivalOf(n: Net, e: Event): Arrival
    requires e.Deliver? && e.index in n.flight
  {
    var p := n.flight[e.index];
    Arrival(ContextOf(n, p, e.value, e.forwardFee), p.body, p.bounced)
  }

  /** What an event does to an entry in the network is what the arrival does to it at its wallet. */
  lemma EffectIsFate(cfg: Config, n: Net, e: Event, id: TransferId)
    requires Succeeds(cfg, n, e) && id.owner == n.flight[e.index].dst.owner
    ensures var f := EffectOf(cfg, n, e);
            var fate := AthOutgoing.FateOf(cfg.hashing, WalletAt(n, id.owner), id.owner, ArrivalOf(n, e), id.key);
            (f == Debits(id) <==> fate.Opened?) && (f == Confirms(id) <==> fate.Confirmed?) &&
            (f == Restores(id) <==> fate.BouncedBack? || fate.Recovered?)
  {
    hide WalletStep;
  }

  lemma SucceedsAt(cfg: Config, n: Net, e: Event)
    requires Succeeds(cfg, n, e)
    ensures var o := n.flight[e.index].dst.owner;
            Next(cfg, n, e).wallets ==
            n.wallets[o := Apply(cfg.hashing, WalletAt(n, o), o, ArrivalOf(n, e))]
  {
    hide WalletStep, WriteOff;
    var p := n.flight[e.index];
    var r := StepOf(cfg, n, e.index, e.value, e.forwardFee);
    ArriveDone(cfg, n, e.index, e.value, e.forwardFee);
    WriteOffKeeps(Take(n, e.index), p);
    PostKeeps(WriteOff(Take(n, e.index), p).(wallets := n.wallets[p.dst.owner := r.wallet]), p.dst, r.sends);
  }

  lemma WriteOffKeeps(n: Net, p: Packet)
    ensures WriteOff(n, p).wallets == n.wallets
  {
  }

  lemma FailureKeeps(cfg: Config, n: Net, e: Event)
    requires !Succeeds(cfg, n, e)
    ensures Next(cfg, n, e).wallets == n.wallets && EffectOf(cfg, n, e) == Silent
  {
    hide WalletStep, MasterStep, WriteOff, Post;
    if e.Deliver? && e.index in n.flight && n.flight[e.index].dst.Master? {
      var r := MasterStepOf(cfg, n, e.index, e.value, e.forwardFee);
      if r.MasterDone? {
        PostKeeps(Take(n, e.index).(ledger := r.ledger), Master, r.sends);
      }
    }
  }

  /** Entries move along their path in every state and under every event. */
  lemma EntryStep(cfg: Config, n: Net, e: Event)
    ensures EntryTransition(n, EffectOf(cfg, n, e), Next(cfg, n, e))
  {
    hide EffectOf, Next, Has;
    var f, n2 := EffectOf(cfg, n, e), Next(cfg, n, e);
    forall id
      ensures Has(n2, id) <==> (Has(n, id) || f == Debits(id)) && f != Restores(id) && f != Confirms(id)
      ensures f == Debits(id) ==> !Has(n, id)
      ensures f == Restores(id) || f == Confirms(id) ==> Has(n, id)
    {
      EntryStepAt(cfg, n, e, id);
    }
  }

  lemma EntryStepAt(cfg: Config, n: Net, e: Event, id: TransferId)
    ensures var f, n2 := EffectOf(cfg, n, e), Next(cfg, n, e);
            (Has(n2, id) <==> (Has(n, id) || f == Debits(id)) && f != Restores(id) && f != Confirms(id)) &&
            (f == Debits(id) ==> !Has(n, id)) && (f == Restores(id) || f == Confirms(id) ==> Has(n, id))
  {
    if Succeeds(cfg, n, e) {
      var o := n.flight[e.index].dst.owner;
      SucceedsAt(cfg, n, e);
      if id.owner == o {
        EffectIsFate(cfg, n, e, id);
        AthOutgoing.OutgoingStep(cfg.hashing, WalletAt(n, o), o, ArrivalOf(n, e), id.key);
        HasAfter(n, o, Apply(cfg.hashing, WalletAt(n, o), o, ArrivalOf(n, e)), Next(cfg, n, e), id);
      } else {
        EffectElsewhere(cfg, n, e, id);
      }
    } else {
      FailureKeeps(cfg, n, e);
    }
    hide EffectOf, Next, Apply, AthOutgoing.FateOf, WalletStep;
  }

  lemma EffectElsewhere(cfg: Config, n: Net, e: Event, id: TransferId)
    requires Succeeds(cfg, n, e) && id.owner != n.flight[e.index].dst.owner
    ensures var f := EffectOf(cfg, n, e); f != Debits(id) && f != Restores(id) && f != Confirms(id)
  {
    hide WalletStep, OpeningKey, ClosingKey;
  }

  // ---------------------------------------------------------------- counting over a run

  function Times(cfg: Config, n: Net, es: seq<Event>, f: Effect): nat
    decreases |es|
  {
    if |es| == 0 then 0
    else (if EffectOf(cfg, n, es[0]) == f then 1 else 0) + Times(cfg, Next(cfg, n, es[0]), es[1..], f)
  }

  ghost function One(b: bool): nat {
    if b then 1 else 0
  }

  /** An acknowledgement under way is for an entry that is still open. */
  lemma AckedIsOpen(cfg: Config, n: Net, id: TransferId)
    requires Inv(cfg, n)
    ensures Acked(n, id) ==> Has(n, id)
  {
    hide Claim, Has, ShapeOk, Balanced;
    var c :| Tracked(n, c, None);
    if i :| i in n.flight && IsAck(n.flight[i], id) {
      assert id in c;
    }
  }

  lemma InvTransition(cfg: Config, n: Net, e: Event)
    requires Inv(cfg, n) && Enabled(n, e) && Rightful(cfg, n, e)
    ensures Transition(n, EffectOf(cfg, n, e), Next(cfg, n, e)) && Inv(cfg, Next(cfg, n, e))
  {
    hide Enabled, Next, EffectOf, ShapeOk, Balanced, Rightful;
    var c :| Tracked(n, c, None);
    EffectTransition(cfg, n, c, e);
    NextInv(cfg, n, e);
  }

  /**
   The fate of every entry of the network, in every run from every state, with no proviso: the debits under a
   transfer id are as many as the restores, by bounce or by recovery, the confirmations and the one still open.
   */
  lemma {:induction false} EveryEntryEndsOnce(cfg: Config, n: Net, es: seq<Event>, id: TransferId)
    ensures One(Has(n, id)) + Times(cfg, n, es, Debits(id)) ==
            Times(cfg, n, es, Restores(id)) + Times(cfg, n, es, Confirms(id)) + One(Has(After(cfg, n, es), id))
    decreases |es|
  {
    hide Next, EffectOf, Has;
    if |es| > 0 {
      EntryStep(cfg, n, es[0]);
      EveryEntryEndsOnce(cfg, Next(cfg, n, es[0]), es[1..], id);
    }
  }

  /**
   The fate of every transfer, in every run whose recoveries are rightful: the debits under a transfer id equal
   the restores, the confirmations and the one still open; the credits equal the confirmations and the
   acknowledgement under way.  So each debit ends once, by credit or by restore, never by both.
   */
  lemma {:induction false} EachDebitEndsOnce(cfg: Config, n: Net, es: seq<Event>, id: TransferId)
    requires Inv(cfg, n) && Allowed(cfg, n, es) && OnlyRightful(cfg, n, es)
    ensures var n2 := After(cfg, n, es);
            One(Has(n, id)) + Times(cfg, n, es, Debits(id)) ==
            Times(cfg, n, es, Restores(id)) + Times(cfg, n, es, Confirms(id)) + One(Has(n2, id))
    ensures var n2 := After(cfg, n, es);
            One(Acked(n, id)) + Times(cfg, n, es, Credits(id)) == Times(cfg, n, es, Confirms(id)) + One(Acked(n2, id))
    ensures Acked(After(cfg, n, es), id) ==> Has(After(cfg, n, es), id)
    decreases |es|
  {
    hide Inv, Enabled, Next, EffectOf, Acked, Has, Rightful;
    AckedIsOpen(cfg, n, id);
    if |es| > 0 {
      InvTransition(cfg, n, es[0]);
      EachDebitEndsOnce(cfg, Next(cfg, n, es[0]), es[1..], id);
    }
  }

  /** From genesis: restores and credits of a transfer never exceed its debits. */
  lemma NeverBoth(cfg: Config, now: nat, es: seq<Event>, id: TransferId)
    requires Allowed(cfg, Genesis(now), es) && OnlyRightful(cfg, Genesis(now), es)
    ensures var n := Genesis(now);
            Times(cfg, n, es, Restores(id)) + Times(cfg, n, es, Credits(id)) <= Times(cfg, n, es, Debits(id))
  {
    var n := Genesis(now);
    GenesisInv(cfg, now);
    assert !Has(n, id) && !Acked(n, id);
    hide EffectOf, Next, Has, Acked, Allowed, OnlyRightful;
    EachDebitEndsOnce(cfg, n, es, id);
  }
}
