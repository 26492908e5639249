/**
 Token conservation over every run of the network.  Nothing bounds how late a message may be or which
 message may be lost: the books balance throughout a run exactly when every recovery in it unwinds an entry
 whose tokens are lost.
 */
module AthConservation {
  import opened Results
  import opened Sums
  import opened AthProtocol
  import opened Transactions
  import opened AthNetwork
  import opened AthLedger

  ghost predicate Sound(cfg: Config, n: Net, c: map<TransferId, nat>) {
    ShapeOk(cfg, n) && Balanced(n) && Tracked(n, c, None)
  }

  lemma TakeSound(cfg: Config, n: Net, c: map<TransferId, nat>, i: nat)
    requires Sound(cfg, n, c) && i in n.flight
    ensures var n2 := Take(n, i);
            ShapeOk(cfg, n2) && Books(n2) == Books(n) - Value(n.flight[i]) && PacketOk(cfg, n.flight[i])
    ensures Claim(n.flight[i]).None? ==> Tracked(Take(n, i), c, None)
    ensures Claim(n.flight[i]).Some? ==>
              var id := Claim(n.flight[i]).value;
              id in c && Tracked(Take(n, i), c - {id}, Some(id)) && Has(n, id) &&
              AmountOf(n.flight[i].body) == Entry(n, id).amount
  {
    hide Claim, Value, PacketOk, WalletOk, AmountOf;
    TakeTracked(n, c, i);
    TravellingTake(n, i);
  }

  // ---------------------------------------------------------------- refusals

  /** A packet a contract may refuse without losing tokens. */
  ghost predicate Refusable(p: Packet) {
    (Claim(p).Some? ==> p.body.Internal? && !p.bounced) && (p.bounced ==> Value(p) == 0)
  }

  lemma RejectFacts(cfg: Config, p: Packet)
    requires PacketOk(cfg, p) && !p.dst.User?
    ensures !p.bounced && p.bounce ==>
              var b := Returned(p);
              Value(b) == Value(p) && PacketOk(cfg, b) && AmountOf(b.body) == AmountOf(p.body) &&
              Claim(b) == (if p.body.Internal? then Claim(p) else None)
    ensures !p.bounced && !p.bounce ==> Value(p) == 0 && (p.body.Internal? ==> Claim(p) == None)
  {
  }

  /** A packet that is refused goes back with everything it holds. */
  lemma RejectSound(cfg: Config, n: Net, c: map<TransferId, nat>, i: nat)
    requires Sound(cfg, n, c) && i in n.flight && !n.flight[i].dst.User? && Refusable(n.flight[i])
    ensures Sound(cfg, Reject(n, i), c) && Reject(n, i).ledger == n.ledger
  {
    var p := n.flight[i];
    RejectFacts(cfg, p);
    if p.bounce && !p.bounced {
      assert Claim(Returned(p)) == Claim(p);
      hide Sound, Claim, Value, PacketOk, AmountOf, Refusable;
      SwapSound(cfg, n, c, i, Returned(p));
    } else {
      TakeSound(cfg, n, c, i);
      hide Claim, Value, PacketOk, Tracked, Books, WalletOk;
    }
  }

  lemma SwapSound(cfg: Config, n: Net, c: map<TransferId, nat>, i: nat, q: Packet)
    requires Sound(cfg, n, c) && i in n.flight && PacketOk(cfg, q)
    requires Claim(q) == Claim(n.flight[i]) && Value(q) == Value(n.flight[i])
    requires AmountOf(q.body) == AmountOf(n.flight[i].body)
    ensures Sound(cfg, n.(flight := n.flight[i := q]), c)
  {
    hide Claim, Value, PacketOk, AmountOf, Tracked, Travelling, WalletOk, ShapeOk;
    SwapTracked(n, c, i, q);
    SwapTravels(n, i, q);
    SwapShaped(cfg, n, i, q);
  }

  lemma SwapShaped(cfg: Config, n: Net, i: nat, q: Packet)
    requires ShapeOk(cfg, n) && PacketOk(cfg, q)
    ensures ShapeOk(cfg, n.(flight := n.flight[i := q]))
  {
    hide PacketOk, WalletOk;
  }

  lemma SwapTravels(n: Net, i: nat, q: Packet)
    requires i in n.flight && Value(q) == Value(n.flight[i])
    ensures Travelling(n.(flight := n.flight[i := q])) == Travelling(n)
  {
    hide Value;
    assert Values(n.flight[i := q]) == Values(n.flight);
  }

  // ---------------------------------------------------------------- one delivery to a wallet

  /** What a packet holds is what a wallet adds to its balance. */
  lemma ValueIsIncoming(p: Packet)
    requires p.dst.WalletOf? && !p.body.Internal?
    requires Incoming(p.body, p.bounced) > 0 ==> p.src == Master
    ensures Value(p) == Incoming(p.body, p.bounced)
  {
  }

  lemma ClaimShape(p: Packet, o: Address, now: nat, value: nat, fee: nat)
    requires p.dst == WalletOf(o)
    ensures Opening(p.body, p.bounced) ==> Claim(p).None? && Value(p) == 0
    ensures p.src.WalletOf? && Crediting(p.body, p.bounced) ==>
              Claim(p) == Some(TransferId(p.src.owner, (p.body.queryId, p.dst))) && Value(p) == p.body.amount
    ensures p.src.WalletOf? && Closing(p.body, p.bounced) && !p.body.RecoverStuck? ==>
              Claim(p) == Some(TransferId(o, ClosingKey(p.body, Context(p.src, value, fee, now)))) &&
              Value(p) == (if p.body.Internal? then p.body.amount else 0)
    ensures p.body.RecoverStuck? ==> Claim(p).None? && Value(p) == 0
    ensures Plainly(p.body, p.bounced) ==> Claim(p).None?
  {
  }

  lemma ArriveDone(cfg: Config, n: Net, i: nat, value: nat, fee: nat)
    requires i in n.flight && n.flight[i].dst.WalletOf? && StepOf(cfg, n, i, value, fee).Done?
    ensures var p := n.flight[i];
            var r := StepOf(cfg, n, i, value, fee);
            Arrive(cfg, n, i, value, fee) == Settle(WriteOff(Take(n, i), p), p.dst.owner, r.wallet, r.sends)
    ensures var p := n.flight[i]; !(p.body.RecoverStuck? && !p.bounced) ==> WriteOff(Take(n, i), p) == Take(n, i)
  {
    hide WalletStep, Settle;
  }

  lemma DeliverOpening(cfg: Config, n: Net, c: map<TransferId, nat>, i: nat, value: nat, fee: nat)
    returns (c2: map<TransferId, nat>)
    requires Sound(cfg, n, c) && i in n.flight && n.flight[i].dst.WalletOf?
    requires Opening(n.flight[i].body, n.flight[i].bounced) && StepOf(cfg, n, i, value, fee).Done?
    ensures Sound(cfg, Arrive(cfg, n, i, value, fee), c2) && Arrive(cfg, n, i, value, fee).ledger == n.ledger
  {
    hide WalletStep, Claim, Value, WalletOk, Tracked, ShapeOk, Books, Debited, Settle, WriteOff, Arrive, Take,
      OpeningKey;
    var p := n.flight[i];
    var o := p.dst.owner;
    var ctx := ContextOf(n, p, value, fee);
    WalletAtOk(cfg, n, o);
    TakeSound(cfg, n, c, i);
    ClaimShape(p, o, n.now, value, fee);
    var at := DebitShape(cfg, WalletAt(n, o), o, ctx, p.body, p.bounced);
    hide PacketOk;
    var r := StepOf(cfg, n, i, value, fee);
    ArriveDone(cfg, n, i, value, fee);
    TakeKeeps(n, i);
    c2 := SettleDebit(cfg, Take(n, i), c, o, ctx, r.wallet, r.sends, at);
  }

  lemma DeliverCrediting(cfg: Config, n: Net, c: map<TransferId, nat>, i: nat, value: nat, fee: nat)
    returns (c2: map<TransferId, nat>)
    requires Sound(cfg, n, c) && i in n.flight && n.flight[i].dst.WalletOf?
    requires Crediting(n.flight[i].body, n.flight[i].bounced) && StepOf(cfg, n, i, value, fee).Done?
    ensures Sound(cfg, Arrive(cfg, n, i, value, fee), c2) && Arrive(cfg, n, i, value, fee).ledger == n.ledger
  {
    hide CreditGate, Credit, CreditNotices, CreditExcess, Claim, Value, WalletOk, Tracked, ShapeOk, Books, Credited;
    hide Settle, WriteOff, Arrive, Take;
    var p := n.flight[i];
    var o := p.dst.owner;
    var ctx := ContextOf(n, p, value, fee);
    WalletAtOk(cfg, n, o);
    CreditGateFacts(cfg.hashing, WalletAt(n, o), o, ctx, p.body);
    TakeSound(cfg, n, c, i);
    ClaimShape(p, o, n.now, value, fee);
    var id := Claim(p).value;
    var at := CreditCredits(cfg.hashing, WalletAt(n, o), o, ctx, p.body);
    CreditIsOk(cfg, WalletAt(n, o), o, ctx, p.body);
    var r := StepOf(cfg, n, i, value, fee);
    ArriveDone(cfg, n, i, value, fee);
    TakeKeeps(n, i);
    hide CreditStep, WalletStep, PacketOk;
    c2 := SettleCredit(cfg, Take(n, i), c - {id}, id, o, ctx, p.body, r.wallet, r.sends, at);
  }

  lemma DeliverClosing(cfg: Config, n: Net, c: map<TransferId, nat>, i: nat, value: nat, fee: nat)
    returns (c2: map<TransferId, nat>)
    requires Sound(cfg, n, c) && i in n.flight && n.flight[i].dst.WalletOf?
    requires Closing(n.flight[i].body, n.flight[i].bounced) && !n.flight[i].body.RecoverStuck?
    requires StepOf(cfg, n, i, value, fee).Done?
    ensures Sound(cfg, Arrive(cfg, n, i, value, fee), c2) && Arrive(cfg, n, i, value, fee).ledger == n.ledger
  {
    hide WalletStep, Claim, Value, Tracked, ShapeOk, Books, Settle, WriteOff, Arrive, Take;
    var p := n.flight[i];
    var o := p.dst.owner;
    var ctx := ContextOf(n, p, value, fee);
    var w := WalletAt(n, o);
    WalletAtOk(cfg, n, o);
    ClosingCloses(cfg.hashing, w, o, ctx, p.body, p.bounced);
    TakeSound(cfg, n, c, i);
    var id := TransferId(o, ClosingKey(p.body, ctx));
    assert p.src.WalletOf?;
    ClaimShape(p, o, n.now, value, fee);
    var r := StepOf(cfg, n, i, value, fee);
    ClosedIsOk(w, id.key, !p.body.TransferAck?, r.wallet, r.sends);
    ArriveDone(cfg, n, i, value, fee);
    TakeKeeps(n, i);
    hide PacketOk, WalletOk, Closed, AllIdle;
    SettleClose(cfg, Take(n, i), c - {id}, id, !p.body.TransferAck?, r.wallet, r.sends);
    c2 := c - {id};
  }

  lemma DeliverOther(cfg: Config, n: Net, c: map<TransferId, nat>, i: nat, value: nat, fee: nat)
    requires Sound(cfg, n, c) && i in n.flight && n.flight[i].dst.WalletOf?
    requires Plainly(n.flight[i].body, n.flight[i].bounced) && StepOf(cfg, n, i, value, fee).Done?
    ensures Sound(cfg, Arrive(cfg, n, i, value, fee), c) && Arrive(cfg, n, i, value, fee).ledger == n.ledger
  {
    hide WalletStep, Claim, Value, Tracked, ShapeOk, Books, Settle, WriteOff, Arrive, Take;
    var p := n.flight[i];
    var o := p.dst.owner;
    var ctx := ContextOf(n, p, value, fee);
    WalletAtOk(cfg, n, o);
    OthersKeep(cfg.hashing, WalletAt(n, o), o, ctx, p.body, p.bounced);
    TakeSound(cfg, n, c, i);
    ClaimShape(p, o, n.now, value, fee);
    ValueIsIncoming(p);
    var r := StepOf(cfg, n, i, value, fee);
    assert WalletOk(r.wallet);
    ArriveDone(cfg, n, i, value, fee);
    TakeKeeps(n, i);
    hide Incoming, PacketOk, WalletOk, Kept;
    SettleKeep(cfg, Take(n, i), c, o, Incoming(p.body, p.bounced), r.wallet, r.sends);
  }

  /** The packet that answers for an open entry is never refused by the wallet it returns to. */
  lemma AnsweringNeverThrows(cfg: Config, n: Net, c: map<TransferId, nat>, i: nat, value: nat, fee: nat)
    requires Sound(cfg, n, c) && i in n.flight && n.flight[i].dst.WalletOf?
    requires StepOf(cfg, n, i, value, fee).Throw?
    ensures Refusable(n.flight[i])
  {
    WalletAtOk(cfg, n, n.flight[i].dst.owner);
  }

  // ---------------------------------------------------------------- recovery

  /** A packet that carries an entry and is lost is the one a recovery writes off. */
  lemma WriteOffIsTake(n: Net, c: map<TransferId, nat>, p: Packet)
    requires Tracked(n, c, None) && p.dst.WalletOf? && !p.bounced && p.body.RecoverStuck?
    requires RecoveredId(p) in c && n.flight[c[RecoveredId(p)]].lost
    ensures WriteOff(n, p) == Take(n, c[RecoveredId(p)])
  {
    hide Claim, AmountOf;
    assert WriteOff(n, p).flight == n.flight - {c[RecoveredId(p)]};
  }

  lemma WriteOffNothing(n: Net, c: map<TransferId, nat>, p: Packet)
    requires Tracked(n, c, None) && p.dst.WalletOf? && !p.bounced && p.body.RecoverStuck?
    requires RecoveredId(p) in c && !n.flight[c[RecoveredId(p)]].lost
    ensures WriteOff(n, p) == n
  {
    hide Claim, AmountOf;
    assert WriteOff(n, p).flight == n.flight;
  }

  /** The tokens of an entry are lost exactly when the one packet that carries it is lost and holds them. */
  lemma TokensLostIff(n: Net, c: map<TransferId, nat>, id: TransferId)
    requires Tracked(n, c, None) && Has(n, id)
    ensures id in c && c[id] in n.flight && (TokensLost(n, id) <==> IsLostWithTokens(n.flight[c[id]], id))
    ensures Value(n.flight[c[id]]) == if n.flight[c[id]].body.Internal? then Entry(n, id).amount else 0
  {
    assert AmountOf(n.flight[c[id]].body) == Entry(n, id).amount;
    if TokensLost(n, id) {
      var i :| i in n.flight && IsLostWithTokens(n.flight[i], id);
      assert c[id] == i;
    }
  }

  /** What a successful recovery finds and leaves in the wallet. */
  lemma RecoveryStep(cfg: Config, n: Net, e: Event)
    requires ShapeOk(cfg, n) && Recovers(cfg, n, e)
    ensures var p := n.flight[e.index];
            var id := RecoveredId(p);
            var r := StepOf(cfg, n, e.index, e.value, e.forwardFee);
            Has(n, id) && Entry(n, id).amount > 0 && n.now > Entry(n, id).createdAt + RECOVERY_GRACE &&
            Closed(WalletAt(n, id.owner), id.key, true, r.wallet, r.sends) && WalletOk(r.wallet) &&
            Next(cfg, n, e) == Settle(WriteOff(Take(n, e.index), p), id.owner, r.wallet, r.sends)
  {
    var p := n.flight[e.index];
    var o := p.dst.owner;
    var ctx := ContextOf(n, p, e.value, e.forwardFee);
    WalletAtOk(cfg, n, o);
    ClosingCloses(cfg.hashing, WalletAt(n, o), o, ctx, p.body, p.bounced);
    ArriveDone(cfg, n, e.index, e.value, e.forwardFee);
    hide WalletStep, Arrive, Settle, WriteOff, Take;
    var r := StepOf(cfg, n, e.index, e.value, e.forwardFee);
    ClosedIsOk(WalletAt(n, o), RecoveredId(p).key, true, r.wallet, r.sends);
  }

  /** A rightful recovery keeps the books: it writes off the packet its tokens were lost with. */
  lemma RecoverySound(cfg: Config, n: Net, c: map<TransferId, nat>, e: Event)
    requires Sound(cfg, n, c) && Recovers(cfg, n, e) && TokensLost(n, RecoveredId(n.flight[e.index]))
    ensures var p := n.flight[e.index];
            Sound(cfg, Next(cfg, n, e), c - {RecoveredId(p)}) && Next(cfg, n, e).ledger == n.ledger
  {
    hide WalletStep, Claim, Value, WalletOk, PacketOk, Books, Settle, WriteOff, Arrive, Take, Closed, TokensLost;
    var p := n.flight[e.index];
    var id := RecoveredId(p);
    RecoveryStep(cfg, n, e);
    TokensLostIff(n, c, id);
    TakeSound(cfg, n, c, e.index);
    ClaimShape(p, p.dst.owner, n.now, 0, 0);
    TakeKeeps(n, e.index);
    TakeLeaves(n, e.index, c[id]);
    var rest := Take(n, e.index);
    hide ShapeOk, Next, Recovers;
    RecoveryWritesOff(cfg, rest, c, p);
    var r := StepOf(cfg, n, e.index, e.value, e.forwardFee);
    hide Tracked, StepOf;
    SettleClose(cfg, WriteOff(rest, p), c - {id}, id, true, r.wallet, r.sends);
  }

  lemma TakeLeaves(n: Net, i: nat, j: nat)
    requires j in n.flight && i != j
    ensures j in Take(n, i).flight && Take(n, i).flight[j] == n.flight[j]
  {
  }

  lemma RecoveryWritesOff(cfg: Config, n: Net, c: map<TransferId, nat>, p: Packet)
    requires Tracked(n, c, None) && ShapeOk(cfg, n) && p.dst.WalletOf? && !p.bounced && p.body.RecoverStuck?
    requires RecoveredId(p) in c && IsLostWithTokens(n.flight[c[RecoveredId(p)]], RecoveredId(p))
    ensures var id := RecoveredId(p);
            var m := WriteOff(n, p);
            Has(n, id) && Tracked(m, c - {id}, Some(id)) && Books(m) == Books(n) - Entry(n, id).amount &&
            m.wallets == n.wallets && m.ledger == n.ledger && ShapeOk(cfg, m)
  {
    hide Claim, Value, WalletOk, PacketOk, WriteOff, AmountOf;
    var id := RecoveredId(p);
    WriteOffIsTake(n, c, p);
    TokensLostIff(n, c, id);
    TakeTracked(n, c, c[id]);
    TravellingTake(n, c[id]);
  }

  /**
   Exactly when a recovery conserves, in every state: the books stay balanced if and only if the tokens of the
   entry are lost.  If its message is merely late, or was credited and the acknowledgement is late or lost,
   the amount of the entry exists twice from then on.
   */
  lemma RecoveryConservesIffLost(cfg: Config, n: Net, e: Event)
    requires Inv(cfg, n) && Recovers(cfg, n, e)
    ensures var id := RecoveredId(n.flight[e.index]);
            var n2 := Next(cfg, n, e);
            Has(n, id) && n2.ledger == n.ledger &&
            Books(n2) == Books(n) + (if TokensLost(n, id) then 0 else Entry(n, id).amount) &&
            (Balanced(n2) <==> TokensLost(n, id))
  {
    hide WalletStep, Claim, Value, WalletOk, PacketOk, Books, Settle, WriteOff, Arrive, Take, TokensLost, ShapeOk, Next;
    var c :| Tracked(n, c, None);
    var p := n.flight[e.index];
    var id := RecoveredId(p);
    RecoveryStep(cfg, n, e);
    TokensLostIff(n, c, id);
    WriteOffBooks(cfg, n, c, e.index);
    hide Tracked, Recovers;
    var r := StepOf(cfg, n, e.index, e.value, e.forwardFee);
    hide StepOf;
    SettleIdleBooks(WriteOff(Take(n, e.index), p), id.owner, r.wallet, r.sends);
  }

  /** Writing off takes what the lost packet holds out of the books, which is nothing for an acknowledgement. */
  lemma WriteOffBooks(cfg: Config, n: Net, c: map<TransferId, nat>, i: nat)
    requires Sound(cfg, n, c) && i in n.flight && n.flight[i].dst.WalletOf? && !n.flight[i].bounced
    requires n.flight[i].body.RecoverStuck? && RecoveredId(n.flight[i]) in c
    ensures var p := n.flight[i];
            var carrier := n.flight[c[RecoveredId(p)]];
            var m := WriteOff(Take(n, i), p);
            Fresh(m) && m.wallets == n.wallets && m.ledger == n.ledger &&
            Books(m) == Books(n) - (if carrier.lost then Value(carrier) else 0)
  {
    var p := n.flight[i];
    var j := c[RecoveredId(p)];
    var rest := Take(n, i);
    ClaimShape(p, p.dst.owner, n.now, 0, 0);
    assert j != i;
    hide Claim, Value, WalletOk, PacketOk, WriteOff, AmountOf, Held, Travelling;
    TakeSound(cfg, n, c, i);
    TakeKeeps(n, i);
    TakeLeaves(n, i, j);
    if n.flight[j].lost {
      WriteOffIsTake(rest, c, p);
      TravellingTake(rest, j);
      TakeKeeps(rest, j);
    } else {
      WriteOffNothing(rest, c, p);
    }
  }

  // ---------------------------------------------------------------- the master

  function MasterStepOf(cfg: Config, n: Net, i: nat, value: nat, fee: nat): MasterOutcome
    requires i in n.flight
  {
    var p := n.flight[i];
    MasterStep(n.ledger, cfg.treasury, ContextOf(n, p, value, fee), p.body, p.bounced)
  }

  lemma HoldsAtMostAll(cfg: Config, n: Net, i: nat)
    requires Balanced(n) && i in n.flight
    ensures Value(n.flight[i]) + Undeployed(n.ledger) <= n.ledger.totalSupply <= TOTAL_SUPPLY
  {
    SumAtLeast(Values(n.flight), i);
  }

  /** What the master's step does to the supply and to the one message it may send. */
  lemma MasterBooks(cfg: Config, n: Net, i: nat, value: nat, fee: nat)
    requires i in n.flight && n.flight[i].dst == Master && PacketOk(cfg, n.flight[i])
    requires Value(n.flight[i]) + Undeployed(n.ledger) <= n.ledger.totalSupply <= TOTAL_SUPPLY
    requires MasterStepOf(cfg, n, i, value, fee).MasterDone?
    ensures var r := MasterStepOf(cfg, n, i, value, fee);
            var sent := if |r.sends| == 1 then Value(Posted(Master, r.sends[0])) else 0;
            |r.sends| <= 1 && r.ledger.totalSupply <= n.ledger.totalSupply &&
            (|r.sends| == 1 ==>
               PacketOk(cfg, Posted(Master, r.sends[0])) && Claim(Posted(Master, r.sends[0])).None?) &&
            sent + Undeployed(r.ledger) + n.ledger.totalSupply ==
            Value(n.flight[i]) + Undeployed(n.ledger) + r.ledger.totalSupply
  {
  }

  lemma MasterDoneSound(cfg: Config, n: Net, c: map<TransferId, nat>, ledger: Ledger, sends: seq<Send>)
    requires Tracked(n, c, None) && ShapeOk(cfg, n) && |sends| <= 1
    requires |sends| == 1 ==> PacketOk(cfg, Posted(Master, sends[0])) && Claim(Posted(Master, sends[0])).None?
    ensures var n2 := Post(n.(ledger := ledger), Master, sends);
            Tracked(n2, c, None) && ShapeOk(cfg, n2) && n2.ledger == ledger &&
            Books(n2) == Books(n) + (if |sends| == 1 then Value(Posted(Master, sends[0])) else 0)
  {
    hide Claim, Value, Tracked, PacketOk, WalletOk, Held, Travelling;
    var m := n.(ledger := ledger);
    LedgerTracked(n, c, ledger);
    assert Books(m) == Books(n) by {
      LedgerBooks(n, ledger);
    }
    if |sends| == 1 {
      PutSound(cfg, m, c, None, Posted(Master, sends[0]));
      assert Post(m, Master, sends) == Put(m, Posted(Master, sends[0]));
    }
  }

  lemma LedgerBooks(n: Net, ledger: Ledger)
    ensures Books(n.(ledger := ledger)) == Books(n)
  {
  }

  lemma LedgerTracked(n: Net, c: map<TransferId, nat>, m: Ledger)
    requires Tracked(n, c, None)
    ensures Tracked(n.(ledger := m), c, None)
  {
    hide Claim, AmountOf;
    var n2 := n.(ledger := m);
    assert forall id :: Has(n2, id) <==> Has(n, id);
    assert forall id | Has(n, id) :: Entry(n2, id) == Entry(n, id);
  }

  lemma DeliverToMaster(cfg: Config, n: Net, c: map<TransferId, nat>, i: nat, value: nat, fee: nat)
    requires Sound(cfg, n, c) && i in n.flight && n.flight[i].dst == Master
    ensures Sound(cfg, Arrive(cfg, n, i, value, fee), c)
  {
    hide MasterStep, WalletStep, Value, Tracked, PacketOk, WalletOk, Books, Settle, Post;
    HoldsAtMostAll(cfg, n, i);
    TakeSound(cfg, n, c, i);
    if MasterStepOf(cfg, n, i, value, fee).MasterThrow? {
      MasterRefusal(cfg, n, i, value, fee);
      RejectSound(cfg, n, c, i);
    } else {
      MasterBooks(cfg, n, i, value, fee);
      var r := MasterStepOf(cfg, n, i, value, fee);
      assert Claim(n.flight[i]).None?;
      hide Claim, Take;
      TakeKeeps(n, i);
      MasterDoneSound(cfg, Take(n, i), c, r.ledger, r.sends);
    }
  }

  lemma MasterRefusal(cfg: Config, n: Net, i: nat, value: nat, fee: nat)
    requires i in n.flight && n.flight[i].dst == Master && PacketOk(cfg, n.flight[i])
    requires Value(n.flight[i]) + Undeployed(n.ledger) <= n.ledger.totalSupply <= TOTAL_SUPPLY
    requires MasterStepOf(cfg, n, i, value, fee).MasterThrow?
    ensures Refusable(n.flight[i])
  {
  }

  // ---------------------------------------------------------------- every event

  lemma OutsideSound(cfg: Config, n: Net, c: map<TransferId, nat>, p: Packet)
    requires Sound(cfg, n, c) && p.src.User?
    ensures Sound(cfg, Put(n, p), c)
  {
    PutSound(cfg, n, c, None, p);
  }

  lemma UserSound(cfg: Config, n: Net, c: map<TransferId, nat>, i: nat)
    requires Sound(cfg, n, c) && i in n.flight && n.flight[i].dst.User?
    ensures Sound(cfg, Take(n, i), c)
  {
    TakeSound(cfg, n, c, i);
  }

  lemma LoseSound(cfg: Config, n: Net, c: map<TransferId, nat>, i: nat)
    requires Sound(cfg, n, c) && i in n.flight
    ensures Sound(cfg, Next(cfg, n, Lose(i)), c)
  {
    var q := n.flight[i].(lost := true);
    LostPacket(cfg, n.flight[i]);
    hide Claim, Value, PacketOk, WalletOk, Tracked, Held, Travelling;
    SwapTracked(n, c, i, q);
    SwapTravels(n, i, q);
  }

  lemma LostPacket(cfg: Config, p: Packet)
    ensures var q := p.(lost := true);
            Claim(q) == Claim(p) && Value(q) == Value(p) && (PacketOk(cfg, p) ==> PacketOk(cfg, q))
  {
  }

  lemma TickSound(cfg: Config, n: Net, c: map<TransferId, nat>, t: nat)
    requires Sound(cfg, n, c)
    ensures Sound(cfg, n.(now := n.now + t), c)
  {
    hide Claim, PacketOk, WalletOk, Tracked, Value;
    TickTracked(n, c, t);
  }

  lemma DeliverToWallet(cfg: Config, n: Net, c: map<TransferId, nat>, e: Event)
    returns (c2: map<TransferId, nat>)
    requires Sound(cfg, n, c) && e.Deliver? && Enabled(n, e) && n.flight[e.index].dst.WalletOf? && Rightful(cfg, n, e)
    ensures Sound(cfg, Next(cfg, n, e), c2)
  {
    hide Sound, WalletStep, TokensLost;
    var i, value, fee := e.index, e.value, e.forwardFee;
    var p := n.flight[i];
    c2 := c;
    if StepOf(cfg, n, i, value, fee).Throw? {
      AnsweringNeverThrows(cfg, n, c, i, value, fee);
      RejectSound(cfg, n, c, i);
    } else if Opening(p.body, p.bounced) {
      c2 := DeliverOpening(cfg, n, c, i, value, fee);
    } else if Crediting(p.body, p.bounced) {
      c2 := DeliverCrediting(cfg, n, c, i, value, fee);
    } else if Closing(p.body, p.bounced) {
      if p.body.RecoverStuck? {
        RecoverySound(cfg, n, c, e);
        c2 := c - {RecoveredId(p)};
      } else {
        c2 := DeliverClosing(cfg, n, c, i, value, fee);
      }
    } else {
      DeliverOther(cfg, n, c, i, value, fee);
    }
  }

  lemma NextSound(cfg: Config, n: Net, c: map<TransferId, nat>, e: Event)
    returns (c2: map<TransferId, nat>)
    requires Sound(cfg, n, c) && Enabled(n, e) && Rightful(cfg, n, e)
    ensures Sound(cfg, Next(cfg, n, e), c2)
  {
    hide Sound, Claim, WalletStep, MasterStep, Rightful;
    c2 := c;
    match e
    case Outside(src, dst, body, bounce, bounced) =>
      OutsideSound(cfg, n, c, Packet(src, dst, body, bounce, bounced, false));
    case Lose(i) => LoseSound(cfg, n, c, i);
    case Tick(t) => TickSound(cfg, n, c, t);
    case Deliver(i, value, fee) =>
      if n.flight[i].dst.User? {
        UserSound(cfg, n, c, i);
      } else if n.flight[i].dst.WalletOf? {
        c2 := DeliverToWallet(cfg, n, c, e);
      } else {
        DeliverToMaster(cfg, n, c, i, value, fee);
      }
  }

  // ---------------------------------------------------------------- main results

  lemma GenesisInv(cfg: Config, now: nat)
    ensures Inv(cfg, Genesis(now))
  {
    var n := Genesis(now);
    assert Balances(n.wallets) == map[];
    assert Values(n.flight) == map[];
    assert Tracked(n, map[], None);
  }

  lemma NextInv(cfg: Config, n: Net, e: Event)
    requires Inv(cfg, n) && Enabled(n, e) && Rightful(cfg, n, e)
    ensures Inv(cfg, Next(cfg, n, e))
  {
    hide Tracked, Balanced, ShapeOk, Next, Enabled, Rightful;
    var c :| Tracked(n, c, None);
    var c2 := NextSound(cfg, n, c, e);
  }

  /**
   Conservation: in every run whose recoveries unwind lost tokens only, whatever outsiders send, whatever is
   late and whatever is lost, the balances, the tokens under way and the supply not yet deployed add up to the
   total supply, which never exceeds 10^17.
   */
  lemma {:induction false} RunsConserve(cfg: Config, n: Net, es: seq<Event>)
    requires Inv(cfg, n) && Allowed(cfg, n, es) && OnlyRightful(cfg, n, es)
    ensures var m := After(cfg, n, es);
            Inv(cfg, m) && Books(m) + Undeployed(m.ledger) == m.ledger.totalSupply <= TOTAL_SUPPLY
    decreases |es|
  {
    hide Tracked, ShapeOk, Next, Enabled, Books, Rightful;
    if |es| > 0 {
      NextInv(cfg, n, es[0]);
      RunsConserve(cfg, Next(cfg, n, es[0]), es[1..]);
    }
  }

  /** The books balance in every state a run passes through. */
  ghost predicate AlwaysBalanced(cfg: Config, n: Net, es: seq<Event>)
    decreases |es|
  {
    Balanced(n) && (|es| == 0 || AlwaysBalanced(cfg, Next(cfg, n, es[0]), es[1..]))
  }

  /**
   The exact condition, for every run without any other proviso: the books balance throughout if and only if
   every recovery in the run unwinds an entry whose tokens are lost.
   */
  lemma {:induction false} BalancedIffRightful(cfg: Config, n: Net, es: seq<Event>)
    requires Inv(cfg, n) && Allowed(cfg, n, es)
    ensures AlwaysBalanced(cfg, n, es) <==> OnlyRightful(cfg, n, es)
    decreases |es|
  {
    hide Tracked, ShapeOk, Next, Enabled, Balanced, TokensLost, Recovers;
    if |es| > 0 {
      if Rightful(cfg, n, es[0]) {
        NextInv(cfg, n, es[0]);
        BalancedIffRightful(cfg, Next(cfg, n, es[0]), es[1..]);
      } else {
        RecoveryConservesIffLost(cfg, n, es[0]);
      }
    }
  }

  // ---------------------------------------------------------------- when every recovery is rightful

  /** Every message that carries an entry is lost with the tokens or within the grace period of its debit. */
  ghost predicate Prompt(n: Net) {
    forall i | i in n.flight && Claim(n.flight[i]).Some? && Has(n, Claim(n.flight[i]).value) ::
      if n.flight[i].lost then n.flight[i].body.Internal?
      else n.now <= Entry(n, Claim(n.flight[i]).value).createdAt + RECOVERY_GRACE
  }

  ghost predicate AlwaysPrompt(cfg: Config, n: Net, es: seq<Event>)
    decreases |es|
  {
    Prompt(n) && (|es| == 0 || AlwaysPrompt(cfg, Next(cfg, n, es[0]), es[1..]))
  }

  lemma PromptIsRightful(cfg: Config, n: Net, e: Event)
    requires Inv(cfg, n) && Prompt(n)
    ensures Rightful(cfg, n, e)
  {
    if Recovers(cfg, n, e) {
      var c :| Tracked(n, c, None);
      RecoveryStep(cfg, n, e);
      hide WalletStep, ShapeOk, Balanced, Next;
      TokensLostIff(n, c, RecoveredId(n.flight[e.index]));
    }
  }

  /**
   When transfers resolve within 30 days of their debit and no acknowledgement is lost, every recovery is
   rightful and so every such run conserves.
   */
  lemma {:induction false} PromptRunsConserve(cfg: Config, n: Net, es: seq<Event>)
    requires Inv(cfg, n) && Allowed(cfg, n, es) && AlwaysPrompt(cfg, n, es)
    ensures OnlyRightful(cfg, n, es) && Inv(cfg, After(cfg, n, es))
    decreases |es|
  {
    hide Inv, Next, Enabled, Rightful, Prompt;
    if |es| > 0 {
      PromptIsRightful(cfg, n, es[0]);
      NextInv(cfg, n, es[0]);
      PromptRunsConserve(cfg, Next(cfg, n, es[0]), es[1..]);
    }
  }
}
