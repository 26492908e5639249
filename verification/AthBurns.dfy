/**
 Burns over a whole run.  A burn is known by the number of the message its debit sends, which the message
 keeps when the master refuses it: it is finalized once or restored once, never both, and the supply falls by
 exactly what was finalized.
 */
module AthBurns {
  import opened Sums
  import opened AthProtocol
  import opened Transactions
  import opened AthNetwork
  import opened AthLedger
  import opened AthConservation
  import opened AthTransfers

  /** The part of a packet's tokens that belongs to a burn on its way to the master or back. */
  function BurnValue(p: Packet): nat {
    if p.body.BurnNotification? then Value(p) else 0
  }

  /** The tokens message `i` burns, under way or lost. */
  function BurnAt(n: Net, i: nat): nat {
    if i in n.flight then BurnValue(n.flight[i]) else 0
  }

  predicate IsBurning(n: Net, i: nat) {
    BurnAt(n, i) > 0
  }

  ghost function BurnValues(flight: map<nat, Packet>): map<nat, nat> {
    map i | i in flight :: BurnValue(flight[i])
  }

  ghost function Burning(n: Net): nat {
    Sum(BurnValues(n.flight))
  }

  /** Two states whose messages burn the same, but for message `i`. */
  ghost predicate SameBurnsBut(n: Net, i: nat, n2: Net) {
    forall j | j != i :: BurnAt(n, j) == BurnAt(n2, j)
  }

  /** What changes at one message changes the total by as much. */
  lemma BurningMoves(n: Net, i: nat, n2: Net)
    requires SameBurnsBut(n, i, n2)
    ensures Burning(n2) + BurnAt(n, i) == Burning(n) + BurnAt(n2, i)
  {
    hide BurnValue, Sum;
    var a, b := BurnValues(n.flight), BurnValues(n2.flight);
    forall j: nat
      ensures At(a - {i}, j) == At(b - {i}, j)
    {
      if j != i {
        assert BurnAt(n, j) == BurnAt(n2, j);
      }
    }
    SumAgree(a - {i}, b - {i});
    SumWithout(a, i);
    SumWithout(b, i);
  }

  // ---------------------------------------------------------------- what an event does to burns

  datatype BurnEffect = NoBurn | Burned(id: nat) | Finalized(id: nat) | Restored(id: nat)

  function BurnEffectOf(cfg: Config, n: Net, e: Event): BurnEffect {
    if !e.Deliver? || e.index !in n.flight then NoBurn
    else
      var p := n.flight[e.index];
      if p.dst.WalletOf? && StepOf(cfg, n, e.index, e.value, e.forwardFee).Done? then
        if p.body.Burn? && !p.bounced then Burned(n.next)
        else if p.body.BurnNotification? && p.bounced then Restored(e.index)
        else NoBurn
      else if p.dst.Master? && MasterStepOf(cfg, n, e.index, e.value, e.forwardFee).MasterDone? &&
              p.body.BurnNotification? && !p.bounced
      then Finalized(e.index)
      else NoBurn
  }

  /**
   The burns before and after an event: one appears under a new number, or one ends, with its tokens back on the
   balance or off the supply; every other keeps its number and its amount.
   */
  ghost predicate BurnTransition(n: Net, f: BurnEffect, n2: Net) {
    n.next <= n2.next && Fresh(n2) &&
    (match f
     case NoBurn => SameBurnsBut(n, n.next, n2) && !IsBurning(n2, n.next) &&
                    n2.ledger.totalSupply == n.ledger.totalSupply
     case Burned(i) => i == n.next < n2.next && IsBurning(n2, i) && SameBurnsBut(n, i, n2) &&
                       n2.ledger.totalSupply == n.ledger.totalSupply
     case Finalized(i) => IsBurning(n, i) && !IsBurning(n2, i) && SameBurnsBut(n, i, n2) &&
                          n2.ledger.totalSupply + BurnAt(n, i) == n.ledger.totalSupply
     case Restored(i) => IsBurning(n, i) && !IsBurning(n2, i) && SameBurnsBut(n, i, n2) &&
                         n2.ledger.totalSupply == n.ledger.totalSupply)
  }

  ghost predicate NoBurns(sends: seq<Send>) {
    forall i | 0 <= i < |sends| :: !sends[i].body.BurnNotification?
  }

  /** Notices that are no burns leave the burns alone. */
  lemma {:induction false} PostNoBurns(n: Net, src: Address, sends: seq<Send>)
    requires Fresh(n) && NoBurns(sends)
    ensures var m := Post(n, src, sends);
            Fresh(m) && n.next <= m.next && forall j :: BurnAt(m, j) == BurnAt(n, j)
    decreases |sends|
  {
    if |sends| > 0 {
      var m := Put(n, Posted(src, sends[0]));
      assert forall j :: BurnAt(m, j) == BurnAt(n, j);
      PostNoBurns(m, src, sends[1..]);
    }
  }

  lemma WriteOffKeepsBurns(n: Net, p: Packet)
    ensures var m := WriteOff(n, p);
            (Fresh(n) ==> Fresh(m)) && m.next == n.next && m.ledger == n.ledger &&
            forall j :: BurnAt(m, j) == BurnAt(n, j)
  {
  }

  lemma CreditsSendNoBurns(h: Hashing, w: Wallet, o: Address, c: Context, b: Body)
    requires b.Internal? && CreditStep(h, w, o, c, b.lane, b.queryId, b.amount, b.sender, b.response).Done?
    ensures NoBurns(CreditStep(h, w, o, c, b.lane, b.queryId, b.amount, b.sender, b.response).sends)
  {
    hide CreditGate, Credit;
  }

  lemma RequestsSendNoBurns(w: Wallet, o: Address, c: Context, b: Body)
    requires b.Request? && RequestStep(w, o, c, b.lane, b.queryId, b.amount, b.recipient, b.response).Done?
    ensures NoBurns(RequestStep(w, o, c, b.lane, b.queryId, b.amount, b.recipient, b.response).sends)
  {
  }

  lemma WalletSendsBurns(h: Hashing, w: Wallet, o: Address, c: Context, body: Body, bounced: bool)
    requires WalletStep(h, w, o, c, body, bounced).Done?
    ensures var sends := WalletStep(h, w, o, c, body, bounced).sends;
            if body.Burn? && !bounced
            then |sends| == 1 && BurnValue(Posted(WalletOf(o), sends[0])) == body.amount > 0
            else NoBurns(sends)
    ensures body.BurnNotification? ==> bounced && c.sender == Master && body.amount > 0
  {
    hide CreditStep, RequestStep;
    if body.Internal? && !bounced {
      CreditsSendNoBurns(h, w, o, c, body);
    }
    if body.Request? && !bounced {
      RequestsSendNoBurns(w, o, c, body);
    }
  }

  /** A burn that arrives at a wallet has come back to it. */
  lemma BurnAtWallet(p: Packet)
    requires p.dst.WalletOf?
    ensures BurnValue(p) == (if p.body.BurnNotification? && p.bounced && p.src.Master? then p.body.amount else 0)
  {
  }

  lemma WalletBurns(cfg: Config, n: Net, e: Event)
    requires Fresh(n) && Succeeds(cfg, n, e)
    ensures BurnTransition(n, BurnEffectOf(cfg, n, e), Next(cfg, n, e))
  {
    var i := e.index;
    var p := n.flight[i];
    var o := p.dst.owner;
    var r := StepOf(cfg, n, i, e.value, e.forwardFee);
    WalletSendsBurns(cfg.hashing, WalletAt(n, o), o, ContextOf(n, p, e.value, e.forwardFee), p.body, p.bounced);
    BurnAtWallet(p);
    hide WalletStep, WriteOff, Arrive, BurnValue;
    ArriveDone(cfg, n, i, e.value, e.forwardFee);
    var k := WriteOff(Take(n, i), p);
    WriteOffKeepsBurns(Take(n, i), p);
    SettleBurns(n, i, k, o, r.wallet, r.sends, p.body.Burn? && !p.bounced);
  }

  /** What settling a step leaves of the burns, once message `i` was taken. */
  lemma SettleBurns(n: Net, i: nat, k: Net, o: Address, w: Wallet, sends: seq<Send>, burns: bool)
    requires Fresh(n) && i in n.flight && Fresh(k) && k.next == n.next
    requires forall j :: BurnAt(k, j) == BurnAt(Take(n, i), j)
    requires if burns then |sends| == 1 && BurnValue(Posted(WalletOf(o), sends[0])) > 0 else NoBurns(sends)
    ensures var m := Settle(k, o, w, sends);
            Fresh(m) && n.next <= m.next && m.ledger == k.ledger && !IsBurning(m, i) &&
            (burns ==> n.next < m.next && IsBurning(m, n.next)) && (!burns ==> !IsBurning(m, n.next)) &&
            forall j | j != i && j != n.next :: BurnAt(m, j) == BurnAt(n, j)
  {
    hide BurnValue;
    var u := k.(wallets := k.wallets[o := w]);
    assert forall j :: BurnAt(u, j) == BurnAt(k, j);
    assert BurnAt(Take(n, i), i) == 0 && BurnAt(u, i) == 0;
    PostKeeps(u, WalletOf(o), sends);
    if burns {
      assert Post(u, WalletOf(o), sends) == Put(u, Posted(WalletOf(o), sends[0]));
    } else {
      PostNoBurns(u, WalletOf(o), sends);
    }
    var m := Settle(k, o, w, sends);
    forall j | j != i && j != n.next
      ensures BurnAt(m, j) == BurnAt(n, j)
    {
      assert BurnAt(u, j) == BurnAt(k, j) == BurnAt(Take(n, i), j);
    }
  }

  /** A refused burn goes back under its own number: nothing else that is refused is a burn. */
  lemma RejectBurns(cfg: Config, n: Net, i: nat)
    requires Fresh(n) && i in n.flight && PacketOk(cfg, n.flight[i]) && !n.flight[i].dst.User?
    requires n.flight[i].bounced ==> BurnValue(n.flight[i]) == 0
    ensures BurnTransition(n, NoBurn, Reject(n, i))
  {
    RejectFacts(cfg, n.flight[i]);
  }

  lemma RefusedBurn(cfg: Config, n: Net, e: Event)
    requires e.Deliver? && e.index in n.flight && n.flight[e.index].bounced
    requires n.flight[e.index].dst.WalletOf? ==> StepOf(cfg, n, e.index, e.value, e.forwardFee).Throw?
    ensures BurnValue(n.flight[e.index]) == 0
  {
  }

  lemma MasterBurns(cfg: Config, n: Net, e: Event)
    requires Fresh(n) && e.Deliver? && e.index in n.flight && n.flight[e.index].dst == Master
    requires PacketOk(cfg, n.flight[e.index]) && MasterStepOf(cfg, n, e.index, e.value, e.forwardFee).MasterDone?
    ensures BurnTransition(n, BurnEffectOf(cfg, n, e), Next(cfg, n, e))
  {
    var i := e.index;
    var p := n.flight[i];
    var r := MasterStepOf(cfg, n, i, e.value, e.forwardFee);
    var finalizes := p.body.BurnNotification? && !p.bounced;
    assert NoBurns(r.sends) && r.ledger.totalSupply + (if finalizes then p.body.amount else 0) == n.ledger.totalSupply;
    assert BurnValue(p) == (if finalizes then p.body.amount else 0) && (finalizes ==> p.body.amount > 0);
    hide MasterStep, PacketOk, BurnValue, WalletStep;
    var m := Take(n, i).(ledger := r.ledger);
    assert forall j | j != i :: BurnAt(m, j) == BurnAt(n, j);
    PostNoBurns(m, Master, r.sends);
    PostKeeps(m, Master, r.sends);
  }

  /** Every event moves each burn along one path, kept under one number. */
  lemma EventBurns(cfg: Config, n: Net, e: Event)
    requires Formed(cfg, n) && Enabled(n, e)
    ensures BurnTransition(n, BurnEffectOf(cfg, n, e), Next(cfg, n, e))
  {
    hide WalletStep, MasterStep, WalletOk, Claim, Books;
    match e
    case Outside(src, dst, body, bounce, bounced) => {}
    case Tick(t) => {}
    case Lose(i) => {}
    case Deliver(i, value, fee) => {
      hide Value, BurnTransition;
      var p := n.flight[i];
      assert PacketOk(cfg, p);
      if p.dst.User? {
        UserBurns(n, i);
      } else if p.dst.WalletOf? && StepOf(cfg, n, i, value, fee).Done? {
        WalletBurns(cfg, n, e);
      } else if p.dst.Master? && MasterStepOf(cfg, n, i, value, fee).MasterDone? {
        MasterBurns(cfg, n, e);
      } else {
        if p.bounced {
          RefusedBurn(cfg, n, e);
        }
        RejectBurns(cfg, n, i);
      }
    }
  }

  lemma UserBurns(n: Net, i: nat)
    requires Fresh(n) && i in n.flight && n.flight[i].dst.User?
    ensures BurnTransition(n, NoBurn, Take(n, i))
  {
  }

  // ---------------------------------------------------------------- what every event keeps

  /** The part of the invariant that no recovery can break. */
  ghost predicate Formed(cfg: Config, n: Net) {
    ShapeOk(cfg, n) && Fresh(n)
  }

  ghost predicate Shaped(cfg: Config, src: Address, sends: seq<Send>) {
    forall i | 0 <= i < |sends| :: PacketOk(cfg, Posted(src, sends[i]))
  }

  lemma {:induction false} PostFormed(cfg: Config, n: Net, src: Address, sends: seq<Send>)
    requires Formed(cfg, n) && Shaped(cfg, src, sends)
    ensures Formed(cfg, Post(n, src, sends))
    decreases |sends|
  {
    hide PacketOk, WalletOk;
    if |sends| > 0 {
      PostFormed(cfg, Put(n, Posted(src, sends[0])), src, sends[1..]);
    }
  }

  lemma IdleShaped(cfg: Config, o: Address, sends: seq<Send>, at: nat)
    requires AllIdle(sends) || (IdleBut(sends, at) && PacketOk(cfg, Posted(WalletOf(o), sends[at])))
    ensures Shaped(cfg, WalletOf(o), sends)
  {
    hide PacketOk, Idle;
    forall i | 0 <= i < |sends|
      ensures PacketOk(cfg, Posted(WalletOf(o), sends[i]))
    {
      if i != at || AllIdle(sends) {
        IdleIsShaped(cfg, WalletOf(o), sends[i]);
      }
    }
  }

  /** What a wallet step leaves in the wallet and sends is well formed. */
  lemma StepShaped(cfg: Config, w: Wallet, o: Address, p: Packet, c: Context)
    requires WalletOk(w) && PacketOk(cfg, p) && c.sender == p.src
    requires WalletStep(cfg.hashing, w, o, c, p.body, p.bounced).Done?
    ensures var r := WalletStep(cfg.hashing, w, o, c, p.body, p.bounced);
            WalletOk(r.wallet) && Shaped(cfg, WalletOf(o), r.sends)
  {
    var r := WalletStep(cfg.hashing, w, o, c, p.body, p.bounced);
    if Opening(p.body, p.bounced) {
      hide WalletStep, WalletOk;
      var at := DebitShape(cfg, w, o, c, p.body, p.bounced);
      hide PacketOk, Idle;
      IdleShaped(cfg, o, r.sends, at);
    } else if Crediting(p.body, p.bounced) {
      CreditShaped(cfg, w, o, p, c);
      hide WalletStep;
    } else if Closing(p.body, p.bounced) {
      hide WalletStep, Idle;
      ClosingCloses(cfg.hashing, w, o, c, p.body, p.bounced);
      ClosedIsOk(w, ClosingKey(p.body, c), !p.body.TransferAck?, r.wallet, r.sends);
      IdleShaped(cfg, o, r.sends, 0);
    } else {
      hide WalletStep, Idle;
      OthersKeep(cfg.hashing, w, o, c, p.body, p.bounced);
      if AllIdle(r.sends) {
        IdleShaped(cfg, o, r.sends, 0);
      }
    }
  }

  lemma CreditShaped(cfg: Config, w: Wallet, o: Address, p: Packet, c: Context)
    requires WalletOk(w) && PacketOk(cfg, p) && c.sender == p.src && Crediting(p.body, p.bounced)
    requires var b := p.body; CreditStep(cfg.hashing, w, o, c, b.lane, b.queryId, b.amount, b.sender, b.response).Done?
    ensures var b := p.body;
            var r := CreditStep(cfg.hashing, w, o, c, b.lane, b.queryId, b.amount, b.sender, b.response);
            WalletOk(r.wallet) && Shaped(cfg, WalletOf(o), r.sends)
  {
    hide CreditGate, Credit, CreditNotices, CreditExcess, WalletOk;
    var b := p.body;
    CreditGateFacts(cfg.hashing, w, o, c, b);
    var at := CreditCredits(cfg.hashing, w, o, c, b);
    CreditIsOk(cfg, w, o, c, b);
    var r := CreditStep(cfg.hashing, w, o, c, b.lane, b.queryId, b.amount, b.sender, b.response);
    hide CreditStep, Idle;
    IdleShaped(cfg, o, r.sends, at);
  }

  lemma TakenFormed(cfg: Config, n: Net, i: nat, p: Packet)
    requires Formed(cfg, n)
    ensures var k := WriteOff(Take(n, i), p); Formed(cfg, k) && k.wallets == n.wallets
  {
    hide PacketOk, WalletOk;
  }

  lemma WalletFormed(cfg: Config, n: Net, e: Event)
    requires Formed(cfg, n) && Succeeds(cfg, n, e)
    ensures Formed(cfg, Next(cfg, n, e))
  {
    var p := n.flight[e.index];
    var o := p.dst.owner;
    assert PacketOk(cfg, p);
    hide WalletStep, PacketOk, WalletOk, Arrive, Shaped, Post, WriteOff, Take;
    WalletAtOk(cfg, n, o);
    StepShaped(cfg, WalletAt(n, o), o, p, ContextOf(n, p, e.value, e.forwardFee));
    ArriveDone(cfg, n, e.index, e.value, e.forwardFee);
    var r := StepOf(cfg, n, e.index, e.value, e.forwardFee);
    var k := WriteOff(Take(n, e.index), p);
    TakenFormed(cfg, n, e.index, p);
    PostFormed(cfg, k.(wallets := k.wallets[o := r.wallet]), WalletOf(o), r.sends);
  }

  lemma MasterFormed(cfg: Config, n: Net, e: Event)
    requires Formed(cfg, n) && e.Deliver? && e.index in n.flight && n.flight[e.index].dst == Master
    requires MasterStepOf(cfg, n, e.index, e.value, e.forwardFee).MasterDone?
    ensures Formed(cfg, Next(cfg, n, e))
  {
    var r := MasterStepOf(cfg, n, e.index, e.value, e.forwardFee);
    assert Shaped(cfg, Master, r.sends);
    hide MasterStep, PacketOk, WalletOk, WalletStep;
    PostFormed(cfg, Take(n, e.index).(ledger := r.ledger), Master, r.sends);
  }

  lemma NextFormed(cfg: Config, n: Net, e: Event)
    requires Formed(cfg, n) && Enabled(n, e)
    ensures Formed(cfg, Next(cfg, n, e))
  {
    hide WalletStep, MasterStep, WalletOk;
    match e
    case Outside(src, dst, body, bounce, bounced) => {}
    case Tick(t) => {}
    case Lose(i) => LostPacket(cfg, n.flight[i]);
    case Deliver(i, value, fee) => {
      var p := n.flight[i];
      if p.dst.WalletOf? && StepOf(cfg, n, i, value, fee).Done? {
        WalletFormed(cfg, n, e);
      } else if p.dst.Master? && MasterStepOf(cfg, n, i, value, fee).MasterDone? {
        MasterFormed(cfg, n, e);
      } else if !p.dst.User? {
        assert PacketOk(cfg, p);
        RejectFacts(cfg, p);
      }
    }
  }

  // ---------------------------------------------------------------- one burn over a run

  function BurnTimes(cfg: Config, n: Net, es: seq<Event>, f: BurnEffect): nat
    decreases |es|
  {
    if |es| == 0 then 0
    else (if BurnEffectOf(cfg, n, es[0]) == f then 1 else 0) + BurnTimes(cfg, Next(cfg, n, es[0]), es[1..], f)
  }

  lemma BurnSteps(cfg: Config, n: Net, e: Event, i: nat)
    requires Formed(cfg, n) && Enabled(n, e)
    ensures var f := BurnEffectOf(cfg, n, e);
            var m := Next(cfg, n, e);
            One(IsBurning(n, i)) + One(f == Burned(i)) ==
            One(f == Finalized(i)) + One(f == Restored(i)) + One(IsBurning(m, i)) &&
            (f == Burned(i) ==> n.next <= i < m.next) && n.next <= m.next && (i >= n.next ==> !IsBurning(n, i))
  {
    hide BurnEffectOf, Next, Enabled, BurnValue;
    EventBurns(cfg, n, e);
  }

  /**
   One burn, in every run: the debit that sends message `i` happens at most once,
   and it is finalized, restored or still under way, exactly one of the three.  In particular a finalized burn
   is never restored.
   */
  lemma {:induction false} EachBurnEndsOnce(cfg: Config, n: Net, es: seq<Event>, i: nat)
    requires Formed(cfg, n) && Allowed(cfg, n, es)
    ensures One(IsBurning(n, i)) + BurnTimes(cfg, n, es, Burned(i)) ==
            BurnTimes(cfg, n, es, Finalized(i)) + BurnTimes(cfg, n, es, Restored(i)) +
            One(IsBurning(After(cfg, n, es), i))
    ensures One(IsBurning(n, i)) + BurnTimes(cfg, n, es, Burned(i)) <= 1
    ensures i < n.next ==> BurnTimes(cfg, n, es, Burned(i)) == 0
    decreases |es|
  {
    hide Formed, Next, Enabled, BurnEffectOf, IsBurning;
    if |es| > 0 {
      BurnSteps(cfg, n, es[0], i);
      NextFormed(cfg, n, es[0]);
      EachBurnEndsOnce(cfg, Next(cfg, n, es[0]), es[1..], i);
    }
  }

  // ---------------------------------------------------------------- all burns over a run

  datatype BurnTotals = BurnTotals(burned: nat, finalized: nat, restored: nat)

  ghost function TotalsOf(cfg: Config, n: Net, es: seq<Event>): BurnTotals
    decreases |es|
  {
    if |es| == 0 then BurnTotals(0, 0, 0)
    else
      var n2 := Next(cfg, n, es[0]);
      var t := TotalsOf(cfg, n2, es[1..]);
      match BurnEffectOf(cfg, n, es[0])
      case NoBurn => t
      case Burned(i) => t.(burned := t.burned + BurnAt(n2, i))
      case Finalized(i) => t.(finalized := t.finalized + BurnAt(n, i))
      case Restored(i) => t.(restored := t.restored + BurnAt(n, i))
  }

  lemma EventAccounted(cfg: Config, n: Net, e: Event)
    requires Formed(cfg, n) && Enabled(n, e)
    ensures var f := BurnEffectOf(cfg, n, e);
            var m := Next(cfg, n, e);
            var gone := if f.Finalized? || f.Restored? then BurnAt(n, f.id) else 0;
            var started := if f.Burned? then BurnAt(m, f.id) else 0;
            Burning(m) + gone == Burning(n) + started &&
            m.ledger.totalSupply + (if f.Finalized? then gone else 0) == n.ledger.totalSupply
  {
    hide BurnEffectOf, Next, Enabled, Burning;
    EventBurns(cfg, n, e);
    var f := BurnEffectOf(cfg, n, e);
    var m := Next(cfg, n, e);
    BurningMoves(n, if f.NoBurn? then n.next else f.id, m);
  }

  /**
   The supply equation of burns, in every run: what was burned is what was finalized, plus what was
   restored, plus what is still on the way; and the supply has fallen by exactly what was finalized.
   */
  lemma {:induction false} BurnsAddUp(cfg: Config, n: Net, es: seq<Event>)
    requires Formed(cfg, n) && Allowed(cfg, n, es)
    ensures var t := TotalsOf(cfg, n, es);
            var m := After(cfg, n, es);
            Burning(n) + t.burned == t.finalized + t.restored + Burning(m) &&
            m.ledger.totalSupply + t.finalized == n.ledger.totalSupply
    decreases |es|
  {
    hide Formed, Enabled, Next, BurnEffectOf, Burning, BurnAt;
    if |es| > 0 {
      EventAccounted(cfg, n, es[0]);
      NextFormed(cfg, n, es[0]);
      BurnsAddUp(cfg, Next(cfg, n, es[0]), es[1..]);
    }
  }
}
