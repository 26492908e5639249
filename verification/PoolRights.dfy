/**
 Who may move the pool, and when: laws over every message and every history of messages, told in the messages
 alone and in the figures of the design.
 */
module PoolRights {
  import opened AirdropPool
  import opened Transactions

  // ---------------------------------------------------------------- one message

  /** Everything the controller alone decides. */
  ghost predicate SameBindings(p: Pool, q: Pool) {
    q.sealed == p.sealed && q.manifestHash == p.manifestHash && q.athMaster == p.athMaster &&
    q.athWallet == p.athWallet && q.masterBound == p.masterBound && q.issuer == p.issuer &&
    q.issuerBound == p.issuerBound && q.treasury == p.treasury && q.treasuryBound == p.treasuryBound &&
    q.sealedAt == p.sealedAt
  }

  /**
   The issuer makes the pool pay: an accrual goes through exactly when the issuer sends it for a basechain buyer
   and 1 to 1000 credits, with 60,000,000 nanotons if a whole credit is left; it pays 10 ATH a credit while they
   last.
   */
  lemma AccrualLaw(p: Pool, self: Address, c: Context, buyer: Address, k: nat)
    ensures var r := PoolStep(p, self, c, Accrue(buyer, k));
            var whole := p.remaining / 10_000_000_000;
            var paid := (if k <= whole then k else whole) * 10_000_000_000;
            (r.Done? <==> p.sealed && c.sender == p.issuer && buyer.Basechain() && 1 <= k <= 1000 &&
                          (whole == 0 || c.value >= 60_000_000)) &&
            (r.Done? ==>
               paid <= p.remaining &&
               r.pool == (if whole == 0 then p else
                          p.(remaining := p.remaining - paid, distributed := p.distributed + paid,
                             claimCount := p.claimCount + 1, payoutSeq := p.payoutSeq + 1, lastAccrualAt := c.now)) &&
               r.sends == (if whole == 0 then [] else
                           [Send(p.athWallet, false, Exactly(50_000_000),
                                 TransferRequest(p.payoutSeq + 1, paid, buyer, self))]))
  {
    WholeOnes(p.remaining, k);
  }

  lemma WholeOnes(remaining: nat, k: nat)
    ensures k <= remaining / 10_000_000_000 <==> k * 10_000_000_000 <= remaining
    ensures (remaining / 10_000_000_000) * 10_000_000_000 <= remaining
  {
  }

  /** A sweep goes through exactly when it is due, and empties the budget to the treasury. */
  lemma SweepLaw(p: Pool, self: Address, c: Context)
    ensures var r := PoolStep(p, self, c, SweepResidual);
            (r.Done? <==> p.sealed && p.remaining > 0 && c.value >= 60_000_000 &&
                          c.now >= p.sealedAt + 315_360_000 && c.now >= p.lastAccrualAt + 31_536_000) &&
            (r.Done? ==>
               r.pool == p.(remaining := 0, payoutSeq := p.payoutSeq + 1) &&
               r.sends == [Send(p.athWallet, false, Exactly(50_000_000),
                                TransferRequest(p.payoutSeq + 1, p.remaining, p.treasury, self))])
  {
  }

  /**
   Only the controller binds, rebinds and seals; only the pool's own wallet funds it, before the seal; only the
   issuer makes it pay; and what is left of the budget falls otherwise only by a clamp at the seal or by a sweep
   ten years later.
   */
  lemma PoolRightsHold(p: Pool, self: Address, a: Arrival)
    ensures var q := Apply(p, self, a);
            var who := a.context.sender;
            q.controller == p.controller && (!SameBindings(p, q) ==> who == p.controller) &&
            (q.funded != p.funded ==>
               who == p.athWallet && !p.sealed && q.funded - p.funded == q.remaining - p.remaining) &&
            (q.distributed != p.distributed ==>
               who == p.issuer && p.sealed && q.distributed - p.distributed == p.remaining - q.remaining) &&
            (q.remaining < p.remaining ==>
               (who == p.issuer && p.sealed && q.distributed > p.distributed) ||
               (who == p.controller && !p.sealed && q.sealed && q.remaining == 15_000_000_000_000_000) ||
               (p.sealed && q.remaining == 0 && a.context.now >= p.sealedAt + 315_360_000))
  {
    hide AccrueStep, SweepStep;
    if a.body.Accrue? {
      AccrualLaw(p, self, a.context, a.body.buyer, a.body.credits);
    }
    if a.body.SweepResidual? {
      SweepLaw(p, self, a.context);
    }
  }

  /** A binding is made once: before the seal only an open one can change, after it only the issuer can. */
  lemma BindingsStand(p: Pool, self: Address, a: Arrival)
    ensures var q := Apply(p, self, a);
            (p.sealed ==> q.sealed && SameBindings(p.(issuer := q.issuer), q)) &&
            (p.masterBound ==> q.masterBound && q.athMaster == p.athMaster && q.athWallet == p.athWallet) &&
            (p.treasuryBound ==> q.treasuryBound && q.treasury == p.treasury) &&
            (p.issuerBound && !p.sealed ==> q.issuerBound && q.issuer == p.issuer)
  {
    hide Payout;
  }

  /** The issuer can be replaced after the seal, by the controller who knows what was sealed. */
  lemma RebindLaw(p: Pool, self: Address, c: Context, hash: nat, issuer: Address)
    ensures var r := PoolStep(p, self, c, RebindCreditIssuer(hash, issuer));
            (r.Done? <==> p.sealed && c.sender == p.controller && hash == p.manifestHash && p.issuerBound &&
                          issuer.Basechain() && issuer != self) &&
            (r.Done? ==> r == Done(p.(issuer := issuer), []))
  {
  }

  /** The controller seals, exactly once everything is bound and funded; a surplus is clamped away. */
  lemma SealLaw(p: Pool, self: Address, c: Context, manifest: nat)
    ensures var r := PoolStep(p, self, c, SealGenesis(manifest));
            (r.Done? <==> !p.sealed && c.sender == p.controller && manifest > 1 && p.masterBound && p.issuerBound &&
                          p.treasuryBound && p.funded >= 15_000_000_000_000_000) &&
            (r.Done? ==>
               r == Done(p.(sealed := true, manifestHash := manifest, sealedAt := c.now,
                            remaining := if p.remaining <= 15_000_000_000_000_000 then p.remaining
                                         else 15_000_000_000_000_000), []))
  {
  }

  // ---------------------------------------------------------------- opening a pool

  /** The genesis of a pool: three bindings and one funding, in any times, and the seal. */
  function Genesis(controller: Address, master: Address, wallet: Address, issuer: Address, treasury: Address,
                   funding: nat, manifest: nat, q: nat, key: nat, at: nat -> nat): seq<Arrival>
  {
    var sent := (who, i) => Context(who, 0, 0, at(i));
    [Arrival(sent(controller, 0), BindAthMaster(master, wallet)),
     Arrival(sent(controller, 1), BindCreditIssuer(issuer)),
     Arrival(sent(controller, 2), BindTreasury(treasury)),
     Arrival(sent(wallet, 3), Funding(q, key, funding)),
     Arrival(sent(controller, 4), SealGenesis(manifest))]
  }

  /** It opens exactly with a manifest and 15 million ATH, and whatever was funded beyond them stays outside. */
  lemma GenesisOpens(self: Address, controller: Address, hash: nat, master: Address, wallet: Address, issuer: Address,
                     treasury: Address, funding: nat, manifest: nat, q: nat, key: nat, at: nat -> nat)
    ensures var p := ApplyAll(NewPool(controller, hash), self,
                              Genesis(controller, master, wallet, issuer, treasury, funding, manifest, q, key, at));
            (p.sealed <==> manifest > 1 && funding >= 15_000_000_000_000_000) &&
            (p.sealed ==>
               p == Pool(true, controller, manifest, master, wallet, true, issuer, true, treasury, true, funding,
                         15_000_000_000_000_000, 0, 0, at(4), 0, 0))
  {
    var h := Genesis(controller, master, wallet, issuer, treasury, funding, manifest, q, key, at);
    var p0 := NewPool(controller, hash);
    var p1 := p0.(athMaster := master, athWallet := wallet, masterBound := true);
    var p2 := p1.(issuer := issuer, issuerBound := true);
    var p3 := p2.(treasury := treasury, treasuryBound := true);
    var p4 := p3.(funded := funding, remaining := funding);
    assert Apply(p0, self, h[0]) == p1 && Apply(p1, self, h[1]) == p2;
    assert Apply(p2, self, h[2]) == p3 && Apply(p3, self, h[3]) == p4;
    hide AccrueStep, SweepStep;
    Unroll5(p0, self, h);
  }

  lemma Unroll5(p: Pool, self: Address, h: seq<Arrival>)
    requires |h| == 5
    ensures ApplyAll(p, self, h) ==
            Apply(Apply(Apply(Apply(Apply(p, self, h[0]), self, h[1]), self, h[2]), self, h[3]), self, h[4])
  {
    hide Apply;
    var p1 := Apply(p, self, h[0]);
    var p2 := Apply(p1, self, h[1]);
    var p3 := Apply(p2, self, h[2]);
    var p4 := Apply(p3, self, h[3]);
    assert h[1..][1..] == h[2..] && h[2..][1..] == h[3..] && h[3..][1..] == h[4..] && h[4..][1..] == [];
    assert ApplyAll(p4, self, h[4..]) == Apply(p4, self, h[4]);
    assert ApplyAll(p3, self, h[3..]) == ApplyAll(p4, self, h[4..]);
    assert ApplyAll(p2, self, h[2..]) == ApplyAll(p3, self, h[3..]);
    assert ApplyAll(p1, self, h[1..]) == ApplyAll(p2, self, h[2..]);
  }

  /** A funding is answered to the wallet that sent it, with its own figures. */
  lemma FundingLaw(p: Pool, self: Address, c: Context, q: nat, key: nat, amount: nat)
    ensures var r := PoolStep(p, self, c, Funding(q, key, amount));
            (r.Done? <==> !p.sealed && p.masterBound && c.sender == p.athWallet) &&
            (r.Done? ==>
               r == Done(p.(funded := p.funded + amount, remaining := p.remaining + amount),
                         [Send(p.athWallet, false, Exactly(1_000_000), FundingAck(q, amount, key))]))
  {
  }

  // ---------------------------------------------------------------- over a history

  /** Without a message of the controller no binding changes; without one of the issuer nothing is distributed. */
  lemma {:induction false} OthersChangeNothing(p: Pool, self: Address, history: seq<Arrival>)
    ensures var q := ApplyAll(p, self, history);
            ((forall a | a in history :: a.context.sender != p.controller) ==>
               SameBindings(p, q) &&
               ((forall a | a in history :: a.context.sender != p.issuer) ==> q.distributed == p.distributed))
    decreases |history|
  {
    hide Apply;
    if |history| > 0 {
      PoolRightsHold(p, self, history[0]);
      OthersChangeNothing(Apply(p, self, history[0]), self, history[1..]);
    }
  }

  /** The tokens one arrival makes the pool ask its wallet for. */
  function Asked(p: Pool, self: Address, a: Arrival): nat {
    match PoolStep(p, self, a.context, a.body)
    case Done(_, sends) => Requested(sends)
    case Throw(_) => 0
  }

  /** What a history tells: when the pool was sealed, when it last paid a buyer, how often it paid and asked. */
  datatype Record = Record(sealedAt: nat, lastPaid: nat, paid: nat, asked: nat)

  function Note(p: Pool, self: Address, a: Arrival, r: Record): Record {
    var pays := Asked(p, self, a) > 0;
    Record(if a.body.SealGenesis? && Accepts(p, self, a) then a.context.now else r.sealedAt,
           if a.body.Accrue? && pays then a.context.now else r.lastPaid,
           if a.body.Accrue? && pays then r.paid + 1 else r.paid,
           if pays then r.asked + 1 else r.asked)
  }

  function Recorded(p: Pool, self: Address, history: seq<Arrival>, r: Record): Record
    decreases |history|
  {
    if |history| == 0 then r else Recorded(Apply(p, self, history[0]), self, history[1..], Note(p, self, history[0], r))
  }

  function FieldsOf(p: Pool): Record {
    Record(p.sealedAt, p.lastAccrualAt, p.claimCount, p.payoutSeq)
  }

  lemma NoteTells(p: Pool, self: Address, a: Arrival)
    ensures FieldsOf(Apply(p, self, a)) == Note(p, self, a, FieldsOf(p))
  {
    hide AccrueStep, SweepStep;
    if a.body.Accrue? {
      AccrualLaw(p, self, a.context, a.body.buyer, a.body.credits);
    }
    if a.body.SweepResidual? {
      SweepLaw(p, self, a.context);
    }
  }

  /** The pool's own fields tell its history. */
  lemma {:induction false} FieldsTellHistory(p: Pool, self: Address, history: seq<Arrival>)
    ensures FieldsOf(ApplyAll(p, self, history)) == Recorded(p, self, history, FieldsOf(p))
    decreases |history|
  {
    hide Apply, Note;
    if |history| > 0 {
      NoteTells(p, self, history[0]);
      FieldsTellHistory(Apply(p, self, history[0]), self, history[1..]);
    }
  }

  /**
   The residual waits: after any history from deployment it can be swept, by anybody, exactly from ten years after
   the seal and one year after the last payout on, all of it, to the treasury.
   */
  lemma ResidualWaits(controller: Address, hash: nat, self: Address, history: seq<Arrival>, c: Context)
    ensures var p0 := NewPool(controller, hash);
            var p := ApplyAll(p0, self, history);
            var told := Recorded(p0, self, history, Record(0, 0, 0, 0));
            var r := PoolStep(p, self, c, SweepResidual);
            (r.Done? <==> p.sealed && p.remaining > 0 && c.value >= 60_000_000 &&
                          c.now >= told.sealedAt + 315_360_000 && c.now >= told.lastPaid + 31_536_000) &&
            (r.Done? ==>
               r.pool == p.(remaining := 0, payoutSeq := p.payoutSeq + 1) &&
               r.sends == [Send(p.athWallet, false, Exactly(50_000_000),
                                TransferRequest(told.asked + 1, p.remaining, p.treasury, self))])
  {
    hide ApplyAll, Recorded, PoolStep;
    FieldsTellHistory(NewPool(controller, hash), self, history);
    SweepLaw(ApplyAll(NewPool(controller, hash), self, history), self, c);
  }

  // ---------------------------------------------------------------- exit codes

  /** What each code says of the message it refuses. */
  ghost predicate PoolSays(code: int, p: Pool, self: Address, c: Context, b: Body) {
    match code
    case 26010 => b.BindAthMaster? && p.masterBound
    case 26011 => b.Funding? && !p.masterBound
    case 26012 => b.BindCreditIssuer? && p.issuerBound
    case 26013 => b.RebindCreditIssuer? && b.hash != p.manifestHash
    case 26014 => b.RebindCreditIssuer? && !p.issuerBound
    case 26015 => b.RebindCreditIssuer? && !b.newIssuer.Basechain()
    case 26016 => b.RebindCreditIssuer? && b.newIssuer == self
    case 26017 => b.BindTreasury? && p.treasuryBound
    case 26019 => b.Funding? && c.sender != p.athWallet
    case 26033 => c.sender != p.controller && !b.Funding? && !b.Accrue? && !b.SweepResidual?
    case 26034 => p.sealed && !b.RebindCreditIssuer? && !b.Accrue? && !b.SweepResidual?
    case 26040 => b.SealGenesis? && b.manifest <= 1
    case 26041 => b.SealGenesis? && !p.masterBound
    case 26042 => b.SealGenesis? && !p.issuerBound
    case 26043 => b.SealGenesis? && !p.treasuryBound
    case 26044 => b.SealGenesis? && p.funded < 15_000_000_000_000_000
    case 26100 => !p.sealed && (b.RebindCreditIssuer? || b.Accrue? || b.SweepResidual?)
    case 26110 => b.Accrue? && c.sender != p.issuer
    case 26111 => b.Accrue? && !b.buyer.Basechain()
    case 26112 => b.Accrue? && !(1 <= b.credits <= 1000)
    case 26114 => b.Accrue? && c.value < 60_000_000
    case 26140 => b.SweepResidual? && c.now < p.sealedAt + 315_360_000
    case 26141 => b.SweepResidual? && p.remaining == 0
    case 26142 => b.SweepResidual? && c.value < 60_000_000
    case 26143 => b.SweepResidual? && c.now < p.lastAccrualAt + 31_536_000
    case _ => false
  }

  lemma AccrualCodesSpeak(p: Pool, self: Address, c: Context, buyer: Address, k: nat)
    ensures var r := PoolStep(p, self, c, Accrue(buyer, k)); r.Throw? ==> PoolSays(r.code, p, self, c, Accrue(buyer, k))
  {
    hide Payout, SweepStep;
  }

  /** Every refusal of the pool carries a code that is true of the message refused. */
  lemma PoolCodesSpeak(p: Pool, self: Address, a: Arrival)
    ensures var r := PoolStep(p, self, a.context, a.body);
            r.Throw? ==> PoolSays(r.code, p, self, a.context, a.body)
  {
    hide AccrueStep;
    if a.body.Accrue? {
      AccrualCodesSpeak(p, self, a.context, a.body.buyer, a.body.credits);
      hide PoolSays, PoolStep;
    }
  }
}
