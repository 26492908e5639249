/**
 The airdrop pool (contracts/AirdropPool.tact): genesis, accruals that pay whole credits down to the last,
 and the residual sweep; the object it is, and its closed form over every history of messages.
 */
module AirdropPool {
  import opened Numbers
  import opened Transactions

  const TOTAL_POOL := 15_000_000_000_000_000
  const ATH_PER_CREDIT := 10_000_000_000
  const MAX_CREDITS_PER_ACCRUAL := 1000
  const PAYOUT_PATH_GAS := 60_000_000
  const WALLET_LEG_GAS := 50_000_000
  const FUNDING_ACK_VALUE := 1_000_000
  const SWEEP_GRACE := 315_360_000
  const SWEEP_INACTIVITY := 31_536_000

  datatype Pool = Pool(
    sealed: bool,
    controller: Address,
    manifestHash: nat,
    athMaster: Address,
    athWallet: Address,
    masterBound: bool,
    issuer: Address,
    issuerBound: bool,
    treasury: Address,
    treasuryBound: bool,
    funded: nat,
    remaining: nat,
    distributed: nat,
    claimCount: nat,
    sealedAt: nat,
    payoutSeq: nat,
    lastAccrualAt: nat
  )

  function NewPool(controller: Address, manifestHash: nat): Pool {
    Pool(false, controller, manifestHash, controller, controller, false, controller, false, controller, false,
         0, 0, 0, 0, 0, 0, 0)
  }

  datatype Body =
    | BindAthMaster(master: Address, poolWallet: Address)
    | BindCreditIssuer(issuer: Address)
    | BindTreasury(treasury: Address)
    | RebindCreditIssuer(hash: nat, newIssuer: Address)
    | Funding(queryId: nat, senderKey: nat, amount: nat)
    | SealGenesis(manifest: nat)
    | Accrue(buyer: Address, credits: nat)
    | SweepResidual
    | Other

  /** What the pool says: that a funding has arrived, or to its own wallet that it shall transfer. */
  datatype Notice =
    | FundingAck(queryId: nat, amount: nat, senderKey: nat)
    | TransferRequest(queryId: nat, amount: nat, recipient: Address, response: Address)

  datatype Send = Send(to: Address, bounce: bool, value: Attached, notice: Notice)

  datatype Outcome = Done(pool: Pool, sends: seq<Send>) | Throw(code: int)

  // ---------------------------------------------------------------- handlers

  function BindMasterStep(p: Pool, c: Context, master: Address, poolWallet: Address): Outcome {
    if p.sealed then Throw(26034)
    else if c.sender != p.controller then Throw(26033)
    else if p.masterBound then Throw(26010)
    else Done(p.(athMaster := master, athWallet := poolWallet, masterBound := true), [])
  }

  function BindIssuerStep(p: Pool, c: Context, issuer: Address): Outcome {
    if p.sealed then Throw(26034)
    else if c.sender != p.controller then Throw(26033)
    else if p.issuerBound then Throw(26012)
    else Done(p.(issuer := issuer, issuerBound := true), [])
  }

  function BindTreasuryStep(p: Pool, c: Context, treasury: Address): Outcome {
    if p.sealed then Throw(26034)
    else if c.sender != p.controller then Throw(26033)
    else if p.treasuryBound then Throw(26017)
    else Done(p.(treasury := treasury, treasuryBound := true), [])
  }

  function RebindStep(p: Pool, self: Address, c: Context, hash: nat, issuer: Address): Outcome {
    if !p.sealed then Throw(26100)
    else if c.sender != p.controller then Throw(26033)
    else if hash != p.manifestHash then Throw(26013)
    else if !p.issuerBound then Throw(26014)
    else if !issuer.Basechain() then Throw(26015)
    else if issuer == self then Throw(26016)
    else Done(p.(issuer := issuer), [])
  }

  function FundingStep(p: Pool, c: Context, q: nat, key: nat, amount: nat): Outcome {
    if p.sealed then Throw(26034)
    else if !p.masterBound then Throw(26011)
    else if c.sender != p.athWallet then Throw(26019)
    else Done(p.(funded := p.funded + amount, remaining := p.remaining + amount),
              [Send(c.sender, false, Exactly(FUNDING_ACK_VALUE), FundingAck(q, amount, key))])
  }

  function SealStep(p: Pool, c: Context, manifest: nat): Outcome {
    if p.sealed then Throw(26034)
    else if c.sender != p.controller then Throw(26033)
    else if manifest <= 1 then Throw(26040)
    else if !p.masterBound then Throw(26041)
    else if !p.issuerBound then Throw(26042)
    else if !p.treasuryBound then Throw(26043)
    else if p.funded < TOTAL_POOL then Throw(26044)
    else Done(p.(sealed := true, manifestHash := manifest, sealedAt := c.now,
                 remaining := if p.remaining > TOTAL_POOL then TOTAL_POOL else p.remaining), [])
  }

  /** What an accrual pays: its credits, or as many whole ones as are left. */
  function Payout(remaining: nat, credits: nat): (payout: nat)
    ensures payout <= remaining && payout % ATH_PER_CREDIT == 0
    ensures payout == credits * ATH_PER_CREDIT || remaining - payout < ATH_PER_CREDIT
  {
    if remaining < credits * ATH_PER_CREDIT then (remaining / ATH_PER_CREDIT) * ATH_PER_CREDIT
    else credits * ATH_PER_CREDIT
  }

  /** The next transfer the pool asks of its wallet. */
  function WalletRequest(p: Pool, self: Address, amount: nat, recipient: Address): Send {
    Send(p.athWallet, false, Exactly(WALLET_LEG_GAS), TransferRequest(p.payoutSeq + 1, amount, recipient, self))
  }

  function AccrueStep(p: Pool, self: Address, c: Context, buyer: Address, credits: nat): Outcome {
    var payout := Payout(p.remaining, credits);
    if !p.sealed then Throw(26100)
    else if c.sender != p.issuer then Throw(26110)
    else if !buyer.Basechain() then Throw(26111)
    else if !(1 <= credits <= MAX_CREDITS_PER_ACCRUAL) then Throw(26112)
    else if payout == 0 then Done(p, [])
    else if c.value < PAYOUT_PATH_GAS then Throw(26114)
    else Done(p.(remaining := p.remaining - payout,
                 distributed := p.distributed + payout, claimCount := p.claimCount + 1,
                 payoutSeq := p.payoutSeq + 1, lastAccrualAt := c.now),
              [WalletRequest(p, self, payout, buyer)])
  }

  function SweepStep(p: Pool, self: Address, c: Context): Outcome {
    if !p.sealed then Throw(26100)
    else if c.now < p.sealedAt + SWEEP_GRACE then Throw(26140)
    else if c.now < p.lastAccrualAt + SWEEP_INACTIVITY then Throw(26143)
    else if p.remaining == 0 then Throw(26141)
    else if c.value < PAYOUT_PATH_GAS then Throw(26142)
    else Done(p.(remaining := 0, payoutSeq := p.payoutSeq + 1),
              [WalletRequest(p, self, p.remaining, p.treasury)])
  }

  function PoolStep(p: Pool, self: Address, c: Context, body: Body): Outcome {
    match body
    case BindAthMaster(m, w) => BindMasterStep(p, c, m, w)
    case BindCreditIssuer(i) => BindIssuerStep(p, c, i)
    case BindTreasury(t) => BindTreasuryStep(p, c, t)
    case RebindCreditIssuer(h, i) => RebindStep(p, self, c, h, i)
    case Funding(q, k, a) => FundingStep(p, c, q, k, a)
    case SealGenesis(m) => SealStep(p, c, m)
    case Accrue(b, k) => AccrueStep(p, self, c, b, k)
    case SweepResidual => SweepStep(p, self, c)
    case Other => Done(p, []) // top-ups, excesses and anything else change nothing
  }

  // ---------------------------------------------------------------- the object

  ghost predicate Agrees(o: Outcome, s: Status, p: Pool, outbox: seq<Send>) {
    match o
    case Done(p2, sends) => s == Okay && p == p2 && outbox == sends
    case Throw(code) => s == Thrown(code)
  }

  class PoolContract {
    const self: Address
    var sealed: bool
    var controller: Address
    var manifestHash: nat
    var athMaster: Address
    var athWallet: Address
    var masterBound: bool
    var issuer: Address
    var issuerBound: bool
    var treasury: Address
    var treasuryBound: bool
    var fundedAmount: nat
    var remainingBudget: nat
    var distributedTotal: nat
    var claimCount: nat
    var sealedAt: nat
    var payoutSeq: nat
    var lastAccrualAt: nat
    var outbox: seq<Send>

    constructor (self: Address, controller: Address, manifestHash: nat)
      ensures View() == NewPool(controller, manifestHash) && outbox == [] && this.self == self
    {
      this.self, this.controller, this.manifestHash := self, controller, manifestHash;
      sealed, masterBound, issuerBound, treasuryBound := false, false, false, false;
      athMaster, athWallet, issuer, treasury := controller, controller, controller, controller;
      fundedAmount, remainingBudget, distributedTotal, claimCount := 0, 0, 0, 0;
      sealedAt, payoutSeq, lastAccrualAt, outbox := 0, 0, 0, [];
    }

    function View(): Pool
      reads this
    {
      Pool(sealed, controller, manifestHash, athMaster, athWallet, masterBound, issuer, issuerBound,
           treasury, treasuryBound,
           fundedAmount, remainingBudget, distributedTotal, claimCount, sealedAt, payoutSeq, lastAccrualAt)
    }

    function RequireGenesis(c: Context): Status
      reads this
    {
      if sealed then Thrown(26034) else if c.sender != controller then Thrown(26033) else Okay
    }

    method Bind(c: Context, body: Body) returns (s: Status)
      requires outbox == [] && (body.BindAthMaster? || body.BindCreditIssuer? || body.BindTreasury?)
      modifies this
      ensures Agrees(PoolStep(old(View()), self, c, body), s, View(), outbox)
      ensures s.Thrown? ==> View() == old(View())
    {
      s := Okay;
      :- RequireGenesis(c);
      match body {
        case BindAthMaster(m, w) =>
          :- ThrowUnless(26010, !masterBound);
          athMaster, athWallet, masterBound := m, w, true;
        case BindCreditIssuer(i) =>
          :- ThrowUnless(26012, !issuerBound);
          issuer, issuerBound := i, true;
        case BindTreasury(t) =>
          :- ThrowUnless(26017, !treasuryBound);
          treasury, treasuryBound := t, true;
      }
    }

    method RebindIssuer(c: Context, hash: nat, newIssuer: Address) returns (s: Status)
      requires outbox == []
      modifies this
      ensures Agrees(RebindStep(old(View()), self, c, hash, newIssuer), s, View(), outbox)
      ensures s.Thrown? ==> View() == old(View())
    {
      s := Okay;
      :- ThrowUnless(26100, sealed);
      :- ThrowUnless(26033, c.sender == controller);
      :- ThrowUnless(26013, hash == manifestHash);
      :- ThrowUnless(26014, issuerBound);
      :- ThrowUnless(26015, newIssuer.Basechain());
      :- ThrowUnless(26016, newIssuer != self);
      issuer := newIssuer;
    }

    method Fund(c: Context, q: nat, key: nat, amount: nat) returns (s: Status)
      requires outbox == []
      modifies this
      ensures Agrees(FundingStep(old(View()), c, q, key, amount), s, View(), outbox)
      ensures s.Thrown? ==> View() == old(View())
    {
      s := Okay;
      :- ThrowUnless(26034, !sealed);
      :- ThrowUnless(26011, masterBound);
      :- ThrowUnless(26019, c.sender == athWallet);
      fundedAmount := fundedAmount + amount;
      remainingBudget := remainingBudget + amount;
      outbox := [Send(c.sender, false, Exactly(FUNDING_ACK_VALUE), FundingAck(q, amount, key))];
    }

    method Seal(c: Context, manifest: nat) returns (s: Status)
      requires outbox == []
      modifies this
      ensures Agrees(SealStep(old(View()), c, manifest), s, View(), outbox)
      ensures s.Thrown? ==> View() == old(View())
    {
      s := Okay;
      :- RequireGenesis(c);
      :- ThrowUnless(26040, manifest > 1);
      :- ThrowUnless(26041, masterBound);
      :- ThrowUnless(26042, issuerBound);
      :- ThrowUnless(26043, treasuryBound);
      :- ThrowUnless(26044, fundedAmount >= TOTAL_POOL);
      if remainingBudget > TOTAL_POOL {
        remainingBudget := TOTAL_POOL;
      }
      manifestHash, sealed, sealedAt := manifest, true, c.now;
    }

    method AccrueCredits(c: Context, buyer: Address, credits: nat) returns (s: Status)
      requires outbox == []
      modifies this
      ensures Agrees(AccrueStep(old(View()), self, c, buyer, credits), s, View(), outbox)
      ensures s.Thrown? ==> View() == old(View())
    {
      s := Okay;
      :- ThrowUnless(26100, sealed);
      :- ThrowUnless(26110, c.sender == issuer);
      :- ThrowUnless(26111, buyer.Basechain());
      :- ThrowUnless(26112, 1 <= credits <= MAX_CREDITS_PER_ACCRUAL);
      var payout := credits * ATH_PER_CREDIT;
      if remainingBudget < payout {
        payout := (remainingBudget / ATH_PER_CREDIT) * ATH_PER_CREDIT;
        if payout == 0 {
          return Okay;
        }
      }
      assert payout == Payout(remainingBudget, credits) && 0 < payout <= remainingBudget;
      hide Payout;
      :- ThrowUnless(26114, c.value >= PAYOUT_PATH_GAS);
      PayBuyer(c, buyer, payout);
    }

    method PayBuyer(c: Context, buyer: Address, payout: nat)
      requires payout <= remainingBudget
      modifies `remainingBudget, `distributedTotal, `claimCount, `payoutSeq, `lastAccrualAt, `outbox
      ensures View() == old(View()).(remaining := old(remainingBudget) - payout,
                                     distributed := old(distributedTotal) + payout,
                                     claimCount := old(claimCount) + 1, payoutSeq := old(payoutSeq) + 1,
                                     lastAccrualAt := c.now)
      ensures outbox == [WalletRequest(old(View()), self, payout, buyer)]
    {
      remainingBudget := remainingBudget - payout;
      distributedTotal := distributedTotal + payout;
      claimCount := claimCount + 1;
      payoutSeq := payoutSeq + 1;
      lastAccrualAt := c.now;
      outbox := [Send(athWallet, false, Exactly(WALLET_LEG_GAS), TransferRequest(payoutSeq, payout, buyer, self))];
    }

    /** The budget is emptied before the last gate: a call without the gas throws with it emptied. */
    method SweepResidualToTreasury(c: Context) returns (s: Status)
      requires outbox == []
      modifies this
      ensures Agrees(SweepStep(old(View()), self, c), s, View(), outbox)
      ensures s.Thrown? ==> View() == old(View()).(remaining := remainingBudget, payoutSeq := payoutSeq)
    {
      s := Okay;
      :- ThrowUnless(26100, sealed);
      :- ThrowUnless(26140, c.now >= sealedAt + SWEEP_GRACE);
      :- ThrowUnless(26143, c.now >= lastAccrualAt + SWEEP_INACTIVITY);
      :- ThrowUnless(26141, remainingBudget > 0);
      var residual := remainingBudget;
      remainingBudget := 0;
      payoutSeq := payoutSeq + 1;
      :- ThrowUnless(26142, c.value >= PAYOUT_PATH_GAS);
      outbox := [Send(athWallet, false, Exactly(WALLET_LEG_GAS), TransferRequest(payoutSeq, residual, treasury, self))];
    }

    /** One transaction: a throw undoes every change; only a sweep leaves any. */
    method Receive(c: Context, body: Body) returns (s: Status)
      modifies this
      ensures Agrees(PoolStep(old(View()), self, c, body), s, View(), outbox)
      ensures s.Thrown? ==> View() == old(View()) && outbox == []
    {
      var remaining0, payoutSeq0 := remainingBudget, payoutSeq;
      outbox := [];
      match body {
        case RebindCreditIssuer(h, i) => s := RebindIssuer(c, h, i);
        case Funding(q, k, a) => s := Fund(c, q, k, a);
        case SealGenesis(m) => s := Seal(c, m);
        case Accrue(b, k) => s := AccrueCredits(c, b, k);
        case SweepResidual => s := SweepResidualToTreasury(c);
        case Other => s := Okay;
        case _ => s := Bind(c, body);
      }
      if s.Thrown? {
        remainingBudget, payoutSeq, outbox := remaining0, payoutSeq0, [];
      }
    }

    /** A life of the pool keeps its closed form. */
    method Process(history: seq<Arrival>, ghost credits: nat, ghost swept: nat)
      requires Stands(View(), credits, swept)
      modifies this
      ensures View() == ApplyAll(old(View()), self, history)
      ensures Stands(View(), credits + Credits(old(View()), self, history), swept + Swept(old(View()), self, history))
    {
      ghost var start := View();
      var i := 0;
      while i < |history|
        invariant 0 <= i <= |history|
        invariant ApplyAll(View(), self, history[i..]) == ApplyAll(start, self, history)
      {
        hide PoolStep;
        assert history[i..][1..] == history[i + 1..];
        var s := Receive(history[i].context, history[i].body);
        i := i + 1;
      }
      HistoryStands(start, self, history, credits, swept);
    }
  }

  // ---------------------------------------------------------------- over a history

  datatype Arrival = Arrival(context: Context, body: Body)

  function Apply(p: Pool, self: Address, a: Arrival): Pool {
    match PoolStep(p, self, a.context, a.body)
    case Done(p2, _) => p2
    case Throw(_) => p
  }

  function ApplyAll(p: Pool, self: Address, history: seq<Arrival>): Pool
    decreases |history|
  {
    if |history| == 0 then p else ApplyAll(Apply(p, self, history[0]), self, history[1..])
  }

  predicate Accepts(p: Pool, self: Address, a: Arrival) {
    PoolStep(p, self, a.context, a.body).Done?
  }

  /** The credits of every accepted accrual, whether it paid in full, in part or not at all. */
  function Credits(p: Pool, self: Address, history: seq<Arrival>): nat
    decreases |history|
  {
    if |history| == 0 then 0
    else
      (if history[0].body.Accrue? && Accepts(p, self, history[0]) then history[0].body.credits else 0)
      + Credits(Apply(p, self, history[0]), self, history[1..])
  }

  function Requested(sends: seq<Send>): nat {
    if |sends| > 0 && sends[0].notice.TransferRequest? then sends[0].notice.amount else 0
  }

  /** What the sweeps of a history sent to the treasury. */
  function Swept(p: Pool, self: Address, history: seq<Arrival>): nat
    decreases |history|
  {
    if |history| == 0 then 0
    else
      (if history[0].body.SweepResidual? && Accepts(p, self, history[0])
       then Requested(PoolStep(p, self, history[0].context, history[0].body).sends) else 0)
      + Swept(Apply(p, self, history[0]), self, history[1..])
  }

  /** Every token the pool asked its wallet to send. */
  function Paid(p: Pool, self: Address, history: seq<Arrival>): nat
    decreases |history|
  {
    if |history| == 0 then 0
    else
      (if Accepts(p, self, history[0]) then Requested(PoolStep(p, self, history[0].context, history[0].body).sends)
       else 0)
      + Paid(Apply(p, self, history[0]), self, history[1..])
  }

  /** Where a pool stands after `credits` accepted and `swept` sent to the treasury. */
  ghost predicate Stands(p: Pool, credits: nat, swept: nat) {
    if p.sealed then
      p.remaining + p.distributed + swept == TOTAL_POOL && p.remaining % ATH_PER_CREDIT == 0 &&
      (if swept == 0 then p.distributed == Min(credits * ATH_PER_CREDIT, TOTAL_POOL) else p.remaining == 0)
    else p.remaining == p.funded && p.distributed == 0 && credits == 0 && swept == 0
  }

  lemma WholeCredits(n: nat)
    ensures n % ATH_PER_CREDIT == 0 ==> (n / ATH_PER_CREDIT) * ATH_PER_CREDIT == n
    ensures (n / ATH_PER_CREDIT) * ATH_PER_CREDIT <= n
    ensures (n * ATH_PER_CREDIT) % ATH_PER_CREDIT == 0
  {
  }

  /** An accrual keeps the closed form, also when it crosses the edge of the budget. */
  lemma AccrualStands(p: Pool, self: Address, c: Context, buyer: Address, k: nat, credits: nat, swept: nat)
    requires Stands(p, credits, swept) && AccrueStep(p, self, c, buyer, k).Done?
    ensures Stands(AccrueStep(p, self, c, buyer, k).pool, credits + k, swept)
    ensures var r := AccrueStep(p, self, c, buyer, k);
            Requested(r.sends) == r.pool.distributed - p.distributed == p.remaining - r.pool.remaining
  {
    WholeCredits(p.remaining);
    WholeCredits(k);
    assert (credits + k) * ATH_PER_CREDIT == credits * ATH_PER_CREDIT + k * ATH_PER_CREDIT;
  }

  ghost function CreditsIn(p: Pool, self: Address, a: Arrival): nat {
    if a.body.Accrue? && Accepts(p, self, a) then a.body.credits else 0
  }

  ghost function SweptIn(p: Pool, self: Address, a: Arrival): nat {
    if a.body.SweepResidual? && Accepts(p, self, a) then Requested(PoolStep(p, self, a.context, a.body).sends) else 0
  }

  lemma StepStands(p: Pool, self: Address, a: Arrival, credits: nat, swept: nat)
    requires Stands(p, credits, swept)
    ensures Stands(Apply(p, self, a), credits + CreditsIn(p, self, a), swept + SweptIn(p, self, a))
  {
    if a.body.Accrue? && Accepts(p, self, a) {
      AccrualStands(p, self, a.context, a.body.buyer, a.body.credits, credits, swept);
      hide AccrueStep, Stands, Payout;
    } else {
      hide AccrueStep;
    }
  }

  lemma {:induction false} HistoryStands(p: Pool, self: Address, history: seq<Arrival>, credits: nat, swept: nat)
    requires Stands(p, credits, swept)
    ensures Stands(ApplyAll(p, self, history), credits + Credits(p, self, history), swept + Swept(p, self, history))
    decreases |history|
  {
    hide Stands, Apply, Accepts, PoolStep;
    if |history| > 0 {
      StepStands(p, self, history[0], credits, swept);
      HistoryStands(Apply(p, self, history[0]), self, history[1..],
                    credits + CreditsIn(p, self, history[0]), swept + SweptIn(p, self, history[0]));
    }
  }

  /**
   The closed form, for every history from deployment, whoever sent what: once sealed and until a sweep,
   10 ATH per accepted credit are distributed, at most 15 million in all; what is left and what was
   distributed make 15 million; and what is left is whole credits, so nothing is stranded at the edge.
   */
  lemma PoolClosedForm(controller: Address, manifestHash: nat, self: Address, history: seq<Arrival>)
    ensures var p0 := NewPool(controller, manifestHash);
            var p := ApplyAll(p0, self, history);
            p.sealed ==>
              p.remaining + p.distributed + Swept(p0, self, history) == TOTAL_POOL &&
              p.remaining % ATH_PER_CREDIT == 0 &&
              (Swept(p0, self, history) == 0 ==>
                 p.distributed == Min(ATH_PER_CREDIT * Credits(p0, self, history), TOTAL_POOL)) &&
              (Swept(p0, self, history) > 0 ==> p.remaining == 0)
  {
    hide ApplyAll, Credits, Swept;
    HistoryStands(NewPool(controller, manifestHash), self, history, 0, 0);
  }

  /** Where a pool and its payments stand: query ids count the payouts, and the requests are the accounts. */
  lemma StepPays(p: Pool, self: Address, a: Arrival, credits: nat, swept: nat)
    requires Stands(p, credits, swept) && Accepts(p, self, a)
    ensures var r := PoolStep(p, self, a.context, a.body);
            Requested(r.sends) + p.distributed + swept == r.pool.distributed + swept + SweptIn(p, self, a)
    ensures var r := PoolStep(p, self, a.context, a.body);
            |r.sends| > 0 && r.sends[0].notice.TransferRequest? ==>
              r.sends[0].notice.queryId == r.pool.payoutSeq == p.payoutSeq + 1 && r.sends[0].to == p.athWallet
  {
    if a.body.Accrue? {
      AccrualStands(p, self, a.context, a.body.buyer, a.body.credits, credits, swept);
    }
  }

  /** Every token requested from the wallet is accounted for as distributed or swept. */
  lemma {:induction false} PaymentsAddUp(p: Pool, self: Address, history: seq<Arrival>, credits: nat, swept: nat)
    requires Stands(p, credits, swept)
    ensures p.distributed + Paid(p, self, history) == ApplyAll(p, self, history).distributed + Swept(p, self, history)
    decreases |history|
  {
    hide Stands, PoolStep, Requested;
    if |history| > 0 {
      var a := history[0];
      StepStands(p, self, a, credits, swept);
      if Accepts(p, self, a) {
        StepPays(p, self, a, credits, swept);
      }
      PaymentsAddUp(Apply(p, self, a), self, history[1..], credits + CreditsIn(p, self, a),
                    swept + SweptIn(p, self, a));
    }
  }

  /** What a seal leaves for good: the bindings as they are, and a budget that only shrinks. */
  ghost predicate Frozen(p: Pool, q: Pool) {
    q.sealed && q.athMaster == p.athMaster && q.athWallet == p.athWallet && q.treasury == p.treasury &&
    q.manifestHash == p.manifestHash && q.sealedAt == p.sealedAt && q.remaining <= p.remaining &&
    q.payoutSeq >= p.payoutSeq
  }

  /** Sealing is final, and freezes where the money comes from and where a sweep goes. */
  lemma {:induction false} SealIsFinal(p: Pool, self: Address, history: seq<Arrival>)
    requires p.sealed
    ensures Frozen(p, ApplyAll(p, self, history))
    decreases |history|
  {
    if |history| > 0 {
      SealHolds(p, self, history[0]);
      hide Apply;
      SealIsFinal(Apply(p, self, history[0]), self, history[1..]);
    }
  }

  lemma SealHolds(p: Pool, self: Address, a: Arrival)
    requires p.sealed
    ensures Frozen(p, Apply(p, self, a))
  {
    hide AccrueStep, SweepStep;
    if a.body.Accrue? {
      AccrueFrozen(p, self, a.context, a.body.buyer, a.body.credits);
    } else if a.body.SweepResidual? {
      SweepFrozen(p, self, a.context);
    }
  }

  lemma AccrueFrozen(p: Pool, self: Address, c: Context, buyer: Address, k: nat)
    requires p.sealed
    ensures var r := AccrueStep(p, self, c, buyer, k); r.Done? ==> Frozen(p, r.pool)
  {
    hide Payout;
  }

  lemma SweepFrozen(p: Pool, self: Address, c: Context)
    requires p.sealed
    ensures var r := SweepStep(p, self, c); r.Done? ==> Frozen(p, r.pool)
  {
  }
}
