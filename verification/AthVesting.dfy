/**
 The vesting contract (contracts/ATHVesting.tact): a yearly schedule, one claim at a time, and a terminal
 answer for each; the object it is, and its accounts over every history of messages.
 */
module AthVesting {
  import opened Transactions

  const TOTAL_AMOUNT := 10_000_000_000_000_000
  const PERIOD_UNLOCK := 100_000_000_000_000
  const PERIOD_COUNT := 100
  const PERIOD_SECONDS := 31_536_000
  const REQUEST_VALUE := 58_000_000
  const EXEC_RESERVE := 10_000_000
  const UINT64_MAX := 18_446_744_073_709_551_615
  const EMPTY_MESSAGE := 24999
  const NO_RECEIVER := 130

  /** What is fixed at deployment; the token wallets of both parties are derived from their addresses. */
  datatype Terms = Terms(self: Address, beneficiary: Address, startTime: nat)

  datatype Pending = Idle | Awaiting(queryId: nat, amount: nat, recipientWallet: Address, createdAt: nat)

  datatype Vesting = Vesting(claimed: nat, pending: Pending, lastTerminal: nat)

  const NEW_VESTING := Vesting(0, Idle, 0)

  datatype Body =
    | Claim(queryId: nat, amount: nat)
    | TransferAck(queryId: nat, amount: nat)
    | TransferFailed(queryId: nat, amount: nat)
    | TransferRequest(queryId: nat, amount: nat, recipient: Address, response: Address)
    | TopUp
    | Empty
    | Unknown

  datatype Send = Send(to: Address, bounce: bool, value: Attached, body: Body)

  datatype Outcome = Done(vesting: Vesting, sends: seq<Send>) | Throw(code: int)

  // ---------------------------------------------------------------- the schedule (90-119)

  function ElapsedPeriods(start: nat, at: nat): (n: nat)
    ensures n <= PERIOD_COUNT
  {
    if at < start + PERIOD_SECONDS then 0
    else
      var periods := (at - start) / PERIOD_SECONDS;
      if periods > PERIOD_COUNT then PERIOD_COUNT else periods
  }

  function VestedAt(start: nat, at: nat): nat {
    ElapsedPeriods(start, at) * PERIOD_UNLOCK
  }

  function PendingAmount(p: Pending): nat {
    if p.Idle? then 0 else p.amount
  }

  function ClaimableAt(v: Vesting, start: nat, at: nat): nat {
    var vested := VestedAt(start, at);
    if vested <= v.claimed + PendingAmount(v.pending) then 0 else vested - v.claimed - PendingAmount(v.pending)
  }

  /** The schedule, step by step: nothing before a whole year, one unlock per whole year, never more than the total. */
  lemma ScheduleIsExact(start: nat, at: nat, k: nat)
    ensures VestedAt(start, at) <= TOTAL_AMOUNT
    ensures k <= PERIOD_COUNT ==> (VestedAt(start, at) >= k * PERIOD_UNLOCK <==>
                                   k == 0 || at >= start + k * PERIOD_SECONDS)
  {
    if at >= start + PERIOD_SECONDS && 0 < k <= PERIOD_COUNT {
      var q := (at - start) / PERIOD_SECONDS;
      assert q * PERIOD_SECONDS <= at - start < (q + 1) * PERIOD_SECONDS;
      if q >= k {
        assert q * PERIOD_SECONDS >= k * PERIOD_SECONDS;
      } else {
        assert (q + 1) * PERIOD_SECONDS <= k * PERIOD_SECONDS;
      }
    }
  }

  lemma VestedIsMonotone(start: nat, at: nat, later: nat)
    requires at <= later
    ensures VestedAt(start, at) <= VestedAt(start, later)
  {
    if at >= start + PERIOD_SECONDS {
      assert (at - start) / PERIOD_SECONDS <= (later - start) / PERIOD_SECONDS;
    }
  }

  // ---------------------------------------------------------------- handlers

  function ClaimStep(v: Vesting, t: Terms, c: Context, q: nat, amount: nat): Outcome {
    if !v.pending.Idle? then Throw(24100)
    else if q == 0 then Throw(24101)
    else if q >= UINT64_MAX then Throw(24102)
    else if q != v.lastTerminal + 1 then Throw(24103)
    else if amount == 0 then Throw(24104)
    else if amount != ClaimableAt(v, t.startTime, c.now) then Throw(24105)
    else if c.value < REQUEST_VALUE + EXEC_RESERVE then Throw(24106)
    else Done(v.(pending := Awaiting(q, amount, WalletOf(t.beneficiary), c.now)),
              [Send(WalletOf(t.self), true, Exactly(c.value - EXEC_RESERVE),
                    TransferRequest(q, amount, t.beneficiary, t.self))])
  }

  function AckStep(v: Vesting, c: Context, q: nat, amount: nat): Outcome {
    if v.pending.Idle? then Throw(24200)
    else if q != v.pending.queryId then Throw(24201)
    else if amount != v.pending.amount then Throw(24202)
    else if c.sender != v.pending.recipientWallet then Throw(24203)
    else if v.claimed + amount > TOTAL_AMOUNT then Throw(24204)
    else Done(Vesting(v.claimed + amount, Idle, q), [])
  }

  /** The two ways a claim fails differ only in their codes: 24210 for the notice, 24220 for the bounce. */
  function FailStep(v: Vesting, t: Terms, c: Context, base: int, q: nat, amount: nat): Outcome {
    if c.sender != WalletOf(t.self) then Throw(base)
    else if v.pending.Idle? then Throw(base + 1)
    else if q != v.pending.queryId then Throw(base + 2)
    else if amount != v.pending.amount then Throw(base + 3)
    else Done(v.(pending := Idle, lastTerminal := q), [])
  }

  function VestingStep(v: Vesting, t: Terms, c: Context, body: Body, bounced: bool): Outcome {
    if bounced then
      match body
      case TransferRequest(q, amount, _, _) => FailStep(v, t, c, 24220, q, amount)
      case _ => Done(v, [])
    else
      match body
      case Claim(q, amount) => ClaimStep(v, t, c, q, amount)
      case TransferAck(q, amount) => AckStep(v, c, q, amount)
      case TransferFailed(q, amount) => FailStep(v, t, c, 24210, q, amount)
      case TopUp => Done(v, [])
      case Empty => Throw(EMPTY_MESSAGE)
      case _ => Throw(NO_RECEIVER)
  }

  // ---------------------------------------------------------------- the object

  ghost predicate Agrees(o: Outcome, s: Status, v: Vesting, outbox: seq<Send>) {
    match o
    case Done(v2, sends) => s == Okay && v == v2 && outbox == sends
    case Throw(code) => s == Thrown(code)
  }

  class VestingContract {
    const terms: Terms
    var claimedAth: nat
    var phase: nat
    var pendingQueryId: nat
    var pendingAmount: nat
    var pendingRecipientWallet: Address
    var pendingCreatedAt: nat
    var lastTerminalQueryId: nat
    var outbox: seq<Send>

    constructor (terms: Terms)
      ensures Valid() && View() == Vesting(0, Idle, 0) && outbox == [] && this.terms == terms
    {
      this.terms := terms;
      claimedAth, phase, pendingQueryId, pendingAmount, pendingCreatedAt, lastTerminalQueryId := 0, 0, 0, 0, 0, 0;
      pendingRecipientWallet, outbox := terms.beneficiary, [];
    }

    /** The phase byte is 0 or 1, and an idle contract keeps no trace of its last claim. */
    ghost predicate Valid()
      reads this
    {
      phase <= 1 &&
      (phase == 0 ==>
         pendingQueryId == 0 && pendingAmount == 0 && pendingRecipientWallet == terms.beneficiary &&
         pendingCreatedAt == 0)
    }

    function View(): Vesting
      reads this
    {
      Vesting(claimedAth,
              if phase == 0 then Idle
              else Awaiting(pendingQueryId, pendingAmount, pendingRecipientWallet, pendingCreatedAt),
              lastTerminalQueryId)
    }

    method ClaimableNow(now: nat) returns (amount: nat)
      requires Valid()
      ensures amount == ClaimableAt(View(), terms.startTime, now)
    {
      var vested := VestedAt(terms.startTime, now);
      if vested <= claimedAth {
        return 0;
      }
      var unlocked := vested - claimedAth;
      if phase == 1 {
        if unlocked <= pendingAmount {
          return 0;
        }
        return unlocked - pendingAmount;
      }
      return unlocked;
    }

    method ClearPending()
      modifies this
      ensures Valid() && View() == old(View()).(pending := Idle) && outbox == old(outbox)
    {
      phase, pendingQueryId, pendingAmount, pendingCreatedAt := 0, 0, 0, 0;
      pendingRecipientWallet := terms.beneficiary;
    }

    method ClaimVesting(c: Context, q: nat, amount: nat) returns (s: Status)
      requires Valid() && outbox == []
      modifies this
      ensures Valid() && Agrees(ClaimStep(old(View()), terms, c, q, amount), s, View(), outbox)
      ensures s.Thrown? ==> View() == old(View())
    {
      s := Okay;
      :- ThrowUnless(24100, phase == 0);
      :- ThrowUnless(24101, q > 0);
      :- ThrowUnless(24102, q < UINT64_MAX);
      :- ThrowUnless(24103, q == lastTerminalQueryId + 1);
      :- ThrowUnless(24104, amount > 0);
      var claimable := ClaimableNow(c.now);
      :- ThrowUnless(24105, amount == claimable);
      :- ThrowUnless(24106, c.value >= REQUEST_VALUE + EXEC_RESERVE);
      phase, pendingQueryId, pendingAmount, pendingCreatedAt := 1, q, amount, c.now;
      pendingRecipientWallet := WalletOf(terms.beneficiary);
      outbox := [Send(WalletOf(terms.self), true, Exactly(c.value - EXEC_RESERVE),
                      TransferRequest(q, amount, terms.beneficiary, terms.self))];
    }

    /** The cap is checked after the amount is added: a claim beyond it throws with the amount added. */
    method Acknowledge(c: Context, q: nat, amount: nat) returns (s: Status)
      requires Valid() && outbox == []
      modifies this
      ensures Valid() && Agrees(AckStep(old(View()), c, q, amount), s, View(), outbox)
      ensures s.Thrown? ==> View() == old(View()).(claimed := claimedAth)
    {
      s := Okay;
      :- ThrowUnless(24200, phase == 1);
      :- ThrowUnless(24201, q == pendingQueryId);
      :- ThrowUnless(24202, amount == pendingAmount);
      :- ThrowUnless(24203, c.sender == pendingRecipientWallet);
      claimedAth := claimedAth + pendingAmount;
      :- ThrowUnless(24204, claimedAth <= TOTAL_AMOUNT);
      ClearPending();
      lastTerminalQueryId := q;
    }

    method Fail(c: Context, base: int, q: nat, amount: nat) returns (s: Status)
      requires Valid() && outbox == []
      modifies this
      ensures Valid() && Agrees(FailStep(old(View()), terms, c, base, q, amount), s, View(), outbox)
      ensures s.Thrown? ==> View() == old(View())
    {
      s := Okay;
      :- ThrowUnless(base, c.sender == WalletOf(terms.self));
      :- ThrowUnless(base + 1, phase == 1);
      :- ThrowUnless(base + 2, q == pendingQueryId);
      :- ThrowUnless(base + 3, amount == pendingAmount);
      ClearPending();
      lastTerminalQueryId := q;
    }

    /** One transaction: a throw undoes every change. */
    method Receive(c: Context, body: Body, bounced: bool) returns (s: Status)
      requires Valid()
      modifies this
      ensures Valid() && Agrees(VestingStep(old(View()), terms, c, body, bounced), s, View(), outbox)
      ensures s.Thrown? ==> View() == old(View()) && outbox == []
    {
      var claimed0 := claimedAth;
      outbox := [];
      s := Okay;
      if bounced {
        if body.TransferRequest? {
          s := Fail(c, 24220, body.queryId, body.amount);
        }
      } else {
        match body
        case Claim(q, amount) => s := ClaimVesting(c, q, amount);
        case TransferAck(q, amount) => s := Acknowledge(c, q, amount);
        case TransferFailed(q, amount) => s := Fail(c, 24210, q, amount);
        case TopUp => {}
        case Empty => s := Thrown(EMPTY_MESSAGE);
        case _ => s := Thrown(NO_RECEIVER);
      }
      if s.Thrown? {
        claimedAth, outbox := claimed0, [];
      }
    }

    /** A life of the contract never runs ahead of its schedule. */
    method Process(history: seq<Arrival>, ghost from: nat)
      requires Valid() && Inv(View(), terms, from) && InOrder(from, history)
      modifies this
      ensures Valid() && View() == ApplyAll(old(View()), terms, history)
      ensures Inv(View(), terms, LastTime(from, history))
      ensures claimedAth == old(claimedAth) + PaidOut(old(View()), terms, history)
    {
      ghost var start := View();
      var i := 0;
      while i < |history|
        invariant 0 <= i <= |history| && Valid()
        invariant ApplyAll(View(), terms, history[i..]) == ApplyAll(start, terms, history)
      {
        hide VestingStep;
        assert history[i..][1..] == history[i + 1..];
        var s := Receive(history[i].context, history[i].body, history[i].bounced);
        i := i + 1;
      }
      VestingNeverRunsAhead(start, terms, history, from);
    }
  }

  // ---------------------------------------------------------------- over a history

  datatype Arrival = Arrival(context: Context, body: Body, bounced: bool)

  function Apply(v: Vesting, t: Terms, a: Arrival): Vesting {
    match VestingStep(v, t, a.context, a.body, a.bounced)
    case Done(v2, _) => v2
    case Throw(_) => v
  }

  function ApplyAll(v: Vesting, t: Terms, history: seq<Arrival>): Vesting
    decreases |history|
  {
    if |history| == 0 then v else ApplyAll(Apply(v, t, history[0]), t, history[1..])
  }

  /** Time does not run backwards, and no message predates `from`. */
  ghost predicate InOrder(from: nat, history: seq<Arrival>)
    decreases |history|
  {
    |history| == 0 || (from <= history[0].context.now && InOrder(history[0].context.now, history[1..]))
  }

  function LastTime(from: nat, history: seq<Arrival>): nat {
    if |history| == 0 then from else history[|history| - 1].context.now
  }

  datatype Fate = Nothing | Opened | Paid | Failed

  function FateOf(v: Vesting, t: Terms, a: Arrival): Fate {
    if VestingStep(v, t, a.context, a.body, a.bounced).Throw? then Nothing
    else if a.bounced then (if a.body.TransferRequest? then Failed else Nothing)
    else if a.body.Claim? then Opened
    else if a.body.TransferAck? then Paid
    else if a.body.TransferFailed? then Failed
    else Nothing
  }

  function Times(v: Vesting, t: Terms, history: seq<Arrival>, fate: Fate): nat
    decreases |history|
  {
    if |history| == 0 then 0
    else (if FateOf(v, t, history[0]) == fate then 1 else 0) + Times(Apply(v, t, history[0]), t, history[1..], fate)
  }

  /** The tokens of the claims that were paid. */
  function PaidOut(v: Vesting, t: Terms, history: seq<Arrival>): nat
    decreases |history|
  {
    if |history| == 0 then 0
    else
      (if FateOf(v, t, history[0]) == Paid then PendingAmount(v.pending) else 0)
      + PaidOut(Apply(v, t, history[0]), t, history[1..])
  }

  function IsOpen(v: Vesting): nat {
    if v.pending.Idle? then 0 else 1
  }

  ghost predicate Inv(v: Vesting, t: Terms, now: nat) {
    v.claimed + PendingAmount(v.pending) <= VestedAt(t.startTime, now) &&
    (v.pending.Awaiting? ==> v.pending.queryId == v.lastTerminal + 1 && v.pending.amount > 0 &&
                             v.pending.recipientWallet == WalletOf(t.beneficiary))
  }

  /**
   One message: a claim opens the only pending claim for exactly what has vested and not been claimed; it ends
   by the beneficiary's wallet acknowledging it or the contract's own wallet failing it; and nothing else
   moves anything.
   */
  lemma StepFate(v: Vesting, t: Terms, a: Arrival, before: nat)
    requires Inv(v, t, before) && before <= a.context.now
    ensures var v2 := Apply(v, t, a);
            Inv(v2, t, a.context.now) &&
            match FateOf(v, t, a)
            case Nothing => v2 == v
            case Opened => v.pending.Idle? && v2.pending.Awaiting? && v2.claimed == v.claimed &&
                           v2.lastTerminal == v.lastTerminal &&
                           v2.claimed + v2.pending.amount == VestedAt(t.startTime, a.context.now)
            case Paid => v.pending.Awaiting? && v2 == Vesting(v.claimed + v.pending.amount, Idle, v.lastTerminal + 1) &&
                         a.context.sender == WalletOf(t.beneficiary)
            case Failed => v.pending.Awaiting? && v2 == Vesting(v.claimed, Idle, v.lastTerminal + 1) &&
                           a.context.sender == WalletOf(t.self)
  {
    VestedIsMonotone(t.startTime, before, a.context.now);
    hide ElapsedPeriods;
  }

  /** The cap gate never fires: what is claimed never leaves the schedule. */
  lemma CapNeverThrows(v: Vesting, t: Terms, a: Arrival, before: nat)
    requires Inv(v, t, before)
    ensures VestingStep(v, t, a.context, a.body, a.bounced) != Throw(24204)
  {
    ScheduleIsExact(t.startTime, before, 0);
    hide ElapsedPeriods;
  }

  /**
   Vesting never runs ahead, over every history: claimed and pending stay within what has vested; claimed is
   exactly what was paid; the claims are those paid, those failed and the one open; and the last terminal
   query id counts the terminals, so no query id is ever used twice.
   */
  lemma {:induction false} VestingNeverRunsAhead(v: Vesting, t: Terms, history: seq<Arrival>, from: nat)
    requires Inv(v, t, from) && InOrder(from, history)
    ensures var v2 := ApplyAll(v, t, history);
            Inv(v2, t, LastTime(from, history)) &&
            v2.claimed == v.claimed + PaidOut(v, t, history) &&
            v2.lastTerminal == v.lastTerminal + Times(v, t, history, Paid) + Times(v, t, history, Failed) &&
            IsOpen(v) + Times(v, t, history, Opened) ==
              Times(v, t, history, Paid) + Times(v, t, history, Failed) + IsOpen(v2)
    decreases |history|
  {
    hide Apply, FateOf, Inv;
    if |history| > 0 {
      var a := history[0];
      FateSteps(v, t, a, from);
      VestingNeverRunsAhead(Apply(v, t, a), t, history[1..], a.context.now);
    }
  }

  lemma FateSteps(v: Vesting, t: Terms, a: Arrival, before: nat)
    requires Inv(v, t, before) && before <= a.context.now
    ensures var v2 := Apply(v, t, a);
            var f := FateOf(v, t, a);
            Inv(v2, t, a.context.now) &&
            v2.claimed == v.claimed + (if f == Paid then PendingAmount(v.pending) else 0) &&
            v2.lastTerminal == v.lastTerminal + (if f == Paid || f == Failed then 1 else 0) &&
            IsOpen(v) + (if f == Opened then 1 else 0) == (if f == Paid || f == Failed then 1 else 0) + IsOpen(v2)
  {
    hide Apply, FateOf, ElapsedPeriods;
    StepFate(v, t, a, before);
  }

  /**
   From deployment: whatever happens, the beneficiary never claims more than the schedule allows, nor more than
   the total.  A claim counts once its transfer is acknowledged; what a recovered transfer that still arrives
   adds to the beneficiary's wallet is the token's affair, not this contract's.
   */
  lemma FromDeployment(t: Terms, history: seq<Arrival>, from: nat)
    requires InOrder(from, history)
    ensures var v := ApplyAll(NEW_VESTING, t, history);
            v.claimed + PendingAmount(v.pending) <= VestedAt(t.startTime, LastTime(from, history)) <= TOTAL_AMOUNT &&
            v.claimed == PaidOut(NEW_VESTING, t, history) &&
            v.lastTerminal == Times(NEW_VESTING, t, history, Paid) + Times(NEW_VESTING, t, history, Failed) &&
            Times(NEW_VESTING, t, history, Opened) == v.lastTerminal + IsOpen(v)
  {
    hide ApplyAll, Times, PaidOut, ElapsedPeriods;
    VestingNeverRunsAhead(NEW_VESTING, t, history, from);
    ScheduleIsExact(t.startTime, LastTime(from, history), 0);
  }
}
