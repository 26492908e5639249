/**
 What a vesting claim takes and how it ends, in the figures of the schedule: a hundred yearly unlocks of
 100,000 ATH, one claim at a time, open to anybody, paid to the beneficiary alone.
 */
module VestingRights {
  import opened AthVesting
  import opened Transactions

  /** The whole years since the start, a hundred at most, and what they have unlocked. */
  function Unlocked(start: nat, now: nat): nat {
    var years := if now < start then 0 else (now - start) / 31_536_000;
    (if years > 100 then 100 else years) * 100_000_000_000_000
  }

  /** A claim opens exactly for all that is unlocked and unclaimed, when none is open, under the next query id. */
  lemma ClaimLaw(v: Vesting, t: Terms, c: Context, q: nat, amount: nat)
    ensures var r := VestingStep(v, t, c, Claim(q, amount), false);
            (r.Done? <==> v.pending.Idle? && q == v.lastTerminal + 1 < 18_446_744_073_709_551_615 &&
                          amount > 0 &&
                          v.claimed + amount == Unlocked(t.startTime, c.now) && c.value >= 68_000_000) &&
            (r.Done? ==>
               r == Done(Vesting(v.claimed, Awaiting(q, amount, WalletOf(t.beneficiary), c.now), v.lastTerminal),
                         [Send(WalletOf(t.self), true, Exactly(c.value - 10_000_000),
                               TransferRequest(q, amount, t.beneficiary, t.self))]))
  {
  }

  /** It is paid exactly when the beneficiary's wallet acknowledges it, and the next may follow. */
  lemma ClaimIsPaid(v: Vesting, t: Terms, c: Context, q: nat, amount: nat, answer: Context, told: nat, named: nat)
    requires VestingStep(v, t, c, Claim(q, amount), false).Done?
    ensures var open := VestingStep(v, t, c, Claim(q, amount), false).vesting;
            var r := VestingStep(open, t, answer, TransferAck(named, told), false);
            (r.Done? <==> answer.sender == WalletOf(t.beneficiary) && named == q && told == amount) &&
            (r.Done? ==> r == Done(Vesting(v.claimed + amount, Idle, q), []))
  {
    ClaimLaw(v, t, c, q, amount);
  }

  /** It fails exactly when the contract's own wallet says so, or sends it back, and the amount is free again. */
  lemma ClaimFails(v: Vesting, t: Terms, c: Context, q: nat, amount: nat, answer: Context, told: nat, named: nat,
                   bounced: bool)
    requires VestingStep(v, t, c, Claim(q, amount), false).Done?
    ensures var open := VestingStep(v, t, c, Claim(q, amount), false).vesting;
            var r := VestingStep(open, t, answer,
                                 if bounced then TransferRequest(named, told, t.beneficiary, t.self)
                                 else TransferFailed(named, told), bounced);
            (r.Done? <==> answer.sender == WalletOf(t.self) && named == q && told == amount) &&
            (r.Done? ==> r == Done(Vesting(v.claimed, Idle, q), []))
  {
    ClaimLaw(v, t, c, q, amount);
  }

  /** While a claim is open there is no other. */
  lemma OneAtATime(v: Vesting, t: Terms, c: Context, q: nat, amount: nat)
    ensures v.pending.Awaiting? ==> VestingStep(v, t, c, Claim(q, amount), false) == Throw(24100)
  {
  }

  /** After a hundred years one claim takes everything, and there is never anything more. */
  lemma WholeAmountIsPaid(t: Terms, c: Context, answer: Context)
    requires c.now >= t.startTime + 3_153_600_000 && c.value >= 68_000_000
    requires answer.sender == WalletOf(t.beneficiary)
    ensures var all := 10_000_000_000_000_000;
            var h := [Arrival(c, Claim(1, all), false), Arrival(answer, TransferAck(1, all), false)];
            ApplyAll(NEW_VESTING, t, h) == Vesting(all, Idle, 1) &&
            forall later: Context, q, k ::
              VestingStep(Vesting(all, Idle, 1), t, later, Claim(q, k), false).Throw?
  {
    var all := 10_000_000_000_000_000;
    var h := [Arrival(c, Claim(1, all), false), Arrival(answer, TransferAck(1, all), false)];
    ClaimLaw(NEW_VESTING, t, c, 1, all);
    ClaimIsPaid(NEW_VESTING, t, c, 1, all, answer, all, 1);
    assert h[1..] == [h[1]];
    var open := Apply(NEW_VESTING, t, h[0]);
    assert Apply(open, t, h[1]) == Vesting(all, Idle, 1);
    assert h[1..][1..] == [];
    assert ApplyAll(open, t, h[1..]) == Apply(open, t, h[1]);
    hide VestingStep;
    forall later: Context, q, k
      ensures VestingStep(Vesting(all, Idle, 1), t, later, Claim(q, k), false).Throw?
    {
      ClaimLaw(Vesting(all, Idle, 1), t, later, q, k);
    }
  }

  /** Every refusal of the contract carries a code that is true of the message refused. */
  lemma VestingCodesSpeak(v: Vesting, t: Terms, a: Arrival)
    ensures var r := VestingStep(v, t, a.context, a.body, a.bounced);
            var c, b := a.context, a.body;
            r.Throw? ==>
              match r.code
              case 24100 => b.Claim? && v.pending.Awaiting?
              case 24101 => b.Claim? && b.queryId == 0
              case 24102 => b.Claim? && b.queryId >= 18_446_744_073_709_551_615
              case 24103 => b.Claim? && b.queryId != v.lastTerminal + 1
              case 24104 => b.Claim? && b.amount == 0
              case 24105 => b.Claim? && v.claimed + b.amount != Unlocked(t.startTime, c.now)
              case 24106 => b.Claim? && c.value < 68_000_000
              case 24200 => b.TransferAck? && v.pending.Idle?
              case 24201 => b.TransferAck? && v.pending.Awaiting? && b.queryId != v.pending.queryId
              case 24202 => b.TransferAck? && v.pending.Awaiting? && b.amount != v.pending.amount
              case 24203 => b.TransferAck? && v.pending.Awaiting? && c.sender != v.pending.recipientWallet
              case 24204 => b.TransferAck? && v.claimed + b.amount > 10_000_000_000_000_000
              case 24210 | 24220 => c.sender != WalletOf(t.self)
              case 24211 | 24221 => v.pending.Idle?
              case 24212 | 24222 =>
                (b.TransferFailed? || b.TransferRequest?) && v.pending.Awaiting? && b.queryId != v.pending.queryId
              case 24213 | 24223 =>
                (b.TransferFailed? || b.TransferRequest?) && v.pending.Awaiting? && b.amount != v.pending.amount
              case 24999 => b.Empty?
              case _ => r.code == 130 && !a.bounced && (b.Unknown? || b.TransferRequest?)
  {
  }
}
