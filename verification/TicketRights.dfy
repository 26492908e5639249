/**
 Who may move a ticket's credits, and the law of its interlock: laws over every message and every run, in the
 figures of the design.
 */
module TicketRights {
  import opened AirdropTicket
  import opened Transactions

  // ---------------------------------------------------------------- one message

  /**
   Only the sink gives a credit, one at a time; only the owner gives credits away, and never while a claim is under
   way; the interlock is set by a claim, for the credits it takes, and opened by the sink's answer, by the claim's
   return, or by the owner after seven days.
   */
  lemma TicketRightsHold(t: Ticket, at: Place, a: Arrival)
    ensures var t2 := Apply(t, at, a);
            var who := a.context.sender;
            (t2.credits > t.credits ==>
               (a.bounced && t2.credits == t.credits + CreditsOf(a.body)) ||
               (who == at.sink && t2.credits == t.credits + 1)) &&
            (t2.credits < t.credits ==> who == at.owner && t.inFlight == 0) &&
            (t2.inFlight != t.inFlight && t2.inFlight > 0 ==>
               who == at.owner && t.inFlight == 0 && t2.credits + t2.inFlight == t.credits &&
               t2.inFlightAt == a.context.now) &&
            (t2.inFlight != t.inFlight && t2.inFlight == 0 ==>
               (a.bounced && a.body.TicketRedeem?) || who == at.sink ||
               (who == at.owner && a.context.now > t.inFlightAt + 604_800))
  {
  }

  /** The sink's credit is taken for a basechain owner, up to 2^32 - 1 of them. */
  lemma CreditLaw(t: Ticket, at: Place, c: Context)
    ensures var r := TicketStep(t, at, c, TicketCredit, false);
            (r.Done? <==> c.sender == at.sink && at.owner.Basechain() && t.credits < 4_294_967_295) &&
            (r.Done? ==> r == Done(Ticket(t.credits + 1, t.inFlight, t.inFlightAt), []))
  {
  }

  /** A claim takes 1000 credits, or all there are from 10 on, and sends them to the sink in the owner's name. */
  lemma ClaimLaw(t: Ticket, at: Place, c: Context)
    ensures var r := TicketStep(t, at, c, TicketClaim, false);
            var k := if t.credits < 1000 then t.credits else 1000;
            (r.Done? <==> c.sender == at.owner && t.inFlight == 0 && t.credits >= 10 && c.value >= 63_000_000) &&
            (r.Done? ==>
               r == Done(Ticket(t.credits - k, k, c.now), [Send(at.sink, true, Remaining, TicketRedeem(k, at.owner))]))
  {
  }

  /** An export takes all credits, to another basechain ticket. */
  lemma ExportLaw(t: Ticket, at: Place, c: Context, to: Address)
    ensures var r := TicketStep(t, at, c, TicketExport(to), false);
            (r.Done? <==> c.sender == at.owner && t.inFlight == 0 && t.credits > 0 && to.Basechain() && to != at.self &&
                          c.value >= 20_000_000) &&
            (r.Done? ==>
               r == Done(Ticket(0, t.inFlight, t.inFlightAt),
                         [Send(to, true, Remaining, TicketMigrated(t.credits, at.owner))]))
  {
  }

  /** The owner releases a claim that stays away, exactly after seven days, and keeps the credits that are left. */
  lemma ReleaseLaw(t: Ticket, at: Place, c: Context)
    ensures var r := TicketStep(t, at, c, TicketUnjam, false);
            (r.Done? <==> c.sender == at.owner && t.inFlight > 0 && c.now > t.inFlightAt + 604_800) &&
            (r.Done? ==> r == Done(Ticket(t.credits, 0, 0), []))
  {
  }

  /**
   A claim completes: the sink's answer opens the interlock and takes no credit, so the next claim can follow; or it
   comes back, and the ticket is as it was.
   */
  lemma ClaimCycle(t: Ticket, at: Place, c: Context, answer: Context, k: nat, back: Context)
    requires TicketStep(t, at, c, TicketClaim, false).Done? && answer.sender == at.sink && t.credits <= 4_294_967_295
    ensures var flown := TicketStep(t, at, c, TicketClaim, false);
            var sent := flown.sends[0].body;
            TicketStep(flown.ticket, at, answer, TicketRedeemAck(k), false) ==
            Done(Ticket(t.credits - CreditsOf(sent), 0, 0), []) &&
            TicketStep(flown.ticket, at, back, sent, true) == Done(Ticket(t.credits, 0, 0), [])
  {
  }

  /** Exported credits that come back are the ticket's again, beside those it got meanwhile. */
  lemma ExportReturns(t: Ticket, at: Place, c: Context, to: Address, later: Ticket, back: Context)
    requires TicketStep(t, at, c, TicketExport(to), false).Done? && later.credits + t.credits <= 4_294_967_295
    ensures TicketStep(later, at, back, TicketStep(t, at, c, TicketExport(to), false).sends[0].body, true) ==
            Done(Ticket(later.credits + t.credits, later.inFlight, later.inFlightAt), [])
  {
  }

  // ---------------------------------------------------------------- the interlock over a run

  /** A redeem on its way out or back, or the sink's answer to one. */
  predicate Redeeming(p: Parcel) {
    match p
    case Outbound(_, b) => b.TicketRedeem?
    case Returning(b) => b.TicketRedeem?
    case Answer(_) => true
  }

  function Redeemed(p: Parcel): nat {
    match p
    case Answer(k) => k
    case _ => Carried(p)
  }

  /** The interlock is set exactly while one redeem is under way, for its credits; never for two. */
  ghost predicate Interlocked(n: Net) {
    (forall i | i in n.parcels && Redeeming(n.parcels[i]) :: n.ticket.inFlight == Redeemed(n.parcels[i]) > 0) &&
    (forall i, j | i in n.parcels && j in n.parcels && Redeeming(n.parcels[i]) && Redeeming(n.parcels[j]) :: i == j) &&
    (n.ticket.inFlight > 0 ==> exists i :: i in n.parcels && Redeeming(n.parcels[i]))
  }

  /** No answer is jammed, and nobody uses the release. */
  predicate Undisturbed(n: Net, at: Place, e: Event) {
    !e.Jammed? &&
    !(e.Call? && e.body.TicketUnjam? &&
      TicketStep(n.ticket, at, Context(e.sender, e.value, 0, n.now), e.body, false).Done?)
  }

  ghost predicate AllUndisturbed(n: Net, at: Place, es: seq<Event>)
    decreases |es|
  {
    |es| == 0 || (Undisturbed(n, at, es[0]) && AllUndisturbed(Next(n, at, es[0]), at, es[1..]))
  }

  /** A bounce fits as long as no more than 2^32 - 1 credits were issued. */
  lemma ReturnFits(n: Net, i: nat)
    requires Inv(n) && i in n.parcels && n.issued <= 4_294_967_295
    ensures n.ticket.credits + Carried(n.parcels[i]) <= 4_294_967_295
  {
    TravellingDrop(n, i);
    hide Travelling, Carried;
  }

  lemma CallInterlocked(n: Net, at: Place, e: Event)
    requires Inv(n) && Interlocked(n) && Enabled(n, at, e) && Undisturbed(n, at, e) && e.Call?
    ensures Interlocked(Next(n, at, e))
  {
    hide Conserved;
    var m := Next(n, at, e);
    if e.body.TicketClaim? && m.ticket != n.ticket {
      ClaimLaw(n.ticket, at, Context(e.sender, e.value, 0, n.now));
      assert Redeeming(m.parcels[n.next]);
      assert forall i | i in n.parcels :: !Redeeming(n.parcels[i]);
    }
  }

  lemma SameLock(n: Net, m: Net)
    requires Interlocked(n) && m.parcels == n.parcels && m.ticket.inFlight == n.ticket.inFlight
    ensures Interlocked(m)
  {
    hide Redeeming, Redeemed;
  }

  /** A parcel that is no redeem comes and goes without the interlock. */
  lemma DropQuiet(n: Net, i: nat)
    requires Interlocked(n) && i in n.parcels && !Redeeming(n.parcels[i])
    ensures Interlocked(Drop(n, i))
  {
    hide Redeeming, Redeemed;
    var m := Drop(n, i);
    if m.ticket.inFlight > 0 {
      var j :| j in n.parcels && Redeeming(n.parcels[j]);
      assert j in m.parcels && Redeeming(m.parcels[j]);
    }
  }

  /** The redeem ends, and with it the interlock. */
  lemma DropLast(n: Net, i: nat, m: Net)
    requires Interlocked(n) && i in n.parcels && Redeeming(n.parcels[i])
    requires m.parcels == Drop(n, i).parcels && m.ticket.inFlight == 0
    ensures Interlocked(m)
  {
    hide Redeeming, Redeemed;
  }

  /** A parcel gives way to one that redeems as much, or as little. */
  lemma Swapped(n: Net, i: nat, p: Parcel, m: Net)
    requires Interlocked(n) && i in n.parcels && (forall j | j in n.parcels :: j < n.next)
    requires Redeeming(p) == Redeeming(n.parcels[i]) && (Redeeming(p) ==> Redeemed(p) == Redeemed(n.parcels[i]))
    requires m.parcels == Add(Drop(n, i), p).parcels && m.ticket == n.ticket
    ensures Interlocked(m)
  {
    hide Redeeming, Redeemed;
    if m.ticket.inFlight > 0 {
      var j :| j in n.parcels && Redeeming(n.parcels[j]);
      assert Redeeming(m.parcels[if j == i then n.next else j]);
    }
  }

  lemma ReturnInterlocked(n: Net, at: Place, e: Event)
    requires Inv(n) && Interlocked(n) && Enabled(n, at, e) && e.Return? && n.issued <= 4_294_967_295
    ensures Interlocked(Next(n, at, e))
  {
    var i := e.parcel;
    var m := Next(n, at, e);
    ReturnFits(n, i);
    hide Conserved, Interlocked;
    if Redeeming(n.parcels[i]) {
      DropLast(n, i, m);
    } else {
      DropQuiet(n, i);
      SameLock(Drop(n, i), m);
    }
  }

  lemma NextInterlocked(n: Net, at: Place, e: Event)
    requires Inv(n) && Interlocked(n) && Enabled(n, at, e) && Undisturbed(n, at, e)
    requires n.issued <= 4_294_967_295
    ensures Interlocked(Next(n, at, e))
  {
    var m := Next(n, at, e);
    if e.Call? {
      CallInterlocked(n, at, e);
    } else if e.Return? {
      ReturnInterlocked(n, at, e);
    } else {
      hide Interlocked, Conserved;
      match e
      case Accepted(i, _, _) => {
        if n.parcels[i].body.TicketRedeem? {
          Swapped(n, i, Answer(n.parcels[i].body.credits), m);
        } else {
          DropQuiet(n, i);
          SameLock(Drop(n, i), m);
        }
      }
      case Refused(i) => Swapped(n, i, Returning(n.parcels[i].body), m);
      case _ => SameLock(n, m);
    }
  }

  lemma {:induction false} IssuedGrows(n: Net, at: Place, es: seq<Event>)
    ensures n.issued <= After(n, at, es).issued
    decreases |es|
  {
    if |es| > 0 {
      IssuedGrows(Next(n, at, es[0]), at, es[1..]);
      IssuedStep(n, at, es[0]);
      hide Next;
    }
  }

  lemma IssuedStep(n: Net, at: Place, e: Event)
    ensures n.issued <= Next(n, at, e).issued
  {
    hide TicketStep;
  }

  /**
   The law of the interlock, over every run in which no answer is jammed and nobody uses the release, and which
   issues at most 2^32 - 1 credits: the ticket is locked exactly while one redeem, for exactly the credits it took,
   is on its way out, on its way back, or being answered.
   */
  lemma {:induction false} InterlockLaw(n: Net, at: Place, es: seq<Event>)
    requires Inv(n) && Interlocked(n) && Allowed(n, at, es) && AllUndisturbed(n, at, es)
    requires After(n, at, es).issued <= 4_294_967_295
    ensures Interlocked(After(n, at, es))
    decreases |es|
  {
    hide Next, Enabled, Interlocked, Undisturbed, Inv;
    if |es| > 0 {
      IssuedStep(n, at, es[0]);
      IssuedGrows(Next(n, at, es[0]), at, es[1..]);
      NextInv(n, at, es[0]);
      NextInterlocked(n, at, es[0]);
      InterlockLaw(Next(n, at, es[0]), at, es[1..]);
    }
  }

  /** So after such a run from the start, an owner with 10 credits and no redeem under way can claim. */
  lemma NeverJams(at: Place, now: nat, es: seq<Event>, c: Context)
    requires Allowed(Start(now), at, es) && AllUndisturbed(Start(now), at, es)
    requires After(Start(now), at, es).issued <= 4_294_967_295
    ensures var n := After(Start(now), at, es);
            (forall i | i in n.parcels :: !Redeeming(n.parcels[i])) && n.ticket.credits >= 10 &&
            c.sender == at.owner && c.value >= 63_000_000
            ==> TicketStep(n.ticket, at, c, TicketClaim, false).Done?
  {
    StartInv(now);
    InterlockLaw(Start(now), at, es);
    hide After, Allowed, AllUndisturbed;
    ClaimLaw(After(Start(now), at, es).ticket, at, c);
  }

  // ---------------------------------------------------------------- exit codes

  /** What the sink's refusals of a redeem say. */
  lemma SinkCodesSpeak(bound: bool, fromTicket: bool, k: nat, value: nat)
    ensures match SinkGate(bound, fromTicket, k, value)
            case 15060 => !bound
            case 15061 => !fromTicket
            case 15062 => k == 0 || k > 1000
            case 15063 => value < 62_000_000
            case code => code == SINK_ACCEPTS && bound && fromTicket && 1 <= k <= 1000 && value >= 62_000_000
  {
  }

  /** Every refusal of the ticket carries a code that is true of the message refused. */
  lemma TicketCodesSpeak(t: Ticket, at: Place, a: Arrival)
    ensures var r := TicketStep(t, at, a.context, a.body, a.bounced);
            var c, b := a.context, a.body;
            r.Throw? ==>
              match r.code
              case 27001 => b.TicketCredit? && c.sender != at.sink
              case 27002 => b.TicketCredit? && t.credits >= 4_294_967_295
              case 27003 => b.TicketCredit? && !at.owner.Basechain()
              case 27010 => b.TicketClaim? && c.sender != at.owner
              case 27011 => b.TicketClaim? && t.inFlight > 0
              case 27012 => b.TicketClaim? && t.credits < 10
              case 27013 => b.TicketClaim? && c.value < 63_000_000
              case 27020 => b.TicketRedeemAck? && c.sender != at.sink
              case 27030 => b.TicketExport? && c.sender != at.owner
              case 27031 => b.TicketExport? && t.inFlight > 0
              case 27032 => b.TicketExport? && t.credits == 0
              case 27033 => b.TicketExport? && !b.to.Basechain()
              case 27034 => b.TicketExport? && c.value < 20_000_000
              case 27035 => b.TicketExport? && b.to == at.self
              case 27040 => b.TicketUnjam? && c.sender != at.owner
              case 27041 => b.TicketUnjam? && t.inFlight == 0
              case 27042 => b.TicketUnjam? && c.now <= t.inFlightAt + 604_800
              case 5 => a.bounced && t.credits + CreditsOf(b) > 4_294_967_295
              case _ => false
  {
  }
}
