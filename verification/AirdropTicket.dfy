/**
 One airdrop ticket (contracts/AirdropTicket.tact): its handlers with every gate, the object they run on,
 and the credits of a ticket over every run with the sink and the export targets free to accept, refuse or
 lose what reaches them.
 */
module AirdropTicket {
  import opened Numbers
  import opened Sums
  import opened Transactions

  const MIN_CLAIM_CREDITS := 10
  const MAX_CREDITS_PER_CLAIM := 1000
  const CLAIM_MIN_VALUE := 63_000_000
  const EXPORT_MIN_VALUE := 20_000_000
  const UNJAM_GRACE := 604_800
  const UINT32_MAX := 4_294_967_295
  const ACCRUE_LEG_AND_RESERVE := 62_000_000
  const INTEGER_OUT_OF_RANGE := 5

  datatype Ticket = Ticket(credits: nat, inFlight: nat, inFlightAt: nat)

  const NEW_TICKET := Ticket(0, 0, 0)

  datatype Body =
    | TicketCredit
    | TicketClaim
    | TicketRedeem(credits: nat, owner: Address)
    | TicketRedeemAck(credits: nat)
    | TicketExport(to: Address)
    | TicketMigrated(credits: nat, owner: Address)
    | TicketUnjam
    | Other

  datatype Send = Send(to: Address, bounce: bool, value: Attached, body: Body)

  datatype Outcome = Done(ticket: Ticket, sends: seq<Send>) | Throw(code: int)

  /** Where a ticket lives: its owner, its own address and the fee sink it trusts. */
  datatype Place = Place(owner: Address, self: Address, sink: Address)

  // ---------------------------------------------------------------- handlers

  function CreditStep(t: Ticket, at: Place, c: Context): Outcome {
    if c.sender != at.sink then Throw(27001)
    else if !at.owner.Basechain() then Throw(27003)
    else if t.credits >= UINT32_MAX then Throw(27002)
    else Done(t.(credits := t.credits + 1), [])
  }

  function ClaimStep(t: Ticket, at: Place, c: Context): Outcome {
    var k := Min(t.credits, MAX_CREDITS_PER_CLAIM);
    if c.sender != at.owner then Throw(27010)
    else if t.inFlight != 0 then Throw(27011)
    else if t.credits < MIN_CLAIM_CREDITS then Throw(27012)
    else if c.value < CLAIM_MIN_VALUE then Throw(27013)
    else Done(Ticket(t.credits - k, k, c.now), [Send(at.sink, true, Remaining, TicketRedeem(k, at.owner))])
  }

  function ExportStep(t: Ticket, at: Place, c: Context, to: Address): Outcome {
    if c.sender != at.owner then Throw(27030)
    else if t.inFlight != 0 then Throw(27031)
    else if t.credits == 0 then Throw(27032)
    else if !to.Basechain() then Throw(27033)
    else if to == at.self then Throw(27035)
    else if c.value < EXPORT_MIN_VALUE then Throw(27034)
    else Done(t.(credits := 0), [Send(to, true, Remaining, TicketMigrated(t.credits, at.owner))])
  }

  function AckStep(t: Ticket, at: Place, c: Context): Outcome {
    if c.sender != at.sink then Throw(27020) else Done(Ticket(t.credits, 0, 0), [])
  }

  function UnjamStep(t: Ticket, at: Place, c: Context): Outcome {
    if c.sender != at.owner then Throw(27040)
    else if t.inFlight == 0 then Throw(27041)
    else if c.now <= t.inFlightAt + UNJAM_GRACE then Throw(27042)
    else Done(Ticket(t.credits, 0, 0), [])
  }

  /** A bounce restores its credits, whatever the interlock says; the field is 32 bits wide. */
  function BouncedStep(t: Ticket, body: Body): Outcome {
    match body
    case TicketRedeem(k, _) =>
      if t.credits + k > UINT32_MAX then Throw(INTEGER_OUT_OF_RANGE)
      else Done(Ticket(t.credits + k, 0, 0), [])
    case TicketMigrated(k, _) =>
      if t.credits + k > UINT32_MAX then Throw(INTEGER_OUT_OF_RANGE) else Done(t.(credits := t.credits + k), [])
    case _ => Done(t, [])
  }

  function TicketStep(t: Ticket, at: Place, c: Context, body: Body, bounced: bool): Outcome {
    if bounced then BouncedStep(t, body)
    else
      match body
      case TicketCredit => CreditStep(t, at, c)
      case TicketClaim => ClaimStep(t, at, c)
      case TicketExport(to) => ExportStep(t, at, c, to)
      case TicketRedeemAck(_) => AckStep(t, at, c)
      case TicketUnjam => UnjamStep(t, at, c)
      case _ => Done(t, []) // the ticket takes any other message and does nothing
  }

  // ---------------------------------------------------------------- the object

  ghost predicate Agrees(o: Outcome, s: Status, t: Ticket, outbox: seq<Send>) {
    match o
    case Done(t2, sends) => s == Okay && t == t2 && outbox == sends
    case Throw(code) => s == Thrown(code)
  }

  class TicketContract {
    const at: Place
    var credits: nat
    var inFlight: nat
    var inFlightAt: nat
    var outbox: seq<Send>

    constructor (at: Place)
      ensures View() == Ticket(0, 0, 0) && outbox == [] && this.at == at
    {
      this.at := at;
      credits, inFlight, inFlightAt, outbox := 0, 0, 0, [];
    }

    function View(): Ticket
      reads this
    {
      Ticket(credits, inFlight, inFlightAt)
    }

    method Credit(c: Context) returns (s: Status)
      requires outbox == []
      modifies this
      ensures Agrees(CreditStep(old(View()), at, c), s, View(), outbox)
    {
      s := Okay;
      :- ThrowUnless(27001, c.sender == at.sink);
      :- ThrowUnless(27003, at.owner.Basechain());
      :- ThrowUnless(27002, credits < UINT32_MAX);
      credits := credits + 1;
    }

    method Claim(c: Context) returns (s: Status)
      requires outbox == []
      modifies this
      ensures Agrees(ClaimStep(old(View()), at, c), s, View(), outbox)
    {
      s := Okay;
      :- ThrowUnless(27010, c.sender == at.owner);
      :- ThrowUnless(27011, inFlight == 0);
      :- ThrowUnless(27012, credits >= MIN_CLAIM_CREDITS);
      :- ThrowUnless(27013, c.value >= CLAIM_MIN_VALUE);
      var k := credits;
      if k > MAX_CREDITS_PER_CLAIM {
        k := MAX_CREDITS_PER_CLAIM;
      }
      credits := credits - k;
      inFlight := k;
      inFlightAt := c.now;
      outbox := [Send(at.sink, true, Remaining, TicketRedeem(k, at.owner))];
    }

    method ExportCredits(c: Context, to: Address) returns (s: Status)
      requires outbox == []
      modifies this
      ensures Agrees(ExportStep(old(View()), at, c, to), s, View(), outbox)
    {
      s := Okay;
      :- ThrowUnless(27030, c.sender == at.owner);
      :- ThrowUnless(27031, inFlight == 0);
      :- ThrowUnless(27032, credits > 0);
      :- ThrowUnless(27033, to.Basechain());
      :- ThrowUnless(27035, to != at.self);
      :- ThrowUnless(27034, c.value >= EXPORT_MIN_VALUE);
      var k := credits;
      credits := 0;
      outbox := [Send(to, true, Remaining, TicketMigrated(k, at.owner))];
    }

    method RedeemAck(c: Context) returns (s: Status)
      requires outbox == []
      modifies this
      ensures Agrees(AckStep(old(View()), at, c), s, View(), outbox)
    {
      s := Okay;
      :- ThrowUnless(27020, c.sender == at.sink);
      inFlight, inFlightAt := 0, 0;
    }

    method Unjam(c: Context) returns (s: Status)
      requires outbox == []
      modifies this
      ensures Agrees(UnjamStep(old(View()), at, c), s, View(), outbox)
    {
      s := Okay;
      :- ThrowUnless(27040, c.sender == at.owner);
      :- ThrowUnless(27041, inFlight > 0);
      :- ThrowUnless(27042, c.now > inFlightAt + UNJAM_GRACE);
      inFlight, inFlightAt := 0, 0;
    }

    method Bounced(body: Body) returns (s: Status)
      requires outbox == []
      modifies this
      ensures Agrees(BouncedStep(old(View()), body), s, View(), outbox)
    {
      match body {
        case TicketRedeem(k, _) =>
          credits := credits + k;
          inFlight, inFlightAt := 0, 0;
        case TicketMigrated(k, _) =>
          credits := credits + k;
        case _ =>
          return Okay;
      }
      s := ThrowUnless(INTEGER_OUT_OF_RANGE, credits <= UINT32_MAX);
    }

    /** One transaction: a throw undoes every change. */
    method Receive(c: Context, body: Body, bounced: bool) returns (s: Status)
      modifies this
      ensures Agrees(TicketStep(old(View()), at, c, body, bounced), s, View(), outbox)
      ensures s.Thrown? ==> View() == old(View()) && outbox == []
    {
      var credits0, inFlight0, inFlightAt0 := credits, inFlight, inFlightAt;
      outbox := [];
      if bounced {
        s := Bounced(body);
      } else {
        match body
        case TicketCredit => s := Credit(c);
        case TicketClaim => s := Claim(c);
        case TicketExport(to) => s := ExportCredits(c, to);
        case TicketRedeemAck(_) => s := RedeemAck(c);
        case TicketUnjam => s := Unjam(c);
        case _ => s := Okay;
      }
      if s.Thrown? {
        credits, inFlight, inFlightAt, outbox := credits0, inFlight0, inFlightAt0, [];
      }
    }

    /** A life of the ticket: what it holds is what it was given less what it sent. */
    method Process(history: seq<Arrival>)
      modifies this
      ensures View() == ApplyAll(old(View()), at, history)
      ensures credits + SentOut(old(View()), at, history) == old(credits) + TakenIn(old(View()), at, history)
    {
      ghost var start := View();
      var i := 0;
      while i < |history|
        invariant 0 <= i <= |history|
        invariant ApplyAll(View(), at, history[i..]) == ApplyAll(start, at, history)
      {
        hide TicketStep;
        assert history[i..][1..] == history[i + 1..];
        var s := Receive(history[i].context, history[i].body, history[i].bounced);
        i := i + 1;
      }
      HistoryAdds(start, at, history);
    }
  }

  // ---------------------------------------------------------------- a ticket's history

  datatype Arrival = Arrival(context: Context, body: Body, bounced: bool)

  function Apply(t: Ticket, at: Place, a: Arrival): Ticket {
    match TicketStep(t, at, a.context, a.body, a.bounced)
    case Done(t2, _) => t2
    case Throw(_) => t
  }

  function ApplyAll(t: Ticket, at: Place, history: seq<Arrival>): Ticket
    decreases |history|
  {
    if |history| == 0 then t else ApplyAll(Apply(t, at, history[0]), at, history[1..])
  }

  /** The credits one arrival brings: one for a purchase, its own for a message that comes back. */
  function Brings(t: Ticket, at: Place, a: Arrival): nat {
    if TicketStep(t, at, a.context, a.body, a.bounced).Throw? then 0
    else if a.bounced then CreditsOf(a.body)
    else if a.body.TicketCredit? then 1
    else 0
  }

  /** The credits inside the messages one arrival makes the ticket send. */
  function Sends(t: Ticket, at: Place, a: Arrival): nat {
    match TicketStep(t, at, a.context, a.body, a.bounced)
    case Done(_, sends) => if |sends| > 0 then CreditsOf(sends[0].body) else 0
    case Throw(_) => 0
  }

  function TakenIn(t: Ticket, at: Place, history: seq<Arrival>): nat
    decreases |history|
  {
    if |history| == 0 then 0
    else Brings(t, at, history[0]) + TakenIn(Apply(t, at, history[0]), at, history[1..])
  }

  function SentOut(t: Ticket, at: Place, history: seq<Arrival>): nat
    decreases |history|
  {
    if |history| == 0 then 0
    else Sends(t, at, history[0]) + SentOut(Apply(t, at, history[0]), at, history[1..])
  }

  lemma StepAdds(t: Ticket, at: Place, a: Arrival)
    ensures Apply(t, at, a).credits + Sends(t, at, a) == t.credits + Brings(t, at, a)
  {
  }

  /** Over every history the ticket holds what it was given, and got back, less what it sent. */
  lemma {:induction false} HistoryAdds(t: Ticket, at: Place, history: seq<Arrival>)
    ensures ApplyAll(t, at, history).credits + SentOut(t, at, history) == t.credits + TakenIn(t, at, history)
    decreases |history|
  {
    hide Apply, Sends, Brings;
    if |history| > 0 {
      StepAdds(t, at, history[0]);
      HistoryAdds(Apply(t, at, history[0]), at, history[1..]);
    }
  }

  // ---------------------------------------------------------------- the ticket among others

  /** A message of the ticket under way, on its way out or bounced and on its way back; or the sink's answer. */
  datatype Parcel = Outbound(to: Address, body: Body) | Returning(body: Body) | Answer(credits: nat)

  datatype Net = Net(
    ticket: Ticket,
    parcels: map<nat, Parcel>,
    next: nat,
    now: nat,
    issued: nat,
    redeemed: nat,
    migrated: nat,
    overflowed: nat
  )

  datatype Event =
    | Issue(value: nat)
    | Call(sender: Address, value: nat, body: Body)
    | Accepted(parcel: nat, bound: bool, value: nat)
    | Refused(parcel: nat)
    | Return(parcel: nat, value: nat)
    | Jammed(parcel: nat)
    | Tick(seconds: nat)

  function CreditsOf(b: Body): nat {
    match b
    case TicketRedeem(k, _) => k
    case TicketMigrated(k, _) => k
    case _ => 0
  }

  function Carried(p: Parcel): nat {
    match p
    case Outbound(_, b) => CreditsOf(b)
    case Returning(b) => CreditsOf(b)
    case Answer(_) => 0
  }

  const SINK_ACCEPTS := 0

  /**
   The gates of the sink for a redeem (contracts/FeeAccumulator.tact): the ticket code and the pool are bound, the
   sender is the ticket of the named owner, 1 to 1000 credits, and enough value.
   */
  function SinkGate(bound: bool, fromTicket: bool, k: nat, value: nat): int {
    if !bound then 15060
    else if !fromTicket then 15061
    else if !(0 < k <= MAX_CREDITS_PER_CLAIM) then 15062
    else if value < ACCRUE_LEG_AND_RESERVE then 15063
    else SINK_ACCEPTS
  }

  ghost predicate Enabled(n: Net, at: Place, e: Event) {
    match e
    case Issue(_) => true
    case Call(sender, _, _) => sender != at.sink
    case Accepted(i, bound, value) =>
      i in n.parcels && n.parcels[i].Outbound? &&
      (n.parcels[i].body.TicketRedeem? ==>
         SinkGate(bound, n.parcels[i].body.owner == at.owner, n.parcels[i].body.credits, value) == SINK_ACCEPTS)
    case Refused(i) => i in n.parcels && n.parcels[i].Outbound?
    case Return(i, _) => i in n.parcels && !n.parcels[i].Outbound?
    case Jammed(i) => i in n.parcels && n.parcels[i].Answer?
    case Tick(_) => true
  }

  function Drop(n: Net, i: nat): Net {
    n.(parcels := n.parcels - {i})
  }

  function Add(n: Net, p: Parcel): Net {
    n.(parcels := n.parcels[n.next := p], next := n.next + 1)
  }

  function Ran(n: Net, o: Outcome): Net {
    match o
    case Throw(_) => n
    case Done(t, sends) =>
      if |sends| == 0 then n.(ticket := t) else Add(n.(ticket := t), Outbound(sends[0].to, sends[0].body))
  }

  function Next(n: Net, at: Place, e: Event): Net {
    match e
    case Issue(value) =>
      var o := TicketStep(n.ticket, at, Context(at.sink, value, 0, n.now), TicketCredit, false);
      if o.Done? then Ran(n, o).(issued := n.issued + 1) else n
    case Call(sender, value, body) => Ran(n, TicketStep(n.ticket, at, Context(sender, value, 0, n.now), body, false))
    case Accepted(i, _, _) => (
      if i !in n.parcels || !n.parcels[i].Outbound? then n
      else
        match n.parcels[i].body
        case TicketRedeem(k, _) => Add(Drop(n, i), Answer(k)).(redeemed := n.redeemed + k)
        case b => Drop(n, i).(migrated := n.migrated + CreditsOf(b)))
    case Refused(i) =>
      if i in n.parcels && n.parcels[i].Outbound? then Add(Drop(n, i), Returning(n.parcels[i].body)) else n
    case Return(i, value) => (
      if i !in n.parcels then n
      else
        match n.parcels[i]
        case Outbound(_, _) => n
        case Answer(k) =>
          Ran(Drop(n, i), TicketStep(n.ticket, at, Context(at.sink, value, 0, n.now), TicketRedeemAck(k), false))
        case Returning(b) =>
          var o := TicketStep(n.ticket, at, Context(at.sink, value, 0, n.now), b, true);
          if o.Done? then Ran(Drop(n, i), o) else Drop(n, i).(overflowed := n.overflowed + CreditsOf(b)))
    case Jammed(i) => Drop(n, i)
    case Tick(s) => n.(now := n.now + s)
  }

  function After(n: Net, at: Place, es: seq<Event>): Net
    decreases |es|
  {
    if |es| == 0 then n else After(Next(n, at, es[0]), at, es[1..])
  }

  ghost predicate Allowed(n: Net, at: Place, es: seq<Event>)
    decreases |es|
  {
    |es| == 0 || (Enabled(n, at, es[0]) && Allowed(Next(n, at, es[0]), at, es[1..]))
  }

  function Start(now: nat): Net {
    Net(NEW_TICKET, map[], 0, now, 0, 0, 0, 0)
  }

  // ---------------------------------------------------------------- conservation

  ghost function Loads(parcels: map<nat, Parcel>): map<nat, nat> {
    map i | i in parcels :: Carried(parcels[i])
  }

  ghost function Travelling(n: Net): nat {
    Sum(Loads(n.parcels))
  }

  lemma TravellingDrop(n: Net, i: nat)
    requires i in n.parcels
    ensures Travelling(Drop(n, i)) == Travelling(n) - Carried(n.parcels[i])
  {
    hide Sum, Carried;
    SumRemove(Loads(n.parcels), i);
    assert Loads(Drop(n, i).parcels) == Loads(n.parcels) - {i};
  }

  lemma TravellingAdd(n: Net, p: Parcel)
    requires n.next !in n.parcels
    ensures Travelling(Add(n, p)) == Travelling(n) + Carried(p)
  {
    hide Sum, Carried;
    SumUpdate(Loads(n.parcels), n.next, Carried(p));
    assert Loads(Add(n, p).parcels) == Loads(n.parcels)[n.next := Carried(p)];
  }

  /** A claim is in its range, which is also what the sink and the pool ask of it. */
  predicate InRange(b: Body) {
    b.TicketRedeem? ==> MIN_CLAIM_CREDITS <= b.credits <= MAX_CREDITS_PER_CLAIM
  }

  ghost predicate Conserved(n: Net) {
    n.issued == n.ticket.credits + Travelling(n) + n.redeemed + n.migrated + n.overflowed
  }

  ghost predicate Inv(n: Net) {
    Conserved(n) && n.ticket.credits <= UINT32_MAX &&
    (n.overflowed > 0 ==> n.issued > UINT32_MAX) &&
    (forall i | i in n.parcels :: i < n.next) &&
    (forall i | i in n.parcels && !n.parcels[i].Answer? :: InRange(n.parcels[i].body))
  }

  /** What the ticket gives up it sends, to the last credit; only an issue adds one, only a bounce gives back. */
  lemma StepConserves(t: Ticket, at: Place, c: Context, body: Body, bounced: bool)
    requires TicketStep(t, at, c, body, bounced).Done?
    ensures var o := TicketStep(t, at, c, body, bounced);
            |o.sends| <= 1 && (|o.sends| == 1 ==> InRange(o.sends[0].body)) &&
            o.ticket.credits + (if |o.sends| == 1 then CreditsOf(o.sends[0].body) else 0)
            == t.credits + (if bounced then CreditsOf(body) else if body.TicketCredit? then 1 else 0) &&
            (o.ticket.credits <= UINT32_MAX || t.credits > UINT32_MAX)
    ensures !bounced && body.TicketCredit? ==> c.sender == at.sink
  {
  }

  lemma RanConserves(n: Net, at: Place, c: Context, body: Body, bounced: bool)
    requires n.next !in n.parcels && TicketStep(n.ticket, at, c, body, bounced).Done?
    ensures var m := Ran(n, TicketStep(n.ticket, at, c, body, bounced));
            m.ticket.credits + Travelling(m) ==
            n.ticket.credits + Travelling(n)
              + (if bounced then CreditsOf(body) else if body.TicketCredit? then 1 else 0)
  {
    StepConserves(n.ticket, at, c, body, bounced);
    var o := TicketStep(n.ticket, at, c, body, bounced);
    var m := n.(ticket := o.ticket);
    assert Travelling(m) == Travelling(n);
    hide TicketStep, Travelling;
    if |o.sends| == 1 {
      TravellingAdd(m, Outbound(o.sends[0].to, o.sends[0].body));
    }
  }

  lemma ReturnInv(n: Net, at: Place, i: nat, value: nat)
    requires Inv(n) && i in n.parcels && !n.parcels[i].Outbound?
    ensures Inv(Next(n, at, Return(i, value)))
  {
    var m := Drop(n, i);
    TravellingDrop(n, i);
    var c := Context(at.sink, value, 0, n.now);
    var body := match n.parcels[i] case Returning(b) => b case Answer(k) => TicketRedeemAck(k);
    var bounced := n.parcels[i].Returning?;
    assert CreditsOf(body) == Carried(n.parcels[i]);
    var o := TicketStep(n.ticket, at, c, body, bounced);
    if o.Done? {
      StepConserves(n.ticket, at, c, body, bounced);
      RanConserves(m, at, c, body, bounced);
      hide TicketStep, Travelling;
    } else {
      assert bounced && n.ticket.credits + CreditsOf(body) > UINT32_MAX;
      hide TicketStep, Travelling;
    }
  }

  lemma CallInv(n: Net, at: Place, c: Context, body: Body)
    requires Inv(n)
    ensures var m := Ran(n, TicketStep(n.ticket, at, c, body, false));
            var issued := TicketStep(n.ticket, at, c, body, false).Done? && body.TicketCredit?;
            Inv(m.(issued := if issued then n.issued + 1 else n.issued))
    ensures body.TicketCredit? && TicketStep(n.ticket, at, c, body, false).Done? ==> c.sender == at.sink
  {
    if TicketStep(n.ticket, at, c, body, false).Done? {
      StepConserves(n.ticket, at, c, body, false);
      RanConserves(n, at, c, body, false);
      hide TicketStep, Sum, Loads;
    }
  }

  lemma AcceptedInv(n: Net, at: Place, i: nat, bound: bool, value: nat)
    requires Inv(n) && Enabled(n, at, Accepted(i, bound, value))
    ensures Inv(Next(n, at, Accepted(i, bound, value)))
  {
    hide Loads, Sum;
    TravellingDrop(n, i);
    if n.parcels[i].body.TicketRedeem? {
      TravellingAdd(Drop(n, i), Answer(n.parcels[i].body.credits));
    }
  }

  lemma RefusedInv(n: Net, at: Place, i: nat)
    requires Inv(n) && Enabled(n, at, Refused(i))
    ensures Inv(Next(n, at, Refused(i)))
  {
    hide Loads, Sum;
    TravellingDrop(n, i);
    TravellingAdd(Drop(n, i), Returning(n.parcels[i].body));
  }

  lemma JammedInv(n: Net, at: Place, i: nat)
    requires Inv(n) && Enabled(n, at, Jammed(i))
    ensures Inv(Next(n, at, Jammed(i)))
  {
    hide Loads, Sum;
    TravellingDrop(n, i);
  }

  lemma NextInv(n: Net, at: Place, e: Event)
    requires Inv(n) && Enabled(n, at, e)
    ensures Inv(Next(n, at, e))
  {
    hide TicketStep, Inv;
    match e
    case Return(i, value) => ReturnInv(n, at, i, value);
    case Issue(value) => CallInv(n, at, Context(at.sink, value, 0, n.now), TicketCredit);
    case Call(sender, value, body) => CallInv(n, at, Context(sender, value, 0, n.now), body);
    case Accepted(i, bound, value) => AcceptedInv(n, at, i, bound, value);
    case Refused(i) => RefusedInv(n, at, i);
    case Jammed(i) => JammedInv(n, at, i);
    case Tick(t) => TickInv(n, t);
  }

  lemma TickInv(n: Net, t: nat)
    requires Inv(n)
    ensures Inv(n.(now := n.now + t))
  {
  }

  /**
   Ticket conservation, over every run: the credits issued are those held, those inside undelivered messages,
   those redeemed, those migrated, and those a bounce could no longer fit into 32 bits.  The last are none
   as long as no more than 2^32 - 1 credits were ever issued.
   */
  lemma {:induction false} TicketConserves(n: Net, at: Place, es: seq<Event>)
    requires Inv(n) && Allowed(n, at, es)
    ensures Inv(After(n, at, es))
    ensures After(n, at, es).issued <= UINT32_MAX ==>
              var m := After(n, at, es); m.issued == m.ticket.credits + Travelling(m) + m.redeemed + m.migrated
    decreases |es|
  {
    hide Next, Enabled, Travelling;
    if |es| > 0 {
      NextInv(n, at, es[0]);
      TicketConserves(Next(n, at, es[0]), at, es[1..]);
    }
  }

  lemma StartInv(now: nat)
    ensures Inv(Start(now))
  {
    assert Loads(Start(now).parcels) == map[];
  }

  /** When a bounce loses its credits, exactly: when they no longer fit beside those held. */
  lemma BounceLosesIff(n: Net, at: Place, i: nat, value: nat)
    requires Inv(n) && i in n.parcels && n.parcels[i].Returning?
    ensures var m := Next(n, at, Return(i, value));
            var k := CreditsOf(n.parcels[i].body);
            (m.overflowed == n.overflowed + k && m.ticket == n.ticket && k > 0 <==>
             n.ticket.credits + k > UINT32_MAX) &&
            (m.ticket.credits == n.ticket.credits + k <==> n.ticket.credits + k <= UINT32_MAX)
  {
  }

  /** The overflow is real: a ticket at its limit again while its claim travels back. */
  lemma OverflowExample()
    ensures var t := Ticket(UINT32_MAX - 5, 0, 0);
            TicketStep(t, Place(User(0, 0), User(1, 0), User(2, 0)), Context(User(2, 0), 0, 0, 0),
                       TicketRedeem(10, User(0, 0)), true)
            == Throw(INTEGER_OUT_OF_RANGE)
  {
  }

  /** After the dead-man release a late bounce still restores every credit and leaves the interlock open. */
  lemma LateBounceRestores(t: Ticket, at: Place, claim: Context, late: Context, bounce: Context)
    requires ClaimStep(t, at, claim).Done? && t.credits <= UINT32_MAX
    ensures var flown := ClaimStep(t, at, claim);
            var released := UnjamStep(flown.ticket, at, late);
            (released.Done? <==> late.sender == at.owner && late.now > claim.now + UNJAM_GRACE) &&
            (released.Done? ==>
               TicketStep(released.ticket, at, bounce, flown.sends[0].body, true) == Done(Ticket(t.credits, 0, 0), []))
  {
  }

  /** Every claim under way carries 10 to 1000 credits, so the credit gate 15062 never refuses one. */
  lemma ClaimsFitTheSink(at: Place, now: nat, es: seq<Event>, i: nat, bound: bool, fromTicket: bool, value: nat)
    requires Allowed(Start(now), at, es)
    requires var n := After(Start(now), at, es);
             i in n.parcels && n.parcels[i].Outbound? && n.parcels[i].body.TicketRedeem?
    ensures var k := After(Start(now), at, es).parcels[i].body.credits;
            10 <= k <= 1000 && SinkGate(bound, fromTicket, k, value) != 15062 &&
            (SinkGate(bound, fromTicket, k, value) == SINK_ACCEPTS <==>
             bound && fromTicket && value >= 62_000_000)
  {
    StartInv(now);
    TicketConserves(Start(now), at, es);
    hide Allowed, After;
  }
}
