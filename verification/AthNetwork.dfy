/**
 The token as a network: every wallet, the master, and the messages under way between them.  Anybody
 outside may send anything at any time; any message may be late by any time or lost; messages arrive in
 any order with any value attached.
 */
module AthNetwork {
  import opened Results
  import opened Sums
  import opened AthProtocol
  import opened Transactions

  /** A message under way.  A lost one will never arrive; it is kept for the books. */
  datatype Packet = Packet(src: Address, dst: Address, body: Body, bounce: bool, bounced: bool, lost: bool)

  datatype Config = Config(treasury: Address, hashing: Hashing)

  datatype Net = Net(wallets: map<Address, Wallet>, ledger: Ledger, flight: map<nat, Packet>, next: nat, now: nat)

  datatype TransferId = TransferId(owner: Address, key: OutgoingKey)

  // ---------------------------------------------------------------- behaviour

  function WalletAt(n: Net, owner: Address): Wallet {
    if owner in n.wallets then n.wallets[owner] else NEW_WALLET
  }

  function Put(n: Net, p: Packet): Net {
    n.(flight := n.flight[n.next := p], next := n.next + 1)
  }

  function Posted(src: Address, s: Send): Packet {
    Packet(src, s.to, s.body, s.bounce, false, false)
  }

  function Post(n: Net, src: Address, sends: seq<Send>): Net
    decreases |sends|
  {
    if |sends| == 0 then n else Post(Put(n, Posted(src, sends[0])), src, sends[1..])
  }

  function Take(n: Net, i: nat): Net {
    n.(flight := n.flight - {i})
  }

  /** The message a refusal sends back. */
  function Returned(p: Packet): Packet {
    Packet(p.dst, p.src, p.body, false, true, false)
  }

  /** A refused message goes back to its sender if it asked to, under its own number. */
  function Reject(n: Net, i: nat): Net
    requires i in n.flight
  {
    var p := n.flight[i];
    if p.bounce && !p.bounced then n.(flight := n.flight[i := Returned(p)]) else Take(n, i)
  }

  /** Which transfer a packet carries: the tokens on their way out, on their way back, or the acknowledgement. */
  function Claim(p: Packet): Option<TransferId> {
    if !p.src.WalletOf? || !p.dst.WalletOf? then None
    else if p.body.Internal? then
      Some(if p.bounced then TransferId(p.dst.owner, (p.body.queryId, p.src))
           else TransferId(p.src.owner, (p.body.queryId, p.dst)))
    else if p.body.TransferAck? && !p.bounced then Some(TransferId(p.dst.owner, (p.body.queryId, p.src)))
    else None
  }

  /** Unwinding an entry writes off the lost message that held its tokens. */
  function WriteOff(n: Net, p: Packet): Net {
    if p.dst.WalletOf? && !p.bounced && p.body.RecoverStuck? then
      var id := RecoveredId(p);
      n.(flight := map i | i in n.flight && !(n.flight[i].lost && Claim(n.flight[i]) == Some(id)) :: n.flight[i])
    else n
  }

  function Settle(n: Net, owner: Address, w: Wallet, sends: seq<Send>): Net {
    Post(n.(wallets := n.wallets[owner := w]), WalletOf(owner), sends)
  }

  function ContextOf(n: Net, p: Packet, value: nat, forwardFee: nat): Context {
    Context(p.src, value, forwardFee, n.now)
  }

  function Arrive(cfg: Config, n: Net, i: nat, value: nat, forwardFee: nat): Net
    requires i in n.flight
  {
    var p := n.flight[i];
    var rest := Take(n, i);
    match p.dst
    case User(_, _) => rest
    case WalletOf(o) => (
      match WalletStep(cfg.hashing, WalletAt(n, o), o, ContextOf(n, p, value, forwardFee), p.body, p.bounced)
      case Done(w, sends) => Settle(WriteOff(rest, p), o, w, sends)
      case Throw(_) => Reject(n, i))
    case Master => (
      match MasterStep(n.ledger, cfg.treasury, ContextOf(n, p, value, forwardFee), p.body, p.bounced)
      case MasterDone(m, sends) => Post(rest.(ledger := m), Master, sends)
      case MasterThrow(_) => Reject(n, i))
  }

  datatype Event =
    | Outside(src: Address, dst: Address, body: Body, bounce: bool, bounced: bool)
    | Deliver(index: nat, value: nat, forwardFee: nat)
    | Lose(index: nat)
    | Tick(seconds: nat)

  predicate Has(n: Net, id: TransferId) {
    id.owner in n.wallets && id.key in n.wallets[id.owner].outgoing
  }

  function Entry(n: Net, id: TransferId): Outgoing
    requires Has(n, id)
  {
    n.wallets[id.owner].outgoing[id.key]
  }

  ghost predicate Enabled(n: Net, e: Event) {
    match e
    case Outside(src, _, _, _, _) => src.User?
    case Deliver(i, _, _) => i in n.flight && !n.flight[i].lost
    case Lose(i) => i in n.flight
    case Tick(_) => true
  }

  function Next(cfg: Config, n: Net, e: Event): Net {
    match e
    case Outside(src, dst, body, bounce, bounced) => Put(n, Packet(src, dst, body, bounce, bounced, false))
    case Deliver(i, value, fee) => if i in n.flight then Arrive(cfg, n, i, value, fee) else n
    case Lose(i) => if i in n.flight then n.(flight := n.flight[i := n.flight[i].(lost := true)]) else n
    case Tick(t) => n.(now := n.now + t)
  }

  function Genesis(now: nat): Net {
    Net(map[], Ledger(TOTAL_SUPPLY, false), map[], 0, now)
  }

  function After(cfg: Config, n: Net, es: seq<Event>): Net
    decreases |es|
  {
    if |es| == 0 then n else After(cfg, Next(cfg, n, es[0]), es[1..])
  }

  ghost predicate Allowed(cfg: Config, n: Net, es: seq<Event>)
    decreases |es|
  {
    |es| == 0 || (Enabled(n, es[0]) && Allowed(cfg, Next(cfg, n, es[0]), es[1..]))
  }

  // ---------------------------------------------------------------- recoveries

  /** The tokens of an open entry went missing with the message that carried them. */
  ghost predicate TokensLost(n: Net, id: TransferId) {
    exists i :: i in n.flight && IsLostWithTokens(n.flight[i], id)
  }

  predicate IsLostWithTokens(p: Packet, id: TransferId) {
    p.lost && p.body.Internal? && Claim(p) == Some(id)
  }

  /** The step the destination wallet takes on packet `i`. */
  function StepOf(cfg: Config, n: Net, i: nat, value: nat, fee: nat): Outcome
    requires i in n.flight && n.flight[i].dst.WalletOf?
  {
    var p := n.flight[i];
    WalletStep(cfg.hashing, WalletAt(n, p.dst.owner), p.dst.owner, ContextOf(n, p, value, fee), p.body, p.bounced)
  }

  function RecoveredId(p: Packet): TransferId
    requires p.dst.WalletOf? && p.body.RecoverStuck?
  {
    TransferId(p.dst.owner, (p.body.queryId, p.body.recipientWallet))
  }

  /** The event is a recovery that succeeds. */
  predicate Recovers(cfg: Config, n: Net, e: Event) {
    e.Deliver? && e.index in n.flight &&
    var p := n.flight[e.index];
    p.dst.WalletOf? && !p.bounced && p.body.RecoverStuck? && StepOf(cfg, n, e.index, e.value, e.forwardFee).Done?
  }

  /** If the event recovers an entry, then one whose tokens are lost. */
  ghost predicate Rightful(cfg: Config, n: Net, e: Event) {
    Recovers(cfg, n, e) ==> TokensLost(n, RecoveredId(n.flight[e.index]))
  }

  ghost predicate OnlyRightful(cfg: Config, n: Net, es: seq<Event>)
    decreases |es|
  {
    |es| == 0 || (Rightful(cfg, n, es[0]) && OnlyRightful(cfg, Next(cfg, n, es[0]), es[1..]))
  }

  // ---------------------------------------------------------------- the books

  /** The tokens a packet holds: a transfer out or back, a burn out or back, the genesis credit out or back. */
  function Value(p: Packet): nat {
    match p.body
    case Internal(_, _, amount, _, _) => if p.src.WalletOf? && p.dst.WalletOf? then amount else 0
    case BurnNotification(_, amount, _, _) =>
      if p.bounced then (if p.src.Master? && p.dst.WalletOf? then amount else 0)
      else if p.src.WalletOf? && p.dst.Master? then amount else 0
    case GenesisCredit(_, amount, _) =>
      if p.bounced then (if p.src.WalletOf? && p.dst.Master? then amount else 0)
      else if p.src.Master? && p.dst.WalletOf? then amount else 0
    case _ => 0
  }

  ghost function Balances(ws: map<Address, Wallet>): map<Address, nat> {
    map o | o in ws :: ws[o].balance
  }

  ghost function Values(flight: map<nat, Packet>): map<nat, nat> {
    map i | i in flight :: Value(flight[i])
  }

  ghost function Held(n: Net): nat {
    Sum(Balances(n.wallets))
  }

  ghost function Travelling(n: Net): nat {
    Sum(Values(n.flight))
  }

  /** Everything in the network that is not undeployed supply. */
  ghost function Books(n: Net): nat {
    Held(n) + Travelling(n)
  }

  function Undeployed(m: Ledger): nat {
    if m.deployed then 0 else m.totalSupply
  }

  lemma HeldUpdate(n: Net, o: Address, w: Wallet)
    ensures Held(n.(wallets := n.wallets[o := w])) == Held(n) - WalletAt(n, o).balance + w.balance
  {
    hide Sum, Value;
    SumUpdate(Balances(n.wallets), o, w.balance);
    assert Balances(n.wallets[o := w]) == Balances(n.wallets)[o := w.balance];
  }

  lemma TravellingPut(n: Net, p: Packet)
    requires n.next !in n.flight
    ensures Travelling(Put(n, p)) == Travelling(n) + Value(p)
  {
    hide Sum, Value;
    SumUpdate(Values(n.flight), n.next, Value(p));
    assert Values(Put(n, p).flight) == Values(n.flight)[n.next := Value(p)];
  }

  lemma TravellingTake(n: Net, i: nat)
    requires i in n.flight
    ensures Travelling(Take(n, i)) == Travelling(n) - Value(n.flight[i])
  {
    hide Sum, Value;
    SumRemove(Values(n.flight), i);
    assert Values(Take(n, i).flight) == Values(n.flight) - {i};
  }

  // ---------------------------------------------------------------- invariant

  ghost predicate WalletOk(w: Wallet) {
    (forall k | k in w.outgoing :: k.1.WalletOf? && w.outgoing[k].recipientWallet == k.1 && w.outgoing[k].amount > 0) &&
    (forall k | k in w.pending :: w.pending[k].sender.User? && w.pending[k].response.User?)
  }

  /** What only the contracts of this network can put under way, and in which shape. */
  ghost predicate PacketOk(cfg: Config, p: Packet) {
    (!p.bounced && p.body.Request? ==> p.src.User?) &&
    (!p.bounced && p.body.Internal? && p.src.WalletOf? ==>
       p.bounce && (!p.body.lane.Jetton? ==> p.body.response.User?) &&
       (Escrows(p.body.lane) ==> p.body.sender.User?)) &&
    (!p.bounced && p.body.BurnNotification? && p.src.WalletOf? ==> p.bounce) &&
    (!p.bounced && p.body.GenesisCredit? && p.src.Master? ==>
       p.bounce && p.dst == WalletOf(cfg.treasury) && p.body.amount == TOTAL_SUPPLY) &&
    (p.bounced && p.body.GenesisCredit? && p.src.WalletOf? && p.dst.Master? ==>
       p.src == WalletOf(cfg.treasury) && p.body.amount == TOTAL_SUPPLY)
  }

  ghost predicate ShapeOk(cfg: Config, n: Net) {
    (forall o | o in n.wallets :: WalletOk(n.wallets[o])) &&
    (forall i | i in n.flight :: PacketOk(cfg, n.flight[i]))
  }

  function AmountOf(b: Body): nat {
    match b
    case Internal(_, _, amount, _, _) => amount
    case TransferAck(_, amount) => amount
    case _ => 0
  }

  /**
   Every open entry has exactly one packet that carries it, `carrier[id]`, of the same amount, and no other
   packet carries a transfer.  `hole` is an entry whose packet has just been taken and not been replaced yet.
   */
  ghost predicate Tracked(n: Net, carrier: map<TransferId, nat>, hole: Option<TransferId>) {
    (forall id :: id in carrier <==> Has(n, id) && hole != Some(id)) &&
    (hole.Some? ==> Has(n, hole.value)) &&
    (forall id | id in carrier ::
       carrier[id] in n.flight && Claim(n.flight[carrier[id]]) == Some(id) && Has(n, id) &&
       AmountOf(n.flight[carrier[id]].body) == Entry(n, id).amount) &&
    (forall i | i in n.flight && Claim(n.flight[i]).Some? ::
       Claim(n.flight[i]).value in carrier && carrier[Claim(n.flight[i]).value] == i) &&
    Fresh(n)
  }

  ghost predicate Fresh(n: Net) {
    forall i | i in n.flight :: i < n.next
  }

  ghost predicate Balanced(n: Net) {
    Books(n) + Undeployed(n.ledger) == n.ledger.totalSupply &&
    n.ledger.totalSupply <= TOTAL_SUPPLY
  }

  ghost predicate Inv(cfg: Config, n: Net) {
    ShapeOk(cfg, n) && Balanced(n) && exists carrier :: Tracked(n, carrier, None)
  }

  // ---------------------------------------------------------------- moves

  /** Taking a packet leaves its entry, if any, without one. */
  lemma TakeTracked(n: Net, c: map<TransferId, nat>, i: nat)
    requires Tracked(n, c, None) && i in n.flight
    ensures Claim(n.flight[i]).None? ==> Tracked(Take(n, i), c, None)
    ensures Claim(n.flight[i]).Some? ==>
              Claim(n.flight[i]).value in c && Tracked(Take(n, i), c - {Claim(n.flight[i]).value}, Claim(n.flight[i]))
  {
    hide Claim;
  }

  /** A wallet changes without touching its outgoing entries. */
  lemma UpdateTracked(n: Net, c: map<TransferId, nat>, hole: Option<TransferId>, o: Address, w: Wallet)
    requires Tracked(n, c, hole) && w.outgoing == WalletAt(n, o).outgoing
    ensures Tracked(n.(wallets := n.wallets[o := w]), c, hole)
  {
    hide Claim;
    var n2 := n.(wallets := n.wallets[o := w]);
    assert forall id :: Has(n2, id) <==> Has(n, id);
    assert forall id | Has(n, id) :: Entry(n2, id) == Entry(n, id);
  }

  /** A wallet drops the entry whose packet was taken. */
  lemma CloseTracked(n: Net, c: map<TransferId, nat>, id: TransferId, w: Wallet)
    requires Tracked(n, c, Some(id)) && w.outgoing == WalletAt(n, id.owner).outgoing - {id.key}
    ensures Tracked(n.(wallets := n.wallets[id.owner := w]), c, None)
  {
    hide Claim;
    var n2 := n.(wallets := n.wallets[id.owner := w]);
    assert forall x :: Has(n2, x) <==> Has(n, x) && x != id;
    assert forall x | Has(n2, x) :: Entry(n2, x) == Entry(n, x);
  }

  /** A wallet opens a new entry, whose packet is still to be sent. */
  lemma OpenTracked(n: Net, c: map<TransferId, nat>, id: TransferId, e: Outgoing, w: Wallet)
    requires Tracked(n, c, None) && id.key !in WalletAt(n, id.owner).outgoing
    requires w.outgoing == WalletAt(n, id.owner).outgoing[id.key := e]
    ensures Tracked(n.(wallets := n.wallets[id.owner := w]), c, Some(id))
  {
    hide Claim;
    var n2 := n.(wallets := n.wallets[id.owner := w]);
    assert forall x :: Has(n2, x) <==> Has(n, x) || x == id;
    assert forall x | Has(n, x) :: Entry(n2, x) == Entry(n, x);
  }

  lemma PutTracked(n: Net, c: map<TransferId, nat>, hole: Option<TransferId>, p: Packet)
    requires Tracked(n, c, hole)
    ensures Claim(p).None? ==> Tracked(Put(n, p), c, hole)
    ensures Claim(p).Some? && hole == Claim(p) && AmountOf(p.body) == Entry(n, hole.value).amount
            ==> Tracked(Put(n, p), c[hole.value := n.next], None)
  {
    hide Claim;
    assert forall x :: Has(Put(n, p), x) <==> Has(n, x);
    assert forall x | Has(n, x) :: Entry(Put(n, p), x) == Entry(n, x);
  }

  /** A packet gives way to another that carries the same transfer, if any. */
  lemma SwapTracked(n: Net, c: map<TransferId, nat>, i: nat, q: Packet)
    requires Tracked(n, c, None) && i in n.flight && Claim(q) == Claim(n.flight[i])
    requires Claim(q).Some? ==> AmountOf(q.body) == AmountOf(n.flight[i].body)
    ensures Tracked(n.(flight := n.flight[i := q]), c, None)
  {
    hide Claim, AmountOf;
    var n2 := n.(flight := n.flight[i := q]);
    assert forall id :: Has(n2, id) <==> Has(n, id);
    assert forall id | Has(n, id) :: Entry(n2, id) == Entry(n, id);
  }

  /** Time passes without touching the books. */
  lemma TickTracked(n: Net, c: map<TransferId, nat>, t: nat)
    requires Tracked(n, c, None)
    ensures Tracked(n.(now := n.now + t), c, None)
  {
    hide Claim, AmountOf;
    var n2 := n.(now := n.now + t);
    assert forall id :: Has(n2, id) <==> Has(n, id);
    assert forall id | Has(n, id) :: Entry(n2, id) == Entry(n, id);
  }

  lemma TakeKeeps(n: Net, i: nat)
    ensures var m := Take(n, i); m.wallets == n.wallets && m.ledger == n.ledger && m.now == n.now
    ensures Fresh(n) ==> Fresh(Take(n, i))
  {
  }

  lemma {:induction false} PostKeeps(n: Net, src: Address, sends: seq<Send>)
    ensures var m := Post(n, src, sends); m.ledger == n.ledger && m.wallets == n.wallets
    decreases |sends|
  {
    if |sends| > 0 {
      PostKeeps(Put(n, Posted(src, sends[0])), src, sends[1..]);
    }
  }
}
