/**
 The two ways a recovery goes wrong, each as a run from genesis: the transfer is only late, or it was credited
 and its acknowledgement is lost.  Either way its tokens exist twice from then on.
 */
module AthDoubling {
  import opened AthProtocol
  import opened Transactions
  import opened AthNetwork
  import opened AthConservation

  const TRANSFERRED := 100
  const STRANGER := User(0, 1)
  const AMPLE := 1_000_000_000
  const OVERDUE := RECOVERY_GRACE + 1

  function Payee(cfg: Config): Address
    requires cfg.treasury.User?
  {
    User(cfg.treasury.id + 1, 0)
  }

  /** The treasury is an account of the basechain. */
  predicate Ordinary(cfg: Config) {
    cfg.treasury.User? && cfg.treasury.Basechain()
  }

  // ---------------------------------------------------------------- runs, event by event

  function Outward(p: Packet): Event {
    Outside(p.src, p.dst, p.body, p.bounce, p.bounced)
  }

  /** The run `es` is possible from genesis, recovers nothing wrongly, and ends in `m`. */
  ghost predicate Reaches(cfg: Config, es: seq<Event>, m: Net) {
    var n := Genesis(0);
    Allowed(cfg, n, es) && OnlyRightful(cfg, n, es) && After(cfg, n, es) == m
  }

  lemma {:induction false} Snoc(cfg: Config, n: Net, es: seq<Event>, e: Event)
    ensures Allowed(cfg, n, es + [e]) <==> Allowed(cfg, n, es) && Enabled(After(cfg, n, es), e)
    ensures OnlyRightful(cfg, n, es + [e]) <==> OnlyRightful(cfg, n, es) && Rightful(cfg, After(cfg, n, es), e)
    ensures After(cfg, n, es + [e]) == Next(cfg, After(cfg, n, es), e)
    decreases |es|
  {
    hide Next, Enabled, Rightful;
    if |es| == 0 {
      assert ([] + [e])[1..] == [];
    } else {
      assert (es + [e])[1..] == es[1..] + [e];
      Snoc(cfg, Next(cfg, n, es[0]), es[1..], e);
    }
  }

  lemma Extend(cfg: Config, es: seq<Event>, k: nat, m: Net, m2: Net)
    requires k < |es| && Reaches(cfg, es[..k], m)
    requires Enabled(m, es[k]) && !Recovers(cfg, m, es[k]) && Next(cfg, m, es[k]) == m2
    ensures Reaches(cfg, es[..k + 1], m2)
  {
    hide Next, Enabled, Recovers;
    assert es[..k + 1] == es[..k] + [es[k]];
    Snoc(cfg, Genesis(0), es[..k], es[k]);
  }

  lemma FromOutside(cfg: Config, es: seq<Event>, k: nat, m: Net, p: Packet)
    requires k < |es| && Reaches(cfg, es[..k], m) && es[k] == Outward(p) && p.src.User? && !p.lost
    ensures Reaches(cfg, es[..k + 1], Put(m, p))
  {
    hide Reaches;
    Extend(cfg, es, k, m, Put(m, p));
  }

  /** The last step: a recovery of tokens that are not lost adds them to the books. */
  lemma Doubles(cfg: Config, es: seq<Event>, m: Net, e: Event)
    requires Reaches(cfg, es, m) && Enabled(m, e) && Recovers(cfg, m, e)
    requires !TokensLost(m, RecoveredId(m.flight[e.index]))
    ensures var id := RecoveredId(m.flight[e.index]);
            var end := After(cfg, Genesis(0), es + [e]);
            Allowed(cfg, Genesis(0), es + [e]) && Has(m, id) && !Balanced(end) &&
            Books(end) + Undeployed(end.ledger) == end.ledger.totalSupply + Entry(m, id).amount
  {
    hide Next, Enabled, TokensLost, Tracked, ShapeOk, Allowed, OnlyRightful, After, WalletStep, Books, Genesis;
    GenesisInv(cfg, 0);
    RunsConserve(cfg, Genesis(0), es);
    RecoveryConservesIffLost(cfg, m, e);
    Snoc(cfg, Genesis(0), es, e);
  }

  // ---------------------------------------------------------------- a transfer on its way

  function Deployment(cfg: Config): Packet {
    Packet(cfg.treasury, Master, DeploySupply(0, cfg.treasury), false, false, false)
  }

  function Credit0(cfg: Config): Packet {
    Packet(Master, WalletOf(cfg.treasury), GenesisCredit(0, TOTAL_SUPPLY, cfg.treasury), true, false, false)
  }

  function Receipt(cfg: Config): Packet {
    Packet(WalletOf(cfg.treasury), cfg.treasury, GenesisAck(0, TOTAL_SUPPLY, cfg.treasury), false, false, false)
  }

  function Ordered(cfg: Config): Packet
    requires cfg.treasury.User?
  {
    Packet(cfg.treasury, WalletOf(cfg.treasury), Request(Plain, 1, TRANSFERRED, Payee(cfg), cfg.treasury),
           false, false, false)
  }

  function Transfer(cfg: Config): Packet
    requires cfg.treasury.User?
  {
    Packet(WalletOf(cfg.treasury), WalletOf(Payee(cfg)), Internal(Plain, 1, TRANSFERRED, cfg.treasury, cfg.treasury),
           true, false, false)
  }

  function Owing(cfg: Config): Wallet
    requires cfg.treasury.User?
  {
    var key := (1, WalletOf(Payee(cfg)));
    Wallet(TOTAL_SUPPLY - TRANSFERRED, map[key := Outgoing(key.1, cfg.treasury, TRANSFERRED, 0)], map[])
  }

  const DEPLOYED := Ledger(TOTAL_SUPPLY, true)

  /** The supply is deployed, and the treasury sends some of it on. */
  function Opened(cfg: Config): seq<Event>
    requires cfg.treasury.User?
  {
    [Outward(Deployment(cfg)), Deliver(0, AMPLE, 0), Deliver(1, AMPLE, 0), Deliver(2, 0, 0),
     Outward(Ordered(cfg)), Deliver(3, AMPLE, 0)]
  }

  /** What is then under way is the transfer alone. */
  function Launched(cfg: Config): Net
    requires cfg.treasury.User?
  {
    Net(map[cfg.treasury := Owing(cfg)], DEPLOYED, map[4 := Transfer(cfg)], 5, 0)
  }

  lemma LaunchedReached(cfg: Config)
    requires Ordinary(cfg)
    ensures Reaches(cfg, Opened(cfg), Launched(cfg))
  {
    hide Reaches, MasterStep, WalletStep;
    var es := Opened(cfg);
    var credited := Credited(cfg);
    assert Reaches(cfg, es[..0], Genesis(0)) by {
      StartReached(cfg);
    }
    FromOutside(cfg, es, 0, Genesis(0), Deployment(cfg));
    DeploymentArrives(cfg);
    Extend(cfg, es, 1, Put(Genesis(0), Deployment(cfg)), Deployed(cfg));
    CreditArrives(cfg);
    Extend(cfg, es, 2, Deployed(cfg), credited);
    Extend(cfg, es, 3, credited, Take(credited, 2));
    FromOutside(cfg, es, 4, Take(credited, 2), Ordered(cfg));
    OrderArrives(cfg);
    Extend(cfg, es, 5, Put(Take(credited, 2), Ordered(cfg)), Launched(cfg));
    assert es[..6] == es;
  }

  lemma StartReached(cfg: Config)
    ensures Reaches(cfg, [], Genesis(0))
  {
  }

  function Deployed(cfg: Config): Net {
    Net(map[], DEPLOYED, map[1 := Credit0(cfg)], 2, 0)
  }

  function Credited(cfg: Config): Net {
    Net(map[cfg.treasury := Wallet(TOTAL_SUPPLY, map[], map[])], DEPLOYED, map[2 := Receipt(cfg)], 3, 0)
  }

  lemma PostOne(n: Net, src: Address, s: Send)
    ensures Post(n, src, [s]) == Put(n, Posted(src, s))
  {
    assert Post(Put(n, Posted(src, s)), src, [s][1..]) == Put(n, Posted(src, s));
  }

  lemma DeploymentArrives(cfg: Config)
    requires Ordinary(cfg)
    ensures Next(cfg, Put(Genesis(0), Deployment(cfg)), Deliver(0, AMPLE, 0)) == Deployed(cfg)
  {
    var n := Put(Genesis(0), Deployment(cfg));
    var r := MasterStepOf(cfg, n, 0, AMPLE, 0);
    assert r.MasterDone? && r.ledger == DEPLOYED && |r.sends| == 1 && Posted(Master, r.sends[0]) == Credit0(cfg);
    assert r.sends == [r.sends[0]];
    PostOne(Take(n, 0).(ledger := DEPLOYED), Master, r.sends[0]);
    assert n.flight - {0} == map[];
    hide MasterStep;
  }

  lemma CreditArrives(cfg: Config)
    requires Ordinary(cfg)
    ensures Next(cfg, Deployed(cfg), Deliver(1, AMPLE, 0)) == Credited(cfg)
  {
    var n := Deployed(cfg);
    var o := cfg.treasury;
    var r := StepOf(cfg, n, 1, AMPLE, 0);
    assert r.Done? && r.wallet == Wallet(TOTAL_SUPPLY, map[], map[]) && |r.sends| == 1;
    assert r.sends == [r.sends[0]] && Posted(WalletOf(o), r.sends[0]) == Receipt(cfg);
    PostOne(Take(n, 1).(wallets := n.wallets[o := r.wallet]), WalletOf(o), r.sends[0]);
    assert n.flight - {1} == map[];
    hide WalletStep;
  }

  lemma OrderArrives(cfg: Config)
    requires Ordinary(cfg)
    ensures Next(cfg, Put(Take(Credited(cfg), 2), Ordered(cfg)), Deliver(3, AMPLE, 0)) == Launched(cfg)
  {
    var n := Put(Take(Credited(cfg), 2), Ordered(cfg));
    var o := cfg.treasury;
    var r := StepOf(cfg, n, 3, AMPLE, 0);
    assert r.Done? && r.wallet == Owing(cfg) && |r.sends| == 1;
    assert r.sends == [r.sends[0]] && Posted(WalletOf(o), r.sends[0]) == Transfer(cfg);
    PostOne(Take(n, 3).(wallets := n.wallets[o := r.wallet]), WalletOf(o), r.sends[0]);
    assert n.flight - {3} == map[];
    assert n.wallets[o := r.wallet] == map[o := r.wallet];
    hide WalletStep;
  }

  // ---------------------------------------------------------------- a transfer that is only late

  /** A stranger asks the treasury's wallet to recover the transfer. */
  function Recovery(cfg: Config): Packet
    requires cfg.treasury.User?
  {
    Packet(STRANGER, WalletOf(cfg.treasury), RecoverStuck(1, WalletOf(Payee(cfg))), false, false, false)
  }

  function TransferOf(cfg: Config): TransferId
    requires cfg.treasury.User?
  {
    TransferId(cfg.treasury, (1, WalletOf(Payee(cfg))))
  }

  function LateRun(cfg: Config): seq<Event>
    requires cfg.treasury.User?
  {
    Opened(cfg) + [Tick(OVERDUE), Outward(Recovery(cfg)), Deliver(5, RECOVERY_MIN_VALUE, 0)]
  }

  /** From genesis: a transfer is under way for longer than the grace period, and recovering it doubles it. */
  lemma LateTransferDoubles(cfg: Config)
    requires Ordinary(cfg)
    ensures var n := Genesis(0);
            var end := After(cfg, n, LateRun(cfg));
            Allowed(cfg, n, LateRun(cfg)) && !Balanced(end) &&
            Books(end) + Undeployed(end.ledger) == end.ledger.totalSupply + TRANSFERRED
  {
    hide Reaches, WalletStep, Balanced, Books, After, Allowed, Undeployed, Genesis;
    var es := LateRun(cfg);
    var late := Launched(cfg).(now := OVERDUE);
    LaunchedReached(cfg);
    assert es[..6] == Opened(cfg);
    Extend(cfg, es, 6, Launched(cfg), late);
    FromOutside(cfg, es, 7, late, Recovery(cfg));
    LateRecovers(cfg);
    Doubles(cfg, es[..8], Put(late, Recovery(cfg)), es[8]);
    assert es == es[..8] + [es[8]];
  }

  lemma LateRecovers(cfg: Config)
    requires Ordinary(cfg)
    ensures var m := Put(Launched(cfg).(now := OVERDUE), Recovery(cfg));
            Recovers(cfg, m, Deliver(5, RECOVERY_MIN_VALUE, 0)) && !TokensLost(m, TransferOf(cfg)) &&
            RecoveredId(m.flight[5]) == TransferOf(cfg) &&
            Has(m, TransferOf(cfg)) && Entry(m, TransferOf(cfg)).amount == TRANSFERRED
  {
  }

  // ---------------------------------------------------------------- a lost acknowledgement

  function Notice(cfg: Config): Packet
    requires cfg.treasury.User?
  {
    Packet(WalletOf(Payee(cfg)), cfg.treasury, TransferAck(1, TRANSFERRED), false, false, false)
  }

  function Acknowledgement(cfg: Config): Packet
    requires cfg.treasury.User?
  {
    Packet(WalletOf(Payee(cfg)), WalletOf(cfg.treasury), TransferAck(1, TRANSFERRED), false, false, false)
  }

  /** The transfer has been credited. */
  function Received(cfg: Config): Net
    requires cfg.treasury.User?
  {
    Net(map[cfg.treasury := Owing(cfg), Payee(cfg) := Wallet(TRANSFERRED, map[], map[])], DEPLOYED,
        map[5 := Notice(cfg), 6 := Acknowledgement(cfg)], 7, 0)
  }

  function Unanswered(cfg: Config): Net
    requires cfg.treasury.User?
  {
    Received(cfg).(flight := map[5 := Notice(cfg), 6 := Acknowledgement(cfg).(lost := true)])
  }

  function LostAckRun(cfg: Config): seq<Event>
    requires cfg.treasury.User?
  {
    Opened(cfg) +
    [Deliver(4, ARRIVAL_MIN, 0), Lose(6), Tick(OVERDUE), Outward(Recovery(cfg)), Deliver(7, RECOVERY_MIN_VALUE, 0)]
  }

  /** From genesis: a transfer is credited, its acknowledgement is lost, and recovering it doubles it. */
  lemma LostAcknowledgementDoubles(cfg: Config)
    requires Ordinary(cfg)
    ensures var n := Genesis(0);
            var end := After(cfg, n, LostAckRun(cfg));
            Allowed(cfg, n, LostAckRun(cfg)) && !Balanced(end) &&
            Books(end) + Undeployed(end.ledger) == end.ledger.totalSupply + TRANSFERRED
  {
    hide Reaches, WalletStep, Balanced, Books, After, Allowed, Undeployed, Genesis;
    var es := LostAckRun(cfg);
    var late := Unanswered(cfg).(now := OVERDUE);
    LaunchedReached(cfg);
    assert es[..6] == Opened(cfg);
    TransferArrives(cfg);
    Extend(cfg, es, 6, Launched(cfg), Received(cfg));
    AcknowledgementLost(cfg);
    Extend(cfg, es, 7, Received(cfg), Unanswered(cfg));
    Extend(cfg, es, 8, Unanswered(cfg), late);
    FromOutside(cfg, es, 9, late, Recovery(cfg));
    UnansweredRecovers(cfg);
    Doubles(cfg, es[..10], Put(late, Recovery(cfg)), es[10]);
    assert es == es[..10] + [es[10]];
  }

  lemma TransferArrives(cfg: Config)
    requires Ordinary(cfg)
    ensures Next(cfg, Launched(cfg), Deliver(4, ARRIVAL_MIN, 0)) == Received(cfg)
  {
    var n := Launched(cfg);
    var o := Payee(cfg);
    var r := StepOf(cfg, n, 4, ARRIVAL_MIN, 0);
    assert r.Done? && r.wallet == Wallet(TRANSFERRED, map[], map[]) && |r.sends| == 2;
    assert r.sends == [r.sends[0], r.sends[1]];
    assert Posted(WalletOf(o), r.sends[0]) == Notice(cfg) && Posted(WalletOf(o), r.sends[1]) == Acknowledgement(cfg);
    var u := Take(n, 4).(wallets := n.wallets[o := r.wallet]);
    PostOne(Put(u, Notice(cfg)), WalletOf(o), r.sends[1]);
    assert r.sends[1..] == [r.sends[1]];
    assert n.flight - {4} == map[];
    assert n.wallets[o := r.wallet] == Received(cfg).wallets;
    hide WalletStep;
  }

  lemma AcknowledgementLost(cfg: Config)
    requires Ordinary(cfg)
    ensures Next(cfg, Received(cfg), Lose(6)) == Unanswered(cfg)
  {
    assert Received(cfg).flight[6 := Acknowledgement(cfg).(lost := true)] == Unanswered(cfg).flight;
  }

  lemma UnansweredRecovers(cfg: Config)
    requires Ordinary(cfg)
    ensures var m := Put(Unanswered(cfg).(now := OVERDUE), Recovery(cfg));
            Recovers(cfg, m, Deliver(7, RECOVERY_MIN_VALUE, 0)) && !TokensLost(m, TransferOf(cfg)) &&
            RecoveredId(m.flight[7]) == TransferOf(cfg) &&
            Has(m, TransferOf(cfg)) && Entry(m, TransferOf(cfg)).amount == TRANSFERRED
  {
  }
}
