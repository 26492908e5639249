/**
 The contracts that pay in ATH, against the wallets that carry their payments out: what the pool and the vesting
 contract attach to a request is always enough, so their wallets refuse only for tokens they do not hold or a
 query id that is still under way.
 */
module AthPayers {
  import opened AthProtocol
  import opened Transactions
  import AirdropPool
  import AthVesting

  /** The request as the payer's own wallet runs it: senders pay the fees apart, so the whole value arrives. */
  function Carried(h: Hashing, w: Wallet, payer: Address, value: nat, fee: nat, now: nat, q: nat,
                   amount: nat, recipient: Address, response: Address): Outcome
  {
    WalletStep(h, w, payer, Context(payer, value, fee, now), Request(Plain, q, amount, recipient, response), false)
  }

  /** The tokens are debited and on their way to the wallet of `recipient`. */
  ghost predicate Pays(o: Outcome, w: Wallet, q: nat, amount: nat, recipient: Address) {
    o.Done? && o.wallet.balance + amount == w.balance && |o.sends| == 1 && o.sends[0].to == WalletOf(recipient) &&
    o.sends[0].body.Internal? && o.sends[0].body.amount == amount &&
    (q, WalletOf(recipient)) in o.wallet.outgoing
  }

  /** An accrual's payout leaves the pool's wallet exactly when the wallet holds it under a free query id. */
  lemma PayoutGoesThrough(h: Hashing, p: AirdropPool.Pool, self: Address, c: Context, buyer: Address, k: nat,
                          w: Wallet, fee: nat, now: nat)
    requires self.Basechain()
    requires var r := AirdropPool.AccrueStep(p, self, c, buyer, k); r.Done? && |r.sends| > 0
    ensures var sent := AirdropPool.AccrueStep(p, self, c, buyer, k).sends[0];
            var n := sent.notice;
            var o := Carried(h, w, self, sent.value.nanotons, fee, now, n.queryId, n.amount, n.recipient, n.response);
            var covered := w.balance >= n.amount && (n.queryId, WalletOf(buyer)) !in w.outgoing;
            0 < n.amount == AirdropPool.Payout(p.remaining, k) && n.recipient == buyer &&
            (covered ==> Pays(o, w, n.queryId, n.amount, buyer)) && (!covered ==> o in {Throw(14203), Throw(14230)})
  {
    assert WalletOf(buyer) != Master;
  }

  /** So does the residual's sweep, to a treasury in the basechain. */
  lemma SweepGoesThrough(h: Hashing, p: AirdropPool.Pool, self: Address, c: Context, w: Wallet, fee: nat, now: nat)
    requires self.Basechain() && p.treasury.Basechain() && AirdropPool.SweepStep(p, self, c).Done?
    ensures var sent := AirdropPool.SweepStep(p, self, c).sends[0];
            var n := sent.notice;
            var o := Carried(h, w, self, sent.value.nanotons, fee, now, n.queryId, n.amount, n.recipient, n.response);
            var covered := w.balance >= n.amount && (n.queryId, WalletOf(p.treasury)) !in w.outgoing;
            n.amount == p.remaining && n.recipient == p.treasury &&
            (covered ==> Pays(o, w, n.queryId, n.amount, p.treasury)) &&
            (!covered ==> o in {Throw(14203), Throw(14230)})
  {
  }

  /** And a vesting claim, to the beneficiary. */
  lemma ClaimGoesThrough(h: Hashing, v: AthVesting.Vesting, t: AthVesting.Terms, c: Context, q: nat, amount: nat,
                         w: Wallet, fee: nat, now: nat)
    requires t.self.Basechain() && t.beneficiary.Basechain() && AthVesting.ClaimStep(v, t, c, q, amount).Done?
    ensures var sent := AthVesting.ClaimStep(v, t, c, q, amount).sends[0];
            var n := sent.body;
            var o := Carried(h, w, t.self, sent.value.nanotons, fee, now, n.queryId, n.amount, n.recipient, n.response);
            var covered := w.balance >= amount && (q, WalletOf(t.beneficiary)) !in w.outgoing;
            n.queryId == q && n.amount == amount && n.recipient == t.beneficiary &&
            (covered ==> Pays(o, w, q, amount, t.beneficiary)) && (!covered ==> o in {Throw(14203), Throw(14230)})
  {
  }
}
