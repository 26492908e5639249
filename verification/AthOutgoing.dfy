/**
 The fate of an outgoing entry at one wallet, over every history of messages, authentic or forged, however
 late: it is opened by a debit and ends at most once, confirmed, bounced back or recovered.
 */
module AthOutgoing {
  import opened AthProtocol
  import opened Transactions

  datatype Fate = Untouched | Opened | Confirmed | BouncedBack | Recovered

  /** What an arrival does to the entry under `key`. */
  function FateOf(h: Hashing, w: Wallet, owner: Address, a: Arrival, key: OutgoingKey): Fate {
    if WalletStep(h, w, owner, a.context, a.body, a.bounced).Throw? then Untouched
    else if Opening(a.body, a.bounced) then (if OpeningKey(h, w, a.body) == key then Opened else Untouched)
    else if Closing(a.body, a.bounced) && ClosingKey(a.body, a.context) == key then
      if a.body.TransferAck? then Confirmed else if a.body.Internal? then BouncedBack else Recovered
    else Untouched
  }

  ghost predicate SameEntry(w: Wallet, key: OutgoingKey, w2: Wallet) {
    (key in w.outgoing <==> key in w2.outgoing) && (key in w.outgoing ==> w2.outgoing[key] == w.outgoing[key])
  }

  /** Exactly the amount of the new entry leaves the balance. */
  ghost predicate Debits(w: Wallet, a: Arrival, key: OutgoingKey, w2: Wallet) {
    key !in w.outgoing && key in w2.outgoing && w2.balance + w2.outgoing[key].amount == w.balance &&
    w2.outgoing[key].amount > 0 && w2.outgoing[key].createdAt == a.context.now
  }

  /** The entry goes and exactly its amount comes back. */
  ghost predicate Restores(w: Wallet, key: OutgoingKey, w2: Wallet) {
    key in w.outgoing && key !in w2.outgoing && w2.balance == w.balance + w.outgoing[key].amount
  }

  lemma OpeningFate(h: Hashing, w: Wallet, owner: Address, a: Arrival, key: OutgoingKey)
    requires Opening(a.body, a.bounced)
    ensures var w2 := Apply(h, w, owner, a);
            if FateOf(h, w, owner, a, key) == Opened then Debits(w, a, key, w2) && a.context.sender == owner
            else SameEntry(w, key, w2)
  {
  }

  lemma ClosingFate(h: Hashing, w: Wallet, owner: Address, a: Arrival, key: OutgoingKey)
    requires Closing(a.body, a.bounced)
    ensures var w2 := Apply(h, w, owner, a);
            match FateOf(h, w, owner, a, key)
            case Confirmed => key in w.outgoing && key !in w2.outgoing && w2.balance == w.balance &&
                              a.context.sender == key.1
            case BouncedBack => Restores(w, key, w2) && a.context.sender == key.1
            case Recovered => Restores(w, key, w2) && a.context.now > w.outgoing[key].createdAt + RECOVERY_GRACE
            case fate => fate == Untouched && SameEntry(w, key, w2)
  {
  }

  /**
   One step of an entry's life: only the owner opens it, debiting its exact amount; only the recipient wallet
   confirms it or bounces it back; anyone recovers it, but only after the grace period; a bounce and a recovery
   put back exactly its amount; and every other message leaves it as it is.
   */
  lemma OutgoingStep(h: Hashing, w: Wallet, owner: Address, a: Arrival, key: OutgoingKey)
    ensures var w2 := Apply(h, w, owner, a);
            match FateOf(h, w, owner, a, key)
            case Untouched => SameEntry(w, key, w2)
            case Opened => Debits(w, a, key, w2) && a.context.sender == owner
            case Confirmed => key in w.outgoing && key !in w2.outgoing && w2.balance == w.balance &&
                              a.context.sender == key.1
            case BouncedBack => Restores(w, key, w2) && a.context.sender == key.1
            case Recovered => Restores(w, key, w2) && a.context.now > w.outgoing[key].createdAt + RECOVERY_GRACE
  {
    if Opening(a.body, a.bounced) {
      OpeningFate(h, w, owner, a, key);
      hide WalletStep, OpeningKey;
    } else if Closing(a.body, a.bounced) {
      ClosingFate(h, w, owner, a, key);
      hide WalletStep;
    }
  }

  /** Once an entry is gone, no bounce, recovery or acknowledgement for its key changes anything. */
  lemma GoneIsGone(h: Hashing, w: Wallet, owner: Address, a: Arrival, key: OutgoingKey)
    requires key !in w.outgoing && Closing(a.body, a.bounced) && ClosingKey(a.body, a.context) == key
    ensures WalletStep(h, w, owner, a.context, a.body, a.bounced).Throw? && Apply(h, w, owner, a) == w
  {
  }

  // ---------------------------------------------------------------- over a history

  function IsOpen(w: Wallet, key: OutgoingKey): nat {
    if key in w.outgoing then 1 else 0
  }

  function Open(w: Wallet, key: OutgoingKey): nat {
    if key in w.outgoing then w.outgoing[key].amount else 0
  }

  /** How often the entry under `key` met this fate. */
  function Times(h: Hashing, w: Wallet, owner: Address, history: seq<Arrival>, key: OutgoingKey, fate: Fate): nat
    decreases |history|
  {
    if |history| == 0 then 0
    else
      (if FateOf(h, w, owner, history[0], key) == fate then 1 else 0)
      + Times(h, Apply(h, w, owner, history[0]), owner, history[1..], key, fate)
  }

  function TokensMet(h: Hashing, w: Wallet, owner: Address, a: Arrival, key: OutgoingKey, fate: Fate): nat {
    if FateOf(h, w, owner, a, key) != fate then 0
    else if fate == Opened then Open(Apply(h, w, owner, a), key)
    else Open(w, key)
  }

  /** How many tokens in all met this fate under `key`. */
  function Tokens(h: Hashing, w: Wallet, owner: Address, history: seq<Arrival>, key: OutgoingKey, fate: Fate): nat
    decreases |history|
  {
    if |history| == 0 then 0
    else
      TokensMet(h, w, owner, history[0], key, fate)
      + Tokens(h, Apply(h, w, owner, history[0]), owner, history[1..], key, fate)
  }

  lemma StepOpen(h: Hashing, w: Wallet, owner: Address, a: Arrival, key: OutgoingKey)
    ensures match FateOf(h, w, owner, a, key)
            case Untouched => IsOpen(Apply(h, w, owner, a), key) == IsOpen(w, key)
            case Opened => IsOpen(w, key) == 0 && IsOpen(Apply(h, w, owner, a), key) == 1
            case _ => IsOpen(w, key) == 1 && IsOpen(Apply(h, w, owner, a), key) == 0
  {
    hide Apply, FateOf;
    OutgoingStep(h, w, owner, a, key);
  }

  lemma StepTokens(h: Hashing, w: Wallet, owner: Address, a: Arrival, key: OutgoingKey)
    ensures Open(w, key) + TokensMet(h, w, owner, a, key, Opened) ==
            TokensMet(h, w, owner, a, key, Confirmed) + TokensMet(h, w, owner, a, key, BouncedBack) +
            TokensMet(h, w, owner, a, key, Recovered) + Open(Apply(h, w, owner, a), key)
  {
    hide Apply, FateOf;
    OutgoingStep(h, w, owner, a, key);
  }

  /**
   Restored at most once, over every history at one wallet: the openings under a key are as many as the
   confirmations, the bounces, the recoveries and the one still open, whatever order they arrive in.
   */
  lemma {:induction false} EntriesEndOnce(h: Hashing, w: Wallet, owner: Address, history: seq<Arrival>,
                                          key: OutgoingKey)
    ensures IsOpen(w, key) + Times(h, w, owner, history, key, Opened) ==
            Times(h, w, owner, history, key, Confirmed) + Times(h, w, owner, history, key, BouncedBack) +
            Times(h, w, owner, history, key, Recovered) + IsOpen(ApplyAll(h, w, owner, history), key)
    decreases |history|
  {
    hide Apply, FateOf, IsOpen;
    if |history| > 0 {
      StepOpen(h, w, owner, history[0], key);
      EntriesEndOnce(h, Apply(h, w, owner, history[0]), owner, history[1..], key);
    }
  }

  /** And token for token: what was debited was confirmed, bounced back, recovered, or is still open. */
  lemma {:induction false} EntryTokensAddUp(h: Hashing, w: Wallet, owner: Address, history: seq<Arrival>,
                                            key: OutgoingKey)
    ensures Open(w, key) + Tokens(h, w, owner, history, key, Opened) ==
            Tokens(h, w, owner, history, key, Confirmed) + Tokens(h, w, owner, history, key, BouncedBack) +
            Tokens(h, w, owner, history, key, Recovered) + Open(ApplyAll(h, w, owner, history), key)
    decreases |history|
  {
    hide Apply, TokensMet, Open;
    if |history| > 0 {
      StepTokens(h, w, owner, history[0], key);
      EntryTokensAddUp(h, Apply(h, w, owner, history[0]), owner, history[1..], key);
    }
  }

  /**
   The race of a bounce with a recovery: after a recovery, and through any history that does not open the key
   again, a bounce of the recovered transfer is refused and changes nothing.
   */
  lemma LateBounceChangesNothing(h: Hashing, w: Wallet, owner: Address, recovery: Arrival, history: seq<Arrival>,
                                 bounce: Arrival, key: OutgoingKey)
    requires FateOf(h, w, owner, recovery, key) == Recovered
    requires Times(h, Apply(h, w, owner, recovery), owner, history, key, Opened) == 0
    requires bounce.bounced && bounce.body.Internal? && ClosingKey(bounce.body, bounce.context) == key
    ensures var late := ApplyAll(h, Apply(h, w, owner, recovery), owner, history);
            WalletStep(h, late, owner, bounce.context, bounce.body, true).Throw? &&
            Apply(h, late, owner, bounce) == late
  {
    var recovered := Apply(h, w, owner, recovery);
    OutgoingStep(h, w, owner, recovery, key);
    EntriesEndOnce(h, recovered, owner, history, key);
    GoneIsGone(h, ApplyAll(h, recovered, owner, history), owner, bounce, key);
    hide WalletStep, FateOf, Apply, ApplyAll, Times;
  }
}
