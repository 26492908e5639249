/** What every contract shares: who sends, what its handler sees, and how a handler ends. */
module Transactions {

  /**
   Who can send a message: an account outside the token (`User`), the token wallet of an owner, or the
   master.  A wallet's address is derived from its owner and stays in the owner's workchain.
   */
  datatype Address = User(id: nat, workchain: int) | WalletOf(owner: Address) | Master {
    function Workchain(): int {
      match this
      case User(_, w) => w
      case WalletOf(o) => o.Workchain()
      case Master => 0
    }

    predicate Basechain() {
      Workchain() == 0
    }
  }

  /** What the receiver sees of the message that runs it. */
  datatype Context = Context(sender: Address, value: nat, forwardFee: nat, now: nat)

  /** The value a message carries: an amount, or all that is left of the incoming message. */
  datatype Attached = Exactly(nanotons: nat) | Remaining

  /** How a handler ends: a throw leaves whatever it had already changed, for the transaction to undo. */
  datatype Status = Okay | Thrown(code: int) {
    predicate IsFailure() {
      Thrown?
    }

    function PropagateFailure(): Status
      requires Thrown?
    {
      this
    }
  }

  function ThrowUnless(code: int, condition: bool): Status {
    if condition then Okay else Thrown(code)
  }
}
