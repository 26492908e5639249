/** The read cursor as the decoders use it: an object that every load advances. */
module Cursor {
  import opened Results
  import opened Cells

  class Slice {
    var rest: Rest

    constructor (cell: Cell)
      ensures rest == BeginParse(cell)
    {
      rest := BeginParse(cell);
    }

    method TakeUint(n: nat) returns (r: Result<nat, CellError>)
      modifies this
      ensures match LoadUint(old(rest), n)
              case Ok((v, t)) => r == Ok(v) && rest == t
              case Err(e) => r == Err(e)
    {
      if |rest.bits| < n {
        return Err(Underflow);
      }
      r := Ok(BitsUint(rest.bits[..n]));
      rest := Rest(rest.bits[n..], rest.refs);
    }

    method TakeBit() returns (r: Result<bool, CellError>)
      modifies this
      ensures match LoadBit(old(rest))
              case Ok((v, t)) => r == Ok(v) && rest == t
              case Err(e) => r == Err(e)
    {
      if |rest.bits| < 1 {
        return Err(Underflow);
      }
      r := Ok(rest.bits[0]);
      rest := Rest(rest.bits[1..], rest.refs);
    }

    method TakeCoins() returns (r: Result<CoinsField, CellError>)
      modifies this
      ensures match LoadCoins(old(rest))
              case Ok((v, t)) => r == Ok(v) && rest == t
              case Err(e) => r == Err(e)
    {
      var width :- TakeUint(4);
      var amount :- TakeUint(8 * width);
      r := Ok(CoinsField(width, amount));
    }

    method TakeAddress() returns (r: Result<StdAddress, CellError>)
      modifies this
      ensures match LoadAddress(old(rest))
              case Ok((v, t)) => r == Ok(v) && rest == t
              case Err(e) => r == Err(e)
    {
      var p :- LoadAddress(rest);
      rest := p.1;
      r := Ok(p.0);
    }

    method TakeAddressAny() returns (r: Result<AnyAddress, CellError>)
      modifies this
      ensures match LoadAddressAny(old(rest))
              case Ok((v, t)) => r == Ok(v) && rest == t
              case Err(e) => r == Err(e)
    {
      var p :- LoadAddressAny(rest);
      rest := p.1;
      r := Ok(p.0);
    }

    method TakeRef() returns (r: Result<Cell, CellError>)
      modifies this
      ensures match LoadRef(old(rest))
              case Ok((v, t)) => r == Ok(v) && rest == t
              case Err(e) => r == Err(e)
    {
      if |rest.refs| == 0 {
        return Err(Underflow);
      }
      r := Ok(rest.refs[0]);
      rest := Rest(rest.bits, rest.refs[1..]);
    }

    method TakeMaybeRef() returns (r: Result<Option<Cell>, CellError>)
      modifies this
      ensures match LoadMaybeRef(old(rest))
              case Ok((v, t)) => r == Ok(v) && rest == t
              case Err(e) => r == Err(e)
    {
      var present :- TakeBit();
      if !present {
        return Ok(None);
      }
      var cell :- TakeRef();
      r := Ok(Some(cell));
    }
  }
}
