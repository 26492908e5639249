/** Arithmetic every component uses. */
module Numbers {

  function Min(a: nat, b: nat): nat {
    if a < b then a else b
  }
}
