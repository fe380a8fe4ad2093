/** Integer arithmetic on money (cents) and time (milliseconds). */
module Amounts {
  import opened Maybe

  function Abs(x: int): (r: nat)
    ensures r == x || r == -x
  {
    if x < 0 then -x else x
  }

  /** `Math.abs(amount || 0)`: a null amount is spent as nothing. */
  function Spend(amount: Option<int>): (r: nat)
    ensures amount.None? ==> r == 0
    ensures amount.Some? ==> r == Abs(amount.value)
  {
    if amount.Some? then Abs(amount.value) else 0
  }

  /** `n || null` on an optional number: zero is falsy and is stored as null. */
  function NumOrNull(n: Option<int>): (r: Option<int>)
    ensures r.Some? <==> n.Some? && n.value != 0
    ensures r.Some? ==> r == n
  {
    if n.Some? && n.value != 0 then n else None
  }

  /** `Math.ceil(a / b)` for a positive divisor, computed exactly on integers. */
  function CeilDiv(a: int, b: int): (q: int)
    requires b > 0
    ensures (q - 1) * b < a <= q * b
  {
    var k := (-a) / b;
    assert b * k <= -a < b * k + b;
    -k
  }
}
