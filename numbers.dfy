/** Integer arithmetic shared by the schedule counters and the pagination
    of listings. */
module Numbers {

  /** `Math.ceil(a / b)` for a positive divisor. */
  function CeilDiv(a: int, b: int): (r: int)
    requires b > 0
    ensures (r - 1) * b < a <= r * b
  {
    var q := (-a) / b;
    assert -a == b * q + (-a) % b;
    assert (-q) * b == -(b * q);
    -q
  }
}
