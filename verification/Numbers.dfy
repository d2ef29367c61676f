/** Small arithmetic shared by the exporter's and the load generator's models. */
module Numbers {
  function Min(a: nat, b: nat): nat {
    if a < b then a else b
  }

  function Pow2(n: nat): nat {
    if n == 0 then 1 else 2 * Pow2(n - 1)
  }
}
