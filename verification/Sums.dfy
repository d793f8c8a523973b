/** Powers and sums of real numbers. */
module Sums {

  function Power(x: real, n: nat): real {
    if n == 0 then 1.0 else x * Power(x, n - 1)
  }

  function Total(terms: seq<real>): real {
    if terms == [] then 0.0 else Total(terms[..|terms| - 1]) + terms[|terms| - 1]
  }

  lemma {:induction false} TotalUpdate(terms: seq<real>, k: nat, x: real)
    requires k < |terms|
    ensures Total(terms[k := x]) == Total(terms) - terms[k] + x
  {
    var n := |terms| - 1;
    if k < n {
      TotalUpdate(terms[..n], k, x);
      assert terms[k := x][..n] == terms[..n][k := x];
    } else {
      assert terms[k := x][..n] == terms[..n];
    }
  }
}
