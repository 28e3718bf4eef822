/** Facts about Euclidean division used by the batch and chunk counts. */
module Arith {

  /** Adding the divisor adds one to the quotient. */
  lemma {:induction false} DivStep(x: int, b: int)
    requires b >= 1
    ensures (x + b) / b == x / b + 1
  {
    var q := x / b;
    assert q * b <= x < q * b + b;
    assert (q + 1) * b == q * b + b;
    DivUnique(x + b, b, q + 1);
  }

  /** The quotient is the one `q` with `q * b <= x < (q + 1) * b`. */
  lemma {:induction false} DivUnique(x: int, b: int, q: int)
    requires b >= 1 && q * b <= x < q * b + b
    ensures x / b == q
  {
    var q', r := x / b, x % b;
    assert x == q' * b + r;
    if q' > q {
      assert q' * b >= (q + 1) * b by { MulMono(q + 1, q', b); }
    } else if q' < q {
      assert q * b >= (q' + 1) * b by { MulMono(q' + 1, q, b); }
    }
  }

  lemma {:induction false} MulMono(a: int, c: int, b: int)
    requires a <= c && b >= 0
    ensures a * b <= c * b
  {
    assert c * b - a * b == (c - a) * b;
  }

  function Min(a: int, b: int): int
  {
    if a <= b then a else b
  }

  function Abs(a: int): nat
  {
    if a < 0 then -a else a
  }

  /** Division by a positive number is monotone. */
  lemma {:induction false} DivMono(x: int, y: int, b: int)
    requires b >= 1 && x <= y
    ensures x / b <= y / b
  {
    var q := x / b;
    if y / b < q {
      var q' := y / b;
      assert q' * b <= y < q' * b + b;
      MulMono(q' + 1, q, b);
    }
  }
}
