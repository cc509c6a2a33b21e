module Options {
  datatype Option<T> = None | Some(value: T)
}

/** Division by what it is to be. */
module Arithmetic {
  lemma Grows(x: int, y: int, b: int)
    requires x > y && b > 0
    ensures x * b >= y * b + b
  {
    assert (x - y - 1) * b >= 0;
  }

  /** A division with its remainder is the only one. */
  lemma DivUnique(a: int, b: int, q: int, r: int)
    requires b > 0 && 0 <= r < b && a == q * b + r
    ensures a / b == q && a % b == r
  {
    var q1, r1 := a / b, a % b;
    if q1 > q {
      Grows(q1, q, b);
    } else if q1 < q {
      Grows(q, q1, b);
    }
  }
}
