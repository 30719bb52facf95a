/** Failure-carrying wrappers and small numeric helpers shared by every module. */
module Base {

  /** Python's `None` / a present value. */
  datatype Option<+T> = None | Some(value: T) {
    function GetOr(default: T): T {
      match this
      case Some(v) => v
      case None => default
    }
  }

  /** A returned value, or the exception that was raised instead. */
  datatype Result<+T, +E> = Ok(value: T) | Err(error: E)

  newtype byte = x: int | 0 <= x < 256

  /** Python `bytes`. */
  type Bytes = seq<byte>

  function Min(a: int, b: int): int {
    if a <= b then a else b
  }

  function Max(a: int, b: int): int {
    if a <= b then b else a
  }

  function MinReal(a: real, b: real): real {
    if a <= b then a else b
  }

  function MaxReal(a: real, b: real): real {
    if a <= b then b else a
  }

  /** Euclidean division is determined by the bracket its quotient sits in. */
  lemma DivUnique(a: int, b: int, q: int)
    requires b > 0
    requires q * b <= a < q * b + b
    ensures a / b == q
  {
    var q' := a / b;
    assert q' * b <= a < q' * b + b;
    if q' > q {
      MulLeft(q + 1, q', b);
    } else if q' < q {
      MulLeft(q' + 1, q, b);
    }
  }

  /** Multiplying both sides by a non-negative factor keeps an ordering. */
  lemma MulLeft(x: int, y: int, k: int)
    requires x <= y && k >= 0
    ensures x * k <= y * k
  {
    assert y * k - x * k == (y - x) * k;
  }

  /** One more multiple of `k`. */
  lemma MulSucc(m: int, k: int)
    ensures (m + 1) * k == m * k + k
  {
  }
}
