/** Small shared vocabulary: optional values, powers of two and their logarithm. */
module Common {

  datatype Option<+T> = None | Some(value: T)

  function Pow2(n: nat): (p: nat)
    ensures p > 0
  {
    if n == 0 then 1 else 2 * Pow2(n - 1)
  }

  lemma {:induction false} Pow2Monotonic(a: nat, b: nat)
    requires a <= b
    ensures Pow2(a) <= Pow2(b)
    decreases b
  {
    if a < b {
      Pow2Monotonic(a, b - 1);
    }
  }

  lemma {:induction false} Pow2Sum(a: nat, b: nat)
    ensures Pow2(a + b) == Pow2(a) * Pow2(b)
  {
    if a > 0 {
      Pow2Sum(a - 1, b);
      calc {
        Pow2(a + b);
        2 * Pow2(a - 1 + b);
        2 * (Pow2(a - 1) * Pow2(b));
        Pow2(a) * Pow2(b);
      }
    }
  }

  /** Verilog's $clog2: the least k with n <= 2^k. */
  function Clog2(n: nat): (k: nat)
    ensures n <= Pow2(k)
    ensures k > 0 ==> Pow2(k - 1) < n
  {
    if n <= 1 then 0 else Clog2((n + 1) / 2) + 1
  }

  /** The number of values of a register of $clog2(limit+1) bits, which counts up to `limit`. */
  function CounterValues(limit: nat): (v: nat)
    ensures limit < v
  {
    Pow2(Clog2(limit + 1))
  }

  /** A counter register of the given number of values, counting up, down or not. */
  function Counted(c: nat, up: bool, down: bool, values: nat): (r: nat)
    requires c < values
    ensures r < values
  {
    if up && !down then (if c + 1 == values then 0 else c + 1)
    else if down && !up then (if c == 0 then values - 1 else c - 1)
    else c
  }

  function Listed<T>(o: Option<T>): seq<T> {
    match o
    case Some(x) => [x]
    case None => []
  }

  lemma AtLeast(d: int, p: nat)
    requires d >= 1
    ensures d * p >= p
  {
    assert d * p == (d - 1) * p + p;
  }

  lemma QuotientsAgree(q: int, q': int, r: int, r': int, p: nat)
    requires 0 <= r < p && 0 <= r' < p && q * p + r == q' * p + r'
    ensures q == q' && r == r'
  {
    assert (q - q') * p == q * p - q' * p;
    assert (q' - q) * p == q' * p - q * p;
    if q > q' {
      AtLeast(q - q', p);
    } else if q < q' {
      AtLeast(q' - q, p);
    }
  }

  lemma DivUnique(x: int, p: nat, q: int, r: int)
    requires p > 0 && 0 <= r < p && x == q * p + r
    ensures x / p == q && x % p == r
  {
    assert x == (x / p) * p + x % p;
    QuotientsAgree(q, x / p, r, x % p, p);
  }

  lemma Associate<T>(a: seq<T>, b: seq<T>, c: seq<T>)
    ensures (a + b) + c == a + (b + c)
  {
  }
}
