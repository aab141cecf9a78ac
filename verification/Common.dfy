/** Shared vocabulary. */
module Options {

  datatype Option<T> = None | Some(value: T)
}

/** Facts about sequences that the solver does not find by itself. */
module Sequences {

  lemma AppendTwice<T>(a: seq<T>, b: seq<T>, c: seq<T>)
    ensures (a + b) + c == a + (b + c)
  {
  }

  /** At most the first n elements. */
  function Take<T>(s: seq<T>, n: nat): seq<T> {
    if n < |s| then s[..n] else s
  }

  lemma TakeMore<T>(a: seq<T>, b: seq<T>, n: nat)
    ensures Take(Take(a, n) + b, n) == Take(a + b, n)
  {
  }
}

/** Facts about products and quotients that the solver does not find by itself. */
module Arithmetic {

  lemma TimesMonotone(a: int, b: int, d: nat)
    requires a <= b
    ensures a * d <= b * d
  {
  }

  lemma DivisionIsUnique(n: nat, d: nat, q: nat, r: nat)
    requires 0 < d && n == q * d + r && r < d
    ensures n / d == q
  {
    var k := n / d;
    assert k * d + n % d == n;
    if k < q {
      TimesMonotone(k + 1, q, d);
    } else if q < k {
      TimesMonotone(q + 1, k, d);
    }
  }
}
