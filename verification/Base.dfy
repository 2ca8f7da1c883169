/** Vocabulary shared by every component: bytes, results, and the few facts about
    division and multiplication that the block arithmetic rests on. */
module Base {

  type byte = b: int | 0 <= b < 256

  const MAX_INT64: int := 0x7fff_ffff_ffff_ffff

  datatype Option<+T> = None | Some(value: T)

  datatype Result<+T, +E> = Ok(value: T) | Err(error: E)

  function Min(a: int, b: int): (m: int)
    ensures m <= a && m <= b && (m == a || m == b)
  {
    if a < b then a else b
  }

  function Max(a: int, b: int): (m: int)
    ensures a <= m && b <= m && (m == a || m == b)
  {
    if a < b then b else a
  }

  /** The set {0, ..., n-1}. */
  function Below(n: nat): (s: set<int>)
    ensures forall i :: i in s <==> 0 <= i < n
  {
    if n == 0 then {} else Below(n - 1) + {n - 1}
  }

  lemma BelowSize(n: nat)
    ensures |Below(n)| == n
  {
    if n > 0 {
      BelowSize(n - 1);
    }
  }

  lemma SubsetSize<T>(a: set<T>, b: set<T>)
    requires a <= b
    ensures |a| <= |b|
    ensures |a| == |b| ==> a == b
  {
    assert b == a + (b - a);
  }

  function Flatten<T>(parts: seq<seq<T>>): (whole: seq<T>)
  {
    if parts == [] then [] else Flatten(parts[..|parts| - 1]) + parts[|parts| - 1]
  }

  lemma {:induction false} FlattenFront<T>(parts: seq<seq<T>>)
    requires parts != []
    ensures Flatten(parts) == parts[0] + Flatten(parts[1..])
    decreases |parts|
  {
    if |parts| > 1 {
      var init := parts[..|parts| - 1];
      FlattenFront(init);
      assert init[1..] == parts[1..][..|parts| - 2];
    } else {
      assert parts[..0] == [] && parts[1..] == [];
    }
  }

  lemma {:induction false} FlattenConcat<T>(a: seq<seq<T>>, b: seq<seq<T>>)
    ensures Flatten(a + b) == Flatten(a) + Flatten(b)
    decreases |b|
  {
    if b == [] {
      assert a + b == a;
    } else {
      var init, last := b[..|b| - 1], b[|b| - 1];
      FlattenConcat(a, init);
      assert (a + b)[..|a + b| - 1] == a + init;
      assert Flatten(a) + (Flatten(init) + last) == Flatten(a) + Flatten(init) + last;
    }
  }

  lemma NonEmptyInt(s: set<int>)
    ensures s == {} || exists x :: x in s
  {
    if forall x :: x !in s {
      assert s == {};
    }
  }

  lemma DivBounds(n: int, d: int)
    requires 0 < d
    ensures n / d * d <= n < n / d * d + d
  {
  }

  lemma MulMono(a: int, b: int, c: int)
    requires a <= b && 0 <= c
    ensures a * c <= b * c
  {
  }

  /** A quotient is pinned by the multiples of the divisor around it. */
  lemma DivUnique(n: int, d: int, q: int)
    requires 0 < d && q * d <= n < q * d + d
    ensures n / d == q
  {
    DivBounds(n, d);
    if n / d < q {
      MulMono(n / d + 1, q, d);
    } else if q < n / d {
      MulMono(q + 1, n / d, d);
    }
  }

  lemma DivMono(a: int, b: int, d: int)
    requires a <= b && 0 < d
    ensures a / d <= b / d
  {
    DivBounds(a, d);
    DivBounds(b, d);
    if b / d < a / d {
      MulMono(b / d + 1, a / d, d);
    }
  }
}
