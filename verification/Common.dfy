/** Small vocabulary shared by the models: optional values, the wrap-around of a
    64-bit signed integer, and two counting arguments over finite maps. */
module Common {
  datatype Option<+T> = None | Some(value: T)

  const TWO_63: int := 0x8000_0000_0000_0000
  const TWO_64: int := 0x1_0000_0000_0000_0000

  predicate InInt64(x: int) { -TWO_63 <= x < TWO_63 }

  /** The value a Go int64 holds after an operation whose exact result is `x`. */
  function Wrap64(x: int): (w: int)
    ensures InInt64(w)
    ensures InInt64(x) ==> w == x
  {
    (x + TWO_63) % TWO_64 - TWO_63
  }

  /** Wrapping twice around one addition is the same as wrapping once. */
  lemma WrapAdd(x: int, y: int)
    ensures Wrap64(Wrap64(x) + y) == Wrap64(x + y)
  {
    var q := (x + TWO_63) / TWO_64;
    assert x + TWO_63 == q * TWO_64 + (x + TWO_63) % TWO_64;
    assert Wrap64(x) + y + TWO_63 == (x + y + TWO_63) - q * TWO_64;
  }

  predicate Injective(f: map<nat, nat>) {
    forall a, b :: a in f && b in f && f[a] == f[b] ==> a == b
  }

  /** An injective map has as many values as keys. */
  lemma {:induction false} ImageSize(f: map<nat, nat>)
    requires Injective(f)
    ensures |f.Values| == |f|
  {
    if f == map[] {
      assert f.Values == {};
    } else {
      var a :| a in f;
      var g := f - {a};
      ImageSize(g);
      assert forall v :: v in f.Values ==> v == f[a] || v in g.Values by {
        forall v | v in f.Values ensures v == f[a] || v in g.Values {
          var k :| k in f && f[k] == v;
          assert k != a ==> k in g && g[k] == v;
        }
      }
      assert f.Values == g.Values + {f[a]};
      assert f[a] !in g.Values;
      assert f.Keys == g.Keys + {a};
    }
  }

  /** A number greater than all in a set, so one that is not in it. */
  lemma {:induction false} Above(xs: set<nat>) returns (n: nat)
    ensures forall x :: x in xs ==> x < n
    ensures n !in xs
  {
    if xs == {} { return 0; }
    var x :| x in xs;
    n := Above(xs - {x});
    if n <= x { n := x + 1; }
    assert forall y :: y in xs ==> y == x || y in xs - {x};
  }

  /** Adds up a quantity over a sequence. */
  function Sum<T>(xs: seq<T>, f: T -> nat): nat {
    if xs == [] then 0 else Sum(xs[..|xs| - 1], f) + f(xs[|xs| - 1])
  }

  lemma {:induction false} SumUpdate<T>(xs: seq<T>, i: nat, x: T, f: T -> nat)
    requires i < |xs|
    ensures Sum(xs[i := x], f) + f(xs[i]) == Sum(xs, f) + f(x)
  {
    var n := |xs| - 1;
    if i == n {
      assert xs[i := x][..n] == xs[..n];
    } else {
      assert xs[i := x][..n] == xs[..n][i := x];
      SumUpdate(xs[..n], i, x, f);
    }
  }

  lemma {:induction false} SumZero<T>(xs: seq<T>, f: T -> nat)
    requires forall i :: 0 <= i < |xs| ==> f(xs[i]) == 0
    ensures Sum(xs, f) == 0
  {
    if xs != [] { SumZero(xs[..|xs| - 1], f); }
  }

  lemma {:induction false} SumPart<T>(xs: seq<T>, i: nat, f: T -> nat)
    requires i < |xs|
    ensures f(xs[i]) <= Sum(xs, f)
  {
    var n := |xs| - 1;
    if i < n {
      assert xs[..n][i] == xs[i];
      SumPart(xs[..n], i, f);
    }
  }

  lemma SumAppend<T>(xs: seq<T>, x: T, f: T -> nat)
    ensures Sum(xs + [x], f) == Sum(xs, f) + f(x)
  {
    assert (xs + [x])[..|xs|] == xs;
  }

  lemma {:induction false} SumWithout<T>(xs: seq<T>, i: nat, f: T -> nat)
    requires i < |xs|
    ensures Sum(xs, f) == Sum(xs[..i] + xs[i + 1..], f) + f(xs[i])
  {
    var n := |xs| - 1;
    var rest := xs[..i] + xs[i + 1..];
    if i == n {
      assert rest == xs[..n];
    } else {
      assert rest[..n - 1] == xs[..n][..i] + xs[..n][i + 1..] && rest[n - 1] == xs[n];
      SumWithout(xs[..n], i, f);
    }
  }

  /** The places at which f is 1. */
  function Places<T>(xs: seq<T>, f: T -> nat): set<nat> {
    set i: nat | i < |xs| && f(xs[i]) == 1
  }

  /** Summing a yes-or-no quantity counts the places at which it says yes. */
  lemma {:induction false} SumCounts<T>(xs: seq<T>, f: T -> nat)
    requires forall x :: f(x) <= 1
    ensures Sum(xs, f) == |Places(xs, f)|
  {
    if xs == [] {
      assert Places(xs, f) == {};
    } else {
      var n := |xs| - 1;
      SumCounts(xs[..n], f);
      assert Places(xs, f) == Places(xs[..n], f) + if f(xs[n]) == 1 then {n} else {};
    }
  }
}
