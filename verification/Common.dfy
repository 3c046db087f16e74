/** Vocabulary shared by the models. */
module Common {

  datatype Option<+T> = None | Some(value: T)

  ghost predicate Distinct<T>(s: seq<T>) {
    forall i, j :: 0 <= i < j < |s| ==> s[i] != s[j]
  }

  // Python's `if x not in xs: xs.append(x)`.
  function AddOnce<T(==,!new)>(xs: seq<T>, x: T): (r: seq<T>)
    ensures forall y :: y in r <==> y in xs || y == x
    ensures Distinct(xs) ==> Distinct(r)
  {
    if x in xs then xs else xs + [x]
  }

  // Python's `xs.remove(x)` with the ValueError of a missing element suppressed.
  function RemoveFirst<T(==,!new)>(xs: seq<T>, x: T): (r: seq<T>)
    ensures forall y :: y in r ==> y in xs
    ensures forall y :: y in xs && y != x ==> y in r
  {
    if xs == [] then []
    else if xs[0] == x then
      assert forall y :: y in xs ==> y == xs[0] || y in xs[1..];
      xs[1..]
    else
      assert forall y :: y in xs ==> y == xs[0] || y in xs[1..];
      [xs[0]] + RemoveFirst(xs[1..], x)
  }

  lemma {:induction false} RemoveFirstOfDistinct<T(!new)>(xs: seq<T>, x: T)
    requires Distinct(xs)
    ensures Distinct(RemoveFirst(xs, x)) && x !in RemoveFirst(xs, x)
  {
    if xs == [] || xs[0] == x {
    } else {
      RemoveFirstOfDistinct(xs[1..], x);
      assert xs[0] !in xs[1..];
      assert xs[0] !in RemoveFirst(xs[1..], x);
    }
  }

  function Elements<T>(s: seq<T>): set<T> { set x | x in s }

  lemma {:induction false} Subset<T>(a: set<T>, b: set<T>)
    requires a <= b
    ensures |a| <= |b| && (|a| == |b| ==> a == b)
    decreases b
  {
    if x :| x in a {
      Subset(a - {x}, b - {x});
      assert a == a - {x} + {x} && b == b - {x} + {x};
    } else if y :| y in b {
      assert |b| > 0;
    }
  }

  // A separator that occurs in neither front part tells where the back part begins.
  lemma Separated(a: string, x: string, b: string, y: string, c: char)
    requires c !in a && c !in b && a + [c] + x == b + [c] + y
    ensures a == b && x == y
  {
    var i, j := |a|, |b|;
    var s, t := a + [c] + x, b + [c] + y;
    assert s[i] == c && t[j] == c;
    forall k | 0 <= k < i ensures s[k] != c { assert s[k] == a[k]; }
    forall k | 0 <= k < j ensures t[k] != c { assert t[k] == b[k]; }
    assert a == s[..i] == t[..j] == b;
    assert x == s[i + 1..] == t[j + 1..] == y;
  }
}
