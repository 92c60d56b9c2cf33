/** Small vocabulary shared by the models. */
module Common {

  datatype Option<+T> = None | Some(value: T)

  type Byte = x: int | 0 <= x < 256

  ghost predicate NoDuplicates<T>(s: seq<T>) {
    forall i, j | 0 <= i < j < |s| :: s[i] != s[j]
  }

  function Range(n: nat): (r: set<nat>)
    ensures forall k: nat :: k in r <==> k < n
    ensures |r| == n
  {
    if n == 0 then {} else Range(n - 1) + {n - 1}
  }

  /** Distinct indices below n, none of them b: there is room for one more. */
  lemma {:induction false} Pigeonhole(s: seq<nat>, n: nat, b: nat)
    requires NoDuplicates(s) && b < n && b !in s
    requires forall x | x in s :: x < n
    ensures |s| < n
  {
    var elems := set x | x in s;
    DistinctSize(s, elems);
    assert elems <= Range(n) - {b};
    SubsetSize(elems, Range(n) - {b});
  }

  lemma {:induction false} DistinctSize<T>(s: seq<T>, elems: set<T>)
    requires NoDuplicates(s) && elems == set x | x in s
    ensures |elems| == |s|
  {
    if s != [] {
      var last := |s| - 1;
      var front := set x | x in s[..last];
      DistinctSize(s[..last], front);
      assert elems == front + {s[last]};
    }
  }

  lemma {:induction false} SubsetSize<T>(a: set<T>, b: set<T>)
    requires a <= b
    ensures |a| <= |b|
  {
    if a != {} {
      var x :| x in a;
      SubsetSize(a - {x}, b - {x});
    }
  }

  /** A multiset count of at most one everywhere means no duplicates. */
  lemma DistinctByCount<T>(s: seq<T>)
    requires forall x | x in s :: multiset(s)[x] <= 1
    ensures NoDuplicates(s)
  {
    forall i, j | 0 <= i < j < |s|
      ensures s[i] != s[j]
    {
      assert s == s[..j] + s[j..];
      assert multiset(s) == multiset(s[..j]) + multiset(s[j..]);
      assert s[i] in s[..j] && s[j] in s[j..];
      assert multiset(s[..j])[s[i]] >= 1 && multiset(s[j..])[s[j]] >= 1;
      assert s[i] in s;
    }
  }

  lemma Associate<T>(a: seq<T>, b: seq<T>, c: seq<T>)
    ensures a + (b + c) == (a + b) + c
  {
  }

  lemma TimesMono(a: nat, b: nat, c: nat)
    requires a <= b
    ensures a * c <= b * c
  {
  }

  lemma DivOf(x: nat, d: nat, q: nat, r: nat)
    requires d > 0 && x == q * d + r && r < d
    ensures x / d == q && x % d == r
  {
    var q', r' := x / d, x % d;
    assert x == q' * d + r';
    if q' < q {
      TimesMono(q' + 1, q, d);
    } else if q' > q {
      TimesMono(q + 1, q', d);
    }
  }
}
