/** Distinctness, reordering and mapping of lists. */
module Listings {

  ghost predicate Distinct<T>(s: seq<T>) { forall i, j | 0 <= i < j < |s| :: s[i] != s[j] }

  lemma SubsetSize<T>(a: set<T>, b: set<T>)
    requires a <= b
    ensures |a| <= |b|
  {
    assert b == a + (b - a);
  }

  ghost predicate Perm<T>(a: seq<T>, b: seq<T>) { multiset(a) == multiset(b) }

  lemma PermMembers<T>(a: seq<T>, b: seq<T>)
    requires Perm(a, b)
    ensures |a| == |b| && forall x :: x in a <==> x in b
  {
    assert |multiset(a)| == |multiset(b)|;
    forall x
      ensures x in a <==> x in b
    {
      assert x in a <==> x in multiset(a);
      assert x in b <==> x in multiset(b);
    }
  }

  lemma Removed<T>(b: seq<T>, j: nat)
    requires j < |b|
    ensures multiset(b) == multiset(b[..j] + b[j + 1..]) + multiset{b[j]}
  {
    assert b == b[..j] + [b[j]] + b[j + 1..];
  }

  /** Taking one item out of two listings leaves two listings of the rest. */
  lemma RestPerm<T>(a: seq<T>, b: seq<T>, j: nat)
    requires Perm(a, b) && a != [] && j < |b| && b[j] == a[0]
    ensures Perm(a[1..], b[..j] + b[j + 1..])
  {
    Removed(a, 0);
    Removed(b, j);
    assert a[..0] + a[1..] == a[1..];
    assert multiset(a[1..]) == multiset(a) - multiset{a[0]};
    assert multiset(b[..j] + b[j + 1..]) == multiset(b) - multiset{b[j]};
  }

  lemma Found<T>(a: seq<T>, b: seq<T>) returns (j: nat)
    requires Perm(a, b) && a != []
    ensures j < |b| && b[j] == a[0] && Perm(a[1..], b[..j] + b[j + 1..])
  {
    PermMembers(a, b);
    assert a[0] in b;
    j :| 0 <= j < |b| && b[j] == a[0];
    RestPerm(a, b, j);
  }

  lemma TailsPerm<T>(a: seq<T>, b: seq<T>)
    requires Perm(a, b) && a != [] && b != [] && a[0] == b[0]
    ensures Perm(a[1..], b[1..])
  {
    assert a == [a[0]] + a[1..] && b == [b[0]] + b[1..];
    assert multiset(a[1..]) == multiset(a) - multiset{a[0]};
  }

  function Mapped<T>(f: T -> T, s: seq<T>): (r: seq<T>)
    ensures |r| == |s| && forall i | 0 <= i < |s| :: r[i] == f(s[i])
  {
    seq(|s|, i requires 0 <= i < |s| => f(s[i]))
  }

  lemma MappedRemoved<T>(f: T -> T, b: seq<T>, j: nat)
    requires j < |b|
    ensures multiset(Mapped(f, b)) == multiset(Mapped(f, b[..j] + b[j + 1..])) + multiset{f(b[j])}
  {
    var all := Mapped(f, b);
    Removed(all, j);
    assert Mapped(f, b[..j] + b[j + 1..]) == all[..j] + all[j + 1..];
  }

  lemma MappedRejoin<T>(f: T -> T, a: seq<T>, b: seq<T>, j: nat)
    requires a != [] && j < |b| && b[j] == a[0] && Perm(Mapped(f, a[1..]), Mapped(f, b[..j] + b[j + 1..]))
    ensures Perm(Mapped(f, a), Mapped(f, b))
  {
    MappedRemoved(f, b, j);
    MappedRemoved(f, a, 0);
    assert a[..0] + a[1..] == a[1..];
  }

  /** Mapping commutes with reordering. */
  lemma {:induction false} MappedPerm<T>(f: T -> T, a: seq<T>, b: seq<T>)
    requires Perm(a, b)
    ensures Perm(Mapped(f, a), Mapped(f, b))
    decreases |a|
  {
    if a == [] {
      PermMembers(a, b);
    } else {
      var j := Found(a, b);
      MappedPerm(f, a[1..], b[..j] + b[j + 1..]);
      MappedRejoin(f, a, b, j);
    }
  }
}
