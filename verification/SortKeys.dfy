/** Python's order on the selector's tuple keys: lexicographic, with numbers first and text as character codes. */
module SortKeys {
  import opened Listings

  type Key = seq<real>

  predicate Le(a: Key, b: Key)
    decreases |a|
  {
    a == [] || (b != [] && (a[0] < b[0] || (a[0] == b[0] && Le(a[1..], b[1..]))))
  }

  lemma {:induction false} LeTotal(a: Key, b: Key)
    ensures Le(a, b) || Le(b, a)
    decreases |a|
  {
    if a != [] && b != [] {
      LeTotal(a[1..], b[1..]);
    }
  }

  lemma {:induction false} LeAntisymmetric(a: Key, b: Key)
    requires Le(a, b) && Le(b, a)
    ensures a == b
    decreases |a|
  {
    if a == [] {
    } else {
      LeAntisymmetric(a[1..], b[1..]);
      assert a == [a[0]] + a[1..] && b == [b[0]] + b[1..];
    }
  }

  lemma {:induction false} LeTransitive(a: Key, b: Key, c: Key)
    requires Le(a, b) && Le(b, c)
    ensures Le(a, c)
    decreases |a|
  {
    if a != [] && a[0] == b[0] == c[0] {
      LeTransitive(a[1..], b[1..], c[1..]);
    }
  }

  function Codes(s: string): (r: Key)
    ensures |r| == |s| && forall i | 0 <= i < |s| :: r[i] == (s[i] as int) as real
  {
    seq(|s|, i requires 0 <= i < |s| => (s[i] as int) as real)
  }

  lemma CodesInjective(s: string, t: string)
    requires Codes(s) == Codes(t)
    ensures s == t
  {
    forall i | 0 <= i < |s|
      ensures s[i] == t[i]
    {
      assert Codes(s)[i] == Codes(t)[i];
    }
  }

  /** The order compares the numbers before the texts. */
  lemma {:induction false} LeNumbersFirst(a: Key, b: Key, s: Key, t: Key)
    requires |a| == |b| && Le(a + s, b + t)
    ensures Le(a, b)
    decreases |a|
  {
    if a != [] && a[0] == b[0] {
      assert (a + s)[1..] == a[1..] + s && (b + t)[1..] == b[1..] + t;
      LeNumbersFirst(a[1..], b[1..], s, t);
    }
  }

  /******* Minima *******/

  /** Python's `min` with a key: the first item with the least key. */
  function MinOf<T>(key: T -> Key, pool: seq<T>): T
    requires pool != []
  {
    var last := |pool| - 1;
    if last == 0 then pool[0]
    else
      var m := MinOf(key, pool[..last]);
      if Le(key(m), key(pool[last])) then m else pool[last]
  }

  ghost predicate LeastOf<T(!new)>(key: T -> Key, pool: seq<T>, m: T) {
    m in pool && forall a | a in pool :: Le(key(m), key(a))
  }

  /** `min` returns a least item of its pool. */
  lemma {:induction false} MinOfLeast<T(!new)>(key: T -> Key, pool: seq<T>)
    requires pool != []
    ensures LeastOf(key, pool, MinOf(key, pool))
    decreases |pool|
  {
    var n := |pool| - 1;
    var last := pool[n];
    LeTotal(key(last), key(last));
    if n == 0 {
    } else {
      var m := MinOf(key, pool[..n]);
      MinOfLeast(key, pool[..n]);
      LeTotal(key(m), key(last));
      forall a | a in pool
        ensures Le(key(MinOf(key, pool)), key(a))
      {
        if a in pool[..n] {
          LeTransitive(key(MinOf(key, pool)), key(m), key(a));
        }
      }
    }
  }

  /** The first item wins if it is a least one. */
  lemma {:induction false} MinOfFirst<T(!new)>(key: T -> Key, pool: seq<T>)
    requires pool != [] && LeastOf(key, pool, pool[0])
    ensures MinOf(key, pool) == pool[0]
    decreases |pool|
  {
    if |pool| <= 1 {
    } else {
      MinOfFirst(key, pool[..|pool| - 1]);
    }
  }

  /******* Sorting *******/

  function Insert<T>(key: T -> Key, a: T, sorted: seq<T>): seq<T> {
    if sorted == [] || Le(key(a), key(sorted[0])) then [a] + sorted else [sorted[0]] + Insert(key, a, sorted[1..])
  }

  function SortBy<T>(key: T -> Key, pool: seq<T>): seq<T> {
    if pool == [] then [] else Insert(key, pool[0], SortBy(key, pool[1..]))
  }

  ghost predicate Ordered<T>(key: T -> Key, s: seq<T>) {
    forall i, j | 0 <= i < j < |s| :: Le(key(s[i]), key(s[j]))
  }

  lemma {:induction false} InsertMembers<T>(key: T -> Key, a: T, sorted: seq<T>)
    ensures multiset(Insert(key, a, sorted)) == multiset(sorted) + multiset{a}
    decreases |sorted|
  {
    if sorted == [] || Le(key(a), key(sorted[0])) {
    } else {
      InsertMembers(key, a, sorted[1..]);
      assert sorted == [sorted[0]] + sorted[1..];
    }
  }

  lemma PrependOrdered<T>(key: T -> Key, a: T, s: seq<T>)
    requires Ordered(key, s) && forall b | b in s :: Le(key(a), key(b))
    ensures Ordered(key, [a] + s)
  {
    var t := [a] + s;
    forall i, j | 0 <= i < j < |t|
      ensures Le(key(t[i]), key(t[j]))
    {
      assert t[j] == s[j - 1];
    }
  }

  lemma {:induction false} InsertOrdered<T>(key: T -> Key, a: T, sorted: seq<T>)
    requires Ordered(key, sorted)
    ensures Ordered(key, Insert(key, a, sorted))
    decreases |sorted|
  {
    if sorted == [] || Le(key(a), key(sorted[0])) {
      forall b | b in sorted
        ensures Le(key(a), key(b))
      {
        if b != sorted[0] {
          LeTransitive(key(a), key(sorted[0]), key(b));
        }
      }
      PrependOrdered(key, a, sorted);
    } else {
      var head, tail := sorted[0], sorted[1..];
      var rest := Insert(key, a, tail);
      InsertOrdered(key, a, tail);
      InsertMembers(key, a, tail);
      LeTotal(key(a), key(head));
      forall b | b in rest
        ensures Le(key(head), key(b))
      {
        assert b in multiset(rest);
        if b != a {
          assert b in tail;
        }
      }
      PrependOrdered(key, head, rest);
    }
  }

  lemma {:induction false} SortPermutes<T>(key: T -> Key, pool: seq<T>)
    ensures Perm(SortBy(key, pool), pool)
    decreases |pool|
  {
    if pool == [] {
    } else {
      SortPermutes(key, pool[1..]);
      InsertMembers(key, pool[0], SortBy(key, pool[1..]));
      assert pool == [pool[0]] + pool[1..];
    }
  }

  lemma {:induction false} SortOrders<T>(key: T -> Key, pool: seq<T>)
    ensures Ordered(key, SortBy(key, pool))
    decreases |pool|
  {
    if pool == [] {
    } else {
      SortOrders(key, pool[1..]);
      InsertOrdered(key, pool[0], SortBy(key, pool[1..]));
    }
  }

  /** The key tells the items of a pool apart. */
  ghost predicate Separates<T(!new)>(key: T -> Key, pool: seq<T>) {
    forall x, y | x in pool && y in pool && key(x) == key(y) :: x == y
  }

  lemma LeastUnique<T(!new)>(key: T -> Key, pool: seq<T>, x: T, y: T)
    requires Separates(key, pool) && LeastOf(key, pool, x) && LeastOf(key, pool, y)
    ensures x == y
  {
    LeAntisymmetric(key(x), key(y));
  }

  /** With a separating key, `min` forgets the order of its pool. */
  lemma MinPerm<T(!new)>(key: T -> Key, a: seq<T>, b: seq<T>)
    requires Separates(key, a) && Perm(a, b) && a != [] && b != []
    ensures MinOf(key, a) == MinOf(key, b)
  {
    PermMembers(a, b);
    MinOfLeast(key, a);
    MinOfLeast(key, b);
    LeastUnique(key, a, MinOf(key, a), MinOf(key, b));
  }

  lemma OrderedHead<T(!new)>(key: T -> Key, s: seq<T>)
    requires s != [] && Ordered(key, s)
    ensures LeastOf(key, s, s[0]) && Ordered(key, s[1..])
  {
    LeTotal(key(s[0]), key(s[0]));
  }

  lemma HeadsAgree<T(!new)>(key: T -> Key, a: seq<T>, b: seq<T>)
    requires Separates(key, a) && Perm(a, b) && a != [] && b != [] && Ordered(key, a) && Ordered(key, b)
    ensures a[0] == b[0] && Perm(a[1..], b[1..])
  {
    PermMembers(a, b);
    OrderedHead(key, a);
    OrderedHead(key, b);
    LeastUnique(key, a, a[0], b[0]);
    TailsPerm(a, b);
  }

  lemma {:induction false} OrderedUnique<T(!new)>(key: T -> Key, a: seq<T>, b: seq<T>)
    requires Separates(key, a) && Perm(a, b) && Ordered(key, a) && Ordered(key, b)
    ensures a == b
    decreases |a|
  {
    PermMembers(a, b);
    if a == [] {
    } else {
      HeadsAgree(key, a, b);
      OrderedHead(key, a);
      OrderedHead(key, b);
      OrderedUnique(key, a[1..], b[1..]);
      assert a == [a[0]] + a[1..] && b == [b[0]] + b[1..];
    }
  }

  /** With a separating key, sorting forgets the order of its input. */
  lemma SortPerm<T(!new)>(key: T -> Key, a: seq<T>, b: seq<T>)
    requires Separates(key, a) && Perm(a, b)
    ensures SortBy(key, a) == SortBy(key, b)
  {
    SortPermutes(key, a);
    SortPermutes(key, b);
    SortOrders(key, a);
    SortOrders(key, b);
    PermMembers(a, SortBy(key, a));
    OrderedUnique(key, SortBy(key, a), SortBy(key, b));
  }
}
