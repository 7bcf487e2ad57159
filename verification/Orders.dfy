/** Strict orders, and the rows of a sorted container. */
module Orders {

  ghost predicate StrictTotal<K(!new)>(less: (K, K) -> bool) {
    && (forall a :: !less(a, a))
    && (forall a, b, c :: less(a, b) && less(b, c) ==> less(a, c))
    && (forall a, b :: a == b || less(a, b) || less(b, a))
  }

  ghost predicate Sorted<K(!new)>(s: seq<K>, less: (K, K) -> bool) {
    forall i, j | 0 <= i < j < |s| :: less(s[i], s[j])
  }

  lemma {:induction false} LeastExists<K(!new)>(s: set<K>, less: (K, K) -> bool)
    requires StrictTotal(less) && s != {}
    ensures exists k :: k in s && forall x | x in s && x != k :: less(k, x)
    decreases s
  {
    var k :| k in s;
    if s - {k} != {} {
      LeastExists(s - {k}, less);
      var m :| m in s - {k} && forall x | x in s - {k} && x != m :: less(m, x);
      var least := if less(m, k) then m else k;
      assert forall x | x in s && x != least :: less(least, x);
    } else {
      assert s == {k};
    }
  }

  /** The elements of a set, least first: how a sorted container is iterated. */
  ghost function InOrder<K(!new)>(s: set<K>, less: (K, K) -> bool): seq<K>
    requires StrictTotal(less)
    decreases s
  {
    if s == {} then []
    else
      LeastExists(s, less);
      var k :| k in s && forall x | x in s && x != k :: less(k, x);
      [k] + InOrder(s - {k}, less)
  }

  lemma {:induction false} InOrderSorts<K(!new)>(s: set<K>, less: (K, K) -> bool)
    requires StrictTotal(less)
    ensures Sorted(InOrder(s, less), less)
    ensures forall x :: x in InOrder(s, less) <==> x in s
    decreases s
  {
    if s != {} {
      var order := InOrder(s, less);
      InOrderSorts(s - {order[0]}, less);
      assert order == [order[0]] + InOrder(s - {order[0]}, less);
    }
  }

  /** Sorted sequences of the same elements are the same. */
  lemma {:induction false} SortedUnique<K(!new)>(a: seq<K>, b: seq<K>, less: (K, K) -> bool)
    requires StrictTotal(less) && Sorted(a, less) && Sorted(b, less)
    requires forall x :: x in a <==> x in b
    ensures a == b
    decreases |a|
  {
    assert b == [] || b[0] in b;
    if a != [] {
      assert a[0] in b;
      assert b[0] in a;
      var i :| 0 <= i < |b| && b[i] == a[0];
      var j :| 0 <= j < |a| && a[j] == b[0];
      assert a[0] == b[0];
      forall x ensures x in a[1..] <==> x in b[1..] {
        if x in a[1..] { assert x in a && less(a[0], x); assert x in b; }
        if x in b[1..] { assert x in b && less(b[0], x); assert x in a; }
      }
      SortedUnique(a[1..], b[1..], less);
      assert a == [a[0]] + a[1..] && b == [b[0]] + b[1..];
    }
  }

  // ---------------------------------------------------------------------------
  // Names, and a stable sort
  // ---------------------------------------------------------------------------

  /** Text order, character by character. */
  predicate Before(a: string, b: string) {
    if b == "" then false
    else if a == "" then true
    else a[0] < b[0] || (a[0] == b[0] && Before(a[1..], b[1..]))
  }

  lemma {:induction false} BeforeTransitive(a: string, b: string, c: string)
    requires Before(a, b) && Before(b, c)
    ensures Before(a, c)
    decreases |a|
  {
    if a != "" && a[0] == b[0] && b[0] == c[0] { BeforeTransitive(a[1..], b[1..], c[1..]); }
  }

  lemma {:induction false} BeforeTotal(a: string, b: string)
    ensures a == b || Before(a, b) || Before(b, a)
    decreases |a|
  {
    if a != "" && b != "" && a[0] == b[0] {
      BeforeTotal(a[1..], b[1..]);
      assert a == [a[0]] + a[1..] && b == [b[0]] + b[1..];
    }
  }

  lemma {:induction false} NotBeforeItself(a: string)
    ensures !Before(a, a)
  {
    if a != "" { NotBeforeItself(a[1..]); }
  }

  /** `(account, asset)`, account first. */
  predicate KeyBefore(a: (nat, string), b: (nat, string)) {
    a.0 < b.0 || (a.0 == b.0 && Before(a.1, b.1))
  }

  lemma KeyBeforeIsStrictTotal()
    ensures StrictTotal(KeyBefore)
  {
    forall a: (nat, string) ensures !KeyBefore(a, a) { NotBeforeItself(a.1); }
    forall a: (nat, string), b: (nat, string), c: (nat, string) | KeyBefore(a, b) && KeyBefore(b, c)
      ensures KeyBefore(a, c)
    {
      if a.0 == b.0 && b.0 == c.0 { BeforeTransitive(a.1, b.1, c.1); }
    }
    forall a: (nat, string), b: (nat, string) ensures a == b || KeyBefore(a, b) || KeyBefore(b, a) {
      BeforeTotal(a.1, b.1);
    }
  }

  predicate IdBefore(a: nat, b: nat) { a < b }

  lemma IdBeforeIsStrictTotal()
    ensures StrictTotal(IdBefore)
  {}

  function Insert<T>(x: T, s: seq<T>, less: (T, T) -> bool): seq<T> {
    if s == [] || !less(s[0], x) then [x] + s else [s[0]] + Insert(x, s[1..], less)
  }

  /** `sort_by`: equal elements keep their order. */
  function SortBy<T>(s: seq<T>, less: (T, T) -> bool): seq<T> {
    if s == [] then [] else Insert(s[0], SortBy(s[1..], less), less)
  }

  /** No element comes after one that should follow it. */
  ghost predicate NotAfter<T(!new)>(s: seq<T>, less: (T, T) -> bool) {
    forall i, j | 0 <= i < j < |s| :: !less(s[j], s[i])
  }

  lemma {:induction false} SortByKeepsSorted<T(!new)>(s: seq<T>, less: (T, T) -> bool)
    requires NotAfter(s, less)
    ensures SortBy(s, less) == s
  {
    if s != [] {
      SortByKeepsSorted(s[1..], less);
      assert s == [s[0]] + s[1..];
    }
  }

  /** A weak order: the ties of `less` are transitive too. */
  ghost predicate WeakOrder<T(!new)>(less: (T, T) -> bool) {
    && (forall a :: !less(a, a))
    && (forall a, b, c :: less(a, b) && less(b, c) ==> less(a, c))
    && (forall a, b, c :: !less(b, a) && !less(c, b) ==> !less(c, a))
  }

  lemma {:induction false} InsertAdds<T>(x: T, s: seq<T>, less: (T, T) -> bool)
    ensures multiset(Insert(x, s, less)) == multiset(s) + multiset{x}
  {
    if s != [] && less(s[0], x) {
      InsertAdds(x, s[1..], less);
      assert s == [s[0]] + s[1..];
    }
  }

  /** What stands in a list with one element inserted. */
  lemma InInsert<T>(x: T, s: seq<T>, less: (T, T) -> bool, y: T)
    requires y in Insert(x, s, less)
    ensures y == x || y in s
  {
    InsertAdds(x, s, less);
    assert y in multiset(Insert(x, s, less));
  }

  lemma {:induction false} InsertSorts<T(!new)>(x: T, s: seq<T>, less: (T, T) -> bool)
    requires WeakOrder(less) && NotAfter(s, less)
    ensures NotAfter(Insert(x, s, less), less)
  {
    if s != [] && less(s[0], x) {
      var rest := Insert(x, s[1..], less);
      InsertSorts(x, s[1..], less);
      forall y | y in rest ensures !less(y, s[0]) { InInsert(x, s[1..], less, y); }
    }
  }

  lemma {:induction false} SortBySorts<T(!new)>(s: seq<T>, less: (T, T) -> bool)
    requires WeakOrder(less)
    ensures NotAfter(SortBy(s, less), less)
    ensures multiset(SortBy(s, less)) == multiset(s)
  {
    if s != [] {
      SortBySorts(s[1..], less);
      InsertSorts(s[0], SortBy(s[1..], less), less);
      InsertAdds(s[0], SortBy(s[1..], less), less);
      assert s == [s[0]] + s[1..];
    }
  }
}
