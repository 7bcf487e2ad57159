/** Sums over finite sets, in any order. */
module Sums {

  ghost function SumOver<T(!new)>(s: set<T>, f: T -> int): int
    decreases s
  {
    if s == {} then 0
    else
      var x :| x in s;
      f(x) + SumOver(s - {x}, f)
  }

  /** Any element may be taken out first. */
  lemma {:induction false} SumPull<T(!new)>(s: set<T>, f: T -> int, x: T)
    requires x in s
    ensures SumOver(s, f) == f(x) + SumOver(s - {x}, f)
    decreases s
  {
    var y :| y in s && SumOver(s, f) == f(y) + SumOver(s - {y}, f);
    if y != x {
      SumPull(s - {y}, f, x);
      SumPull(s - {x}, f, y);
      assert s - {y} - {x} == s - {x} - {y};
    }
  }

  lemma {:induction false} SumSame<T(!new)>(s: set<T>, f: T -> int, g: T -> int)
    requires forall x | x in s :: f(x) == g(x)
    ensures SumOver(s, f) == SumOver(s, g)
    decreases s
  {
    if s != {} {
      var x :| x in s;
      SumPull(s, f, x);
      SumPull(s, g, x);
      SumSame(s - {x}, f, g);
    }
  }

  /** Elements that weigh nothing may be added or left out. */
  lemma {:induction false} SumOfZeros<T(!new)>(s: set<T>, t: set<T>, f: T -> int)
    requires s <= t && forall x | x in t - s :: f(x) == 0
    ensures SumOver(t, f) == SumOver(s, f)
    decreases t
  {
    if x :| x in t && x !in s {
      SumPull(t, f, x);
      SumOfZeros(s, t - {x}, f);
    } else {
      assert forall x | x in t :: x in s;
      assert s == t;
    }
  }

  lemma {:induction false} SumAtLeast<T(!new)>(s: set<T>, f: T -> int, x: T)
    requires x in s && forall y | y in s :: f(y) >= 0
    ensures SumOver(s, f) >= f(x)
  {
    SumPull(s, f, x);
    SumNonneg(s - {x}, f);
  }

  lemma {:induction false} SumNonneg<T(!new)>(s: set<T>, f: T -> int)
    requires forall y | y in s :: f(y) >= 0
    ensures SumOver(s, f) >= 0
    decreases s
  {
    if s != {} {
      var x :| x in s;
      SumPull(s, f, x);
      SumNonneg(s - {x}, f);
    }
  }

  /** A sum in two parts. */
  lemma {:induction false} SumSplit<T(!new)>(s: set<T>, part: set<T>, f: T -> int)
    ensures SumOver(s, f) == SumOver(s * part, f) + SumOver(s - part, f)
    decreases s
  {
    if x :| x in s {
      SumPull(s, f, x);
      SumSplit(s - {x}, part, f);
      if x in part {
        SumPull(s * part, f, x);
        assert s * part - {x} == (s - {x}) * part && s - part == s - {x} - part;
      } else {
        SumPull(s - part, f, x);
        assert s - part - {x} == s - {x} - part && s * part == (s - {x}) * part;
      }
    }
  }
}
