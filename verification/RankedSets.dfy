/** The k highest members of a finite set under a strict total order. */
module RankedSets {
  import opened Sets

  ghost predicate StrictTotal<T(!new)>(above: (T, T) -> bool) {
    && (forall x :: !above(x, x))
    && (forall x, y, z :: above(x, y) && above(y, z) ==> above(x, z))
    && (forall x, y :: x == y || above(x, y) || above(y, x))
  }

  ghost function Higher<T(!new)>(s: set<T>, above: (T, T) -> bool, x: T): set<T> {
    set y | y in s && above(y, x)
  }

  /** The members with fewer than k others above them. */
  ghost function Top<T(!new)>(s: set<T>, above: (T, T) -> bool, k: nat): set<T> {
    set x | x in s && |Higher(s, above, x)| < k
  }

  lemma Chain<T(!new)>(above: (T, T) -> bool, x: T, y: T, z: T)
    requires StrictTotal(above) && (x == y || above(x, y)) && above(y, z)
    ensures above(x, z)
  {
  }

  lemma Comparable<T(!new)>(above: (T, T) -> bool, x: T, y: T)
    requires StrictTotal(above)
    ensures x == y || above(x, y) || above(y, x)
  {
  }

  ghost predicate IsLowest<T(!new)>(s: set<T>, above: (T, T) -> bool, x: T) {
    x in s && forall y | y in s :: y == x || above(y, x)
  }

  ghost predicate IsHighest<T(!new)>(s: set<T>, above: (T, T) -> bool, x: T) {
    x in s && forall y | y in s :: y == x || above(x, y)
  }

  lemma {:induction false} LowestExists<T(!new)>(s: set<T>, above: (T, T) -> bool)
    requires StrictTotal(above) && s != {}
    ensures exists x :: IsLowest(s, above, x)
    decreases |s|
  {
    hide StrictTotal;
    var x :| x in s;
    if s == {x} {
      assert IsLowest(s, above, x);
    } else {
      LowestExists(s - {x}, above);
      var m :| IsLowest(s - {x}, above, m);
      Comparable(above, x, m);
      if above(m, x) {
        forall y | y in s ensures y == x || above(y, x) {
          if y != x { Chain(above, y, m, x); }
        }
        assert IsLowest(s, above, x);
      } else {
        assert IsLowest(s, above, m);
      }
    }
  }

  lemma {:induction false} HighestExists<T(!new)>(s: set<T>, above: (T, T) -> bool)
    requires StrictTotal(above) && s != {}
    ensures exists x :: IsHighest(s, above, x)
  {
    var below := (x, y) => above(y, x);
    LowestExists(s, below);
    var x :| IsLowest(s, below, x);
    assert IsHighest(s, above, x);
  }

  /** There are k of them, or all there are. */
  lemma {:induction false} TopSize<T(!new)>(s: set<T>, above: (T, T) -> bool, k: nat)
    requires StrictTotal(above)
    ensures |Top(s, above, k)| == if |s| < k then |s| else k
    decreases |s|
  {
    if s == {} {
      assert Top(s, above, k) == {};
    } else {
      LowestExists(s, above);
      var m :| IsLowest(s, above, m);
      var rest := s - {m};
      TopSize(rest, above, k);
      forall x | x in rest ensures Higher(s, above, x) == Higher(rest, above, x) {
        assert above(x, m) && !above(m, x);
      }
      assert Higher(s, above, m) == rest;
      if |rest| < k {
        assert Top(s, above, k) == Top(rest, above, k) + {m};
      } else {
        assert Top(s, above, k) == Top(rest, above, k);
      }
    }
  }

  /** A member that is not among the k highest has all of them above it. */
  lemma TopIsAbove<T(!new)>(s: set<T>, above: (T, T) -> bool, k: nat, x: T)
    requires StrictTotal(above) && |Higher(s, above, x)| >= k
    ensures Top(s, above, k) <= Higher(s, above, x)
  {
    forall w | w in Top(s, above, k) ensures above(w, x) {
      if !above(w, x) {
        assert Higher(s, above, x) <= Higher(s, above, w);
        SubsetSize(Higher(s, above, x), Higher(s, above, w));
      }
    }
  }

  /** Whatever else a part leaves out, if it keeps the k highest, they are its own k highest. */
  lemma TopOfPart<T(!new)>(part: set<T>, s: set<T>, above: (T, T) -> bool, k: nat)
    requires StrictTotal(above) && part <= s && Top(s, above, k) <= part
    ensures Top(part, above, k) == Top(s, above, k)
  {
    forall x | x in part ensures |Higher(part, above, x)| < k <==> |Higher(s, above, x)| < k {
      SubsetSize(Higher(part, above, x), Higher(s, above, x));
      if |Higher(s, above, x)| >= k {
        TopIsAbove(s, above, k, x);
        SubsetSize(Top(s, above, k), Higher(part, above, x));
        SubsetSize(Higher(s, above, x), s);
        TopSize(s, above, k);
      }
    }
  }

  /** The k highest of a set are among the k highest of every part they lie in. */
  lemma TopReachesParts<T(!new)>(part: set<T>, s: set<T>, above: (T, T) -> bool, k: nat)
    requires part <= s
    ensures forall x | x in Top(s, above, k) && x in part :: x in Top(part, above, k)
  {
    forall x | x in Top(s, above, k) && x in part ensures x in Top(part, above, k) {
      SubsetSize(Higher(part, above, x), Higher(s, above, x));
    }
  }

  /** Cutting to the k highest before adding a member changes nothing. */
  lemma TopAfterAdd<T(!new)>(s: set<T>, above: (T, T) -> bool, k: nat, x: T)
    requires StrictTotal(above)
    ensures Top(Top(s, above, k) + {x}, above, k) == Top(s + {x}, above, k)
  {
    TopReachesParts(s, s + {x}, above, k);
    TopOfPart(Top(s, above, k) + {x}, s + {x}, above, k);
  }

  /** Two orders that agree on the k highest for every k are one order. */
  lemma SameCutsSameOrder<T(!new)>(s: set<T>, above: (T, T) -> bool, over: (T, T) -> bool)
    requires StrictTotal(above) && StrictTotal(over)
    requires forall k: nat :: Top(s, above, k) == Top(s, over, k)
    ensures forall x, y | x in s && y in s :: above(x, y) <==> over(x, y)
  {
    forall x, y | x in s && y in s && above(x, y) ensures over(x, y) {
      if !over(x, y) {
        var k := |Higher(s, above, x)| + 1;
        SubsetSize(Higher(s, above, x) + {x}, Higher(s, above, y));
        assert x in Top(s, above, k) && y !in Top(s, above, k);
        SubsetSize(Higher(s, over, y), Higher(s, over, x));
      }
    }
  }
}
