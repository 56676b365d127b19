/** Finite sums over sets, the meaning of the accumulation loops over Go maps. */
module Sums {

  ghost function Sum<T(!new)>(s: set<T>, f: T -> int): int
  {
    if s == {} then 0 else
      var x :| x in s;
      f(x) + Sum(s - {x}, f)
  }

  lemma {:induction false} SumRemove<T(!new)>(s: set<T>, x: T, f: T -> int)
    requires x in s
    ensures Sum(s, f) == f(x) + Sum(s - {x}, f)
    decreases |s|
  {
    var y :| y in s && Sum(s, f) == f(y) + Sum(s - {y}, f);
    if x != y {
      SumRemove(s - {y}, x, f);
      SumRemove(s - {x}, y, f);
      assert s - {y} - {x} == s - {x} - {y};
    }
  }

  lemma SumAdd<T(!new)>(s: set<T>, x: T, f: T -> int)
    requires x !in s
    ensures Sum(s + {x}, f) == Sum(s, f) + f(x)
  {
    SumRemove(s + {x}, x, f);
    assert s + {x} - {x} == s;
  }

  /** One step of a loop that visits the elements of `all` in any order. */
  lemma SumVisit<T(!new)>(all: set<T>, todo: set<T>, x: T, f: T -> int)
    requires x in todo && todo <= all
    ensures Sum(all - (todo - {x}), f) == Sum(all - todo, f) + f(x)
  {
    assert all - (todo - {x}) == all - todo + {x};
    SumAdd(all - todo, x, f);
  }

  lemma SumVisited<T(!new)>(all: set<T>, f: T -> int)
    ensures Sum(all - all, f) == 0
    ensures Sum(all - {}, f) == Sum(all, f)
  {
    assert all - all == {};
    assert all - {} == all;
  }

  lemma {:induction false} SumCongruent<T(!new)>(s: set<T>, f: T -> int, g: T -> int)
    requires forall x <- s :: f(x) == g(x)
    ensures Sum(s, f) == Sum(s, g)
    decreases |s|
  {
    if s != {} {
      var x :| x in s;
      SumRemove(s, x, f);
      SumRemove(s, x, g);
      SumCongruent(s - {x}, f, g);
    }
  }

  lemma {:induction false} SumUnion<T(!new)>(a: set<T>, b: set<T>, f: T -> int)
    requires a !! b
    ensures Sum(a + b, f) == Sum(a, f) + Sum(b, f)
    decreases |a|
  {
    if a == {} {
      assert a + b == b;
    } else {
      var x :| x in a;
      SumRemove(a, x, f);
      SumRemove(a + b, x, f);
      assert a + b - {x} == (a - {x}) + b;
      SumUnion(a - {x}, b, f);
    }
  }

  /** Elements that contribute nothing may be left out. */
  lemma {:induction false} SumDropZeros<T(!new)>(s: set<T>, t: set<T>, f: T -> int)
    requires t <= s
    requires forall x <- s - t :: f(x) == 0
    ensures Sum(s, f) == Sum(t, f)
    decreases |s|
  {
    if s - t == {} {
      assert s == t;
    } else {
      var x :| x in s - t;
      SumRemove(s, x, f);
      SumDropZeros(s - {x}, t, f);
    }
  }

  /** Re-indexing along an injection `key`. */
  lemma {:induction false} SumImage<S(!new), T(!new)>(s: set<S>, key: S -> T, f: T -> int, g: S -> int, image: set<T>)
    requires forall x, y :: x in s && y in s && key(x) == key(y) ==> x == y
    requires forall x <- s :: key(x) in image && f(key(x)) == g(x)
    requires forall y <- image :: exists x :: x in s && key(x) == y
    ensures Sum(image, f) == Sum(s, g)
    decreases |s|
  {
    if s == {} {
      assert image == {};
    } else {
      var x :| x in s;
      SumRemove(s, x, g);
      SumRemove(image, key(x), f);
      SumImage(s - {x}, key, f, g, image - {key(x)});
    }
  }

  lemma SumZero<T(!new)>(s: set<T>, f: T -> int)
    requires forall x <- s :: f(x) == 0
    ensures Sum(s, f) == 0
  {
    SumDropZeros(s, {}, f);
  }

  lemma SumSingle<T(!new)>(s: set<T>, x: T, f: T -> int)
    requires x in s
    requires forall y <- s :: y == x || f(y) == 0
    ensures Sum(s, f) == f(x)
  {
    SumRemove(s, x, f);
    SumZero(s - {x}, f);
  }

  ghost function Group<T(!new), G(!new)>(s: set<T>, tag: T -> G, g: G): set<T>
  {
    set x | x in s && tag(x) == g
  }

  lemma SumSplitsOff<T(!new), G(!new)>(s: set<T>, tag: T -> G, g: G, f: T -> int)
    ensures Sum(s, f) == Sum(s - Group(s, tag, g), f) + Sum(Group(s, tag, g), f)
  {
    assert s == s - Group(s, tag, g) + Group(s, tag, g);
    SumUnion(s - Group(s, tag, g), Group(s, tag, g), f);
  }

  lemma OtherGroupsStay<T(!new), G(!new)>(s: set<T>, tag: T -> G, g: G, h: G)
    requires g != h
    ensures Group(s - Group(s, tag, g), tag, h) == Group(s, tag, h)
  {
  }

  /** A sum may be taken group by group. */
  lemma {:induction false} SumByGroup<T(!new), G(!new)>(s: set<T>, tag: T -> G, groups: set<G>, f: T -> int, total: G -> int)
    requires forall x <- s :: tag(x) in groups
    requires forall g <- groups :: Sum(Group(s, tag, g), f) == total(g)
    ensures Sum(s, f) == Sum(groups, total)
    decreases |groups|
  {
    if groups == {} {
      assert s == {};
    } else {
      var g :| g in groups;
      var rest := s - Group(s, tag, g);
      forall h <- groups - {g}
        ensures Sum(Group(rest, tag, h), f) == total(h)
      {
        OtherGroupsStay(s, tag, g, h);
      }
      SumByGroup(rest, tag, groups - {g}, f, total);
      SumSplitsOff(s, tag, g, f);
      SumRemove(groups, g, total);
    }
  }

  lemma {:induction false} SumOfNonPositives<T(!new)>(s: set<T>, f: T -> int)
    requires forall x <- s :: f(x) <= 0
    ensures Sum(s, f) <= 0
    ensures Sum(s, f) == 0 <==> forall x <- s :: f(x) == 0
    decreases |s|
  {
    if s != {} {
      var x :| x in s;
      SumRemove(s, x, f);
      SumOfNonPositives(s - {x}, f);
    }
  }

  /** Counting is adding ones. */
  lemma {:induction false} SumOfOnes<T(!new)>(s: set<T>, t: set<T>, f: T -> int)
    requires t <= s && forall x <- s :: f(x) == if x in t then 1 else 0
    ensures Sum(s, f) == |t|
    decreases |t|
  {
    if t == {} {
      SumZero(s, f);
    } else {
      var x :| x in t;
      SumRemove(s, x, f);
      SumOfOnes(s - {x}, t - {x}, f);
    }
  }
}
