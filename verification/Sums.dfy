/** Finite sums over sets, sequences and the values of a map. */
module Sums {
  import opened Basics

  ghost function SumOver<T(!new)>(S: set<T>, f: T -> int): int {
    if S == {} then 0 else
      var x :| x in S;
      f(x) + SumOver(S - {x}, f)
  }

  /** The value does not depend on which element is taken out first. */
  lemma {:induction false} SumPick<T(!new)>(S: set<T>, f: T -> int, x: T)
    requires x in S
    ensures SumOver(S, f) == f(x) + SumOver(S - {x}, f)
    decreases |S|
  {
    var y :| y in S && SumOver(S, f) == f(y) + SumOver(S - {y}, f);
    if y != x {
      SumPick(S - {y}, f, x);
      SumPick(S - {x}, f, y);
      assert S - {y} - {x} == S - {x} - {y};
    }
  }

  lemma {:induction false} SumExt<T(!new)>(S: set<T>, f: T -> int, g: T -> int)
    requires forall x :: x in S ==> f(x) == g(x)
    ensures SumOver(S, f) == SumOver(S, g)
    decreases |S|
  {
    if S != {} {
      var x :| x in S;
      SumPick(S, f, x);
      SumPick(S, g, x);
      SumExt(S - {x}, f, g);
    }
  }

  lemma {:induction false} SumMono<T(!new)>(S: set<T>, f: T -> int, g: T -> int)
    requires forall x :: x in S ==> f(x) <= g(x)
    ensures SumOver(S, f) <= SumOver(S, g)
    decreases |S|
  {
    if S != {} {
      var x :| x in S;
      SumPick(S, f, x);
      SumPick(S, g, x);
      SumMono(S - {x}, f, g);
    }
  }

  lemma {:induction false} SumConstant<T(!new)>(S: set<T>, f: T -> int, v: int)
    requires forall x :: x in S ==> f(x) == v
    ensures SumOver(S, f) == v * |S|
    decreases |S|
  {
    if S != {} {
      var x :| x in S;
      SumPick(S, f, x);
      SumConstant(S - {x}, f, v);
    }
  }

  lemma {:induction false} SumPlus<T(!new)>(S: set<T>, f: T -> int, g: T -> int, h: T -> int)
    requires forall x :: x in S ==> h(x) == f(x) + g(x)
    ensures SumOver(S, h) == SumOver(S, f) + SumOver(S, g)
    decreases |S|
  {
    if S != {} {
      var x :| x in S;
      SumPick(S, f, x);
      SumPick(S, g, x);
      SumPick(S, h, x);
      SumPlus(S - {x}, f, g, h);
    }
  }

  lemma {:induction false} SumCongruent<T(!new)>(S: set<T>, f: T -> int, g: T -> int)
    requires forall x :: x in S ==> Congruent(f(x), g(x))
    ensures Congruent(SumOver(S, f), SumOver(S, g))
    decreases |S|
  {
    if S != {} {
      var x :| x in S;
      SumPick(S, f, x);
      SumPick(S, g, x);
      SumCongruent(S - {x}, f, g);
      CongruentSum(f(x), g(x), SumOver(S - {x}, f), SumOver(S - {x}, g));
    }
  }

  /** Elements on which f vanishes do not matter. */
  lemma {:induction false} SumSubset<T(!new)>(S: set<T>, U: set<T>, f: T -> int)
    requires S <= U
    requires forall x :: x in U && x !in S ==> f(x) == 0
    ensures SumOver(U, f) == SumOver(S, f)
    decreases |U|
  {
    if U == S {
    } else {
      var x :| x in U && x !in S;
      SumPick(U, f, x);
      SumSubset(S, U - {x}, f);
    }
  }

  lemma SumUnion<T(!new)>(A: set<T>, B: set<T>, f: T -> int)
    requires A !! B
    ensures SumOver(A + B, f) == SumOver(A, f) + SumOver(B, f)
    decreases |A|
  {
    if A == {} {
      assert A + B == B;
    } else {
      var x :| x in A;
      SumPick(A, f, x);
      SumPick(A + B, f, x);
      assert A + B - {x} == (A - {x}) + B;
      SumUnion(A - {x}, B, f);
    }
  }

  /** Summing rows first or columns first gives the same total. */
  lemma {:induction false} SumExchange<S(!new), C(!new)>(rows: set<S>, cols: set<C>,
                                                         rowOf: S -> (C -> int), colOf: C -> (S -> int),
                                                         byRow: S -> int, byCol: C -> int)
    requires forall s, c :: s in rows && c in cols ==> rowOf(s)(c) == colOf(c)(s)
    requires forall s :: s in rows ==> byRow(s) == SumOver(cols, rowOf(s))
    requires forall c :: c in cols ==> byCol(c) == SumOver(rows, colOf(c))
    ensures SumOver(rows, byRow) == SumOver(cols, byCol)
    decreases |rows|
  {
    if rows == {} {
      SumConstant(cols, byCol, 0);
    } else {
      var x :| x in rows;
      var rest := rows - {x};
      var restByCol := (c: C) => SumOver(rest, colOf(c));
      forall c | c in cols
        ensures byCol(c) == rowOf(x)(c) + restByCol(c)
      {
        SumPick(rows, colOf(c), x);
      }
      SumPlus(cols, rowOf(x), restByCol, byCol);
      SumExchange(rest, cols, rowOf, colOf, byRow, restByCol);
      SumPick(rows, byRow, x);
    }
  }

  ghost function SeqSum<T>(xs: seq<T>, f: T -> int): int {
    if xs == [] then 0 else SeqSum(xs[..|xs| - 1], f) + f(xs[|xs| - 1])
  }

  ghost predicate NoDuplicates<T>(xs: seq<T>) {
    forall i, j :: 0 <= i < j < |xs| ==> xs[i] != xs[j]
  }

  ghost function Elements<T>(xs: seq<T>): set<T> {
    set x | x in xs
  }

  lemma {:induction false} SeqSumIsSetSum<T(!new)>(xs: seq<T>, f: T -> int)
    requires NoDuplicates(xs)
    ensures SeqSum(xs, f) == SumOver(Elements(xs), f)
  {
    if xs == [] {
      assert Elements(xs) == {};
    } else {
      var last, front := xs[|xs| - 1], xs[..|xs| - 1];
      SeqSumIsSetSum(front, f);
      assert xs == front + [last];
      assert last in Elements(xs);
      SumPick(Elements(xs), f, last);
      assert Elements(front) == Elements(xs) - {last};
    }
  }

  lemma {:induction false} SeqSumExt<T(!new)>(xs: seq<T>, f: T -> int, g: T -> int)
    requires forall x :: x in xs ==> f(x) == g(x)
    ensures SeqSum(xs, f) == SeqSum(xs, g)
  {
    if xs != [] {
      SeqSumExt(xs[..|xs| - 1], f, g);
    }
  }

  ghost function MapTotal<K(!new)>(m: map<K, int>): int {
    SumOver(m.Keys, k => ValueOrZero(m, k))
  }

  lemma MapTotalUpdate<K(!new)>(m: map<K, int>, k: K, v: int)
    ensures MapTotal(m[k := v]) == MapTotal(m) - ValueOrZero(m, k) + v
  {
    var m' := m[k := v];
    SumPick(m'.Keys, x => ValueOrZero(m', x), k);
    SumExt(m.Keys - {k}, x => ValueOrZero(m, x), x => ValueOrZero(m', x));
    assert m'.Keys - {k} == m.Keys - {k};
    if k in m {
      SumPick(m.Keys, x => ValueOrZero(m, x), k);
    } else {
      assert m.Keys - {k} == m.Keys;
    }
  }
}
