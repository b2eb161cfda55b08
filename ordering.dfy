/**
 * Strict total orders and the ascending enumeration of a finite set under
 * one: the order in which `std::set` and `std::map` hand out their elements.
 */
module Ordering {

  ghost predicate Irreflexive<T(!new)>(lt: (T, T) -> bool) { forall x :: !lt(x, x) }

  ghost predicate Transitive<T(!new)>(lt: (T, T) -> bool)
  {
    forall x, y, z :: lt(x, y) && lt(y, z) ==> lt(x, z)
  }

  ghost predicate Connected<T(!new)>(lt: (T, T) -> bool)
  {
    forall x, y :: x != y ==> lt(x, y) || lt(y, x)
  }

  /** The requirement `std::set` and `std::map` place on their comparison, with equivalence being equality. */
  ghost predicate StrictTotal<T(!new)>(lt: (T, T) -> bool)
  {
    Irreflexive(lt) && Transitive(lt) && Connected(lt)
  }

  predicate IsLeast<T>(m: T, s: set<T>, lt: (T, T) -> bool)
  {
    m in s && forall x :: x in s && x != m ==> lt(m, x)
  }

  /** Strictly ascending sequences have distinct elements in order. */
  predicate Ascending<T>(xs: seq<T>, lt: (T, T) -> bool)
  {
    forall i, j :: 0 <= i < j < |xs| ==> lt(xs[i], xs[j])
  }

  lemma {:induction false} LeastExists<T(!new)>(s: set<T>, lt: (T, T) -> bool)
    requires s != {} && StrictTotal(lt)
    ensures exists m :: IsLeast(m, s, lt)
    decreases |s|
  {
    var x :| x in s;
    if s == {x} {
      assert IsLeast(x, s, lt);
    } else {
      LeastExists(s - {x}, lt);
      var m :| IsLeast(m, s - {x}, lt);
      if lt(x, m) {
        forall y | y in s && y != x ensures lt(x, y) {
          if y != m { assert lt(m, y); }
        }
        assert IsLeast(x, s, lt);
      } else {
        assert IsLeast(m, s, lt);
      }
    }
  }

  lemma LeastUnique<T(!new)>(a: T, b: T, s: set<T>, lt: (T, T) -> bool)
    requires StrictTotal(lt) && IsLeast(a, s, lt) && IsLeast(b, s, lt)
    ensures a == b
  {
  }

  /** The elements of a finite set in ascending order, least first. */
  function Sorted<T(!new)>(s: set<T>, lt: (T, T) -> bool): (xs: seq<T>)
    requires StrictTotal(lt)
    ensures |xs| == |s|
    ensures forall x :: x in s <==> x in xs
    ensures Ascending(xs, lt)
    decreases |s|
  {
    if s == {} then []
    else
      LeastExists(s, lt);
      var m :| IsLeast(m, s, lt);
      var rest := Sorted(s - {m}, lt);
      assert forall j :: 0 <= j < |rest| ==> lt(m, rest[j]);
      [m] + rest
  }

  lemma SortedSingleton<T(!new)>(x: T, lt: (T, T) -> bool)
    requires StrictTotal(lt)
    ensures Sorted({x}, lt) == [x]
  {
  }

  /** Lexicographic order of character strings, as `std::basic_string::operator<` compares code units. */
  function SeqLess(a: seq<int>, b: seq<int>): (r: bool)
    ensures r ==> a != b
    ensures |a| < |b| && a == b[..|a|] ==> r
  {
    if |b| == 0 then false
    else if |a| == 0 then true
    else if a[0] != b[0] then a[0] < b[0]
    else SeqLess(a[1..], b[1..])
  }

  lemma {:induction false} SeqLessTransitive(a: seq<int>, b: seq<int>, c: seq<int>)
    requires SeqLess(a, b) && SeqLess(b, c)
    ensures SeqLess(a, c)
  {
    if |a| > 0 && a[0] == b[0] && b[0] == c[0] {
      SeqLessTransitive(a[1..], b[1..], c[1..]);
    }
  }

  lemma {:induction false} SeqLessConnected(a: seq<int>, b: seq<int>)
    requires a != b
    ensures SeqLess(a, b) || SeqLess(b, a)
  {
    if |a| > 0 && |b| > 0 && a[0] == b[0] {
      assert a == [a[0]] + a[1..] && b == [b[0]] + b[1..];
      SeqLessConnected(a[1..], b[1..]);
    }
  }

  lemma SeqLessTotal()
    ensures StrictTotal(SeqLess)
  {
    forall a, b, c | SeqLess(a, b) && SeqLess(b, c) ensures SeqLess(a, c) {
      SeqLessTransitive(a, b, c);
    }
    forall a, b | a != b ensures SeqLess(a, b) || SeqLess(b, a) {
      SeqLessConnected(a, b);
    }
  }
}
