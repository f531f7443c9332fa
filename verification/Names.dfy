/** The order in which Python's sorted() goes through a set of names: by their code points. */
module Names {
  predicate AtMost(a: string, b: string) {
    a == "" || (b != "" && (a[0] < b[0] || (a[0] == b[0] && AtMost(a[1..], b[1..]))))
  }

  lemma {:induction false} Total(a: string, b: string)
    ensures AtMost(a, b) || AtMost(b, a)
    decreases |a|
  {
    if a != "" && b != "" {
      Total(a[1..], b[1..]);
    }
  }

  lemma {:induction false} Antisymmetric(a: string, b: string)
    requires AtMost(a, b) && AtMost(b, a)
    ensures a == b
    decreases |a|
  {
    if a != "" {
      Antisymmetric(a[1..], b[1..]);
      assert a == [a[0]] + a[1..] && b == [b[0]] + b[1..];
    }
  }

  lemma {:induction false} Transitive(a: string, b: string, c: string)
    requires AtMost(a, b) && AtMost(b, c)
    ensures AtMost(a, c)
    decreases |a|
  {
    if a != "" && a[0] == b[0] == c[0] {
      Transitive(a[1..], b[1..], c[1..]);
    }
  }

  predicate IsLeast(names: set<string>, m: string) {
    m in names && forall n :: n in names ==> AtMost(m, n)
  }

  method Least(names: set<string>) returns (m: string)
    requires names != {}
    ensures IsLeast(names, m)
  {
    m :| m in names;
    Total(m, m);
    var todo := names - {m};
    while todo != {}
      invariant m in names && todo <= names
      invariant forall n :: n in names - todo ==> AtMost(m, n)
      decreases |todo|
    {
      var n :| n in todo;
      todo := todo - {n};
      Total(n, n);
      Total(m, n);
      if !AtMost(m, n) {
        forall x | x in names - todo - {n} ensures AtMost(n, x) {
          Transitive(n, m, x);
        }
        m := n;
      }
    }
  }

  lemma {:induction false} LeastExists(names: set<string>)
    requires names != {}
    ensures exists m :: IsLeast(names, m)
    decreases |names|
  {
    var x :| x in names;
    Total(x, x);
    if names == {x} {
      assert IsLeast(names, x);
    } else {
      LeastExists(names - {x});
      var m :| IsLeast(names - {x}, m);
      Total(m, x);
      if AtMost(m, x) {
        assert IsLeast(names, m);
      } else {
        forall n | n in names ensures AtMost(x, n) {
          if n != x {
            Transitive(x, m, n);
          }
        }
        assert IsLeast(names, x);
      }
    }
  }

  /** sorted(names). */
  ghost function Sorted(names: set<string>): (order: seq<string>)
    ensures forall n :: n in order <==> n in names
    decreases |names|
  {
    if names == {} then []
    else
      LeastExists(names);
      var m :| IsLeast(names, m);
      [m] + Sorted(names - {m})
  }

  lemma LeastComesFirst(names: set<string>, m: string)
    requires IsLeast(names, m)
    ensures Sorted(names) == [m] + Sorted(names - {m})
  {
    forall n | IsLeast(names, n) ensures n == m {
      Antisymmetric(m, n);
    }
  }

  /** Every name once, each before the greater ones. */
  lemma {:induction false} SortedAscends(names: set<string>)
    ensures var order := Sorted(names);
            forall i, j :: 0 <= i < j < |order| ==> AtMost(order[i], order[j]) && order[i] != order[j]
    decreases |names|
  {
    if names != {} {
      var order := Sorted(names);
      LeastExists(names);
      var m :| IsLeast(names, m);
      LeastComesFirst(names, m);
      SortedAscends(names - {m});
      forall i, j | 0 <= i < j < |order|
        ensures AtMost(order[i], order[j]) && order[i] != order[j]
      {
        assert order[j] == Sorted(names - {m})[j - 1];
        if i > 0 {
          assert order[i] == Sorted(names - {m})[i - 1];
        }
      }
    }
  }

  // ---------------------------------------------------------------- going through the names in order

  /** `done` is the beginning of sorted(names), and `todo` are the names after it. */
  ghost predicate SortedSoFar(names: set<string>, done: seq<string>, todo: set<string>) {
    (forall n :: n in done ==> n in names) && Sorted(names) == done + Sorted(todo)
  }

  lemma OneNameMore(names: set<string>, done: seq<string>, todo: set<string>, m: string)
    requires SortedSoFar(names, done, todo) && IsLeast(todo, m) && todo <= names
    ensures SortedSoFar(names, done + [m], todo - {m})
  {
    LeastComesFirst(todo, m);
    assert done + ([m] + Sorted(todo - {m})) == done + [m] + Sorted(todo - {m});
  }

  lemma AllSorted(names: set<string>, done: seq<string>)
    requires SortedSoFar(names, done, {})
    ensures done == Sorted(names)
  {
    assert done + [] == done;
  }
}
