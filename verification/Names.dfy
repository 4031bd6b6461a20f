/** Names and sorted listings of finite sets of names.

    Rust's `BTreeSet<String>` and Python's `sorted` both list strings in
    code-point order, so one order serves every component of the model. */
module Names {

  datatype Option<+T> = None | Some(value: T)

  /** What a map has for a key, if anything. */
  function Lookup<V>(m: map<string, V>, key: string): Option<V> {
    if key in m then Some(m[key]) else None
  }

  /** Lexicographic order by code point. */
  predicate Le(a: string, b: string) {
    a == [] ||
    (b != [] && (a[0] < b[0] || (a[0] == b[0] && Le(a[1..], b[1..]))))
  }

  predicate Lt(a: string, b: string) {
    Le(a, b) && a != b
  }

  ghost predicate StrictlySorted(xs: seq<string>) {
    forall i, j :: 0 <= i < j < |xs| ==> Lt(xs[i], xs[j])
  }

  function Elements<T>(xs: seq<T>): set<T> {
    set x | x in xs
  }

  lemma {:induction false} LeTotal(a: string, b: string)
    ensures Le(a, b) || Le(b, a)
  {
    if a != [] && b != [] && a[0] == b[0] {
      LeTotal(a[1..], b[1..]);
    }
  }

  lemma {:induction false} LeAntisymmetric(a: string, b: string)
    requires Le(a, b) && Le(b, a)
    ensures a == b
  {
    if a != [] {
      LeAntisymmetric(a[1..], b[1..]);
      assert a == [a[0]] + a[1..] && b == [b[0]] + b[1..];
    }
  }

  lemma {:induction false} LeTransitive(a: string, b: string, c: string)
    requires Le(a, b) && Le(b, c)
    ensures Le(a, c)
  {
    if a != [] && a[0] == b[0] && b[0] == c[0] {
      LeTransitive(a[1..], b[1..], c[1..]);
    }
  }

  /** Every nonempty finite set of names has a least member. */
  lemma LeastExists(s: set<string>)
    requires s != {}
    ensures exists m :: m in s && forall y :: y in s ==> Le(m, y)
  {
    var x :| x in s;
    var rest := s - {x};
    if rest == {} {
      assert s == {x};
      LeTotal(x, x);
    } else {
      LeastExists(rest);
      var m :| m in rest && forall y :: y in rest ==> Le(m, y);
      LeTotal(x, m);
      var least := if Le(x, m) then x else m;
      forall y | y in s ensures Le(least, y) {
        if y == x {
          LeTotal(x, x);
        } else if least == x {
          LeTransitive(x, m, y);
        }
      }
    }
  }

  function Least(s: set<string>): (m: string)
    requires s != {}
    ensures m in s && forall y :: y in s ==> Le(m, y)
  {
    LeastExists(s);
    assert forall a, b | a in s && b in s && Le(a, b) && Le(b, a) :: a == b by {
      forall a, b | a in s && b in s && Le(a, b) && Le(b, a) ensures a == b {
        LeAntisymmetric(a, b);
      }
    }
    var m :| m in s && forall y :: y in s ==> Le(m, y);
    m
  }

  /** The members of `s` in increasing order. */
  function Sorted(s: set<string>): (xs: seq<string>)
    ensures StrictlySorted(xs)
    ensures Elements(xs) == s
    decreases |s|
  {
    if s == {} then []
    else
      var m := Least(s);
      var rest := Sorted(s - {m});
      assert forall k :: 0 <= k < |rest| ==> rest[k] in Elements(rest);
      assert forall x :: x in [m] + rest <==> x == m || x in Elements(rest);
      [m] + rest
  }

  /** A strictly sorted listing is determined by its members. */
  lemma {:induction false} SortedUnique(xs: seq<string>, ys: seq<string>)
    requires StrictlySorted(xs) && StrictlySorted(ys)
    requires Elements(xs) == Elements(ys)
    ensures xs == ys
  {
    assert ys != [] ==> ys[0] in Elements(xs);
    if xs != [] {
      assert xs[0] in Elements(xs);
      HeadIsLeast(xs, ys[0]);
      HeadIsLeast(ys, xs[0]);
      LeAntisymmetric(xs[0], ys[0]);
      TailElements(xs);
      TailElements(ys);
      SortedUnique(xs[1..], ys[1..]);
      assert xs == [xs[0]] + xs[1..] && ys == [ys[0]] + ys[1..];
    }
  }

  lemma HeadIsLeast(xs: seq<string>, x: string)
    requires StrictlySorted(xs) && x in Elements(xs)
    ensures Le(xs[0], x)
  {
    LeTotal(x, x);
  }

  lemma TailElements(xs: seq<string>)
    requires StrictlySorted(xs) && xs != []
    ensures Elements(xs[1..]) == Elements(xs) - {xs[0]}
    ensures StrictlySorted(xs[1..])
  {
    forall x ensures x in Elements(xs[1..]) <==> x in Elements(xs) && x != xs[0] {
      if x in xs[1..] {
        var i :| 0 <= i < |xs| - 1 && xs[1..][i] == x;
        assert Lt(xs[0], xs[i + 1]);
      }
    }
  }
}
