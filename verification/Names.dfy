/** Python's `sorted` on sets of strings. */
module Names {

  /** Code point order. */
  predicate Leq(a: string, b: string) {
    a == "" || (b != "" && (a[0] < b[0] || (a[0] == b[0] && Leq(a[1..], b[1..]))))
  }

  lemma {:induction false} LeqTotal(a: string, b: string)
    ensures Leq(a, b) || Leq(b, a)
    ensures Leq(a, b) && Leq(b, a) ==> a == b
  {
    if a != "" && b != "" && a[0] == b[0] {
      LeqTotal(a[1..], b[1..]);
      assert a == [a[0]] + a[1..] && b == [b[0]] + b[1..];
    }
  }

  lemma {:induction false} LeqTransitive(a: string, b: string, c: string)
    requires Leq(a, b) && Leq(b, c)
    ensures Leq(a, c)
  {
    if a != "" && a[0] == b[0] && b[0] == c[0] {
      LeqTransitive(a[1..], b[1..], c[1..]);
    }
  }

  predicate IsLeast(m: string, s: set<string>) {
    m in s && forall x | x in s :: Leq(m, x)
  }

  lemma {:induction false} LeastExists(s: set<string>)
    requires s != {}
    ensures exists m :: IsLeast(m, s)
  {
    var x :| x in s;
    if s == {x} {
      LeqTotal(x, x);
      assert IsLeast(x, s);
    } else {
      LeastExists(s - {x});
      var m :| IsLeast(m, s - {x});
      LeqTotal(m, x);
      LeqTotal(x, x);
      if Leq(m, x) {
        assert IsLeast(m, s);
      } else {
        forall y | y in s
          ensures Leq(x, y)
        {
          if y != x {
            LeqTransitive(x, m, y);
          }
        }
        assert IsLeast(x, s);
      }
    }
  }

  lemma LeastIsUnique(s: set<string>, a: string, b: string)
    requires IsLeast(a, s) && IsLeast(b, s)
    ensures a == b
  {
    LeqTotal(a, b);
  }

  function Least(s: set<string>): (m: string)
    requires s != {}
    ensures IsLeast(m, s)
  {
    LeastExists(s);
    assert forall a, b | IsLeast(a, s) && IsLeast(b, s) :: a == b by {
      forall a, b | IsLeast(a, s) && IsLeast(b, s) {
        LeastIsUnique(s, a, b);
      }
    }
    var m :| m in s && IsLeast(m, s);
    m
  }

  /** The elements in ascending order, each once. */
  function Sorted(s: set<string>): (r: seq<string>)
    ensures forall x :: x in r <==> x in s
  {
    if s == {} then [] else [Least(s)] + Sorted(s - {Least(s)})
  }

  lemma {:induction false} SortedIsAscending(s: set<string>)
    ensures forall i, j | 0 <= i < j < |Sorted(s)| :: Leq(Sorted(s)[i], Sorted(s)[j]) && Sorted(s)[i] != Sorted(s)[j]
  {
    if s != {} {
      SortedIsAscending(s - {Least(s)});
      var r, rest := Sorted(s), Sorted(s - {Least(s)});
      forall i, j | 0 <= i < j < |r|
        ensures Leq(r[i], r[j]) && r[i] != r[j]
      {
        assert r[j] == rest[j - 1] && r[j] in rest;
        assert i > 0 ==> r[i] == rest[i - 1];
      }
    }
  }

  function Elements(s: seq<string>): set<string> {
    set x | x in s
  }
}
