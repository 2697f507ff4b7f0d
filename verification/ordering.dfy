/** Byte order on strings, and the sorted list of a set of strings: what `slices.Sort` and
    the map printer of `fmt` produce. */
module Ordering {
  import opened Kube

  predicate Leq(a: string, b: string) {
    a == [] || (b != [] && (a[0] < b[0] || (a[0] == b[0] && Leq(a[1..], b[1..]))))
  }

  lemma {:induction false} LeqTotal(a: string, b: string)
    ensures Leq(a, b) || Leq(b, a)
  {
    if a != [] && b != [] {
      LeqTotal(a[1..], b[1..]);
    }
  }

  lemma {:induction false} LeqAntisymmetric(a: string, b: string)
    requires Leq(a, b) && Leq(b, a)
    ensures a == b
  {
    if a != [] && b != [] {
      LeqAntisymmetric(a[1..], b[1..]);
      assert a == [a[0]] + a[1..] && b == [b[0]] + b[1..];
    }
  }

  lemma {:induction false} LeqTransitive(a: string, b: string, c: string)
    requires Leq(a, b) && Leq(b, c)
    ensures Leq(a, c)
  {
    if a != [] && a[0] == b[0] == c[0] {
      LeqTransitive(a[1..], b[1..], c[1..]);
    }
  }

  lemma {:induction false} LeastExists(s: set<string>)
    requires s != {}
    ensures exists m :: m in s && forall x | x in s :: Leq(m, x)
  {
    var y :| y in s;
    LeqTotal(y, y);
    if s != {y} {
      LeastExists(s - {y});
      var m :| m in s - {y} && forall x | x in s - {y} :: Leq(m, x);
      LeqTotal(m, y);
      var least := if Leq(m, y) then m else y;
      forall x | x in s ensures Leq(least, x) {
        if least == y && x != y {
          LeqTransitive(y, m, x);
        }
      }
      assert least in s;
    } else {
      assert y in s && forall x | x in s :: Leq(y, x);
    }
  }

  function Least(s: set<string>): (m: string)
    requires s != {}
    ensures m in s && forall x | x in s :: Leq(m, x)
  {
    LeastExists(s);
    assert forall a, b | a in s && b in s && (forall x | x in s :: Leq(a, x)) && (forall x | x in s :: Leq(b, x)) :: a == b by {
      forall a, b | a in s && b in s && (forall x | x in s :: Leq(a, x)) && (forall x | x in s :: Leq(b, x))
        ensures a == b
      {
        LeqAntisymmetric(a, b);
      }
    }
    var m :| m in s && forall x | x in s :: Leq(m, x);
    m
  }

  ghost predicate Sorted(s: seq<string>) {
    forall i, j | 0 <= i < j < |s| :: Leq(s[i], s[j])
  }

  function SortedSeq(s: set<string>): (r: seq<string>)
    ensures IsOrder(r, s) && Sorted(r) && |r| == |s|
  {
    if s == {} then [] else var m := Least(s); [m] + SortedSeq(s - {m})
  }

  lemma DropFirst(r: seq<string>, s: set<string>)
    requires IsOrder(r, s) && r != []
    ensures IsOrder(r[1..], s - {r[0]})
  {
    var rest := r[1..];
    forall x ensures x in rest <==> x in s - {r[0]} {
      if x in s && x != r[0] {
        var j :| 0 <= j < |r| && r[j] == x;
        assert rest[j - 1] == x;
      }
      if x in rest {
        var j :| 0 <= j < |rest| && rest[j] == x;
        assert r[j + 1] == x && r[0] != r[j + 1];
      }
    }
  }

  lemma SortedStep(s: set<string>)
    requires s != {}
    ensures SortedSeq(s) == [Least(s)] + SortedSeq(s - {Least(s)})
  {
  }

  lemma FirstIsLeast(r: seq<string>, s: set<string>)
    requires IsOrder(r, s) && Sorted(r) && r != []
    ensures s != {} && r[0] == Least(s)
  {
    assert r[0] in s;
    var m := Least(s);
    var i :| 0 <= i < |r| && r[i] == m;
    LeqTotal(m, m);
    assert Leq(r[0], r[i]);
    LeqAntisymmetric(r[0], m);
  }

  /** A set has one sorted enumeration only. */
  lemma {:induction false} SortedSeqUnique(r: seq<string>, s: set<string>)
    requires IsOrder(r, s) && Sorted(r)
    ensures r == SortedSeq(s)
  {
    if r == [] {
      assert forall x | x in s :: x in r;
    } else {
      FirstIsLeast(r, s);
      DropFirst(r, s);
      SortedSeqUnique(r[1..], s - {r[0]});
      SortedStep(s);
      assert r == [r[0]] + r[1..];
    }
  }

  /** `slices.Sort` on a list without repetitions. */
  method SortStrings(s: seq<string>) returns (r: seq<string>)
    requires NoDup(s)
    ensures r == SortedSeq(Elements(s))
  {
    r := [];
    var rest := Elements(s);
    ghost var goal := SortedSeq(rest);
    while rest != {}
      invariant goal == r + SortedSeq(rest)
      decreases |rest|
    {
      var m := Least(rest);
      SortedStep(rest);
      Associate(r, [m], SortedSeq(rest - {m}));
      r := r + [m];
      rest := rest - {m};
    }
  }
}
