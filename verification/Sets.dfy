/** Finite sets: sizes, least and greatest elements, and the sorted list of a set of times. */
module Sets {
  import opened Types

  lemma {:induction false} SubsetSize<T>(a: set<T>, b: set<T>)
    requires a <= b
    ensures |a| <= |b|
  {
    if a != {} {
      var x :| x in a;
      SubsetSize(a - {x}, b - {x});
    }
  }

  lemma {:induction false} LeastOf(s: set<int>, x: int) returns (m: int)
    requires x in s
    ensures m in s && forall y :: y in s ==> m <= y
    decreases |s|
  {
    if forall y :: y in s ==> x <= y {
      m := x;
    } else {
      var y :| y in s && y < x;
      var rest := s - {x};
      m := LeastOf(rest, y);
      assert s == rest + {x};
    }
  }

  lemma {:induction false} Member<T>(s: set<T>) returns (x: T)
    requires s != {}
    ensures x in s
  {
    x :| x in s;
  }

  lemma {:induction false} LeastExists(s: set<int>)
    requires s != {}
    ensures exists m :: m in s && forall y :: y in s ==> m <= y
  {
    var x := Member(s);
    var m := LeastOf(s, x);
  }

  function Min(s: set<int>): (m: int)
    requires s != {}
    ensures m in s
    ensures forall y :: y in s ==> m <= y
  {
    LeastExists(s);
    var m :| m in s && forall y :: y in s ==> m <= y;
    m
  }

  lemma {:induction false} GreatestExists(s: set<int>)
    requires s != {}
    ensures exists m :: m in s && forall y :: y in s ==> y <= m
  {
    var mirrored := set x | x in s :: -x;
    var x := Member(s);
    assert -x in mirrored;
    var least := LeastOf(mirrored, -x);
    var m :| m in s && -m == least;
    assert forall y :: y in s ==> -y in mirrored;
  }

  function Max(s: set<int>): (m: int)
    requires s != {}
    ensures m in s
    ensures forall y :: y in s ==> y <= m
  {
    GreatestExists(s);
    var m :| m in s && forall y :: y in s ==> y <= m;
    m
  }

  lemma {:induction false} GreatestOf(s: set<real>, x: real) returns (m: real)
    requires x in s
    ensures m in s && forall y :: y in s ==> y <= m
    decreases |s|
  {
    if forall y :: y in s ==> y <= x {
      m := x;
    } else {
      var y :| y in s && x < y;
      var rest := s - {x};
      m := GreatestOf(rest, y);
      assert s == rest + {x};
    }
  }

  function Greatest(s: set<real>): (m: real)
    requires s != {}
    ensures m in s
    ensures forall y :: y in s ==> y <= m
  {
    assert exists m :: m in s && forall y :: y in s ==> y <= m by {
      var x := Member(s);
      var m := GreatestOf(s, x);
    }
    var m :| m in s && forall y :: y in s ==> y <= m;
    m
  }

  lemma {:induction false} SmallestOf(s: set<real>, x: real) returns (m: real)
    requires x in s
    ensures m in s && forall y :: y in s ==> m <= y
    decreases |s|
  {
    if forall y :: y in s ==> x <= y {
      m := x;
    } else {
      var y :| y in s && y < x;
      var rest := s - {x};
      m := SmallestOf(rest, y);
      assert s == rest + {x};
    }
  }

  function Least(s: set<real>): (m: real)
    requires s != {}
    ensures m in s
    ensures forall y :: y in s ==> m <= y
  {
    assert exists m :: m in s && forall y :: y in s ==> m <= y by {
      var x := Member(s);
      var m := SmallestOf(s, x);
    }
    var m :| m in s && forall y :: y in s ==> m <= y;
    m
  }

  /** The elements of a finite set in increasing order. */
  function Sorted(s: set<int>): (r: seq<int>)
    ensures forall t :: t in r <==> t in s
    ensures |r| == |s|
  {
    if s == {} then [] else [Min(s)] + Sorted(s - {Min(s)})
  }

  lemma {:induction false} SortedIncreases(s: set<int>)
    ensures StrictlyIncreasing(Sorted(s))
  {
    if s != {} {
      var m := Min(s);
      var rest := Sorted(s - {m});
      SortedIncreases(s - {m});
      ConsIncreases(m, rest);
    }
  }

  lemma {:induction false} ConsIncreases(m: int, rest: seq<int>)
    requires StrictlyIncreasing(rest) && forall t :: t in rest ==> m < t
    ensures StrictlyIncreasing([m] + rest)
  {
    var all := [m] + rest;
    forall i, j | 0 <= i < j < |all| ensures all[i] < all[j] {
      assert all[j] == rest[j - 1] && rest[j - 1] in rest;
      assert i > 0 ==> all[i] == rest[i - 1];
    }
  }

  lemma {:induction false} TailElements(r: seq<int>, t: int)
    requires StrictlyIncreasing(r) && r != []
    ensures t in r[1..] <==> t in r && t != r[0]
  {
  }

  /** A strictly increasing list is the sorted list of its own elements. */
  lemma {:induction false} SortedIsUnique(r: seq<int>, s: set<int>)
    requires StrictlyIncreasing(r) && forall t :: t in r <==> t in s
    ensures r == Sorted(s)
  {
    hide StrictlyIncreasing;
    if s == {} {
      HasMember(r, s);
    } else {
      var m := Min(s);
      FirstIsLeast(r, s);
      forall t ensures t in r[1..] <==> t in s - {m} { TailElements(r, t); }
      TailIncreases(r);
      SortedIsUnique(r[1..], s - {m});
      assert r == [m] + r[1..];
    }
  }

  lemma {:induction false} HasMember(r: seq<int>, s: set<int>)
    requires forall t :: t in r <==> t in s
    ensures r != [] ==> s != {}
  {
    if r != [] {
      var first := r[0];
      assert first in r;
    }
  }

  lemma {:induction false} FirstIsLeast(r: seq<int>, s: set<int>)
    requires StrictlyIncreasing(r) && s != {} && forall t :: t in r <==> t in s
    ensures r != [] && r[0] == Min(s)
  {
    assert Min(s) in r;
    var i :| 0 <= i < |r| && r[i] == Min(s);
    assert r[0] in s;
  }

  lemma {:induction false} TailIncreases(r: seq<int>)
    requires StrictlyIncreasing(r) && r != []
    ensures StrictlyIncreasing(r[1..])
  {
  }
}
