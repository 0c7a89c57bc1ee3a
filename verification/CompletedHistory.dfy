/** The scheduler's bounded memory of finished slots: `_append_completed_slots`. */
module CompletedHistory {

  const HISTORY_LIMIT: nat := 1024

  /** Each element once, at the place of its last occurrence. */
  function LastOccurrences<T(==,!new)>(s: seq<T>): seq<T> {
    if s == [] then []
    else if s[0] in s[1..] then LastOccurrences(s[1..])
    else [s[0]] + LastOccurrences(s[1..])
  }

  function LastN<T>(s: seq<T>, n: nat): seq<T> {
    if |s| <= n then s else s[|s| - n..]
  }

  function Without<T(==,!new)>(s: seq<T>, banned: seq<T>): (r: seq<T>)
    ensures forall x :: x in r <==> x in s && x !in banned
  {
    if s == [] then []
    else (if s[0] in banned then [] else [s[0]]) + Without(s[1..], banned)
  }

  ghost predicate NoDuplicates<T>(s: seq<T>) {
    forall i, j :: 0 <= i < j < |s| ==> s[i] != s[j]
  }

  function Elements<T(!new)>(s: seq<T>): set<T> { set x | x in s }

  /** What the code keeps of a completion order: the most recent distinct ids. */
  function Keep<T(==,!new)>(s: seq<T>): seq<T> { LastN(LastOccurrences(s), HISTORY_LIMIT) }

  /** `list.remove`: drops the first occurrence. */
  function RemoveFirst<T(==,!new)>(s: seq<T>, x: T): seq<T> {
    if s == [] then [] else if s[0] == x then s[1..] else [s[0]] + RemoveFirst(s[1..], x)
  }

  lemma {:induction false} LastOccurrencesElements<T(!new)>(s: seq<T>)
    ensures NoDuplicates(LastOccurrences(s))
    ensures Elements(LastOccurrences(s)) == Elements(s)
    ensures forall x :: x in LastOccurrences(s) <==> x in s
  {
    if s != [] {
      LastOccurrencesElements(s[1..]);
      assert s == [s[0]] + s[1..];
    }
  }

  lemma {:induction false} LastOccurrencesOfDistinct<T(!new)>(s: seq<T>)
    requires NoDuplicates(s)
    ensures LastOccurrences(s) == s
  {
    if s != [] {
      assert NoDuplicates(s[1..]);
      LastOccurrencesOfDistinct(s[1..]);
    }
  }

  lemma {:induction false} LastOccurrencesAppend<T(!new)>(s: seq<T>, b: seq<T>)
    ensures LastOccurrences(s + b) == Without(LastOccurrences(s), b) + LastOccurrences(b)
  {
    hide Without;
    if s == [] {
      assert s + b == b;
      WithoutAnything(b);
    } else {
      assert (s + b)[1..] == s[1..] + b && (s + b)[0] == s[0];
      LastOccurrencesAppend(s[1..], b);
      if s[0] !in s[1..] {
        WithoutFirst(s[0], LastOccurrences(s[1..]), b);
      }
    }
  }

  lemma {:induction false} WithoutAnything<T(!new)>(b: seq<T>)
    ensures Without([], b) == []
  {
  }

  lemma {:induction false} WithoutFirst<T(!new)>(x: T, rest: seq<T>, b: seq<T>)
    ensures Without([x] + rest, b) == (if x in b then [] else [x]) + Without(rest, b)
  {
  }

  lemma {:induction false} DistinctCount<T(!new)>(s: seq<T>)
    requires NoDuplicates(s)
    ensures |Elements(s)| == |s|
  {
    if s != [] {
      DistinctCount(s[1..]);
      assert Elements(s) == {s[0]} + Elements(s[1..]);
    }
  }

  lemma {:induction false} LastOccurrencesCount<T(!new)>(s: seq<T>)
    ensures |LastOccurrences(s)| == |Elements(s)|
  {
    LastOccurrencesElements(s);
    DistinctCount(LastOccurrences(s));
  }

  lemma {:induction false} WithoutSplit<T(!new)>(d: seq<T>, t: seq<T>, b: seq<T>)
    ensures Without(d + t, b) == Without(d, b) + Without(t, b)
  {
    if d == [] {
      assert d + t == t;
    } else {
      assert (d + t)[0] == d[0] && (d + t)[1..] == d[1..] + t;
      WithoutSplit(d[1..], t, b);
    }
  }

  /** Filtering a duplicate-free list by `b` removes at most as many ids as `b` has distinct ones. */
  lemma {:induction false} WithoutCount<T(!new)>(t: seq<T>, b: seq<T>)
    requires NoDuplicates(t)
    ensures |t| <= |Without(t, b)| + |Elements(b)|
  {
    WithoutDistinct(t, b);
    DistinctCount(t);
    DistinctCount(Without(t, b));
    assert Elements(t) <= Elements(Without(t, b)) + Elements(b);
    SubsetCount(Elements(t), Elements(Without(t, b)) + Elements(b));
  }

  lemma {:induction false} WithoutDistinct<T(!new)>(t: seq<T>, b: seq<T>)
    requires NoDuplicates(t)
    ensures NoDuplicates(Without(t, b))
  {
    if t != [] {
      WithoutDistinct(t[1..], b);
    }
  }

  lemma {:induction false} SubsetCount<T(!new)>(a: set<T>, b: set<T>)
    requires a <= b
    ensures |a| <= |b|
  {
    if x :| x in a {
      SubsetCount(a - {x}, b - {x});
    }
  }

  lemma {:induction false} LastNOfSuffix<T>(p: seq<T>, q: seq<T>, n: nat)
    requires n <= |q|
    ensures LastN(p + q, n) == LastN(q, n)
  {
  }

  /** Dropping the oldest ids `d` of a full history `t` is invisible after a later append. */
  lemma {:induction false} OldestAreInvisible<T(!new)>(d: seq<T>, t: seq<T>, b: seq<T>)
    requires NoDuplicates(t) && |t| == HISTORY_LIMIT
    ensures LastN(Without(d + t, b) + LastOccurrences(b), HISTORY_LIMIT)
         == LastN(Without(t, b) + LastOccurrences(b), HISTORY_LIMIT)
  {
    WithoutSplit(d, t, b);
    WithoutCount(t, b);
    LastOccurrencesCount(b);
    var short := Without(t, b) + LastOccurrences(b);
    assert Without(d + t, b) + LastOccurrences(b) == Without(d, b) + short;
    LastNOfSuffix(Without(d, b), short, HISTORY_LIMIT);
  }

  lemma {:induction false} LastNHasNoDuplicates<T(!new)>(f: seq<T>, n: nat)
    requires NoDuplicates(f)
    ensures NoDuplicates(LastN(f, n))
  {
  }

  /** Forgetting ids beyond the limit never changes what a later append keeps. */
  lemma {:induction false} TruncationCommutes<T(!new)>(s: seq<T>, b: seq<T>)
    ensures Keep(Keep(s) + b) == Keep(s + b)
  {
    hide LastOccurrences, Without;
    var f, t := LastOccurrences(s), Keep(s);
    LastOccurrencesElements(s);
    LastNHasNoDuplicates(f, HISTORY_LIMIT);
    LastOccurrencesOfDistinct(t);
    LastOccurrencesAppend(s, b);
    LastOccurrencesAppend(t, b);
    if HISTORY_LIMIT < |f| {
      var d := f[..|f| - HISTORY_LIMIT];
      assert f == d + t;
      OldestAreInvisible(d, t, b);
    }
  }

  /** Append of an append is one append: the bounded history does not depend on batching. */
  lemma {:induction false} AppendIsAssociative<T(!new)>(previous: seq<T>, a: seq<T>, b: seq<T>)
    ensures Keep(Keep(previous + a) + b) == Keep(previous + (a + b))
  {
    TruncationCommutes(previous + a, b);
    assert (previous + a) + b == previous + (a + b);
  }

  /** An id is forgotten exactly when at least 1024 distinct ids came after its last occurrence. */
  lemma {:induction false} EvictionRule<T(!new)>(before: seq<T>, x: T, after: seq<T>)
    requires x !in after
    ensures x in Keep(before + [x] + after) <==> |Elements(after)| < HISTORY_LIMIT
  {
    var s := before + [x] + after;
    assert s == before + ([x] + after);
    LastOccurrencesAppend(before, [x] + after);
    assert ([x] + after)[1..] == after;
    var head := Without(LastOccurrences(before), [x] + after);
    var tail := LastOccurrences(after);
    assert LastOccurrences(s) == head + [x] + tail;
    LastOccurrencesElements(after);
    LastOccurrencesElements(s);
    LastOccurrencesCount(after);
    var f := LastOccurrences(s);
    assert f[|head|] == x;
    assert |f| == |head| + 1 + |tail|;
    var k := Keep(s);
    if |tail| < HISTORY_LIMIT {
      assert |k| > |tail|;
      assert k[|k| - 1 - |tail|] == f[|head|];
    } else {
      assert k == f[|f| - HISTORY_LIMIT..];
      assert forall i :: 0 <= i < |k| ==> k[i] == f[|f| - HISTORY_LIMIT + i];
    }
  }

  lemma {:induction false} RemoveFirstIsWithout<T(!new)>(s: seq<T>, x: T)
    requires NoDuplicates(s)
    ensures RemoveFirst(s, x) == Without(s, [x])
  {
    if s != [] {
      assert NoDuplicates(s[1..]);
      if s[0] == x {
        WithoutNothing(s[1..], [x]);
      } else {
        RemoveFirstIsWithout(s[1..], x);
      }
    }
  }

  lemma {:induction false} WithoutNothing<T(!new)>(s: seq<T>, b: seq<T>)
    requires forall x :: x in s ==> x !in b
    ensures Without(s, b) == s
  {
    if s != [] {
      WithoutNothing(s[1..], b);
    }
  }

  /** What one more value does to the distinct values so far and to the set of them. */
  lemma {:induction false} OneMore<T(!new)>(values: seq<T>, i: nat)
    requires i < |values|
    ensures var earlier, x := LastOccurrences(values[..i]), values[i];
      && LastOccurrences(values[..i + 1])
          == (if x in Elements(values[..i]) then RemoveFirst(earlier, x) else earlier) + [x]
    ensures Elements(values[..i + 1]) == Elements(values[..i]) + {values[i]}
  {
    hide Without, RemoveFirst;
    var x := values[i];
    assert values[..i + 1] == values[..i] + [x];
    LastOccurrencesAppend(values[..i], [x]);
    LastOccurrencesElements(values[..i]);
    LastOccurrencesOfDistinct([x]);
    if x in Elements(values[..i]) {
      RemoveFirstIsWithout(LastOccurrences(values[..i]), x);
    } else {
      WithoutNothing(LastOccurrences(values[..i]), [x]);
    }
  }

  method AppendCompletedSlots(previous: seq<string>, additions: seq<string>) returns (kept: seq<string>)
    ensures kept == Keep(previous + additions)
  {
    hide LastOccurrences, RemoveFirst;
    LastOccurrencesOfDistinct<string>([]);
    var values := previous + additions;
    var selected: seq<string> := [];
    var seen: set<string> := {};
    for i := 0 to |values|
      invariant selected == LastOccurrences(values[..i])
      invariant seen == Elements(values[..i])
    {
      var slotId := values[i];
      OneMore(values, i);
      if slotId in seen {
        selected := RemoveFirst(selected, slotId);
      } else {
        seen := seen + {slotId};
      }
      selected := selected + [slotId];
    }
    assert values[..|values|] == values;
    kept := LastN(selected, HISTORY_LIMIT);
  }
}
