/** Sorting numbers, as the latency code does before it reads off a percentile. */
module Sorting {

  predicate IsSorted(s: seq<real>) {
    forall i, j | 0 <= i < j < |s| :: s[i] <= s[j]
  }

  function Insert(x: real, s: seq<real>): (r: seq<real>)
    ensures multiset(r) == multiset(s) + multiset{x}
  {
    if |s| == 0 || x <= s[0] then [x] + s
    else
      assert s == [s[0]] + s[1..];
      [s[0]] + Insert(x, s[1..])
  }

  /** The same numbers in ascending order. */
  function Sorted(s: seq<real>): (r: seq<real>)
    ensures multiset(r) == multiset(s)
  {
    if |s| == 0 then []
    else
      assert s == [s[0]] + s[1..];
      Insert(s[0], Sorted(s[1..]))
  }

  lemma {:induction false} InsertSorts(x: real, s: seq<real>)
    requires IsSorted(s)
    ensures IsSorted(Insert(x, s))
  {
    if |s| > 0 && x > s[0] {
      var t := Insert(x, s[1..]);
      InsertSorts(x, s[1..]);
      InsertKeepsBound(x, s[1..], s[0]);
      assert Insert(x, s) == [s[0]] + t;
      hide Insert;
    }
  }

  lemma InsertKeepsBound(x: real, s: seq<real>, low: real)
    requires low <= x && forall i | 0 <= i < |s| :: low <= s[i]
    ensures forall i | 0 <= i < |Insert(x, s)| :: low <= Insert(x, s)[i]
  {
    hide Insert;
    var t := Insert(x, s);
    forall i | 0 <= i < |t| ensures low <= t[i] {
      assert t[i] in multiset(t);
    }
  }

  lemma {:induction false} SortedSorts(s: seq<real>)
    ensures IsSorted(Sorted(s))
  {
    if |s| > 0 {
      SortedSorts(s[1..]);
      InsertSorts(s[0], Sorted(s[1..]));
    }
  }

  lemma SortedKeeps(s: seq<real>)
    ensures |Sorted(s)| == |s|
    ensures forall x :: x in Sorted(s) <==> x in s
  {
    hide Sorted;
    var t := Sorted(s);
    assert |multiset(t)| == |multiset(s)|;
    forall x ensures x in t <==> x in s {
      assert x in multiset(t) <==> x in multiset(s);
    }
  }

  lemma HeadIsLeast(a: seq<real>)
    requires IsSorted(a) && |a| > 0
    ensures forall x | x in multiset(a) :: a[0] <= x
    ensures multiset(a[1..]) == multiset(a) - multiset{a[0]}
  {
    assert a == [a[0]] + a[1..];
    forall x | x in multiset(a) ensures a[0] <= x {
      var i :| 0 <= i < |a| && a[i] == x;
    }
  }

  lemma HeadsAgree(a: seq<real>, b: seq<real>)
    requires IsSorted(a) && IsSorted(b) && multiset(a) == multiset(b) && |a| > 0
    ensures |b| > 0 && a[0] == b[0] && multiset(a[1..]) == multiset(b[1..])
  {
    SameLength(a, b);
    HeadIsLeast(a);
    HeadIsLeast(b);
    hide IsSorted;
    assert a[0] in multiset(a) && b[0] in multiset(b);
  }

  lemma SameLength(a: seq<real>, b: seq<real>)
    requires multiset(a) == multiset(b)
    ensures |a| == |b|
  {
    assert |a| == |multiset(a)| == |multiset(b)| == |b|;
  }

  /** The order of the input does not matter. */
  lemma {:induction false} SortedIsUnique(a: seq<real>, b: seq<real>)
    requires IsSorted(a) && IsSorted(b) && multiset(a) == multiset(b)
    ensures a == b
  {
    if |a| > 0 {
      HeadsAgree(a, b);
      assert IsSorted(a[1..]) && IsSorted(b[1..]);
      hide IsSorted;
      SortedIsUnique(a[1..], b[1..]);
      assert a == [a[0]] + a[1..] && b == [b[0]] + b[1..];
    } else {
      SameLength(a, b);
    }
  }

  // ------------------------------------------------------------ counting

  ghost function CountUpTo(s: seq<real>, v: real): nat {
    if |s| == 0 then 0 else (if s[0] <= v then 1 else 0) + CountUpTo(s[1..], v)
  }

  ghost function CountBelow(s: seq<real>, v: real): nat {
    if |s| == 0 then 0 else (if s[0] < v then 1 else 0) + CountBelow(s[1..], v)
  }

  lemma {:induction false} InsertCounts(x: real, s: seq<real>, v: real)
    ensures CountUpTo(Insert(x, s), v) == (if x <= v then 1 else 0) + CountUpTo(s, v)
    ensures CountBelow(Insert(x, s), v) == (if x < v then 1 else 0) + CountBelow(s, v)
  {
    if |s| == 0 || x <= s[0] {
      assert ([x] + s)[1..] == s;
    } else {
      InsertCounts(x, s[1..], v);
      assert ([s[0]] + Insert(x, s[1..]))[1..] == Insert(x, s[1..]);
    }
  }

  lemma {:induction false} SortingCounts(s: seq<real>, v: real)
    ensures CountUpTo(Sorted(s), v) == CountUpTo(s, v) && CountBelow(Sorted(s), v) == CountBelow(s, v)
  {
    if |s| > 0 {
      SortingCounts(s[1..], v);
      InsertCounts(s[0], Sorted(s[1..]), v);
    }
  }

  lemma {:induction false} CountsAtIndex(s: seq<real>, k: nat)
    requires IsSorted(s) && k < |s|
    ensures CountUpTo(s, s[k]) >= k + 1 && CountBelow(s, s[k]) <= k
  {
    if k > 0 {
      assert s[1..][k - 1] == s[k];
      CountsAtIndex(s[1..], k - 1);
    } else {
      NoneBelow(s, s[0]);
    }
  }

  lemma {:induction false} NoneBelow(s: seq<real>, v: real)
    requires forall i | 0 <= i < |s| :: v <= s[i]
    ensures CountBelow(s, v) == 0
  {
    if |s| > 0 { NoneBelow(s[1..], v); }
  }

  lemma {:induction false} BelowCoversUpTo(s: seq<real>, v: real, w: real)
    requires v < w
    ensures CountUpTo(s, v) <= CountBelow(s, w)
    ensures v in s ==> CountUpTo(s, v) > 0
  {
    if |s| > 0 { BelowCoversUpTo(s[1..], v, w); }
  }
}
