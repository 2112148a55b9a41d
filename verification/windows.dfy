/** Sliding windows: the last few numbers of a history; and sums. */
module Windows {

  /** One more number; the oldest goes if that was one too many. */
  function Pushed(size: int, samples: seq<real>, x: real): seq<real> {
    var pushed := samples + [x];
    if |pushed| > size then pushed[1..] else pushed
  }

  ghost function Last(s: seq<real>, n: nat): seq<real> {
    if |s| <= n then s else s[|s| - n..]
  }

  lemma PushKeepsLast(s: seq<real>, n: nat, x: real)
    requires n >= 1
    ensures Pushed(n, Last(s, n), x) == Last(s + [x], n)
  {
  }

  function Sum(s: seq<real>): real {
    if |s| == 0 then 0.0 else Sum(s[..|s| - 1]) + s[|s| - 1]
  }
}
