/** Runs of a state machine: the operations performed so far, oldest innermost. */
module Runs {

  datatype Run<Op> = Start | Then(before: Run<Op>, last: Op)

  /** `r` goes on from `r0`. */
  ghost predicate Extends<Op>(r: Run<Op>, r0: Run<Op>) {
    r == r0 || (r.Then? && Extends(r.before, r0))
  }

  ghost function Length<Op>(r: Run<Op>): nat {
    match r case Start => 0 case Then(before, _) => Length(before) + 1
  }

  lemma {:induction false} ExtendsIsLonger<Op>(r: Run<Op>, r0: Run<Op>)
    requires Extends(r, r0)
    ensures Length(r0) <= Length(r)
  {
    if r != r0 { ExtendsIsLonger(r.before, r0); }
  }
}
