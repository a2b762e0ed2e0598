/** Ranks, and termination of post-order walks on an explicit stack: what is on top comes down
    in rank until it can be computed, and entries computed meanwhile are used up.  */
module PostOrder {

  /** The gates ws rank below top. */
  ghost predicate Below(rank: seq<nat>, ws: seq<nat>, top: nat) {
    forall i :: 0 <= i < |ws| ==> ws[i] < |rank| && rank[ws[i]] < top
  }

  /** How many entries of the stack are done already. */
  ghost function Spent(stack: seq<nat>, done: set<nat>): nat {
    if stack == [] then 0 else Spent(stack[..|stack| - 1], done) + (if stack[|stack| - 1] in done then 1 else 0)
  }

  lemma SpentPush(stack: seq<nat>, h: nat, done: set<nat>)
    requires h !in done
    ensures Spent(stack + [h], done) == Spent(stack, done)
  {
    assert (stack + [h])[..|stack|] == stack;
  }
}
