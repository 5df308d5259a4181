/** Small facts about sets that the loops over an unordered set use: each
    round takes one element from the part still to visit to the part visited. */
module SetSteps {

  /** With `done` the visited part, kept as the difference. */
  lemma MoveOne<T>(all: set<T>, rest: set<T>, done: set<T>, x: T, rest': set<T>, done': set<T>)
    requires rest <= all && done == all - rest && x in rest
    requires rest' == rest - {x} && done' == done + {x}
    ensures rest' <= all && done' == all - rest' && |rest'| < |rest|
  {
  }

  /** With `done` the visited part, kept as the complement in a union. */
  lemma VisitOne<T>(all: set<T>, rest: set<T>, done: set<T>, x: T, rest': set<T>, done': set<T>)
    requires done + rest == all && x in rest
    requires rest' == rest - {x} && done' == done + {x}
    ensures done' + rest' == all && done' <= all && |rest'| < |rest|
  {
  }

  /** Re-associating the union of three sets. */
  lemma UnionStep<T>(a: set<T>, b: set<T>, c: set<T>, x: set<T>, y: set<T>, d: set<T>)
    requires x == a + b && y == x + c && d == b + c
    ensures y == a + d
  {
  }

  /** A subset is no larger than the set it is taken from. */
  lemma {:induction false} SubsetNoLarger<T>(a: set<T>, b: set<T>)
    requires a <= b
    ensures |a| <= |b|
    decreases |a|
  {
    if a != {} {
      var x :| x in a;
      SubsetNoLarger(a - {x}, b - {x});
    }
  }
}
