/** Finite runs of a transition system, whatever its states and steps are. */
module Runs {

  /** A run, as the states it goes through. */
  ghost predicate Run<S(!new)>(next: (S, S) -> bool, b: seq<S>) {
    b != [] && forall i :: 0 < i < |b| ==> next(b[i - 1], b[i])
  }

  /** Some run goes from `s` to `t`. */
  ghost predicate Leads<S(!new)>(next: (S, S) -> bool, s: S, t: S) {
    exists b :: Run(next, b) && b[0] == s && b[|b| - 1] == t
  }

  lemma Stays<S(!new)>(next: (S, S) -> bool, s: S)
    ensures Leads(next, s, s)
  {
    var b := [s];
    assert Run(next, b) && b[0] == s && b[|b| - 1] == s;
  }

  lemma Extends<S(!new)>(next: (S, S) -> bool, s: S, t: S, u: S)
    requires Leads(next, s, t) && next(t, u)
    ensures Leads(next, s, u)
  {
    var b :| Run(next, b) && b[0] == s && b[|b| - 1] == t;
    var b' := b + [u];
    assert forall i :: 0 <= i < |b| ==> b'[i] == b[i];
    assert Run(next, b') && b'[0] == s && b'[|b'| - 1] == u;
  }

  /** What holds at the start and is kept by every step holds at the end. */
  lemma {:induction false} Kept<S(!new)>(next: (S, S) -> bool, inv: S -> bool, s: S, t: S)
    requires Leads(next, s, t) && inv(s)
    requires forall x, y :: inv(x) && next(x, y) ==> inv(y)
    ensures inv(t)
  {
    var b :| Run(next, b) && b[0] == s && b[|b| - 1] == t;
    KeptAlong(next, inv, b);
  }

  lemma {:induction false} KeptAlong<S(!new)>(next: (S, S) -> bool, inv: S -> bool, b: seq<S>)
    requires Run(next, b) && inv(b[0])
    requires forall x, y :: inv(x) && next(x, y) ==> inv(y)
    ensures inv(b[|b| - 1])
  {
    if |b| > 1 {
      var i := |b| - 1;
      KeptAlong(next, inv, b[..i]);
      assert next(b[i - 1], b[i]);
    }
  }

  /** Runs can be put end to end. */
  lemma Joins<S(!new)>(next: (S, S) -> bool, s: S, t: S, u: S)
    requires Leads(next, s, t) && Leads(next, t, u)
    ensures Leads(next, s, u)
  {
    forall x, y | Leads(next, s, x) && next(x, y) ensures Leads(next, s, y) {
      Extends(next, s, x, y);
    }
    Kept(next, x => Leads(next, s, x), t, u);
  }
}
