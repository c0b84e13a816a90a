/** Loops of the form `while (off < len)` whose turns move an offset that may wrap: when they come to an
    end, and how many turns decide it. */
module OffsetLoops {
  import opened Wrappers

  /** A loop after some turns.  `Lost`: a turn did not come back, because a nested loop never ends, an
      assertion of the source fails, or memory is used that is not there. */
  datatype Run<T> = Returned(value: T) | Running | Lost

  /** One turn at an offset with a state: the next offset and state, or `None` if it does not come back. */
  type Step<!S> = (nat, S) -> Option<(nat, S)>

  /** The loop after at most `n` turns. */
  function Turns<S>(len: nat, step: Step<S>, off: nat, s: S, n: nat): Run<S>
    decreases n
  {
    if off >= len then Returned(s)
    else if n == 0 then Running
    else
      match step(off, s)
      case None => Lost
      case Some((o, t)) => Turns(len, step, o, t, n - 1)
  }

  function Left<T>(r: Run<T>): Option<T> {
    match r case Returned(t) => Some(t) case _ => None
  }

  /** The state in which the loop is left, after as many turns as the bound has bytes. */
  function Result<S>(len: nat, step: Step<S>, s: S): Option<S> {
    Left(Turns(len, step, 0, s, len))
  }

  /** The state in which the loop is left, after any number of turns. */
  ghost predicate Leaves<S>(len: nat, step: Step<S>, s: S, t: S) {
    exists n: nat :: Turns(len, step, 0, s, n) == Returned(t)
  }

  /** Where a turn goes depends on where it starts, not on the state. */
  ghost predicate Follows<S(!new)>(step: Step<S>, next: nat -> nat) {
    forall off: nat, s: S :: step(off, s).Some? ==> step(off, s).value.0 == next(off)
  }

  /** The offset after `n` turns. */
  function At(next: nat -> nat, off: nat, n: nat): nat
    decreases n
  {
    if n == 0 then off else At(next, next(off), n - 1)
  }

  lemma {:induction false} AtSum(next: nat -> nat, off: nat, m: nat, n: nat)
    ensures At(next, off, m + n) == At(next, At(next, off, m), n)
    decreases m
  {
    if m > 0 {
      AtSum(next, next(off), m - 1, n);
    }
  }

  /** A loop that has been left stays left. */
  lemma {:induction false} MoreTurns<S>(len: nat, step: Step<S>, off: nat, s: S, m: nat, n: nat)
    requires m <= n && Turns(len, step, off, s, m) != Running
    ensures Turns(len, step, off, s, n) == Turns(len, step, off, s, m)
    decreases m
  {
    if off < len && m > 0 && step(off, s).Some? {
      var (o, t) := step(off, s).value;
      MoreTurns(len, step, o, t, m - 1, n - 1);
    }
  }

  /** The number of turns a loop takes that is left: all offsets before are within the bound. */
  lemma {:induction false} Needed<S(!new)>(len: nat, step: Step<S>, next: nat -> nat, off: nat, s: S, n: nat) returns (k: nat)
    requires Follows(step, next) && Turns(len, step, off, s, n).Returned?
    ensures k <= n && Turns(len, step, off, s, k) == Turns(len, step, off, s, n)
    ensures At(next, off, k) >= len && forall j :: 0 <= j < k ==> At(next, off, j) < len
    decreases n
  {
    k := 0;
    if off < len {
      var (o, t) := step(off, s).value;
      assert o == next(off);
      k := Needed(len, step, next, o, t, n - 1);
      forall j | 0 <= j < k + 1 ensures At(next, off, j) < len {
        if j > 0 {
          assert At(next, off, j) == At(next, o, j - 1);
        }
      }
      k := k + 1;
    }
  }

  /** On the way out no offset comes twice. */
  lemma NoReturn(next: nat -> nat, off: nat, len: nat, k: nat, i: nat, j: nat)
    requires At(next, off, k) >= len && (forall m :: 0 <= m < k ==> At(next, off, m) < len)
    requires i < j < k
    ensures At(next, off, i) != At(next, off, j)
  {
    if At(next, off, i) == At(next, off, j) {
      AtSum(next, off, j, k - j);
      AtSum(next, off, i, k - j);
      assert At(next, off, i + (k - j)) < len;
    }
  }

  /** Different numbers below a bound are no more than the bound. */
  lemma {:induction false} AtMost(s: seq<nat>, len: nat)
    requires forall i :: 0 <= i < |s| ==> s[i] < len
    requires forall i, j :: 0 <= i < j < |s| ==> s[i] != s[j]
    ensures |s| <= len
    decreases len
  {
    if s != [] {
      assert s[0] < len;
      if i :| 0 <= i < |s| && s[i] == len - 1 {
        AtMost(s[..i] + s[i + 1..], len - 1);
      } else {
        AtMost(s, len - 1);
      }
    }
  }

  /** As many turns as the bound has bytes decide whether a loop is left, and in which state. */
  lemma Decided<S(!new)>(len: nat, step: Step<S>, next: nat -> nat, s: S, t: S)
    requires Follows(step, next)
    ensures Leaves(len, step, s, t) <==> Result(len, step, s) == Some(t)
  {
    if Leaves(len, step, s, t) {
      var n: nat :| Turns(len, step, 0, s, n) == Returned(t);
      var k := Needed(len, step, next, 0, s, n);
      forall i, j | 0 <= i < j < k ensures At(next, 0, i) != At(next, 0, j) {
        NoReturn(next, 0, len, k, i, j);
      }
      AtMost(seq(k, m requires 0 <= m < k => At(next, 0, m)), len);
      MoreTurns(len, step, 0, s, k, len);
    }
  }

  /** A loop whose turns come back to the same offset never ends. */
  lemma {:induction false} Circles<S(!new)>(len: nat, step: Step<S>, off: nat, s: S, inv: S -> bool, n: nat)
    requires off < len && inv(s)
    requires forall t: S :: inv(t) ==> step(off, t).Some? && step(off, t).value.0 == off && inv(step(off, t).value.1)
    ensures Turns(len, step, off, s, n) == Running
    decreases n
  {
    if n > 0 {
      Circles(len, step, off, step(off, s).value.1, inv, n - 1);
    }
  }
}
