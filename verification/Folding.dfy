/** A loop that folds a list into a state and stops at the first error. */
module Folding {
  import opened Wrappers

  type Turn<!S, !E, !X> = (S, nat, E) -> Result<S, X>

  /** The state after the first n entries, or the first error. */
  function Fold<S, E, X>(turn: Turn<S, E, X>, init: S, list: seq<E>, n: nat): Result<S, X>
    requires n <= |list|
  {
    if n == 0 then Ok(init)
    else
      match Fold(turn, init, list, n - 1)
      case Err(error) => Err(error)
      case Ok(st) => turn(st, n - 1, list[n - 1])
  }

  lemma {:induction false} ErrorStays<S, E, X>(turn: Turn<S, E, X>, init: S, list: seq<E>, m: nat, n: nat)
    requires m <= n <= |list| && Fold(turn, init, list, m).Err?
    ensures Fold(turn, init, list, n) == Fold(turn, init, list, m)
  {
    if m < n {
      ErrorStays(turn, init, list, m, n - 1);
    }
  }

  /** A fold over the first n entries never looks further. */
  lemma {:induction false} FoldPrefix<S, E, X>(turn: Turn<S, E, X>, init: S, list: seq<E>, m: nat, n: nat)
    requires n <= m <= |list|
    ensures Fold(turn, init, list[..m], n) == Fold(turn, init, list, n)
  {
    if n > 0 {
      FoldPrefix(turn, init, list, m, n - 1);
    }
  }

  lemma {:induction false} OkBefore<S, E, X>(turn: Turn<S, E, X>, init: S, list: seq<E>, m: nat, n: nat)
    requires m <= n <= |list| && Fold(turn, init, list, n).Ok?
    ensures Fold(turn, init, list, m).Ok?
  {
    if m < n {
      OkBefore(turn, init, list, m, n - 1);
    }
  }

  /** Where the first loop goes on, the second goes on in the same way. */
  ghost predicate Follows<S(!new), E(!new), X>(t: Turn<S, E, X>, u: Turn<S, E, X>) {
    forall st, i, e :: t(st, i, e).Ok? ==> u(st, i, e) == t(st, i, e)
  }

  lemma {:induction false} FoldFollows<S(!new), E(!new), X>(
    t: Turn<S, E, X>, u: Turn<S, E, X>, init: S, list: seq<E>, n: nat)
    requires n <= |list| && Follows(t, u) && Fold(t, init, list, n).Ok?
    ensures Fold(u, init, list, n) == Fold(t, init, list, n)
  {
    if n > 0 {
      FoldFollows(t, u, init, list, n - 1);
    }
  }

  ghost predicate Same<S(!new), E(!new), X>(t: Turn<S, E, X>, u: Turn<S, E, X>) {
    forall st, i, e :: u(st, i, e) == t(st, i, e)
  }

  lemma {:induction false} FoldSame<S(!new), E(!new), X>(
    t: Turn<S, E, X>, u: Turn<S, E, X>, init: S, list: seq<E>, n: nat)
    requires n <= |list| && Same(t, u)
    ensures Fold(u, init, list, n) == Fold(t, init, list, n)
  {
    if n > 0 {
      FoldSame(t, u, init, list, n - 1);
    }
  }

  /** Whatever every turn keeps, the whole loop keeps. */
  lemma {:induction false} FoldKeeps<S(!new), E(!new), X>(
    turn: Turn<S, E, X>, init: S, list: seq<E>, n: nat, inv: S -> bool)
    requires n <= |list| && inv(init) && Fold(turn, init, list, n).Ok?
    requires forall st, i, e :: inv(st) && turn(st, i, e).Ok? ==> inv(turn(st, i, e).value)
    ensures inv(Fold(turn, init, list, n).value)
  {
    if n > 0 {
      FoldKeeps(turn, init, list, n - 1, inv);
    }
  }

  /** The loop itself. */
  method Loop<S, E, X>(turn: Turn<S, E, X>, init: S, list: seq<E>) returns (r: Result<S, X>)
    ensures r == Fold(turn, init, list, |list|)
  {
    var st := init;
    for index := 0 to |list|
      invariant Fold(turn, init, list, index) == Ok(st)
    {
      var next := turn(st, index, list[index]);
      if next.Err? {
        ErrorStays(turn, init, list, index + 1, |list|);
        return next;
      }
      st := next.value;
    }
    return Ok(st);
  }
}
