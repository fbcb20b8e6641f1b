/** Python `for` loops whose body may raise: the first exception ends the
    loop and is its outcome. Loops that append to a list or add to a set
    are instances with facts proved once. */
module Loops {

  import opened Wrappers

  /** A `for x in xs` loop whose body turns the state `acc` into a new one
      or raises; the first exception ends the loop. */
  function Fold<S, T>(acc: S, step: (S, T) -> Result<S>, xs: seq<T>): Result<S>
    decreases |xs|
  {
    if xs == [] then Ok(acc)
    else
      var a :- Fold(acc, step, xs[..|xs| - 1]);
      step(a, xs[|xs| - 1])
  }

  lemma FoldSnoc<S, T>(acc: S, step: (S, T) -> Result<S>, xs: seq<T>, i: nat)
    requires i < |xs| && Fold(acc, step, xs[..i]).Ok?
    ensures Fold(acc, step, xs[..i + 1]) == step(Fold(acc, step, xs[..i]).value, xs[i])
  {
    assert xs[..i + 1][..i] == xs[..i];
  }

  /** Once an iteration raises, the loop's outcome is that exception. */
  lemma {:induction false} FoldErr<S, T>(acc: S, step: (S, T) -> Result<S>, xs: seq<T>, i: nat)
    requires i <= |xs| && Fold(acc, step, xs[..i]).Err?
    ensures Fold(acc, step, xs) == Fold(acc, step, xs[..i])
    decreases |xs| - i
  {
    if i < |xs| {
      assert xs[..i + 1][..i] == xs[..i];
      FoldErr(acc, step, xs, i + 1);
    } else {
      assert xs[..i] == xs;
    }
  }

  /** The body of a loop that appends `g(x)` to a list. */
  function AppendStep<T, U>(g: T -> Result<U>): (seq<U>, T) -> Result<seq<U>> {
    (acc: seq<U>, x: T) => if g(x).Ok? then Ok(acc + [g(x).value]) else Err(g(x).error)
  }

  /** A loop appending `g(x)` for every `x` succeeds exactly when every
      `g(x)` does, and then holds them all, in order. */
  lemma {:induction false} AppendFold<T, U>(acc: seq<U>, g: T -> Result<U>, xs: seq<T>)
    ensures Fold(acc, AppendStep(g), xs).Ok? <==> forall i | 0 <= i < |xs| :: g(xs[i]).Ok?
    ensures Fold(acc, AppendStep(g), xs).Ok? ==>
      var r := Fold(acc, AppendStep(g), xs).value;
      && |r| == |acc| + |xs|
      && r[..|acc|] == acc
      && forall i | 0 <= i < |xs| :: r[|acc| + i] == g(xs[i]).value
    decreases |xs|
  {
    if xs != [] {
      var init := xs[..|xs| - 1];
      AppendFold(acc, g, init);
      assert forall i | 0 <= i < |init| :: init[i] == xs[i];
    }
  }

  /** The body of a loop that adds `f(x)` to a set. */
  function InsertStep<T, U>(f: T -> Result<U>): (set<U>, T) -> Result<set<U>> {
    (acc: set<U>, x: T) => if f(x).Ok? then Ok(acc + {f(x).value}) else Err(f(x).error)
  }

  /** A loop adding `f(x)` to a set succeeds exactly when every `f(x)`
      does, and the set then holds what it held and exactly those values. */
  lemma {:induction false} InsertFold<T, U>(acc: set<U>, f: T -> Result<U>, xs: seq<T>)
    ensures Fold(acc, InsertStep(f), xs).Ok? <==> forall i | 0 <= i < |xs| :: f(xs[i]).Ok?
    ensures Fold(acc, InsertStep(f), xs).Ok? ==>
      var r := Fold(acc, InsertStep(f), xs).value;
      && acc <= r
      && (forall i | 0 <= i < |xs| :: f(xs[i]).value in r)
      && forall y | y in r :: y in acc || exists i | 0 <= i < |xs| :: f(xs[i]) == Ok(y)
    decreases |xs|
  {
    if xs != [] {
      var init := xs[..|xs| - 1];
      InsertFold(acc, f, init);
      assert forall i | 0 <= i < |init| :: init[i] == xs[i];
      if Fold(acc, InsertStep(f), xs).Ok? {
        var r := Fold(acc, InsertStep(f), xs).value;
        forall y | y in r
          ensures y in acc || exists i | 0 <= i < |xs| :: f(xs[i]) == Ok(y)
        {
          if y != f(xs[|xs| - 1]).value && y !in acc {
            var i :| 0 <= i < |init| && f(init[i]) == Ok(y);
            assert f(xs[i]) == Ok(y);
          }
        }
      }
    }
  }

  /** A loop whose body raises independently of the state succeeds exactly
      when the body succeeds on every element. */
  lemma {:induction false} FoldOk<S, T>(acc: S, step: (S, T) -> Result<S>, xs: seq<T>, ok: T -> bool)
    requires forall a, x :: step(a, x).Ok? <==> ok(x)
    ensures Fold(acc, step, xs).Ok? <==> forall i | 0 <= i < |xs| :: ok(xs[i])
    decreases |xs|
  {
    if xs != [] {
      var init := xs[..|xs| - 1];
      FoldOk(acc, step, init, ok);
      assert forall i | 0 <= i < |init| :: init[i] == xs[i];
    }
  }
}
