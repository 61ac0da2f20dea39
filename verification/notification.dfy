/**
  Notifications delivered to an observer, and traces of them.

  One execution of an Observable is modelled by the finite sequence of
  callback invocations it makes on its observer: `next(v)`, `error(err)` and
  `complete()`. The type parameter `E` stands for the values that travel on
  the error channel, which in the source are both `Error` objects passed to
  `error` and arbitrary values caught from a throwing projection.
 */
module Notifications {

  /** One call made on an observer. */
  datatype Notification<+T, +E> = Next(value: T) | Error(err: E) | Complete {

    /** `error` and `complete` end a well-behaved stream. */
    predicate IsTerminal() {
      !Next?
    }
  }

  /** What a call of the projection does: return a value or throw one. */
  datatype Outcome<+U, +E> = Returned(value: U) | Threw(thrown: E)

  /** What a call of a downstream observer's `next` callback does: return normally or throw. */
  datatype Reaction<+E> = Returns | Throws(thrown: E)

  /**
    The notification protocol: zero or more `Next`s, then at most one
    terminal notification, after which nothing else is delivered.
   */
  ghost predicate WellFormed<T, E>(t: seq<Notification<T, E>>) {
    forall i :: 0 <= i < |t| - 1 ==> !t[i].IsTerminal()
  }

  /** The trace that delivers `xs` through `next`, one element per call, in order. */
  function Nexts<T, E>(xs: seq<T>): (t: seq<Notification<T, E>>)
    ensures |t| == |xs|
    ensures forall i :: 0 <= i < |xs| ==> t[i] == Next(xs[i])
  {
    if |xs| == 0 then [] else [Next(xs[0])] + Nexts(xs[1..])
  }

  /** The values delivered through `next`, in delivery order. */
  function NextValues<T, E>(t: seq<Notification<T, E>>): seq<T>
  {
    if |t| == 0 then []
    else if t[0].Next? then [t[0].value] + NextValues(t[1..])
    else NextValues(t[1..])
  }

  /** The number of `error` calls in a trace. */
  function ErrorCount<T, E>(t: seq<Notification<T, E>>): nat
  {
    if |t| == 0 then 0
    else (if t[0].Error? then 1 else 0) + ErrorCount(t[1..])
  }

  /** The number of `complete` calls in a trace. */
  function CompleteCount<T, E>(t: seq<Notification<T, E>>): nat
  {
    if |t| == 0 then 0
    else (if t[0].Complete? then 1 else 0) + CompleteCount(t[1..])
  }

  /** Elementwise application of a total function, as `Array.prototype.map` does. */
  function Apply<T, U>(f: T -> U, xs: seq<T>): (ys: seq<U>)
    ensures |ys| == |xs|
    ensures forall i :: 0 <= i < |xs| ==> ys[i] == f(xs[i])
  {
    if |xs| == 0 then [] else [f(xs[0])] + Apply(f, xs[1..])
  }

  /** `NextValues` of a trace of `Next`s gives back the delivered values. */
  lemma {:induction false} NextValuesOfNexts<T, E>(xs: seq<T>)
    ensures NextValues<T, E>(Nexts(xs)) == xs
  {
    if |xs| != 0 {
      var t := Nexts<T, E>(xs);
      assert t[1..] == Nexts(xs[1..]);
      NextValuesOfNexts<T, E>(xs[1..]);
    }
  }

  /** `NextValues` of a concatenation is the concatenation of the values. */
  lemma {:induction false} NextValuesAppend<T, E>(a: seq<Notification<T, E>>, b: seq<Notification<T, E>>)
    ensures NextValues(a + b) == NextValues(a) + NextValues(b)
  {
    if |a| == 0 {
      assert a + b == b;
    } else {
      assert (a + b)[1..] == a[1..] + b;
      NextValuesAppend(a[1..], b);
    }
  }

  /** `ErrorCount` of a concatenation is the sum of the counts. */
  lemma {:induction false} ErrorCountAppend<T, E>(a: seq<Notification<T, E>>, b: seq<Notification<T, E>>)
    ensures ErrorCount(a + b) == ErrorCount(a) + ErrorCount(b)
  {
    if |a| == 0 {
      assert a + b == b;
    } else {
      assert (a + b)[1..] == a[1..] + b;
      ErrorCountAppend(a[1..], b);
    }
  }

  /** `CompleteCount` of a concatenation is the sum of the counts. */
  lemma {:induction false} CompleteCountAppend<T, E>(a: seq<Notification<T, E>>, b: seq<Notification<T, E>>)
    ensures CompleteCount(a + b) == CompleteCount(a) + CompleteCount(b)
  {
    if |a| == 0 {
      assert a + b == b;
    } else {
      assert (a + b)[1..] == a[1..] + b;
      CompleteCountAppend(a[1..], b);
    }
  }

  /** A trace of `Next`s never completes. */
  lemma {:induction false} CompleteCountOfNexts<T, E>(xs: seq<T>)
    ensures CompleteCount<T, E>(Nexts(xs)) == 0
  {
    if |xs| != 0 {
      assert Nexts<T, E>(xs)[1..] == Nexts(xs[1..]);
      CompleteCountOfNexts<T, E>(xs[1..]);
    }
  }
}
