/**
  The intercepting observer of the `map` operator, as a transformer of
  notification traces.

  The intercepting observer's `next(v)` runs `observer.next(projection(v))`
  inside a try/catch, so the catch covers both the projection and the
  downstream `next` call: a value thrown by either is forwarded as
  `error(thrown)`. `error` and `complete` are forwarded unchanged. There is no
  terminal-event guard: after a throw, later upstream notifications are still
  forwarded.

  `InterceptTrace` is the general transformer, given what the downstream
  `next` callback does with each value. `MapTrace` is the case of a
  downstream `next` that returns normally, where every upstream call becomes
  exactly one downstream call at the same position.
 */
module MapOperator {
  import opened Notifications

  /** What the intercepting observer forwards for one upstream notification. */
  function MapNotification<T, U, E>(projection: T -> Outcome<U, E>, n: Notification<T, E>): Notification<U, E>
  {
    match n
    case Next(v) =>
      (match projection(v)
       case Returned(u) => Next(u)
       case Threw(x) => Error(x))
    case Error(e) => Error(e)
    case Complete => Complete
  }

  /** True when the projection throws on the notification at position `i`. */
  predicate ThrowsAt<T, U, E>(projection: T -> Outcome<U, E>, t: seq<Notification<T, E>>, i: int)
    requires 0 <= i < |t|
  {
    t[i].Next? && projection(t[i].value).Threw?
  }

  /**
    The downstream trace for the upstream trace `t`: one call per upstream
    call, at the same position.
   */
  function MapTrace<T, U, E>(projection: T -> Outcome<U, E>, t: seq<Notification<T, E>>): (r: seq<Notification<U, E>>)
    ensures |r| == |t|
    ensures forall i :: 0 <= i < |t| && t[i].Next? && projection(t[i].value).Returned? ==>
              r[i] == Next(projection(t[i].value).value)
    ensures forall i :: 0 <= i < |t| && t[i].Next? && projection(t[i].value).Threw? ==>
              r[i] == Error(projection(t[i].value).thrown)
    ensures forall i :: 0 <= i < |t| && t[i].Error? ==> r[i] == Error(t[i].err)
    ensures forall i :: 0 <= i < |t| && t[i].Complete? ==> r[i] == Complete
  {
    if |t| == 0 then []
    else [MapNotification(projection, t[0])] + MapTrace(projection, t[1..])
  }

  /**
    What the intercepting observer forwards for one upstream notification,
    when the downstream `next` callback reacts to each value as `onNext` says.
    A throwing downstream `next` has still been called, and the catch then
    calls `error` with what it threw.
   */
  function InterceptNotification<T, U, E>(projection: T -> Outcome<U, E>, onNext: U -> Reaction<E>, n: Notification<T, E>): seq<Notification<U, E>>
  {
    match n
    case Next(v) =>
      (match projection(v)
       case Returned(u) =>
         (match onNext(u)
          case Returns => [Next(u)]
          case Throws(x) => [Next(u), Error(x)])
       case Threw(x) => [Error(x)])
    case Error(e) => [Error(e)]
    case Complete => [Complete]
  }

  /**
    The downstream trace for the upstream trace `t`, the notifications of each
    upstream call in turn: one call per upstream call, plus one `error` for
    every value whose downstream `next` throws.
   */
  function InterceptTrace<T, U, E>(projection: T -> Outcome<U, E>, onNext: U -> Reaction<E>, t: seq<Notification<T, E>>): (r: seq<Notification<U, E>>)
    ensures |r| == |t| + DownstreamThrowCount(projection, onNext, t)
  {
    if |t| == 0 then []
    else InterceptNotification(projection, onNext, t[0]) + InterceptTrace(projection, onNext, t[1..])
  }

  /** True when the projection returns on the notification at position `i` and the downstream `next` throws. */
  predicate DownstreamThrowsAt<T, U, E>(projection: T -> Outcome<U, E>, onNext: U -> Reaction<E>, t: seq<Notification<T, E>>, i: int)
    requires 0 <= i < |t|
  {
    t[i].Next? && projection(t[i].value).Returned? && onNext(projection(t[i].value).value).Throws?
  }

  /** The number of upstream `next` calls whose downstream `next` throws. */
  function DownstreamThrowCount<T, U, E>(projection: T -> Outcome<U, E>, onNext: U -> Reaction<E>, t: seq<Notification<T, E>>): nat
  {
    if |t| == 0 then 0
    else (if DownstreamThrowsAt(projection, onNext, t, 0) then 1 else 0) + DownstreamThrowCount(projection, onNext, t[1..])
  }

  /** The projection that wraps a function that never throws. */
  function Total<T, U, E>(f: T -> U): T -> Outcome<U, E>
  {
    v => Returned(f(v))
  }

  /** The projection of `.map(p).map(q)`: a value thrown by `p` reaches `q`'s stage as an error and is passed on. */
  function Then<T, U, V, E>(p: T -> Outcome<U, E>, q: U -> Outcome<V, E>): T -> Outcome<V, E>
  {
    v => match p(v)
         case Returned(u) => q(u)
         case Threw(x) => Threw(x)
  }

  /** The number of upstream `next` calls on which the projection throws. */
  function ThrowCount<T, U, E>(projection: T -> Outcome<U, E>, t: seq<Notification<T, E>>): nat
  {
    if |t| == 0 then 0
    else (if t[0].Next? && projection(t[0].value).Threw? then 1 else 0) + ThrowCount(projection, t[1..])
  }

  /**
    Mapping is streaming: the downstream trace of a concatenation is the
    concatenation of the downstream traces, so nothing is reordered or held back.
   */
  lemma {:induction false} MapTraceAppend<T, U, E>(projection: T -> Outcome<U, E>, a: seq<Notification<T, E>>, b: seq<Notification<T, E>>)
    ensures MapTrace(projection, a + b) == MapTrace(projection, a) + MapTrace(projection, b)
  {
    if |a| != 0 {
      assert (a + b)[1..] == a[1..] + b;
      MapTraceAppend(projection, a[1..], b);
    }
  }

  /**
    A throwing projection turns that one `next` into an `error` and does not
    stop the stream: what comes before and after is mapped as usual.
   */
  lemma ThrowDoesNotStopUpstream<T, U, E>(projection: T -> Outcome<U, E>, a: seq<Notification<T, E>>, v: T, b: seq<Notification<T, E>>)
    requires projection(v).Threw?
    ensures MapTrace(projection, a + [Next(v)] + b)
         == MapTrace(projection, a) + [Error(projection(v).thrown)] + MapTrace(projection, b)
  {
    MapTraceAppend(projection, a + [Next(v)], b);
    MapTraceAppend(projection, a, [Next(v)]);
  }

  /**
    Over an upstream that delivers `xs` and then completes, a projection that
    never throws delivers `xs` mapped elementwise and then completes.
   */
  lemma MapValuesThenComplete<T, U, E>(f: T -> U, xs: seq<T>)
    ensures MapTrace(Total<T, U, E>(f), Nexts<T, E>(xs) + [Complete]) == Nexts<U, E>(Apply(f, xs)) + [Complete]
  {
    var r := MapTrace(Total<T, U, E>(f), Nexts<T, E>(xs) + [Complete]);
    var s := Nexts<U, E>(Apply(f, xs)) + [Complete];
    assert |r| == |s|;
    forall i | 0 <= i < |r|
      ensures r[i] == s[i]
    {
      if i < |xs| {
        assert (Nexts<T, E>(xs) + [Complete])[i] == Next(xs[i]);
      } else {
        assert (Nexts<T, E>(xs) + [Complete])[i] == Complete;
      }
    }
  }

  /** When nothing throws, the values delivered downstream are the upstream values mapped elementwise. */
  lemma {:induction false} NextValuesOfMap<T, U, E>(f: T -> U, t: seq<Notification<T, E>>)
    ensures NextValues(MapTrace(Total<T, U, E>(f), t)) == Apply(f, NextValues(t))
  {
    if |t| != 0 {
      var r := MapTrace(Total<T, U, E>(f), t);
      assert r[1..] == MapTrace(Total<T, U, E>(f), t[1..]);
      NextValuesOfMap<T, U, E>(f, t[1..]);
    }
  }

  /** Mapping with the identity projection gives back the upstream trace. */
  lemma MapIdentity<T, E>(t: seq<Notification<T, E>>)
    ensures MapTrace(Total<T, T, E>(v => v), t) == t
  {
  }

  /** `.map(p).map(q)` delivers what a single `.map` with `p` then `q` delivers. */
  lemma MapFusion<T, U, V, E>(p: T -> Outcome<U, E>, q: U -> Outcome<V, E>, t: seq<Notification<T, E>>)
    ensures MapTrace(q, MapTrace(p, t)) == MapTrace(Then(p, q), t)
  {
    var lhs := MapTrace(q, MapTrace(p, t));
    var rhs := MapTrace(Then(p, q), t);
    forall i | 0 <= i < |t|
      ensures lhs[i] == rhs[i]
    {
      var m := MapTrace(p, t);
      if t[i].Next? {
        if p(t[i].value).Returned? {
          assert m[i] == Next(p(t[i].value).value);
        } else {
          assert m[i] == Error(p(t[i].value).thrown);
        }
      }
    }
  }

  /**
    Error accounting: every downstream `error` is either an upstream `error`
    passed through or a throw of the projection.
   */
  lemma {:induction false} ErrorCountOfMap<T, U, E>(projection: T -> Outcome<U, E>, t: seq<Notification<T, E>>)
    ensures ErrorCount(MapTrace(projection, t)) == ErrorCount(t) + ThrowCount(projection, t)
  {
    if |t| != 0 {
      var r := MapTrace(projection, t);
      assert r[1..] == MapTrace(projection, t[1..]);
      ErrorCountOfMap(projection, t[1..]);
    }
  }

  /** `complete` passes through: the downstream trace completes exactly as often as the upstream one. */
  lemma {:induction false} CompleteCountOfMap<T, U, E>(projection: T -> Outcome<U, E>, t: seq<Notification<T, E>>)
    ensures CompleteCount(MapTrace(projection, t)) == CompleteCount(t)
  {
    if |t| != 0 {
      var r := MapTrace(projection, t);
      assert r[1..] == MapTrace(projection, t[1..]);
      CompleteCountOfMap(projection, t[1..]);
    }
  }

  /** A downstream trace that follows the protocol had no throw before the last notification. */
  lemma WellFormedMapOnlyIf<T, U, E>(projection: T -> Outcome<U, E>, t: seq<Notification<T, E>>, i: nat)
    requires WellFormed(MapTrace(projection, t))
    requires i < |t| - 1
    ensures !ThrowsAt(projection, t, i)
  {
    assert MapTrace(projection, t)[i].Next?;
  }

  /** Over a well-formed upstream, no throw before the last notification keeps the protocol. */
  lemma WellFormedMapIf<T, U, E>(projection: T -> Outcome<U, E>, t: seq<Notification<T, E>>)
    requires WellFormed(t)
    requires forall i :: 0 <= i < |t| - 1 ==> !ThrowsAt(projection, t, i)
    ensures WellFormed(MapTrace(projection, t))
  {
    var r := MapTrace(projection, t);
    forall i | 0 <= i < |r| - 1
      ensures r[i].Next?
    {
      assert t[i].Next? && !ThrowsAt(projection, t, i);
    }
  }

  /**
    Over a well-formed upstream, the downstream trace is well-formed exactly
    when the projection throws on no `next` other than the last notification.
   */
  lemma WellFormedMapIff<T, U, E>(projection: T -> Outcome<U, E>, t: seq<Notification<T, E>>)
    requires WellFormed(t)
    ensures WellFormed(MapTrace(projection, t)) <==> forall i :: 0 <= i < |t| - 1 ==> !ThrowsAt(projection, t, i)
  {
    if WellFormed(MapTrace(projection, t)) {
      forall i | 0 <= i < |t| - 1
        ensures !ThrowsAt(projection, t, i)
      {
        WellFormedMapOnlyIf(projection, t, i);
      }
    }
    if forall i :: 0 <= i < |t| - 1 ==> !ThrowsAt(projection, t, i) {
      WellFormedMapIf(projection, t);
    }
  }

  /** A projection that never throws keeps a well-formed upstream well-formed. */
  lemma WellFormedPreserved<T, U, E>(f: T -> U, t: seq<Notification<T, E>>)
    requires WellFormed(t)
    ensures WellFormed(MapTrace(Total<T, U, E>(f), t))
  {
    WellFormedMapIff(Total<T, U, E>(f), t);
  }

  /**
    No terminal guard: after the projection throws on the first value, the
    remaining `next` and the `complete` are still forwarded, so a well-formed
    upstream yields a downstream trace that breaks the protocol.
   */
  lemma ErrorIsNotTerminal()
    ensures var projection := (x: int) => if x == 0 then Threw("zero") else Returned(x);
            var up := [Next(0), Next(1), Complete];
            && WellFormed(up)
            && MapTrace(projection, up) == [Error("zero"), Next(1), Complete]
            && !WellFormed(MapTrace(projection, up))
  {
    var projection := (x: int) => if x == 0 then Threw("zero") else Returned(x);
    var up: seq<Notification<int, string>> := [Next(0), Next(1), Complete];
    assert MapTrace(projection, up)[0] == Error("zero");
  }

  /** Intercepting is streaming too: a concatenation is intercepted piece by piece. */
  lemma {:induction false} InterceptTraceAppend<T, U, E>(projection: T -> Outcome<U, E>, onNext: U -> Reaction<E>, a: seq<Notification<T, E>>, b: seq<Notification<T, E>>)
    ensures InterceptTrace(projection, onNext, a + b) == InterceptTrace(projection, onNext, a) + InterceptTrace(projection, onNext, b)
  {
    if |a| != 0 {
      var head := InterceptNotification(projection, onNext, a[0]);
      assert (a + b)[0] == a[0];
      assert (a + b)[1..] == a[1..] + b;
      InterceptTraceAppend(projection, onNext, a[1..], b);
      assert InterceptTrace(projection, onNext, a + b)
          == head + (InterceptTrace(projection, onNext, a[1..]) + InterceptTrace(projection, onNext, b));
      assert InterceptTrace(projection, onNext, a) == head + InterceptTrace(projection, onNext, a[1..]);
    } else {
      assert a + b == b;
    }
  }

  /** When no downstream `next` throws on the values of `t`, intercepting `t` is `MapTrace`. */
  lemma {:induction false} InterceptReturningDownstream<T, U, E>(projection: T -> Outcome<U, E>, onNext: U -> Reaction<E>, t: seq<Notification<T, E>>)
    requires DownstreamThrowCount(projection, onNext, t) == 0
    ensures InterceptTrace(projection, onNext, t) == MapTrace(projection, t)
  {
    if |t| != 0 {
      InterceptReturningDownstream(projection, onNext, t[1..]);
      assert InterceptNotification(projection, onNext, t[0]) == [MapNotification(projection, t[0])];
      assert MapTrace(projection, t) == [MapNotification(projection, t[0])] + MapTrace(projection, t[1..]);
    }
  }

  /**
    A downstream `next` that throws `x` on the projected value is still
    called, and the catch then calls `error(x)`; the stream goes on.
   */
  lemma DownstreamThrowIsCaught<T, U, E>(projection: T -> Outcome<U, E>, onNext: U -> Reaction<E>, a: seq<Notification<T, E>>, v: T, b: seq<Notification<T, E>>)
    requires projection(v).Returned? && onNext(projection(v).value).Throws?
    ensures InterceptTrace(projection, onNext, a + [Next(v)] + b)
         == InterceptTrace(projection, onNext, a)
            + [Next(projection(v).value), Error(onNext(projection(v).value).thrown)]
            + InterceptTrace(projection, onNext, b)
  {
    InterceptTraceAppend(projection, onNext, a + [Next(v)], b);
    InterceptTraceAppend(projection, onNext, a, [Next(v)]);
    assert InterceptTrace(projection, onNext, [Next(v)]) == InterceptNotification(projection, onNext, Next(v)) + InterceptTrace(projection, onNext, []);
  }

  /**
    Concrete case: a downstream `next` that rejects 2 (as a failing assertion
    inside `next` does) makes one upstream `next` give two downstream calls,
    and a well-formed upstream yields a downstream trace that breaks the
    protocol although the projection never throws.
   */
  lemma DownstreamThrowAddsError()
    ensures var onNext := (u: int) => if u == 2 then Throws("rejected") else Returns;
            var up: seq<Notification<int, string>> := [Next(1), Complete];
            var down := InterceptTrace(Total<int, int, string>(x => x * 2), onNext, up);
            && down == [Next(2), Error("rejected"), Complete]
            && |down| == 3
            && WellFormed(up)
            && !ThrowsAt(Total<int, int, string>(x => x * 2), up, 0)
            && !WellFormed(down)
  {
    var onNext := (u: int) => if u == 2 then Throws("rejected") else Returns;
    var up: seq<Notification<int, string>> := [Next(1), Complete];
    assert up[1..] == [Complete];
    assert up[1..][1..] == [];
    var down := InterceptTrace(Total<int, int, string>(x => x * 2), onNext, up);
    assert down[1].IsTerminal();
  }

  /**
    Every `error` call downstream has one of three sources: an upstream
    `error`, a throw of the projection, or a throw of the downstream `next`
    caught by the same catch.
   */
  lemma {:induction false} InterceptErrorCount<T, U, E>(projection: T -> Outcome<U, E>, onNext: U -> Reaction<E>, t: seq<Notification<T, E>>)
    ensures ErrorCount(InterceptTrace(projection, onNext, t))
            == ErrorCount(t) + ThrowCount(projection, t) + DownstreamThrowCount(projection, onNext, t)
  {
    if |t| != 0 {
      var head := InterceptNotification(projection, onNext, t[0]);
      ErrorCountAppend(head, InterceptTrace(projection, onNext, t[1..]));
      InterceptErrorCount(projection, onNext, t[1..]);
      if |head| == 2 {
        assert head[1..][1..] == [];
      } else {
        assert head[1..] == [];
      }
    }
  }

  /**
    Over a well-formed upstream, the downstream trace keeps the protocol when,
    before the last notification, neither the projection nor the downstream
    `next` throws.
   */
  lemma {:induction false} InterceptWellFormedIf<T, U, E>(projection: T -> Outcome<U, E>, onNext: U -> Reaction<E>, t: seq<Notification<T, E>>)
    requires WellFormed(t)
    requires forall i :: 0 <= i < |t| - 1 ==> !ThrowsAt(projection, t, i) && !DownstreamThrowsAt(projection, onNext, t, i)
    ensures WellFormed(InterceptTrace(projection, onNext, t))
    decreases |t|
  {
    var r := InterceptTrace(projection, onNext, t);
    if |t| == 1 {
      assert r == InterceptNotification(projection, onNext, t[0]) + InterceptTrace(projection, onNext, t[1..]);
      assert t[1..] == [];
    } else if |t| > 1 {
      var rest := t[1..];
      forall i | 0 <= i < |rest| - 1
        ensures !ThrowsAt(projection, rest, i) && !DownstreamThrowsAt(projection, onNext, rest, i)
      {
        assert rest[i] == t[i + 1];
        assert !ThrowsAt(projection, t, i + 1) && !DownstreamThrowsAt(projection, onNext, t, i + 1);
      }
      InterceptWellFormedIf(projection, onNext, rest);
      var tail := InterceptTrace(projection, onNext, rest);
      assert !ThrowsAt(projection, t, 0) && !DownstreamThrowsAt(projection, onNext, t, 0);
      assert r == [Next(projection(t[0].value).value)] + tail;
      forall i | 0 <= i < |r| - 1
        ensures !r[i].IsTerminal()
      {
        if i > 0 {
          assert r[i] == tail[i - 1];
        }
      }
    }
  }
}
