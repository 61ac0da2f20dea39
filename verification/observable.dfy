/**
  The `Observable` wrapper: a stored subscribe function, `subscribe`, and the
  `map` operator built from an intercepting observer.

  A subscribe function is modelled by what one call of it does: the trace of
  calls it makes on the observer it is given, and the Subscription it
  returns. Besides the observer, it is given the number of the subscribe call
  it runs in (`run`), which stands for the state of the world at that call
  (pending timers, registered listeners, fresh objects): two calls with the
  same observer may deliver different traces and return different
  Subscriptions. Observers are modelled by their identity: the caller's own
  callback objects, and the intercepting observer that `map` builds around a
  downstream observer.

  Downstream callbacks are taken to return normally here; what the
  intercepting observer does when a downstream `next` throws is stated by
  `MapOperator.InterceptTrace`.
 */
module Observables {
  import opened Notifications
  import opened MapOperator

  /** The identity of an observer object. */
  datatype Observer = Caller(id: nat) | Interceptor(downstream: Observer)

  /** The cancellation handle returned by a subscribe function, known by its identity. */
  datatype Subscription = Subscription(handle: nat)

  /** One execution of a subscribe function on a given observer, in a given run. */
  datatype Execution<+T, +E> = Execution(trace: seq<Notification<T, E>>, subscription: Subscription)

  /** An Observable holds its subscribe function and nothing else. */
  datatype Observable<T, E> = Observable(subscribeFn: (Observer, nat) -> Execution<T, E>)

  /**
    `subscribe` hands the observer, unchanged, to the stored function and
    returns what it returns: no wrapping, no error handling, no extra calls.
   */
  function Subscribe<T, E>(obs: Observable<T, E>, observer: Observer, run: nat): (e: Execution<T, E>)
    ensures e.trace == obs.subscribeFn(observer, run).trace
    ensures e.subscription == obs.subscribeFn(observer, run).subscription
  {
    obs.subscribeFn(observer, run)
  }

  /**
    `upstream.map(projection)`: subscribing with `observer` subscribes the
    upstream with an intercepting observer for `observer`, translates every
    call made on the interceptor, and returns the upstream's Subscription.
   */
  function Map<T, U, E>(upstream: Observable<T, E>, projection: T -> Outcome<U, E>): (r: Observable<U, E>)
    ensures forall o, run :: Subscribe(r, o, run).subscription == Subscribe(upstream, Interceptor(o), run).subscription
    ensures forall o, run :: |Subscribe(r, o, run).trace| == |Subscribe(upstream, Interceptor(o), run).trace|
  {
    Observable(
      (o: Observer, run: nat) =>
        var up := Subscribe(upstream, Interceptor(o), run);
        Execution(MapTrace(projection, up.trace), up.subscription))
  }

  /**
    What a subscriber of `upstream.map(projection)` receives, call by call:
    each `next` of the upstream as a `next` of the projected value or as an
    `error` of the thrown value, and each `error` and `complete` unchanged.
   */
  lemma SubscribeMap<T, U, E>(upstream: Observable<T, E>, projection: T -> Outcome<U, E>, o: Observer, run: nat, i: nat)
    requires i < |Subscribe(upstream, Interceptor(o), run).trace|
    ensures var up := Subscribe(upstream, Interceptor(o), run).trace;
            var down := Subscribe(Map(upstream, projection), o, run).trace;
            && (up[i].Next? && projection(up[i].value).Returned? ==> down[i] == Next(projection(up[i].value).value))
            && (up[i].Next? && projection(up[i].value).Threw? ==> down[i] == Error(projection(up[i].value).thrown))
            && (up[i].Error? ==> down[i] == Error(up[i].err))
            && (up[i].Complete? ==> down[i] == Complete)
  {
  }

  /**
    Chained operators: subscribing to `upstream.map(p).map(q)` runs the
    upstream once, behind two interceptors, and delivers what one `map` with
    `p` then `q` would; the Subscription is still the upstream's own.
   */
  lemma SubscribeMapMap<T, U, V, E>(upstream: Observable<T, E>, p: T -> Outcome<U, E>, q: U -> Outcome<V, E>, o: Observer, run: nat)
    ensures var up := Subscribe(upstream, Interceptor(Interceptor(o)), run);
            var down := Subscribe(Map(Map(upstream, p), q), o, run);
            && down.trace == MapTrace(Then(p, q), up.trace)
            && down.subscription == up.subscription
  {
    var up := Subscribe(upstream, Interceptor(Interceptor(o)), run);
    MapFusion(p, q, up.trace);
  }

  /**
    Subscribing a mapped Observable to an upstream that delivers `xs` and
    completes yields `xs` mapped elementwise and then `complete`, as long as
    the projection never throws.
   */
  lemma SubscribeMapValues<T, U, E>(upstream: Observable<T, E>, f: T -> U, o: Observer, run: nat, xs: seq<T>)
    requires Subscribe(upstream, Interceptor(o), run).trace == Nexts(xs) + [Complete]
    ensures Subscribe(Map(upstream, Total<T, U, E>(f)), o, run).trace == Nexts(Apply(f, xs)) + [Complete]
    ensures NextValues(Subscribe(Map(upstream, Total<T, U, E>(f)), o, run).trace) == Apply(f, xs)
    ensures CompleteCount(Subscribe(Map(upstream, Total<T, U, E>(f)), o, run).trace) == 1
  {
    MapValuesThenComplete<T, U, E>(f, xs);
    NextValuesOfNexts<U, E>(Apply(f, xs));
    NextValuesAppend(Nexts<U, E>(Apply(f, xs)), [Complete]);
    CompleteCountAppend(Nexts<U, E>(Apply(f, xs)), [Complete]);
    CompleteCountOfNexts<U, E>(Apply(f, xs));
  }
}
