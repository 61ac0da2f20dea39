# Observable: a Dafny model of the `Observable` wrapper and its `map` operator

The repository implements a minimal push-based stream: an `Observable` stores
a subscribe function and runs it only when `subscribe(observer)` is called;
the `map` operator wraps an upstream Observable with an intercepting observer
that rewrites every notification on its way to the downstream observer.

This project models one execution of an Observable as the finite sequence of
calls it makes on its observer, `Next(v) | Error(e) | Complete`
(`Notifications`). The projection given to `map` is a function that either
returns a value or throws one (`Outcome`). The intercepting observer then
becomes a total, pure transformer of traces. Its `try` covers both the
projection and the downstream `next` call, so `MapOperator.InterceptTrace`
is also given what the downstream `next` does with each value (`Reaction`).
`MapOperator.MapTrace` is the case where the downstream `next` returns
normally, and there every upstream call becomes exactly one downstream call.

- `Observables` models the `Observable` class. An Observable holds only its
  subscribe function. A subscribe function is modelled by what one call of
  it does: the calls it makes on the observer it was given, and the
  Subscription it returns. It also receives the number of the subscribe
  call it runs in (`run`). This stands for the state of the world at that
  call, so two subscribes may deliver different traces and return
  different Subscriptions. Observers are modelled by their identity: the
  caller's own objects (`Caller`), and the intercepting observer that `map`
  builds around a downstream observer (`Interceptor`). Subscriptions are
  modelled by their identity too.
- `Program` models a host program that builds Observables (with the
  constructor or with `map`) and subscribes to them. It keeps a log of every
  call made on the observers it subscribes with. Calls made on an
  intercepting observer inside a `map` are not logged; what reaches the
  subscribing observer is. This is where "construction is inert" and
  "subscribe is a pass-through" are stated.

The model follows the code, not the idealised protocol. In the code, the
intercepting observer has no terminal-event guard. When the projection
throws, `error(thrown)` is forwarded, the upstream is not cancelled, and
later upstream `next` and `complete` calls are still forwarded. The usual
Observable protocol treats `error` as terminal. The code does not enforce
this, and the model keeps the code's behaviour: `MapOperator.ErrorIsNotTerminal` shows a
well-formed upstream whose mapped trace breaks the protocol, and, when the
downstream `next` returns normally, `MapOperator.WellFormedMapIff` says
exactly when well-formedness survives. A downstream `next` that throws
before the last notification breaks the protocol too, even when the
projection never throws: `MapOperator.DownstreamThrowAddsError` shows such a
case, and `MapOperator.InterceptWellFormedIf` says when the general trace
keeps the protocol.

Calls to the optional `error` and `complete` callbacks are recorded in the
trace whether or not the downstream observer defines them.

## Model

| member | source | states |
|---|---|---|
| MapOperator.MapTrace | src/index.ts:59-72 | With a downstream `next` that returns normally: one downstream call per upstream call, at the same position. `next(v)` becomes `next(projection(v))` when the projection returns, and `error(thrown)` when it throws. `error(err)` is forwarded with the same value, and `complete` is forwarded as `complete`. |
| MapOperator.MapTraceAppend | src/index.ts:60-72 | The mapped trace of a concatenation is the concatenation of the mapped traces. So notifications are forwarded in upstream order, and none is buffered or reordered. |
| MapOperator.ThrowDoesNotStopUpstream | src/index.ts:60-65 | When the projection throws on `v`, that position becomes `Error(thrown)`. Everything before and after is mapped as usual, because the upstream is not cancelled. |
| MapOperator.MapValuesThenComplete | src/__tests__/observable.test.ts:50-69 | Take an upstream that delivers `xs` and completes, and a projection that never throws. The mapped trace delivers `xs` mapped elementwise, then completes. This is the test's comparison with `arr.map(projectionFn)`. |
| MapOperator.NextValuesOfMap | src/index.ts:60-62 | With a non-throwing projection, the values delivered through `next` downstream are the upstream `next` values mapped elementwise, in order. |
| MapOperator.MapIdentity | src/index.ts:60-72 | With a downstream `next` that returns normally, mapping with the identity projection gives back the upstream trace unchanged. |
| MapOperator.MapFusion | src/index.ts:55-75 | `.map(p).map(q)` delivers the same trace as one `map` whose projection runs `p` and then `q`. A value thrown by `p` passes through `q`'s stage as an error. |
| MapOperator.ErrorCountOfMap | src/index.ts:60-69 | With a downstream `next` that returns normally, the number of downstream `error` calls is the number of upstream `error` calls plus the number of `next` values on which the projection throws. |
| MapOperator.CompleteCountOfMap | src/index.ts:70-72 | The downstream trace has exactly as many `complete` calls as the upstream trace. |
| MapOperator.WellFormedMapIff | src/index.ts:60-72 | Take an upstream that follows the protocol: `next`s, then at most one final `error` or `complete`. Its mapped trace follows the protocol if and only if the projection throws on no `next` except possibly the last notification. |
| MapOperator.WellFormedMapOnlyIf | src/index.ts:60-65 | If the mapped trace follows the protocol, the projection threw on no `next` before the last notification. An earlier throw puts an `error` before a later forwarded call. |
| MapOperator.WellFormedMapIf | src/index.ts:60-72 | With a downstream `next` that returns normally: over an upstream that follows the protocol, a projection that throws on no `next` before the last notification gives a mapped trace that follows the protocol. |
| MapOperator.WellFormedPreserved | src/index.ts:60-72 | With a downstream `next` that returns normally, a projection that never throws keeps a well-formed upstream well-formed. |
| MapOperator.ErrorIsNotTerminal | src/index.ts:60-72 | Concrete case: upstream `[Next(0), Next(1), Complete]` with a projection that throws on 0. The downstream trace is `[Error, Next(1), Complete]`. That breaks the protocol, because there is no terminal guard. |
| MapOperator.InterceptTrace | src/index.ts:60-72 | The general intercepting observer, given what the downstream `next` does with each value. Each upstream call gives one downstream call, and each value whose downstream `next` throws adds one `error` call, so the downstream trace is that much longer than the upstream one. |
| MapOperator.InterceptErrorCount | src/index.ts:60-69 | With any downstream behaviour, the number of downstream `error` calls is the number of upstream `error` calls, plus the `next` values on which the projection throws, plus those on which the downstream `next` throws. |
| MapOperator.InterceptWellFormedIf | src/index.ts:60-72 | With any downstream behaviour: over an upstream that follows the protocol, the downstream trace follows the protocol when neither the projection nor the downstream `next` throws before the last notification. A throw on the last notification leaves it well-formed. |
| MapOperator.InterceptTraceAppend | src/index.ts:60-72 | With any downstream behaviour, the intercepted trace of a concatenation is the concatenation of the intercepted traces, so order is kept. |
| MapOperator.InterceptReturningDownstream | src/index.ts:60-72 | When no downstream `next` throws on the upstream's values, the intercepted trace is exactly `MapTrace`'s one-call-per-position trace. |
| MapOperator.DownstreamThrowIsCaught | src/index.ts:61-65 | A downstream `next` that throws `x` on the projected value `u` has still been called. The catch then calls `error(x)`, giving `Next(u), Error(x)` at that point. What comes before and after is intercepted as usual. |
| MapOperator.DownstreamThrowAddsError | src/index.ts:61-65 | Concrete case: projection `x * 2`, and a downstream `next` that throws on 2, as a failing assertion inside `next` would. Upstream `[Next(1), Complete]` gives three downstream calls, `[Next(2), Error, Complete]`. The upstream follows the protocol and the projection never throws, yet the downstream trace breaks the protocol. |
| Observables.Subscribe | src/index.ts:20-22 | `subscribe(observer)` runs the stored function on the observer, unchanged. It delivers exactly the calls that function makes and returns exactly the Subscription it returns. |
| Observables.Map | src/index.ts:55-75 | Subscribing to a mapped Observable returns the upstream's own Subscription. The downstream trace has one call per call the upstream makes on the intercepting observer. |
| Observables.SubscribeMap | src/index.ts:58-73 | For each call the upstream makes on the intercepting observer, this is what the downstream subscriber receives at the same position: the projected `next`, the thrown value as `error`, or the same `error` or `complete`. |
| Observables.SubscribeMapMap | src/index.ts:55-75 | Subscribing to `upstream.map(p).map(q)` subscribes the upstream once, behind two interceptors. It delivers the fused projection's trace and returns the upstream's Subscription. |
| Observables.SubscribeMapValues | src/__tests__/observable.test.ts:50-69 | A subscriber of a mapped Observable whose upstream delivers `xs` and completes receives `xs` mapped elementwise, then `complete`. The values it collects are `xs` mapped elementwise, and it completes exactly once, as the test checks. |
| Program.ConstructIsInert | src/index.ts:16-18 | Constructing an Observable calls no observer and creates no Subscription. It only adds an Observable whose subscribe behaviour is exactly the given function's. |
| Program.DeriveIsInert | src/index.ts:55-58 | Building `source.map(p)` does not subscribe to `source`. No observer is called and no Subscription is created. The Observables built before are kept unchanged. The new one subscribes exactly as `Map(source, p)` does. |
| Program.SubscribePassesThrough | src/index.ts:20-22 | `subscribe(o)` runs the stored function on `o` itself, as the program's next run. The calls it makes are logged against `o`. The Subscription the host receives is exactly the one the function returns. |
| Program.OnlySubscribeNotifies | src/index.ts:13-22 | Over any program, the log only grows, and the host receives one Subscription per `subscribe`. A program that never subscribes calls no observer. |
| Program.EachSubscribeIsFresh | src/index.ts:20-22 | Each subscribe runs the stored function afresh. Concrete case: a subscribe function whose handle and value depend on the run. Subscribing twice with the same observer gives two different Subscriptions and two different logged traces. |

## Left out

- `timeout` (src/index.ts:24-37): a thin wrapper over the host timer, so it is timer I/O.
- `fromEvent` (src/index.ts:39-53): a thin wrapper over DOM listener registration and removal, so it is DOM I/O.
- `of` and `filter`: the tests call them (`of` at src/__tests__/observable.test.ts:6, 23, 56 and 77; `filter` at line 78), but `src/index.ts` does not define them. Only the trace that `of(arr)` is expected to deliver appears, as the precondition of `Observables.SubscribeMapValues`. A `fail` source constructor does not exist anywhere in the repository.
- `unsubscribe`: it is an opaque `Function` in the source. A Subscription is modelled only by its identity. "Unsubscribing the mapped stream is unsubscribing the upstream" is stated as identity of the two Subscriptions.
- The `TypeError` raised when `map` calls an absent `error` or `complete` callback: such calls are recorded in the trace instead.
- A subscribe function that throws synchronously: subscribe functions are modelled as total. The core has no handler for such a throw, so it would only propagate to the caller.
- Asynchrony and the moment at which calls happen: a trace records only the order of the calls.
- JavaScript specifics: the `self` binding in `map`, `any`/`Function` typing, closure identity. The projection is typed `T -> Outcome<U, E>`.
- Program.DeriveIsInert: in the host-program model, every Observable the host holds has one value type, so `Derive` covers only projections from a type to itself. `Observables.Map` itself is fully generic.
- MapOperator.MapTrace: assumes the downstream `next` returns normally. The case where it throws is modelled by `MapOperator.InterceptTrace`, where one upstream `next` can give two downstream calls.
- Observables.Map: assumes the downstream callbacks return normally, so one downstream call per upstream call. A throwing downstream `next` is covered only at the trace level, by `MapOperator.InterceptTrace`.
- Observables.SubscribeMap: same assumption as `Observables.Map`. A throwing downstream `next` shifts the positions that come after it.
- Observables.SubscribeMapMap: same assumption as `Observables.Map`.
- Observables.SubscribeMapValues: same assumption as `Observables.Map`.
- A downstream `error` or `complete` callback that throws: the source does not catch it, so the exception leaves the intercepting observer and reaches the upstream's code, which this model does not see.
- MapOperator.WellFormedMapIff: characterises well-formedness of `MapTrace`, so it assumes the downstream `next` returns normally. With a throwing downstream `next`, the trace can also break the protocol, as `MapOperator.DownstreamThrowAddsError` shows. No general iff is stated for `MapOperator.InterceptTrace`.
- MapOperator.MapIdentity: about `MapTrace`, so it assumes the downstream `next` returns normally. A throwing downstream `next` adds `error` calls (`MapOperator.DownstreamThrowIsCaught`), so the trace is not given back unchanged.
- MapOperator.ErrorCountOfMap: about `MapTrace`, so it assumes the downstream `next` returns normally. The count with a throwing downstream `next` is `MapOperator.InterceptErrorCount`.
- MapOperator.WellFormedMapIf: about `MapTrace`, so it assumes the downstream `next` returns normally. The general sufficient condition is `MapOperator.InterceptWellFormedIf`.
- MapOperator.WellFormedPreserved: about `MapTrace`, so it assumes the downstream `next` returns normally. With a throwing downstream `next`, a projection that never throws can still break the protocol (`MapOperator.DownstreamThrowAddsError`).
