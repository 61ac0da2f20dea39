/**
  A host program driving the Observable API, to state when observers are
  called at all.

  The host keeps the Observables it has built, the Subscriptions it holds,
  and the log of every call made on the observers it subscribes with (calls
  made on intercepting observers inside a `map` are not logged; their effect
  is what reaches the subscribing observer). Building an Observable, directly
  or with `map`, only stores a function; calls on observers happen when, and
  only when, the program subscribes. The n-th subscribe of the program runs
  its subscribe function with `run` = n.
 */
module Program {
  import opened Notifications
  import opened MapOperator
  import opened Observables

  /** One call made on an observer, as the host sees it. */
  datatype Call<T, E> = Call(observer: Observer, notification: Notification<T, E>)

  /** The calls made on `o` by the trace `t`. */
  function Deliver<T, E>(o: Observer, t: seq<Notification<T, E>>): (calls: seq<Call<T, E>>)
    ensures |calls| == |t|
    ensures forall i :: 0 <= i < |t| ==> calls[i] == Call(o, t[i])
  {
    if |t| == 0 then [] else [Call(o, t[0])] + Deliver(o, t[1..])
  }

  /** What a host program can do with the API. */
  datatype Action<!T, E> =
    | Construct(subscribeFn: (Observer, nat) -> Execution<T, E>)
    | Derive(source: nat, projection: T -> Outcome<T, E>)
    | SubscribeTo(source: nat, observer: Observer)

  datatype Host<T, E> = Host(observables: seq<Observable<T, E>>, subscriptions: seq<Subscription>, log: seq<Call<T, E>>)

  /** The action names only Observables the host has already built. */
  predicate Refers<T, E>(h: Host<T, E>, a: Action<T, E>) {
    match a
    case Construct(_) => true
    case Derive(i, _) => i < |h.observables|
    case SubscribeTo(i, _) => i < |h.observables|
  }

  function Step<T, E>(h: Host<T, E>, a: Action<T, E>): Host<T, E>
    requires Refers(h, a)
  {
    match a
    case Construct(f) => h.(observables := h.observables + [Observable(f)])
    case Derive(i, p) => h.(observables := h.observables + [Map(h.observables[i], p)])
    case SubscribeTo(i, o) =>
      var e := Subscribe(h.observables[i], o, |h.subscriptions|);
      h.(subscriptions := h.subscriptions + [e.subscription], log := h.log + Deliver(o, e.trace))
  }

  /** Every action of the program refers only to Observables built before it. */
  predicate Valid<T, E>(h: Host<T, E>, program: seq<Action<T, E>>)
    decreases |program|
  {
    |program| == 0 || (Refers(h, program[0]) && Valid(Step(h, program[0]), program[1..]))
  }

  function Run<T, E>(h: Host<T, E>, program: seq<Action<T, E>>): Host<T, E>
    requires Valid(h, program)
    decreases |program|
  {
    if |program| == 0 then h else Run(Step(h, program[0]), program[1..])
  }

  /** The number of `SubscribeTo` actions in a program. */
  function SubscribeCount<T, E>(program: seq<Action<T, E>>): nat
  {
    if |program| == 0 then 0
    else (if program[0].SubscribeTo? then 1 else 0) + SubscribeCount(program[1..])
  }

  /** The constructor stores the subscribe function and calls no observer. */
  lemma ConstructIsInert<T, E>(h: Host<T, E>, f: (Observer, nat) -> Execution<T, E>)
    ensures var h' := Step(h, Construct(f));
            && h'.log == h.log
            && h'.subscriptions == h.subscriptions
            && |h'.observables| == |h.observables| + 1
            && h'.observables[..|h.observables|] == h.observables
            && forall o, run :: Subscribe(h'.observables[|h.observables|], o, run) == f(o, run)
  {
    var h' := Step(h, Construct(f));
    assert h'.observables[..|h.observables|] == h.observables;
  }

  /** Building `source.map(p)` does not subscribe to `source`: no observer is called. */
  lemma DeriveIsInert<T, E>(h: Host<T, E>, i: nat, p: T -> Outcome<T, E>)
    requires i < |h.observables|
    ensures var h' := Step(h, Derive(i, p));
            && h'.log == h.log
            && h'.subscriptions == h.subscriptions
            && |h'.observables| == |h.observables| + 1
            && h'.observables[..|h.observables|] == h.observables
            && forall o, run :: Subscribe(h'.observables[|h.observables|], o, run)
                             == Subscribe(Map(h.observables[i], p), o, run)
  {
    var h' := Step(h, Derive(i, p));
    assert h'.observables[..|h.observables|] == h.observables;
  }

  /**
    Subscribing passes the observer unchanged to the stored function: the
    calls it makes are logged against that observer, and the Subscription it
    returns is the one the host receives. The call runs as the next run of
    the program.
   */
  lemma SubscribePassesThrough<T, E>(h: Host<T, E>, i: nat, o: Observer)
    requires i < |h.observables|
    ensures var h' := Step(h, SubscribeTo(i, o));
            var e := h.observables[i].subscribeFn(o, |h.subscriptions|);
            && h'.log == h.log + Deliver(o, e.trace)
            && h'.subscriptions == h.subscriptions + [e.subscription]
            && h'.observables == h.observables
  {
  }

  /**
    Over a whole program, observers are called only by subscribing: the log
    only ever grows, one Subscription is received per `SubscribeTo`, and a
    program that never subscribes leaves the log as it was.
   */
  lemma {:induction false} OnlySubscribeNotifies<T, E>(h: Host<T, E>, program: seq<Action<T, E>>)
    requires Valid(h, program)
    ensures var h' := Run(h, program);
            && |h'.log| >= |h.log|
            && h'.log[..|h.log|] == h.log
            && |h'.subscriptions| == |h.subscriptions| + SubscribeCount(program)
            && (SubscribeCount(program) == 0 ==> h'.log == h.log)
    decreases |program|
  {
    if |program| != 0 {
      var h1 := Step(h, program[0]);
      OnlySubscribeNotifies(h1, program[1..]);
      var h' := Run(h1, program[1..]);
      assert h1.log[..|h.log|] == h.log;
      assert h'.log[..|h.log|] == h'.log[..|h1.log|][..|h.log|];
    }
  }

  /**
    Each subscribe is a fresh execution: subscribing twice with the same
    observer to an Observable whose subscribe function hands out a new handle
    per call gives the host two different Subscriptions.
   */
  lemma EachSubscribeIsFresh()
    ensures var f: (Observer, nat) -> Execution<int, string> := (o: Observer, run: nat) => Execution([Next(run), Complete], Subscription(run));
            var program := [Construct(f), SubscribeTo(0, Caller(7)), SubscribeTo(0, Caller(7))];
            var h := Host([], [], []);
            && Valid(h, program)
            && Run(h, program).subscriptions == [Subscription(0), Subscription(1)]
            && Run(h, program).log == Deliver(Caller(7), [Next(0), Complete]) + Deliver(Caller(7), [Next(1), Complete])
  {
    var f: (Observer, nat) -> Execution<int, string> := (o: Observer, run: nat) => Execution([Next(run), Complete], Subscription(run));
    var program := [Construct(f), SubscribeTo(0, Caller(7)), SubscribeTo(0, Caller(7))];
    var h := Host([], [], []);
    var h1 := Step(h, program[0]);
    var h2 := Step(h1, program[1]);
    var h3 := Step(h2, program[2]);
    assert program[1..][1..][1..] == [];
    assert Valid(h3, program[1..][1..][1..]);
    assert Valid(h2, program[1..][1..]);
    assert Valid(h1, program[1..]);
    assert Valid(h, program);
    assert Run(h, program) == Run(h1, program[1..]) == Run(h2, program[1..][1..]) == h3;
  }
}
