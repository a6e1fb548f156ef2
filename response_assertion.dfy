/**
 * The two combinators of src/main.ts: `createResponseAssertionFunction(status, message)`
 * builds an assertion that throws a `Response` when its condition is truthy, and
 * `negate(f)` calls `f` with the condition negated.
 *
 * A throw is a value here (`Outcome`), and a call also reports which of the
 * body and init thunks it invoked, in the order it invoked them.
 */
module ResponseAssertion {
  import opened Wrappers
  import opened JsValue

  /** An optional `body` or `init` argument: left out, a plain value, or a function returning `result`. */
  datatype Arg = Absent | Literal(v: Value) | Thunk(result: Value)

  /** The thunks a call can invoke. */
  datatype Invocation = BodyThunk | InitThunk

  /** `typeof a === "function" ? a() : a`. */
  function Resolve(a: Arg): Value {
    match a
    case Absent => Undefined
    case Literal(v) => v
    case Thunk(r) => r
  }

  /** The invocation that resolving `a` performs, if any. */
  function Invoked(a: Arg, which: Invocation): seq<Invocation> {
    if a.Thunk? then [which] else []
  }

  /** The statuses for which the Fetch Standard forbids a body ("null body status"). */
  const NullBodyStatus: set<int> := {101, 103, 204, 205, 304}

  /** A thrown response: its body (nullish for no body) and the init dictionary it was built with. */
  datatype Resp = Resp(body: Value, init: map<string, Value>)

  datatype Outcome = Returned | ThrownResponse(response: Resp) | ThrownTypeError

  datatype Run = Run(outcome: Outcome, invoked: seq<Invocation>)

  /** An assertion function, as built by `createResponseAssertionFunction` or by `negate`. */
  datatype AssertFn = Create(status: int, message: Option<string>) | Negate(inner: AssertFn)

  /** The bound default message as a JavaScript value: `undefined` when none was bound. */
  function MessageValue(message: Option<string>): Value {
    if message.Some? then Str(message.value) else Undefined
  }

  /**
   * `new Response(body, init)`, reduced to the one rule of the Fetch Standard that the
   * assertions can reach: a body that is not null or undefined together with a null
   * body status is a TypeError.
   */
  function NewResponse(body: Value, init: map<string, Value>): Outcome {
    if !Nullish(body) && "status" in init && init["status"].Int? && init["status"].i in NullBodyStatus
    then ThrownTypeError
    else ThrownResponse(Resp(body, init))
  }

  /** `{ status, ...init }`: the bound status first, then every resolved init field over it. */
  function MergedInit(status: int, init: Value): map<string, Value> {
    map["status" := Int(status)] + Spread(init)
  }

  /** Without an init, or with one that is not an object, the init holds the bound status alone. */
  lemma MergedInitWithoutFields(status: int, init: Value)
    requires !init.Obj?
    ensures MergedInit(status, init) == map["status" := Int(status)]
  {
    assert Spread(init) == map[];
  }

  /** Calling the assertion `f` with `(condition, body, init)`. */
  function Call(f: AssertFn, condition: Value, body: Arg, init: Arg): Run {
    match f
    case Create(status, message) =>
      if Truthy(condition) then
        Run(NewResponse(Coalesce(Resolve(body), MessageValue(message)), MergedInit(status, Resolve(init))),
            Invoked(body, BodyThunk) + Invoked(init, InitThunk))
      else
        Run(Returned, [])
    case Negate(g) => Call(g, Not(condition), body, init)
  }

  /** Whether `f` fires on truthy conditions (true) or on falsy ones (false). */
  function FiresOnTruthy(f: AssertFn): bool {
    match f
    case Create(_, _) => true
    case Negate(g) => !FiresOnTruthy(g)
  }

  /** The `createResponseAssertionFunction` call at the bottom of a chain of negations. */
  function Base(f: AssertFn): (b: AssertFn)
    ensures b.Create?
  {
    match f
    case Create(_, _) => f
    case Negate(g) => Base(g)
  }

  /**
   * Every assertion either returns without invoking a thunk, or behaves as its base
   * assertion does on a truthy condition; which one depends only on the truthiness
   * of the condition and the number of negations.
   */
  lemma {:induction false} CallReducesToBase(f: AssertFn, condition: Value, body: Arg, init: Arg)
    ensures Call(f, condition, body, init)
         == if Truthy(condition) == FiresOnTruthy(f) then Call(Base(f), Bool(true), body, init)
            else Run(Returned, [])
  {
    match f
    case Create(_, _) =>
    case Negate(g) => CallReducesToBase(g, Not(condition), body, init);
  }

  /** Two conditions of the same truthiness give the same run. */
  lemma {:induction false} OnlyTruthinessMatters(f: AssertFn, c1: Value, c2: Value, body: Arg, init: Arg)
    requires Truthy(c1) == Truthy(c2)
    ensures Call(f, c1, body, init) == Call(f, c2, body, init)
  {
    CallReducesToBase(f, c1, body, init);
    CallReducesToBase(f, c2, body, init);
  }

  /** A falsy condition returns normally and invokes neither thunk. */
  lemma FalsyReturns(status: int, message: Option<string>, condition: Value, body: Arg, init: Arg)
    requires !Truthy(condition)
    ensures Call(Create(status, message), condition, body, init) == Run(Returned, [])
  {
  }

  /**
   * A truthy condition never returns. Unless the init overrides `status`, the thrown
   * response carries the bound status, or the call fails with a TypeError because a
   * body was given for a null body status. The body thunk is invoked before the init
   * thunk.
   */
  lemma TruthyThrows(status: int, message: Option<string>, condition: Value, body: Arg, init: Arg)
    requires Truthy(condition)
    ensures var run := Call(Create(status, message), condition, body, init);
      && !run.outcome.Returned?
      && run.invoked == Invoked(body, BodyThunk) + Invoked(init, InitThunk)
      && ("status" !in Spread(Resolve(init)) ==>
            if run.outcome.ThrownResponse? then run.outcome.response.init["status"] == Int(status)
            else status in NullBodyStatus)
  {
  }

  /**
   * The body of a thrown response: the result of a body thunk, else the literal body;
   * only a null or undefined one is replaced by the bound message, so an explicit ""
   * is kept.
   */
  lemma BodyResolution(status: int, message: Option<string>, condition: Value, body: Arg, init: Arg)
    requires Call(Create(status, message), condition, body, init).outcome.ThrownResponse?
    ensures var r := Call(Create(status, message), condition, body, init).outcome.response;
      && (body.Thunk? && !Nullish(body.result) ==> r.body == body.result)
      && (body.Literal? && !Nullish(body.v) ==> r.body == body.v)
      && (Nullish(Resolve(body)) && message.Some? ==> r.body == Str(message.value))
      && (Nullish(Resolve(body)) && message.None? ==> Nullish(r.body))
  {
  }

  /**
   * The init of a thrown response holds every resolved init field, and `status`;
   * a `status` field of the init takes precedence over the bound code.
   */
  lemma InitPrecedence(status: int, message: Option<string>, condition: Value, body: Arg, init: Arg)
    requires Call(Create(status, message), condition, body, init).outcome.ThrownResponse?
    ensures var r := Call(Create(status, message), condition, body, init).outcome.response;
      && r.init.Keys == Spread(Resolve(init)).Keys + {"status"}
      && (forall k :: k in Spread(Resolve(init)) ==> r.init[k] == Spread(Resolve(init))[k])
      && ("status" !in Spread(Resolve(init)) ==> r.init["status"] == Int(status))
  {
  }

  /**
   * `negate(f)` throws exactly when `f` does not, and when it throws it throws what
   * `f` throws on a condition of the opposite truthiness.
   */
  lemma {:induction false} NegateFlips(f: AssertFn, condition: Value, body: Arg, init: Arg)
    ensures Call(Negate(f), condition, body, init).outcome.Returned?
        <==> !Call(f, condition, body, init).outcome.Returned?
    ensures forall other: Value :: Truthy(other) != Truthy(condition) ==>
              Call(Negate(f), condition, body, init) == Call(f, other, body, init)
  {
    CallReducesToBase(f, condition, body, init);
    CallReducesToBase(f, Not(condition), body, init);
    forall other: Value | Truthy(other) != Truthy(condition)
      ensures Call(Negate(f), condition, body, init) == Call(f, other, body, init)
    {
      OnlyTruthinessMatters(f, Not(condition), other, body, init);
    }
  }

  /** Negating twice gives back the original assertion's behaviour. */
  lemma DoubleNegation(f: AssertFn, condition: Value, body: Arg, init: Arg)
    ensures Call(Negate(Negate(f)), condition, body, init) == Call(f, condition, body, init)
  {
    OnlyTruthinessMatters(f, Not(Not(condition)), condition, body, init);
  }

  /**
   * A no-body assertion (bound without a message) that is triggered without a body
   * throws a response without a body; given a body that is not null or undefined, it
   * fails with a TypeError instead. Both hold while the init leaves `status` alone.
   */
  lemma NullBodyStatusRule(status: int, condition: Value, body: Arg, init: Arg)
    requires status in NullBodyStatus && Truthy(condition) && "status" !in Spread(Resolve(init))
    ensures var run := Call(Create(status, None), condition, body, init);
      && (Nullish(Resolve(body)) ==> run.outcome.ThrownResponse? && Nullish(run.outcome.response.body))
      && (!Nullish(Resolve(body)) ==> run.outcome == ThrownTypeError)
  {
  }

  /** With any other status, the given body reaches the thrown response. */
  lemma OtherStatusKeepsBody(status: int, message: Option<string>, condition: Value, body: Arg, init: Arg)
    requires status !in NullBodyStatus && Truthy(condition) && "status" !in Spread(Resolve(init))
    requires !Nullish(Resolve(body))
    ensures Call(Create(status, message), condition, body, init).outcome
         == ThrownResponse(Resp(Resolve(body), MergedInit(status, Resolve(init))))
  {
  }
}
