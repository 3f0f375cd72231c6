# lambdaj closures: the invocation ledger of `AbstractClosure`

lambdaj builds closures by recording. A chain of method calls is made on a
proxy. Each call is appended to the closure as one step: the method, plus the
argument array it was called with. An argument that looks like a default value
(null, a number whose `intValue()` is 0, `Boolean.FALSE`) is taken as a free
variable. Registration overwrites it with null and counts it. Invoking the
closure runs these stages:

1. It checks the number of supplied parameters against the count of free
   slots.
2. It builds fresh argument arrays. Each free slot takes the next parameter,
   in recorded order.
3. It replays the recorded methods on the closed-over target. Each result
   becomes the next receiver. Replay stops early at a null receiver and wraps
   any invocation failure.

`closeAll` runs the same closure on each element of one parameter list. Its
other overload walks several iterables in parallel and stops at the shortest.

The model has two modules:

- `ClosureSpec` (closure_spec.dfy) holds the values and the specification
  functions, with the lemmas about them:
  - `Value` is `Null | Int | Bool | Other`.
  - `Ledger` is the closure's state as a value, with its `WellFormed`
    invariant.
  - `Classify`/`CountUnbound` describe registration.
  - `Fill`/`Bind` describe parameter binding, and `Gather`/`GatherAll` are
    their inverses.
  - `Replay`/`CloseOneSpec` describe one invocation.
  - `CloseAllSpec`, `Singletons` and `Zip` describe the two `closeAll`
    overloads.
- `Closures` (abstract_closure.dfy) holds the class `AbstractClosure`:
  - Its fields `closed`, `methodList`, `argsList` and `unboundParamsCount` are
    updated in place.
  - Its methods keep the loops of the Java class.
  - Each method is proved against a specification function:
    - `RegisterInvocation` and `NullUnbound` against `Classify` and
      `CountUnbound`;
    - `BindParams` against `BoundArgs`, and `FillArgs` against `Fill`;
    - `CloseOne` against `CloseOneSpec`, and `ReplaySteps` against `Replay`;
    - `CloseAll` against `CloseAllSpec` over `Singletons`, and
      `CloseAllZip` against `CloseAllSpec` over `Zip`;
    - `NextParamSet` against `Column` and `MinLength`.
  - The inner loops are module-level methods: `NullUnbound`, `FillArgs`,
    `ReplaySteps` and `NextParamSet`. `NullUnbound` and `FillArgs` work on
    arrays, as the Java class does.

Reflective invocation is a parameter `invoke: Invoker`, a function from
method, receiver and argument array to `Returned(value)` or `Threw(cause)`.
The methods that invoke it also return `calls`, the sequence of invocations
they made, in order. This trace is how the model states which method was
invoked on which receiver with which arguments. Exceptions become an `Outcome`:

- `Err(ParamCountMismatch(expected, given))` for the arity check.
- `Err(InvocationFailure(method, receiver, cause))` for the wrapped
  reflective failure.

## Model

| member | source | states |
|---|---|---|
| Closures.AbstractClosure.constructor | trunk/src/main/java/ch/lambdaj/function/closure/AbstractClosure.java:8-15 | a new closure has no target, no steps, no argument entries and no free slots, and is well formed |
| Closures.AbstractClosure.SetClosed | trunk/src/main/java/ch/lambdaj/function/closure/AbstractClosure.java:17-19 | only the target changes; the ledger stays well formed |
| Closures.AbstractClosure.RegisterInvocation | trunk/src/main/java/ch/lambdaj/function/closure/AbstractClosure.java:21-33 | appends the method; a null or empty argument array adds a null entry and no free slot; otherwise each rejected argument in the caller's array is overwritten with null, the array is appended, and the counter grows by the number of rejected arguments; the ledger stays well formed (lists in lockstep, counter equal to the free slots) |
| Closures.NullUnbound | trunk/src/main/java/ch/lambdaj/function/closure/AbstractClosure.java:25-30 | the array becomes its classification in place, and the count returned is the number of arguments IsBoundParam rejects |
| ClosureSpec.Classify | trunk/src/main/java/ch/lambdaj/function/closure/AbstractClosure.java:25-30 | classification keeps the length, and the free slots it leaves equal the rejected arguments counted |
| ClosureSpec.ClassifyAt | trunk/src/main/java/ch/lambdaj/function/closure/AbstractClosure.java:26-27 | each slot after registration is the argument when it is bound, null otherwise |
| ClosureSpec.ClassifyIdempotent | trunk/src/main/java/ch/lambdaj/function/closure/AbstractClosure.java:25-30 | classifying an already classified array changes nothing |
| ClosureSpec.AppendWellFormed | trunk/src/main/java/ch/lambdaj/function/closure/AbstractClosure.java:21-33 | appending a step whose counter grows by that step's free slots keeps the ledger invariant |
| ClosureSpec.IsBoundParam | trunk/src/main/java/ch/lambdaj/function/closure/AbstractClosure.java:103-107 | an argument taken as bound is never null, so null can mark a free slot without ambiguity (the per-case behaviour is IsBoundParamCases) |
| ClosureSpec.IsBoundParamCases | trunk/src/main/java/ch/lambdaj/function/closure/AbstractClosure.java:103-107 | null is free; a number is free exactly when its low 32 bits are zero; a boolean is free exactly when false; every other object is bound |
| ClosureSpec.IntValueLowBits | trunk/src/main/java/ch/lambdaj/function/closure/AbstractClosure.java:105 | intValue() lies in the signed 32-bit range, is congruent to the number modulo 2^32, and is zero exactly when the low 32 bits are |
| Closures.AbstractClosure.BindParams | trunk/src/main/java/ch/lambdaj/function/closure/AbstractClosure.java:82-101 | fails exactly when the parameter count differs from the free-slot count, with both counts in the error; returns the null list exactly when there are neither parameters nor free slots; otherwise returns the ledger with its free slots filled (BoundArgs) |
| Closures.FillArgs | trunk/src/main/java/ch/lambdaj/function/closure/AbstractClosure.java:95-97 | builds a fresh array equal to the entry filled with the parameters from the shared counter on, and advances the counter by the entry's free slots |
| ClosureSpec.Fill | trunk/src/main/java/ch/lambdaj/function/closure/AbstractClosure.java:96 | filling keeps the length and every bound argument |
| ClosureSpec.Bind | trunk/src/main/java/ch/lambdaj/function/closure/AbstractClosure.java:90-100 | binding keeps the ledger's shape: null entries stay null, every array keeps its length |
| ClosureSpec.BindEntry | trunk/src/main/java/ch/lambdaj/function/closure/AbstractClosure.java:90-100 | step j of the bound ledger is its recorded entry filled with the parameters from the count of free slots of the earlier steps, taking as many as the entry has free slots: a null entry stays null, and the shared counter runs across the steps in order |
| ClosureSpec.BindPrefix | trunk/src/main/java/ch/lambdaj/function/closure/AbstractClosure.java:90-100 | binding the first k steps with the parameters their free slots take gives the first k entries of the whole binding, so the loop's partial result is a prefix of its final result |
| ClosureSpec.BindKeepsBound | trunk/src/main/java/ch/lambdaj/function/closure/AbstractClosure.java:96 | a recorded bound argument reaches its step unchanged |
| ClosureSpec.FillAt | trunk/src/main/java/ch/lambdaj/function/closure/AbstractClosure.java:96 | free slot i of an array takes the parameter whose index is the number of free slots before i |
| ClosureSpec.BindAt | trunk/src/main/java/ch/lambdaj/function/closure/AbstractClosure.java:90-100 | free slot i of step j takes the parameter counted by the free slots of all earlier steps plus those before i in step j |
| ClosureSpec.GatherFill | trunk/src/main/java/ch/lambdaj/function/closure/AbstractClosure.java:96 | reading the free slots of a filled array back gives exactly the parameters, in order |
| ClosureSpec.FillGather | trunk/src/main/java/ch/lambdaj/function/closure/AbstractClosure.java:96 | conversely, an array that agrees with the entry on its bound slots is the filling of the entry with its own values |
| ClosureSpec.GatherAllBind | trunk/src/main/java/ch/lambdaj/function/closure/AbstractClosure.java:87-100 | across the whole ledger, binding uses every parameter exactly once and in order |
| Closures.AbstractClosure.CloseOne | trunk/src/main/java/ch/lambdaj/function/closure/AbstractClosure.java:35-50 | an arity mismatch fails before any invocation; with no steps the target itself is returned; otherwise the result and the invocations made are those of CloseOneSpec (bind, then replay) |
| Closures.ReplaySteps | trunk/src/main/java/ch/lambdaj/function/closure/AbstractClosure.java:37-49 | the loop returns the outcome and makes exactly the invocations of the replay from the target |
| ClosureSpec.ReplayTrace | trunk/src/main/java/ch/lambdaj/function/closure/AbstractClosure.java:39-47 | the steps are invoked in recorded order, each with its own bound argument array (or null when there are none), never on a null receiver, the first on the target and each next one on the result of the previous |
| ClosureSpec.ReplayOutcome | trunk/src/main/java/ch/lambdaj/function/closure/AbstractClosure.java:40-49 | a success is the target when nothing was invoked, otherwise the value the last invocation returned, and null when the replay stopped before the last step; a failure is the last invocation having thrown, with that method, receiver and cause |
| ClosureSpec.NullShortCircuit | trunk/src/main/java/ch/lambdaj/function/closure/AbstractClosure.java:41 | no invocation but the last returns null, and when the last returns null the closure returns null |
| ClosureSpec.NoParamsPassNullArgs | trunk/src/main/java/ch/lambdaj/function/closure/AbstractClosure.java:39-43 | without parameters or free slots, every step is invoked with a null argument array, whatever arguments were recorded |
| Closures.AbstractClosure.CloseAll | trunk/src/main/java/ch/lambdaj/function/closure/AbstractClosure.java:52-56 | on success there is one result per parameter, result i being closeOne on parameter i alone; a failure is that of the first parameter whose closeOne fails; outcome and invocations are those of CloseAllSpec over the singleton parameter sets |
| ClosureSpec.CloseAllScalarMeaning | trunk/src/main/java/ch/lambdaj/function/closure/AbstractClosure.java:52-56 | the same statement about the specification of the scalar overload |
| Closures.AbstractClosure.CloseAllZip | trunk/src/main/java/ch/lambdaj/function/closure/AbstractClosure.java:58-80 | on success there are as many results as the shortest iterable has elements, result k being closeOne on the k-th element of every iterable; a failure is that of the first such parameter set that fails; outcome and invocations are those of CloseAllSpec over the zipped parameter sets |
| Closures.NextParamSet | trunk/src/main/java/ch/lambdaj/function/closure/AbstractClosure.java:67-75 | reports finished exactly when some iterator is exhausted; otherwise yields the k-th element of every iterable and advances every iterator by one |
| ClosureSpec.MinLength | trunk/src/main/java/ch/lambdaj/function/closure/AbstractClosure.java:66-75 | the zipped walk's length is at most every iterable's length and equal to one of them |
| ClosureSpec.CloseAllZipMeaning | trunk/src/main/java/ch/lambdaj/function/closure/AbstractClosure.java:58-80 | the same statement about the specification of the zipped overload |
| ClosureSpec.CloseAllSpecMeaning | trunk/src/main/java/ch/lambdaj/function/closure/AbstractClosure.java:54 | invoking on several parameter sets succeeds exactly when every single invocation does, result i then being that of set i; otherwise it fails with the first failing set's error |
| ClosureSpec.CloseAllSpecStopsAtError | trunk/src/main/java/ch/lambdaj/function/closure/AbstractClosure.java:54 | once one parameter set has failed, later sets invoke nothing and change nothing |

## Left out

- `ClosuresFactory` (the thread-local "current closure" and the recording proxies) is not part of this model. Registration is modelled from the call it receives.
- Reflection: `Method.invoke` is the `invoke` parameter. It is a function, so the model assumes an invocation's result depends only on method, receiver and arguments. Side effects of the invoked methods are visible only as the recorded order of `calls`.
- Exception messages and exception classes: an error is its kind plus the data the message is built from.
- `Value` has no floating-point numbers. `Number.intValue()` is modelled for integers, as their low 32 bits (`IntValue`). Truncation of a `Float` or `Double` toward zero is left out.
- `ClosureSpec.IsBoundParamCases`: the source compares a boolean with `Boolean.FALSE` by identity, so a separately allocated `false` counts as bound. The model treats every `false` as free, because values carry no identity.
- `Closures.AbstractClosure.CloseAllZip` requires at least one iterable. With none, every round calls `closeOne` with an empty parameter set. If the closure has free slots, the first such call throws the arity error (line 85). If it has none, the rounds repeat forever unless a replay throws.
- Iterators are modelled as sequences: each iterable is read through a position array. Lazy or infinite iterables and iterators with side effects are left out.
- `Closures.AbstractClosure.RegisterInvocation`: the source stores a reference to the caller's array, so a later change by the caller would show in the ledger. The model stores a snapshot of the array after registration, so that aliasing is not modelled.
- `Closures.AbstractClosure.RegisterInvocation` adds the count of rejected arguments once, after the classification loop. The source increments the counter inside the loop. The final state is the same.
- `unboundParamsCount` is a Java `int`. The model uses an unbounded natural number, so overflow past 2^31 − 1 free slots is not modelled.
- Parameters are a sequence, so a null varargs array is the empty sequence. That matches `bindParams` (line 83), but `closeAll` throws `NullPointerException` on a null parameter array (line 54) or a null iterable (line 63). Those null-pointer failures are not modelled.
- Concurrency, and the typed subclasses that expose `closeOne`/`closeAll` under their public names, are out of scope.
