# Stackd — a verified model of a PHP middleware-chaining library

Stackd lets a caller register middlewares and run them one after another on
a request and a response. A `Stackd` object captures the request and the
response when it is constructed. `add` makes each new middleware the
successor (`next`) of the one added before it. `run` calls the first
middleware added. Each middleware's `call` may act before and after calling
its own `next`, or answer without forwarding. The inherited `call` simply
returns `next`. `next` throws when there is no successor.

The model has five modules:

- `Context` (`context.dfy`): the opaque PHP values a stack carries (`Value`,
  where only `Null` is told apart), the four `StackdException` situations
  (`StackdError`), and `Result`/`Outcome` for operations that may throw.
- `ChainSemantics` (`chain_semantics.dfy`): a heap-free reference meaning for a
  chain. `Behaviour` stands for the overridden `call` bodies: `Default` (the
  inherited one), `Reply(answer)` (answers from the request and response
  without forwarding) and `Wrap(before, after)` (returns
  `before . next(...) . after`). `ChainResult(ks, request, response)` gives
  the result of calling the first of a chain whose behaviours are `ks`, in
  closed form. The first middleware that answers settles the chain. Each
  forwarding middleware before it adds its opening on the way in and its
  closing on the way out. If no middleware answers, the no-successor
  exception propagates.
- `Middlewares` (`middleware.dfy`): `class Middleware` with its mutable `next`
  field and a fixed `kind`. `Inject` is `__inject`. `Next` and `Call` are
  functions that read the heap and follow `next` pointers. A ghost `chain`
  parameter lists the middlewares those pointers lead through, up to the
  point where `call` settles: the last one has no successor or answers
  without forwarding, so its `next` may also point back into the chain. The
  parameter bounds the recursion. `Call` is proved equal to `ChainResult` of
  that chain, and `Next` to `ChainResult` of the chain without its first
  element.
- `Stacks` (`stackd.dfy`): `class Stackd` with the `stack` sequence (most
  recent first, as PHP's `array_unshift` leaves it) and the constant request
  and response. `Valid()` is the linkage invariant: `stack[i].next ==
  stack[i-1]` and `stack[0].next == null`. `Create` is the throwing
  constructor, then `Add` and `Run`.
- `Scenarios` (`scenarios.dfy`): the library's usage scenarios as methods:
  the "ABCBA" nesting with every mix of class-name and instance
  registration, cycles of `next` pointers closed after an answering
  middleware, and the cases the tests exercise.

## Model

| member | source | states |
|---|---|---|
| `ChainSemantics.FirstReply` | Stackd/Middleware.php:40-51 | the index of the first middleware that answers without forwarding (or the chain length): it answers, and nobody before it does |
| `ChainSemantics.ChainResultStep` | Stackd/Middleware.php:34-51 | putting one middleware in front of a chain: an answering one returns its own answer and ignores the rest, a default one returns the rest's result unchanged (value or exception), a wrapper wraps a value and lets an exception through |
| `ChainSemantics.DefaultsAddNothing` | Stackd/Middleware.php:48-51 | middlewares that keep the inherited `call` contribute nothing around the result they forward |
| `ChainSemantics.FailsIffNobodyAnswers` | Stackd/Middleware.php:36-40 | a chain throws if and only if no middleware in it answers without forwarding, and the exception it throws is the no-successor one |
| `ChainSemantics.PassThroughThenReply` | Stackd/Middleware.php:40-51 | default middlewares ending in one that answers return exactly that answer, computed from the request and response the chain was given |
| `ChainSemantics.NestedWrappers` | Stackd/Middleware.php:40 | wrappers "A" and "B" in front of a middleware answering "C" yield "ABCBA" |
| `Middlewares.Middleware.constructor` | Stackd/Middleware.php:14 | a new middleware has no successor |
| `Middlewares.Middleware.Inject` | Stackd/Middleware.php:22-25 | `__inject` sets `next` to its argument, overwriting any earlier value, and changes no other field |
| `Middlewares.Middleware.Next` | Stackd/Middleware.php:34-41 | throws the no-successor exception when `next` is null; otherwise the result is that of the rest of the chain, called with the same request and response |
| `Middlewares.Middleware.Call` | Stackd/Middleware.php:48-51 | a middleware's `call` returns `ChainResult` of the chain its `next` pointers lead through, up to where it settles (a cycle closed after an answering middleware included) |
| `Middlewares.SuffixSettles` | Stackd/Middleware.php:40 | the successor of a settling chain's first element heads a settling chain made of the remaining elements |
| `Middlewares.FollowAlongChain` | Stackd/Middleware.php:36-40 | following `next` from any element of a chain visits the later elements in order and reaches null one step after the last |
| `Middlewares.ChainIsAcyclic` | Stackd/Middleware.php:36-40 | a chain never visits a middleware twice |
| `Middlewares.DefaultCallIsNext` | Stackd/Middleware.php:48-51 | the inherited `call` returns exactly what `next` returns, the no-successor exception included |
| `Middlewares.NextIsSuccessorCall` | Stackd/Middleware.php:40 | with a successor, `next` returns exactly the successor's `call` on the same request and response |
| `Middlewares.LoneDefaultThrows` | Stackd/Middleware.php:36-51 | a lone middleware keeping the inherited `call` throws the no-successor exception |
| `Stacks.Create` | Stackd/Stackd.php:30-37 | construction throws if and only if the request or the response is null; otherwise it yields a new valid stack that is empty and stores both values unchanged (an empty array included) |
| `Stacks.Stackd.constructor` | Stackd/Stackd.php:35-36 | stores the request and response and starts with an empty, valid stack |
| `Stacks.Stackd.Add` | Stackd/Stackd.php:44-59 | succeeds if and only if the argument is a Middleware instance or names a Middleware class (a fresh instance of it is added); otherwise it throws and neither the stack nor any `next` changes; on success: one more entry, the new middleware at index 0, the old entries shifted up in order, the old index-0 entry's `next` set to the new middleware, no other entry's `next` changed, the new middleware's own `next` untouched, the add order extended by it, and the linkage invariant kept |
| `Stacks.Stackd.AddOrderIsChain` | Stackd/Stackd.php:54-58 | under the linkage invariant, the add order is a null-terminated chain of `next` pointers headed by the first middleware added (`end($stack)`) |
| `Stacks.Stackd.FollowFromFirstAdded` | Stackd/Stackd.php:54-58 | following `next` `k` times from the first middleware added reaches the `k`-th one added after it, and null after the last one |
| `Stacks.Stackd.StackIsDistinct` | Stackd/Stackd.php:54-58 | the linkage invariant alone rules out a middleware being in the stack twice |
| `Stacks.Stackd.Run` | Stackd/Stackd.php:64-73 | throws on an empty stack; otherwise returns exactly the `call` of the first middleware added on the stored request and response, which is `ChainResult` of the behaviours in add order; it modifies nothing |
| `Scenarios.Register` | Stackd/Stackd.php:46-58 | adding a new middleware by class name or as an instance puts it at index 0 and appends it to the add order |
| `Scenarios.WrappersNestInAddOrder` | Stackd/Stackd.php:44-73 | wrappers "A" then "B" then an answer "C", each registered by class name or as an instance in any mix, run to "ABCBA" |
| `Scenarios.NextAndCall` | tests/MiddlewareTest.php:24-54 | an answering middleware's `call` returns its answer; after injecting a second one, `next` returns the second's answer; without a successor `next` throws |
| `Scenarios.CyclesClosedAfterAnAnswer` | Stackd/Middleware.php:22-51 | a middleware answering "X" whose successor is itself answers "X"; a wrapper "A" and an answer "B" that point at each other yield "ABA" |
| `Scenarios.StackErrors` | tests/StackdTest.php:25-52 | construction without request and response throws; running an empty stack throws; adding a non-Middleware throws and leaves the stack empty |

## Left out

- `Stacks.Stackd.Add`: requires that an instance passed in is not already in the stack and has no successor yet, so the stack never holds a cycle of `next` pointers. Adding an object again creates one (adding it twice in a row sets its `next` to itself). In PHP such a stack runs forever when only forwarding middlewares lead round the cycle. When an answering middleware is reached before the cycle closes, PHP returns a value; those stacks are outside the model.
- `Middlewares.Middleware.Call`: is defined on chains that settle. The `next` pointers must reach null, or reach a middleware that answers without forwarding; its own `next` may lead back into the chain. A cycle made only of forwarding middlewares recurses forever in PHP and has no result here.
- `Middlewares.Middleware.Next`: the same restriction as `Call`. In addition, a successor, if there is one, must be part of the chain.
- `Stacks.Stackd.Run`: like `Add`, requires `Valid()`, the linkage `add` sets up. A middleware of a stack that is re-wired afterwards by a direct call of its public `__inject` takes the stack outside the model; PHP's `run` would follow the new pointers. The library itself calls `__inject` only inside `add` (Stackd/Stackd.php:55).
- `Stacks.Stackd.constructor`: requires a non-null request and response. The null check that throws is `Stacks.Create`, which is what client code calls.
- Class-name instantiation covers only names of classes that exist, as a Middleware class with a given behaviour or as another class. An unknown name is a PHP fatal error, not a `StackdException`.
- The doc comment of `add` says callables are accepted; the model follows the code. A callable that is not a string (a closure, an invokable object, an array callable) is an `OtherValue` and is rejected at Stackd/Stackd.php:50. A string callable (`'strlen'`, `'Foo::bar'`) is taken as a class name at Stackd/Stackd.php:46-47. No class has that name, so this is the fatal error of the line above, which is not modelled.
- Overridden `call` bodies are limited to the three `Behaviour` shapes. The results of `call` are strings; PHP allows any value.
- Request and response are immutable values here. In PHP, an object passed as request or response could be changed by a middleware through its handle.
- Overwriting a successor: `__inject` overwrites an earlier `next`, and `Inject` does the same.
- PHP's internal array pointer, which `end()` moves, is not modelled. Nothing in the library reads it.
- The `StackdException` class and the exact message texts are not modelled. Each message becomes one `StackdError` constructor.
- The PHPUnit scaffolding and the mock middleware classes are not modelled; their answers "Middleware 1" and "Middleware 2" are modelled as `Reply` behaviours.
