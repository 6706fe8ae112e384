/** The stack: it captures a request and a response, collects middlewares,
    wires each new one as the successor of the one added before it, and runs
    the chain from the first one added. */
module Stacks {
  import opened Context
  import opened ChainSemantics
  import opened Middlewares

  /** A class a caller may name instead of passing an object: either a
      Middleware subclass whose `call` behaves as `behaviour`, or some class
      that is not a Middleware. */
  datatype ClassDecl = MiddlewareClass(behaviour: Behaviour) | OtherClass

  /** What `add` may be given: a ready object, a string, taken as the name of
      a class to instantiate, or any other PHP value (an object of another
      class, a closure, an array, a number, null). */
  datatype Addable = Instance(obj: Middleware) | ClassName(cls: ClassDecl) | OtherValue

  /** Whether `add` accepts `x`: it must be, or name a class whose instances
      are, Middleware objects. */
  predicate IsMiddleware(x: Addable) {
    x.Instance? || (x.ClassName? && x.cls.MiddlewareClass?)
  }

  class Stackd {
    /** Most recently added first: `add` puts each new middleware at index 0. */
    var stack: seq<Middleware>
    const request: Value
    const response: Value

    /** The request and response are present, each middleware's successor is
        the one added right after it (the one just before it in `stack`), and
        the latest one has no successor. That no middleware is in the stack
        twice follows (`StackIsDistinct`). */
    ghost predicate Valid()
      reads this, stack
    {
      !request.Null? && !response.Null? &&
      (forall i :: 0 < i < |stack| ==> stack[i].next == stack[i - 1]) &&
      (stack != [] ==> stack[0].next == null)
    }

    /** The middlewares in the order they were added, the first one (PHP's
        `end($stack)`) first. */
    ghost function AddOrder(): seq<Middleware>
      reads this
    {
      seq(|stack|, i requires 0 <= i < |stack| reads this => stack[|stack| - 1 - i])
    }

    /** The PHP constructor after its null check: it stores both values and
        starts with an empty stack. `Create` performs the null check. */
    constructor (request: Value, response: Value)
      requires !request.Null? && !response.Null?
      ensures Valid() && stack == []
      ensures this.request == request && this.response == response
    {
      this.request := request;
      this.response := response;
      stack := [];
    }

    /** `add`: resolve a class name to a fresh instance, refuse anything that
        is not a Middleware, make the new middleware the successor of the
        previous index-0 entry and put it at index 0. */
    method Add(x: Addable) returns (o: Outcome)
      requires Valid()
      requires x.Instance? ==> x.obj !in stack && x.obj.next == null
      modifies this, if stack == [] then {} else {stack[0]}
      ensures Valid()
      ensures o.Pass? <==> IsMiddleware(x)
      ensures o.Fail? ==> o.error == NotAMiddleware && stack == old(stack)
      ensures o.Fail? ==> forall i :: 0 <= i < |stack| ==> stack[i].next == old(stack[i].next)
      ensures o.Pass? ==> |stack| == |old(stack)| + 1 && stack[1..] == old(stack)
      ensures o.Pass? && x.Instance? ==> stack[0] == x.obj && x.obj.next == old(x.obj.next)
      ensures o.Pass? && x.ClassName? ==> fresh(stack[0]) && stack[0].kind == x.cls.behaviour && stack[0].next == null
      ensures o.Pass? && old(stack) != [] ==> old(stack)[0].next == stack[0]
      ensures forall i :: 1 <= i < |old(stack)| ==> old(stack)[i].next == old(stack[i].next)
      ensures AddOrder() == if o.Pass? then old(AddOrder()) + [stack[0]] else old(AddOrder())
    {
      StackIsDistinct();
      var m: Middleware;
      match x {
        case Instance(obj) =>
          m := obj;
        case ClassName(MiddlewareClass(behaviour)) =>
          m := new Middleware(behaviour);
        case ClassName(OtherClass) =>
          return Fail(NotAMiddleware);
        case OtherValue =>
          return Fail(NotAMiddleware);
      }
      if stack != [] {
        stack[0].Inject(m);
      }
      stack := [m] + stack;
      o := Pass;
    }

    /** Following `next` from the first middleware added visits all of them
        in the order they were added, and stops. */
    lemma AddOrderIsChain()
      requires Valid() && stack != []
      ensures IsChain(AddOrder()) && AddOrder()[0] == stack[|stack| - 1]
    {
      var order := AddOrder();
      var n := |stack|;
      forall i | 0 < i < n
        ensures order[i - 1].next == order[i]
      {
        assert order[i - 1] == stack[n - i] && order[i] == stack[n - i - 1];
      }
      assert order[n - 1] == stack[0];
    }

    /** Following `next` from the first middleware added (`end($stack)`)
        reaches, after `k` steps, the `k`-th one added after it, and null
        once every middleware has been visited. */
    lemma FollowFromFirstAdded(k: nat)
      requires Valid() && stack != [] && k <= |stack|
      ensures Follow(stack[|stack| - 1], k) == if k < |stack| then AddOrder()[k] else null
    {
      AddOrderIsChain();
      FollowAlongChain(AddOrder(), 0, k);
    }

    /** The linkage leaves no room for a middleware to be in the stack twice. */
    lemma StackIsDistinct()
      requires Valid()
      ensures forall i, j :: 0 <= i < j < |stack| ==> stack[i] != stack[j]
    {
      if stack != [] {
        AddOrderIsChain();
        var order, n := AddOrder(), |stack|;
        ChainIsAcyclic(order);
        forall i, j | 0 <= i < j < n
          ensures stack[i] != stack[j]
        {
          assert stack[i] == order[n - 1 - i] && stack[j] == order[n - 1 - j];
        }
      }
    }

    /** `run`: throw on an empty stack, otherwise return whatever the `call`
        of the first middleware added returns; nothing is changed. */
    method Run() returns (r: Result<string>)
      requires Valid()
      ensures stack == [] ==> r == Err(EmptyStack)
      ensures stack != [] ==> IsChain(AddOrder()) && r == stack[|stack| - 1].Call(request, response, AddOrder())
      ensures stack != [] ==> r == ChainResult(Kinds(AddOrder()), request, response)
    {
      if stack == [] {
        return Err(EmptyStack);
      }
      AddOrderIsChain();
      var invoker := stack[|stack| - 1];
      r := invoker.Call(request, response, AddOrder());
    }
  }

  /** `new Stackd($request, $response)`: throws when either is null, and
      otherwise yields a stack holding them, with nothing in it. */
  method Create(request: Value, response: Value) returns (r: Result<Stackd>)
    ensures r.Ok? <==> !request.Null? && !response.Null?
    ensures r.Err? ==> r.error == MissingRequestOrResponse
    ensures r.Ok? ==> fresh(r.value) && r.value.Valid() && r.value.stack == []
    ensures r.Ok? ==> r.value.request == request && r.value.response == response
  {
    if request.Null? || response.Null? {
      return Err(MissingRequestOrResponse);
    }
    var s := new Stackd(request, response);
    return Ok(s);
  }
}
