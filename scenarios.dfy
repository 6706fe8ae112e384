/** The library's usage scenarios, from its tests and from the way `add`
    and `run` nest wrapping middlewares, stated against the model: each method
    builds the objects, performs the calls and states the outcome the
    scenario expects. */
module Scenarios {
  import opened Context
  import opened ChainSemantics
  import opened Middlewares
  import opened Stacks

  /** Add a new middleware of behaviour `k` to `s`, passing `add` either the
      name of its class or a ready instance of it. */
  method Register(s: Stackd, k: Behaviour, byName: bool) returns (m: Middleware)
    requires s.Valid()
    modifies s, if s.stack == [] then {} else {s.stack[0]}
    ensures s.Valid() && fresh(m) && m.kind == k
    ensures s.stack == [m] + old(s.stack)
    ensures s.AddOrder() == old(s.AddOrder()) + [m]
  {
    var x: Addable;
    if byName {
      x := ClassName(MiddlewareClass(k));
    } else {
      var made := new Middleware(k);
      x := Instance(made);
    }
    var o := s.Add(x);
    assert o.Pass?;
    m := s.stack[0];
    assert s.stack == [m] + s.stack[1..];
  }

  /** Add a wrapper "A", a wrapper "B" and a middleware answering "C", each by
      class name or as an instance, and run: the result is "ABCBA" whichever
      way each one was registered. */
  method WrappersNestInAddOrder(aByName: bool, bByName: bool, cByName: bool) returns (r: Result<string>)
    ensures r == Ok("ABCBA")
  {
    var created := Create(Arr([]), Arr([]));
    var s := created.value;
    var c: Behaviour := Reply((request, response) => "C");
    var a := Register(s, Wrap("A", "A"), aByName);
    var b := Register(s, Wrap("B", "B"), bByName);
    var m := Register(s, c, cByName);
    assert s.AddOrder() == [a, b, m];
    assert Kinds(s.AddOrder()) == [Wrap("A", "A"), Wrap("B", "B"), c];
    r := s.Run();
    NestedWrappers(c.answer, s.request, s.response);
  }

  /** A middleware answering "Middleware 1" answers so when called directly;
      after a second one answering "Middleware 2" is injected into it, its
      `next` returns the second one's answer; without a successor its `next`
      throws. */
  method NextAndCall() returns (called: Result<string>, forwarded: Result<string>, alone: Result<string>)
    ensures called == Ok("Middleware 1")
    ensures forwarded == Ok("Middleware 2")
    ensures alone == Err(NoNextMiddleware)
  {
    var first := new Middleware(Reply((request, response) => "Middleware 1"));
    var lone := new Middleware(Reply((request, response) => "Middleware 1"));
    var second := new Middleware(Reply((request, response) => "Middleware 2"));
    called := first.Call(Arr([]), Arr([]), [first]);
    PassThroughThenReply(Kinds([first]), 0, Arr([]), Arr([]));
    first.Inject(second);
    forwarded := first.Next(Arr([]), Arr([]), [first, second]);
    assert [first, second][1..] == [second];
    PassThroughThenReply(Kinds([second]), 0, Arr([]), Arr([]));
    alone := lone.Next(Arr([]), Arr([]), [lone]);
  }

  /** Constructing without a request and response throws; with two empty
      arrays it succeeds; running the empty stack throws; adding an object
      that is not a Middleware throws and leaves the stack empty. */
  method StackErrors() returns (noContext: Result<Stackd>, emptyRun: Result<string>, rejected: Outcome, sizeAfter: nat)
    ensures noContext == Err(MissingRequestOrResponse)
    ensures emptyRun == Err(EmptyStack)
    ensures rejected == Fail(NotAMiddleware)
    ensures sizeAfter == 0
  {
    noContext := Create(Null, Null);
    var created := Create(Arr([]), Arr([]));
    var s := created.value;
    emptyRun := s.Run();
    rejected := s.Add(OtherValue);
    sizeAfter := |s.stack|;
  }

  /** A cycle of `next` pointers closed only after a middleware that answers
      is never followed: a middleware answering "X" whose successor is itself
      answers "X", and a wrapper "A" whose successor answers "B" and has the
      wrapper as its own successor yields "ABA". */
  method CyclesClosedAfterAnAnswer() returns (selfLoop: Result<string>, twoCycle: Result<string>)
    ensures selfLoop == Ok("X")
    ensures twoCycle == Ok("ABA")
  {
    var x := new Middleware(Reply((request, response) => "X"));
    x.Inject(x);
    selfLoop := x.Call(Arr([]), Arr([]), [x]);
    PassThroughThenReply(Kinds([x]), 0, Arr([]), Arr([]));
    var a := new Middleware(Wrap("A", "A"));
    var b := new Middleware(Reply((request, response) => "B"));
    a.Inject(b);
    b.Inject(a);
    twoCycle := a.Call(Arr([]), Arr([]), [a, b]);
    assert Kinds([a, b]) == [a.kind] + Kinds([b]);
    ChainResultStep(a.kind, Kinds([b]), Arr([]), Arr([]));
    PassThroughThenReply(Kinds([b]), 0, Arr([]), Arr([]));
    assert "A" + "B" + "A" == "ABA";
  }
}
