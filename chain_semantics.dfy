/** The meaning of a middleware chain, stated on values alone: given the
    behaviours of the middlewares in the order `call` reaches them, which
    result the first `call` returns. The heap-based `Middleware.Call` is
    proved equal to `ChainResult`; the lemmas here say what that result is. */
module ChainSemantics {
  import opened Context

  /** What a middleware's `call` does. PHP subclasses override `call`; these
      are the shapes of override the model admits. */
  datatype Behaviour =
    | Default                                  // the inherited `call`: return `next($request, $response)`
    | Reply(answer: (Value, Value) -> string)  // return an answer, computed from the request and response, without forwarding
    | Wrap(before: string, after: string)      // return `before . next($request, $response) . after`

  /** Index of the first middleware that answers without forwarding, or the
      length of the chain if every middleware forwards. */
  function FirstReply(ks: seq<Behaviour>): (j: nat)
    ensures j <= |ks|
    ensures j < |ks| ==> ks[j].Reply?
    ensures forall i :: 0 <= i < j ==> !ks[i].Reply?
  {
    if ks == [] then 0
    else if ks[0].Reply? then 0
    else 1 + FirstReply(ks[1..])
  }

  /** Text a forwarding middleware puts in front of its successor's result. */
  function Before(k: Behaviour): string {
    if k.Wrap? then k.before else ""
  }

  /** Text a forwarding middleware puts after its successor's result. */
  function After(k: Behaviour): string {
    if k.Wrap? then k.after else ""
  }

  /** What the forwarding middlewares `ks` add on the way in, outermost first. */
  function Openings(ks: seq<Behaviour>): string {
    if ks == [] then "" else Before(ks[0]) + Openings(ks[1..])
  }

  /** What the forwarding middlewares `ks` add on the way out, innermost first. */
  function Closings(ks: seq<Behaviour>): string {
    if ks == [] then "" else Closings(ks[1..]) + After(ks[0])
  }

  /** The result of calling the first of a chain of middlewares whose
      behaviours, in call order, are `ks`: the first middleware that answers
      settles the chain and every forwarding middleware before it wraps the
      answer; if none answers, the last one forwards to nobody and the
      no-successor exception propagates out. */
  function ChainResult(ks: seq<Behaviour>, request: Value, response: Value): Result<string> {
    var j := FirstReply(ks);
    if j == |ks| then Err(NoNextMiddleware)
    else Ok(Openings(ks[..j]) + ks[j].answer(request, response) + Closings(ks[..j]))
  }

  /** `before . r . after` in PHP: concatenation when `r` is a value, the
      exception itself when evaluating `r` threw. */
  function Around(before: string, r: Result<string>, after: string): Result<string> {
    match r
    case Ok(s) => Ok(before + s + after)
    case Err(e) => Err(e)
  }

  /** One middleware in front of a chain: answering ignores the rest, the
      default forwards the rest's result unchanged, a wrapper wraps it. */
  lemma {:induction false} ChainResultStep(k: Behaviour, ks: seq<Behaviour>, request: Value, response: Value)
    ensures ChainResult([k] + ks, request, response) ==
      match k
      case Reply(answer) => Ok(answer(request, response))
      case Default => ChainResult(ks, request, response)
      case Wrap(before, after) => Around(before, ChainResult(ks, request, response), after)
  {
    var s := [k] + ks;
    assert s[0] == k && s[1..] == ks;
    if !k.Reply? {
      var j := FirstReply(ks);
      assert FirstReply(s) == j + 1;
      if j < |ks| {
        var p := s[..j + 1];
        assert p[0] == k && p[1..] == ks[..j];
        assert Openings(p) == Before(k) + Openings(ks[..j]);
        assert Closings(p) == Closings(ks[..j]) + After(k);
        assert s[j + 1] == ks[j];
        var v := ks[j].answer(request, response);
        var inner := Openings(ks[..j]) + v + Closings(ks[..j]);
        assert Before(k) + Openings(ks[..j]) + v + (Closings(ks[..j]) + After(k))
            == Before(k) + inner + After(k);
        if k.Default? {
          assert Before(k) + inner + After(k) == inner;
        }
      }
    } else {
      var v := k.answer(request, response);
      assert FirstReply(s) == 0 && s[..0] == [];
      assert "" + v + "" == v;
    }
  }

  /** Middlewares that all keep the default `call` add nothing around the result. */
  lemma {:induction false} DefaultsAddNothing(ks: seq<Behaviour>)
    requires forall i :: 0 <= i < |ks| ==> ks[i].Default?
    ensures Openings(ks) == "" && Closings(ks) == ""
  {
    if ks != [] {
      assert ks[0].Default?;
      DefaultsAddNothing(ks[1..]);
    }
  }

  /** A chain fails exactly when no middleware in it answers, and then it fails
      with the no-successor exception; otherwise it returns a value. */
  lemma FailsIffNobodyAnswers(ks: seq<Behaviour>, request: Value, response: Value)
    ensures ChainResult(ks, request, response).Err? <==> forall i :: 0 <= i < |ks| ==> !ks[i].Reply?
    ensures ChainResult(ks, request, response).Err? ==> ChainResult(ks, request, response).error == NoNextMiddleware
  {
  }

  /** A run of default middlewares ending in one that answers returns that
      answer, computed from the very request and response the chain was given. */
  lemma PassThroughThenReply(ks: seq<Behaviour>, j: nat, request: Value, response: Value)
    requires j < |ks| && ks[j].Reply?
    requires forall i :: 0 <= i < j ==> ks[i].Default?
    ensures ChainResult(ks, request, response) == Ok(ks[j].answer(request, response))
  {
    assert FirstReply(ks) == j;
    DefaultsAddNothing(ks[..j]);
    var v := ks[j].answer(request, response);
    assert "" + v + "" == v;
  }

  /** Two wrappers "A" and "B" in front of a middleware answering "C" nest: "ABCBA". */
  lemma NestedWrappers(answer: (Value, Value) -> string, request: Value, response: Value)
    requires answer(request, response) == "C"
    ensures ChainResult([Wrap("A", "A"), Wrap("B", "B"), Reply(answer)], request, response) == Ok("ABCBA")
  {
    var c := Reply(answer);
    ChainResultStep(c, [], request, response);
    assert [c] + [] == [c];
    assert ChainResult([c], request, response) == Ok("C");
    ChainResultStep(Wrap("B", "B"), [c], request, response);
    assert [Wrap("B", "B")] + [c] == [Wrap("B", "B"), c];
    assert "B" + "C" + "B" == "BCB";
    ChainResultStep(Wrap("A", "A"), [Wrap("B", "B"), c], request, response);
    assert [Wrap("A", "A")] + [Wrap("B", "B"), c] == [Wrap("A", "A"), Wrap("B", "B"), c];
    assert "A" + "BCB" + "A" == "ABCBA";
  }
}
