/** A middleware: one link of the chain. It holds a single mutable field,
    `next`, the successor it forwards to; what its `call` does is fixed when
    the object is created (`kind`), standing for the PHP subclass that
    overrides `call`. */
module Middlewares {
  import opened Context
  import opened ChainSemantics

  class Middleware {
    /** The successor this middleware forwards to; null until one is injected. */
    var next: Middleware?
    /** Which `call` this object runs. */
    const kind: Behaviour

    /** A fresh middleware has no successor. */
    constructor (kind: Behaviour)
      ensures this.kind == kind && next == null
    {
      this.kind := kind;
      next := null;
    }

    /** `__inject`: make `nextMiddleware` the successor, whatever was there before. */
    method Inject(nextMiddleware: Middleware)
      modifies this`next
      ensures next == nextMiddleware
    {
      next := nextMiddleware;
    }

    /** `next`: forward to the successor's `call` with the same request and
        response, or throw when there is no successor. `chain` lists the
        middlewares `next` pointers lead through from this one, up to where
        the chain settles; it is ghost and only bounds the recursion. */
    function Next(request: Value, response: Value, ghost chain: seq<Middleware>): (r: Result<string>)
      requires Settles(chain) && chain[0] == this && (|chain| > 1 || next == null)
      reads chain
      ensures next == null ==> r == Err(NoNextMiddleware)
      ensures r == ChainResult(Kinds(chain[1..]), request, response)
      decreases |chain|, 0
    {
      if next == null then Err(NoNextMiddleware)
      else
        assert chain[1] == next;
        SuffixSettles(chain);
        next.Call(request, response, chain[1..])
    }

    /** `call`: the behaviour of this middleware; the default one is `next`. */
    function Call(request: Value, response: Value, ghost chain: seq<Middleware>): (r: Result<string>)
      requires Settles(chain) && chain[0] == this
      reads chain
      ensures r == ChainResult(Kinds(chain), request, response)
      decreases |chain|, 1
    {
      assert Kinds(chain) == [kind] + Kinds(chain[1..]);
      ChainResultStep(kind, Kinds(chain[1..]), request, response);
      match kind
      case Default => Next(request, response, chain)
      case Reply(answer) => Ok(answer(request, response))
      case Wrap(before, after) => Around(before, Next(request, response, chain), after)
    }
  }

  /** Each element of `chain` has the element after it as its successor. */
  ghost predicate Links(chain: seq<Middleware>)
    reads chain
  {
    |chain| > 0 &&
    forall i :: 0 < i < |chain| ==> chain[i - 1].next == chain[i]
  }

  /** `chain` is what following `next` from its first element visits: each
      element's successor is the element after it, and the last has none. */
  ghost predicate IsChain(chain: seq<Middleware>)
    reads chain
  {
    Links(chain) && chain[|chain| - 1].next == null
  }

  /** Following `next` from the first element of `chain` visits its elements
      in order and `call` settles by the last one at the latest: the last one
      has no successor or answers without forwarding. What comes after an
      answering middleware is never reached, so its `next` may lead anywhere,
      back into the chain included. */
  ghost predicate Settles(chain: seq<Middleware>)
    reads chain
  {
    Links(chain) && (chain[|chain| - 1].next == null || chain[|chain| - 1].kind.Reply?)
  }

  /** The behaviours of `chain`, in the same order. */
  function Kinds(chain: seq<Middleware>): seq<Behaviour> {
    seq(|chain|, i requires 0 <= i < |chain| => chain[i].kind)
  }

  /** The successor of the first element of a settling chain heads a settling
      chain made of the remaining elements. */
  lemma SuffixSettles(chain: seq<Middleware>)
    requires Settles(chain) && |chain| > 1
    ensures Settles(chain[1..]) && chain[1..][0] == chain[0].next
  {
    var tail := chain[1..];
    forall i | 0 < i < |tail|
      ensures tail[i - 1].next == tail[i]
    {
      assert tail[i - 1] == chain[i] && tail[i] == chain[i + 1];
    }
  }

  /** The middleware reached from `m` by following `next` `steps` times (null
      once the pointers run out). */
  ghost function Follow(m: Middleware?, steps: nat): Middleware?
    reads *
  {
    if steps == 0 || m == null then m else Follow(m.next, steps - 1)
  }

  /** Following `next` from any element of a chain visits the elements after
      it in order and stops, with null, one step after the last. */
  lemma {:induction false} FollowAlongChain(chain: seq<Middleware>, i: nat, steps: nat)
    requires IsChain(chain) && i + steps <= |chain| && i < |chain|
    ensures Follow(chain[i], steps) == if i + steps < |chain| then chain[i + steps] else null
    decreases steps
  {
    if steps > 0 {
      if i + 1 < |chain| {
        assert chain[i].next == chain[i + 1];
        FollowAlongChain(chain, i + 1, steps - 1);
      } else {
        assert chain[i].next == null;
      }
    }
  }

  /** A chain never visits a middleware twice: `next` pointers along it are acyclic. */
  lemma ChainIsAcyclic(chain: seq<Middleware>)
    requires IsChain(chain)
    ensures forall i, j :: 0 <= i < j < |chain| ==> chain[i] != chain[j]
  {
    var n := |chain|;
    forall i, j | 0 <= i < j < n
      ensures chain[i] != chain[j]
    {
      // From chain[j] the pointers run out after n - j steps, from chain[i] they do not.
      FollowAlongChain(chain, i, n - j);
      FollowAlongChain(chain, j, n - j);
    }
  }

  /** The inherited `call` is exactly `next`: same result, same exception. */
  lemma DefaultCallIsNext(m: Middleware, request: Value, response: Value, chain: seq<Middleware>)
    requires Settles(chain) && chain[0] == m && m.kind.Default?
    ensures m.Call(request, response, chain) == m.Next(request, response, chain)
  {
  }

  /** With a successor, `next` returns exactly the successor's `call` on the
      same request and response. */
  lemma NextIsSuccessorCall(m: Middleware, request: Value, response: Value, chain: seq<Middleware>)
    requires Settles(chain) && chain[0] == m && m.next != null && |chain| > 1
    ensures Settles(chain[1..]) && chain[1] == m.next
    ensures m.Next(request, response, chain) == m.next.Call(request, response, chain[1..])
  {
    SuffixSettles(chain);
  }

  /** A lone middleware keeping the default `call` throws: it has nobody to forward to. */
  lemma LoneDefaultThrows(m: Middleware, request: Value, response: Value)
    requires m.next == null && m.kind.Default?
    ensures Settles([m])
    ensures m.Call(request, response, [m]) == Err(NoNextMiddleware)
  {
  }
}
