/**
 * The processor's view of the outside world: the chat-completion endpoint behind
 * `OpenAIClient.create_completion`, and the clock it sleeps on.
 */
module Service {
  import opened Wrappers
  import opened Strings

  /** What the endpoint delivers for one request: the message content, or a failure (any exception the request raises). */
  datatype Reply = Failure | Content(raw: string)

  /** The arguments of one `create_completion` call; the temperature is carried through unchanged. */
  datatype Request = Request(prompt: string, maxTokens: int, temperature: real)

  /** What the processor does to the outside world, in order: completion requests and `time.sleep` calls. */
  datatype Event = Call(request: Request) | Sleep(seconds: real)

  /** The number of completion requests among the events. */
  function Calls(trace: seq<Event>): nat {
    if trace == [] then 0 else Calls(trace[..|trace| - 1]) + if trace[|trace| - 1].Call? then 1 else 0
  }

  /** Counting requests distributes over consecutive stretches of events. */
  lemma {:induction false} CallsAppend(a: seq<Event>, b: seq<Event>)
    ensures Calls(a + b) == Calls(a) + Calls(b)
    decreases |b|
  {
    if b == [] {
      assert a + b == a;
    } else {
      var n := |b| - 1;
      assert (a + b)[..|a + b| - 1] == a + b[..n];
      assert (a + b)[|a + b| - 1] == b[n];
      CallsAppend(a, b[..n]);
    }
  }

  /** Consecutive stretches of events can be grouped either way. */
  lemma TraceRegroup(a: seq<Event>, b: seq<Event>, c: seq<Event>)
    ensures a + b + c == a + (b + c)
  {
  }

  /** The value `create_completion` returns for a reply: `None` on failure, the stripped content otherwise. */
  function Completion(reply: Reply): (r: Option<string>)
    ensures r.None? <==> reply.Failure?
    ensures r.Some? ==> (r.value == [] <==> AllSpace(reply.raw))
  {
    match reply
    case Failure => None
    case Content(raw) => Some(Strip(raw))
  }

  /** Python truthiness of an `Optional[str]`: present and not empty. */
  predicate Truthy(result: Option<string>) {
    result.Some? && result.value != ""
  }

  /**
   * A reply counts as a success exactly when it carries some character that is not white space:
   * a failure and a reply of white space only are both falsy once stripped.
   */
  lemma TruthyIffText(reply: Reply)
    ensures Truthy(Completion(reply)) <==> reply.Content? && !AllSpace(reply.raw)
    ensures Truthy(Completion(reply)) ==> Completion(reply).value == Strip(reply.raw)
  {
  }

  /**
   * The endpoint and the clock. `script(k)` is what `create_completion` returns for the k-th
   * request ever made, `served` counts the requests made so far and `trace` records every
   * request and sleep in order.
   */
  class Environment {
    const script: nat -> Option<string>
    var served: nat
    var trace: seq<Event>

    /** An endpoint whose k-th reply is `replies(k)`: each request yields the completion of its reply. */
    constructor (replies: nat -> Reply)
      ensures forall k :: script(k) == Completion(replies(k))
      ensures served == 0 && trace == []
    {
      script := (k: nat) => Completion(replies(k));
      served := 0;
      trace := [];
    }

    /** `OpenAIClient.create_completion`: one request, answered by the next reply of the script. */
    method CreateCompletion(prompt: string, maxTokens: int, temperature: real) returns (content: Option<string>)
      modifies this
      ensures content == script(old(served))
      ensures served == old(served) + 1
      ensures trace == old(trace) + [Call(Request(prompt, maxTokens, temperature))]
    {
      content := script(served);
      served := served + 1;
      trace := trace + [Call(Request(prompt, maxTokens, temperature))];
    }

    /** `time.sleep(seconds)`: recorded, not waited for. */
    method Sleep(seconds: real)
      modifies this
      ensures served == old(served)
      ensures trace == old(trace) + [Event.Sleep(seconds)]
    {
      trace := trace + [Event.Sleep(seconds)];
    }
  }
}
