/**
 * The bounded retry of `ExcelProcessor.process_row`, as a specification: what a run of
 * at most `attempts` requests returns, how many requests it makes and what it does, in order.
 */
module Retry {
  import opened Wrappers
  import opened Strings
  import opened Service

  /** The result of a retry run: the value stored for the field, the requests made, and the events in order. */
  datatype Run = Run(output: Option<string>, calls: nat, trace: seq<Event>)

  /** The reply to request number `k` is truthy. */
  predicate Succeeds(script: nat -> Option<string>, k: nat) {
    Truthy(script(k))
  }

  function Max0(n: int): nat {
    if n < 0 then 0 else n
  }

  /**
   * Up to `left` attempts of `req`, the first answered by reply number `from`: stop at the first
   * truthy result; after every falsy one sleep `delay` seconds; when none is left the output is `None`.
   */
  function Attempts(req: Request, script: nat -> Option<string>, from: nat, left: int, delay: real): (r: Run)
    ensures r.output.None? || Truthy(r.output)
    decreases left
  {
    if left <= 0 then
      Run(None, 0, [])
    else if Succeeds(script, from) then
      Run(script(from), 1, [Call(req)])
    else
      var rest := Attempts(req, script, from + 1, left - 1, delay);
      Run(rest.output, rest.calls + 1, [Call(req), Sleep(delay)] + rest.trace)
  }

  /** No more than `left` requests are made, none when `left <= 0`. */
  lemma {:induction false} AttemptsBound(req: Request, script: nat -> Option<string>, from: nat, left: int, delay: real)
    ensures Attempts(req, script, from, left, delay).calls <= Max0(left)
    decreases Max0(left)
  {
    if left > 0 && !Succeeds(script, from) {
      AttemptsBound(req, script, from + 1, left - 1, delay);
    }
  }

  /**
   * Every request before the last one failed, the output is the
   * last reply's stripped content when that one succeeded, and `None` only after all `left`
   * requests failed (no request at all when `left <= 0`).
   */
  lemma {:induction false} AttemptsOutcome(req: Request, script: nat -> Option<string>, from: nat, left: int, delay: real)
    ensures var r := Attempts(req, script, from, left, delay);
      && (forall k :: from <= k < from + r.calls - 1 ==> !Succeeds(script, k))
      && (r.output.Some? ==>
            && r.calls >= 1 && Succeeds(script, from + r.calls - 1)
            && r.output == script(from + r.calls - 1) && r.output.value != "")
      && (r.output.None? ==>
            r.calls == Max0(left) && forall k :: from <= k < from + r.calls ==> !Succeeds(script, k))
    decreases Max0(left)
  {
    if left > 0 && !Succeeds(script, from) {
      AttemptsOutcome(req, script, from + 1, left - 1, delay);
    }
  }

  /**
   * The events of a retry run alternate a request and a `delay` sleep, starting with a request:
   * every failed request, the last one included, is followed by exactly one sleep, and a
   * successful request by none.
   */
  lemma {:induction false} AttemptsTrace(req: Request, script: nat -> Option<string>, from: nat, left: int, delay: real)
    ensures var r := Attempts(req, script, from, left, delay);
      && |r.trace| == 2 * r.calls - (if r.output.Some? then 1 else 0)
      && forall k :: 0 <= k < |r.trace| ==> r.trace[k] == if k % 2 == 0 then Call(req) else Sleep(delay)
    decreases Max0(left)
  {
    if left > 0 && !Succeeds(script, from) {
      AttemptsTrace(req, script, from + 1, left - 1, delay);
      var rest := Attempts(req, script, from + 1, left - 1, delay);
      var r := Attempts(req, script, from, left, delay);
      forall k | 2 <= k < |r.trace|
        ensures r.trace[k] == if k % 2 == 0 then Call(req) else Sleep(delay)
      {
        assert r.trace[k] == rest.trace[k - 2];
      }
    }
  }

  /** The number of requests a retry run reports is the number of requests among its events. */
  lemma {:induction false} AttemptsCalls(req: Request, script: nat -> Option<string>, from: nat, left: int, delay: real)
    ensures var r := Attempts(req, script, from, left, delay); Calls(r.trace) == r.calls
    decreases Max0(left)
  {
    if left > 0 {
      if Succeeds(script, from) {
        assert [Call(req)][..0] == [];
      } else {
        var rest := Attempts(req, script, from + 1, left - 1, delay);
        AttemptsCalls(req, script, from + 1, left - 1, delay);
        CallsAppend([Call(req), Sleep(delay)], rest.trace);
        var pair := [Call(req), Sleep(delay)];
        assert pair[..1] == [Call(req)] && [Call(req)][..0] == [];
        assert Calls([Call(req)]) == 1;
        assert Calls(pair) == Calls(pair[..1]) + 0;
      }
    }
  }

  /**
   * The output is present exactly when one of the `left` replies is truthy, and then it is the
   * first truthy one in request order.
   */
  lemma {:induction false} FirstSuccessWins(req: Request, script: nat -> Option<string>, from: nat, left: int, delay: real)
    ensures var r := Attempts(req, script, from, left, delay);
      && (r.output.Some? <==> exists k :: from <= k < from + left && Succeeds(script, k))
      && forall k :: from <= k < from + left && Succeeds(script, k) && (forall j :: from <= j < k ==> !Succeeds(script, j))
           ==> r.output == script(k) && r.calls == k - from + 1
  {
    AttemptsBound(req, script, from, left, delay);
    AttemptsOutcome(req, script, from, left, delay);
  }

  /** A reply of white space only is a failed attempt: another request follows it while attempts are left. */
  lemma {:induction false} BlankReplyRetried(req: Request, script: nat -> Option<string>, from: nat, left: int, delay: real, reply: Reply)
    requires left >= 2 && script(from) == Completion(reply) && reply.Content? && AllSpace(reply.raw)
    ensures var r := Attempts(req, script, from, left, delay);
      r.calls >= 2 && r.trace[..2] == [Call(req), Sleep(delay)]
  {
    TruthyIffText(reply);
    AttemptsOutcome(req, script, from + 1, left - 1, delay);
  }
}
