/**
 * The retry wrapper around provider calls (`execute_oci_command`): it calls the
 * operation until one attempt succeeds, unwraps `.data` when the response has it,
 * and sends one notification per structured rejection before retrying.
 *
 * The provider is a finite script of replies, one per call. The source retries
 * forever; when the script runs out first the model stops with no result.
 */
module Executor {
  import opened Wrappers
  import opened OciTypes

  /** `response.data` when the response has a `data` attribute, else the response itself. */
  function Unwrap<T>(r: Response<T>): T {
    match r
    case WithData(d) => d
    case Plain(v) => v
  }

  /** What one use of the wrapper did: the value it returned (None once the script ran out),
      how many calls it made, and the notifications it sent, oldest first. */
  datatype ExecRun<T> = ExecRun(result: Option<T>, calls: nat, sent: seq<Notification>)

  /** The behaviour of the retry loop against the scripted replies `script`. */
  function Execute<T>(operation: string, script: seq<Outcome<T>>): ExecRun<T>
    decreases |script|
  {
    if script == [] then ExecRun(None, 0, [])
    else match script[0]
      case Success(resp) => ExecRun(Some(Unwrap(resp)), 1, [])
      case Failure(e) =>
        var rest := Execute(operation, script[1..]);
        ExecRun(rest.result, rest.calls + 1, [CommandError(operation, e)] + rest.sent)
  }

  /** The first `k` scripted replies are all rejections. */
  ghost predicate FailsFirst<T>(script: seq<Outcome<T>>, k: nat) {
    k <= |script| && forall i :: 0 <= i < k ==> script[i].Failure?
  }

  /** A first call that succeeds is returned unwrapped after exactly one call and no notification. */
  lemma FirstCallSucceeds<T>(operation: string, script: seq<Outcome<T>>)
    requires |script| > 0 && script[0].Success?
    ensures Execute(operation, script).result ==
      Some(if script[0].response.WithData? then script[0].response.data else script[0].response.value)
    ensures Execute(operation, script).calls == 1
    ensures Execute(operation, script).sent == []
  {
  }

  /** After k rejections and then a success, the wrapper returns the success payload after
      k + 1 calls, having sent exactly one notification per rejection, in order. */
  lemma {:induction false} RetriesUntilSuccess<T>(operation: string, script: seq<Outcome<T>>, k: nat)
    requires FailsFirst(script, k) && k < |script| && script[k].Success?
    ensures Execute(operation, script).result == Some(Unwrap(script[k].response))
    ensures Execute(operation, script).calls == k + 1
    ensures |Execute(operation, script).sent| == k
    ensures forall i :: 0 <= i < k ==>
      Execute(operation, script).sent[i] == CommandError(operation, script[i].error)
    decreases k
  {
    if k > 0 {
      assert FailsFirst(script[1..], k - 1) by {
        forall i | 0 <= i < k - 1
          ensures script[1..][i].Failure?
        {
          assert script[1..][i] == script[i + 1];
        }
      }
      RetriesUntilSuccess(operation, script[1..], k - 1);
      forall i | 1 <= i < k
        ensures script[1..][i - 1] == script[i]
      {
      }
    }
  }

  /** A rejection never escapes the wrapper: when every reply is a rejection, every one of
      them is retried and notified, and nothing is returned. */
  lemma {:induction false} NeverGivesUp<T>(operation: string, script: seq<Outcome<T>>)
    requires FailsFirst(script, |script|)
    ensures Execute(operation, script).result == None
    ensures Execute(operation, script).calls == |script|
    ensures |Execute(operation, script).sent| == |script|
    decreases |script|
  {
    if script != [] {
      assert FailsFirst(script[1..], |script| - 1) by {
        forall i | 0 <= i < |script| - 1
          ensures script[1..][i].Failure?
        {
          assert script[1..][i] == script[i + 1];
        }
      }
      NeverGivesUp(operation, script[1..]);
    }
  }

  /** The wrapper's only notifications are command errors about its own operation. */
  lemma {:induction false} ExecuteReportsOnlyErrors<T>(operation: string, script: seq<Outcome<T>>)
    ensures forall k :: 0 <= k < |Execute(operation, script).sent| ==>
      Execute(operation, script).sent[k].CommandError? && Execute(operation, script).sent[k].operation == operation
    decreases |script|
  {
    if script != [] && script[0].Failure? {
      var rest := Execute(operation, script[1..]);
      ExecuteReportsOnlyErrors(operation, script[1..]);
      var sent := [CommandError(operation, script[0].error)] + rest.sent;
      assert Execute(operation, script).sent == sent;
      forall k | 0 <= k < |sent|
        ensures sent[k].CommandError? && sent[k].operation == operation
      {
        if k > 0 {
          assert sent[k] == rest.sent[k - 1];
        }
      }
    }
  }

  /** `execute_oci_command`: the `while True` retry loop over the scripted replies. */
  method ExecuteOciCommand<T>(operation: string, script: seq<Outcome<T>>)
    returns (result: Option<T>, calls: nat, sent: seq<Notification>)
    ensures ExecRun(result, calls, sent) == Execute(operation, script)
  {
    calls, sent := 0, [];
    while calls < |script|
      invariant calls <= |script|
      invariant FailsFirst(script, calls)
      invariant |sent| == calls
      invariant Execute(operation, script) ==
        var rest := Execute(operation, script[calls..]);
        ExecRun(rest.result, rest.calls + calls, sent + rest.sent)
      decreases |script| - calls
    {
      assert script[calls..][1..] == script[calls + 1..];
      match script[calls] {
        case Success(resp) =>
          result, calls := Some(Unwrap(resp)), calls + 1;
          return;
        case Failure(e) =>
          sent := sent + [CommandError(operation, e)];
          calls := calls + 1;
      }
    }
    result := None;
  }
}
