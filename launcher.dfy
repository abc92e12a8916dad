/**
 * The acquisition orchestrator (`launch_instance`): the preparation steps, the
 * pre-launch existence check, and the `while not instance_exist_flag` loop that
 * rotates through the availability domains, makes one create call per iteration
 * and reconciles with a re-poll after a success or a capacity rejection.
 *
 * The provider answers from finite scripts (one reply per wrapped call and per
 * create call) and a listing function (one answer per `list_instances` call).
 * The source loops until the instance exists; the model also stops when the
 * scripted create replies run out.
 */
module Launcher {
  import opened Wrappers
  import opened OciTypes
  import Executor
  import Poller
  import Recorder
  import opened LaunchRules

  /** The default patience of the poller, used by both re-polls of the loop. */
  const REPOLL_TRIES: nat := 3

  /** What the loop works with: the request fields fixed before it starts, the
      availability-domain candidates, the poll query, the provider's listings, and the
      re-poll it makes from a given `list_instances` call on (see `Wired`). */
  datatype LoopEnv = LoopEnv(
    params: LaunchParams,
    candidates: seq<string>,
    query: Poller.PollQuery,
    listing: Listing,
    repoll: nat -> Poller.PollRun)

  /** How the loop ended: the re-poll after a 200 response found the instance (the flag
      became true); the re-poll after a capacity rejection found it (`sys.exit`); a
      rejection of that re-poll escaped; the rotation had no domain to yield; the scripted
      create replies ran out. */
  datatype LoopEnd = Acquired | ExitedAfterLimit | Escaped(error: ServiceError) | NoCandidates | RepliesExhausted

  /** A run of the loop: how it ended, the request of every create call in order, how many
      `list_instances` calls its re-polls made, and the notifications sent. */
  datatype LoopRun = LoopRun(end: LoopEnd, requests: seq<LaunchRequest>, listCalls: nat, sent: seq<Notification>)

  /** What one iteration did after its create call: whether it ended the loop, its
      `list_instances` calls and its notifications. */
  datatype Step = Step(stop: Option<LoopEnd>, listCalls: nat, sent: seq<Notification>)

  /** The re-poll is `check_instance_state_and_write` with the default patience. */
  ghost predicate Wired(env: LoopEnv) {
    forall c: nat {:trigger Poller.Poll(env.query, env.listing, c, REPOLL_TRIES)} ::
      env.repoll(c) == Poller.Poll(env.query, env.listing, c, REPOLL_TRIES)
  }

  function Repoll(env: LoopEnv, cursor: nat): Poller.PollRun {
    env.repoll(cursor)
  }

  /** The `except ServiceError` clause of the loop. */
  function OnServiceError(env: LoopEnv, e: ServiceError, cursor: nat): Step {
    if e.code == LIMIT_EXCEEDED then
      var p := Repoll(env, cursor);
      match p.outcome
      case Raised(e2) => Step(Some(Escaped(e2)), p.calls, p.sent)
      case Found(_) => Step(Some(ExitedAfterLimit), p.calls, p.sent)
      case NotFound => Step(None, p.calls, p.sent + [LaunchError(e)])
    else Step(None, 0, [LaunchError(e)])
  }

  /** One iteration, from the reply to its create call on; the re-poll after a 200 response
      is inside the `try`, so its rejection goes to the `except` clause. */
  function Iterate(env: LoopEnv, reply: Reply<int>, cursor: nat): Step {
    match reply
    case Rejected(e) => OnServiceError(env, e, cursor)
    case Replied(status) =>
      if status != HTTP_OK then Step(None, 0, [])
      else
        var p := Repoll(env, cursor);
        match p.outcome
        case Found(_) => Step(Some(Acquired), p.calls, p.sent)
        case NotFound => Step(None, p.calls, p.sent)
        case Raised(e) =>
          var h := OnServiceError(env, e, cursor + p.calls);
          Step(h.stop, p.calls + h.listCalls, p.sent + h.sent)
  }

  /** The rotation's cursor is on a candidate, unless there is none. */
  ghost predicate OnCandidate(env: LoopEnv, pos: nat) {
    env.candidates == [] || pos < |env.candidates|
  }

  /** The loop from the iteration whose domain is candidate `pos` on, the next
      `list_instances` call being number `cursor`. */
  function RunLoop(env: LoopEnv, replies: seq<Reply<int>>, pos: nat, cursor: nat): LoopRun
    requires OnCandidate(env, pos)
    decreases |replies|
  {
    if replies == [] then LoopRun(RepliesExhausted, [], 0, [])
    else if env.candidates == [] then LoopRun(NoCandidates, [], 0, [])
    else
      var request := MakeRequest(env.params, env.candidates[pos]);
      var s := Iterate(env, replies[0], cursor);
      if s.stop.Some? then LoopRun(s.stop.value, [request], s.listCalls, s.sent)
      else
        var rest := RunLoop(env, replies[1..], Advance(pos, |env.candidates|), cursor + s.listCalls);
        LoopRun(rest.end, [request] + rest.requests, s.listCalls + rest.listCalls, s.sent + rest.sent)
  }

  /** `rest` preceded by what earlier iterations did. */
  function Preceded(requests: seq<LaunchRequest>, listCalls: nat, sent: seq<Notification>, rest: LoopRun): LoopRun {
    LoopRun(rest.end, requests + rest.requests, listCalls + rest.listCalls, sent + rest.sent)
  }

  // ---------------------------------------------------------------------------
  // One iteration

  /** A re-poll lists between one and three times, and notifies once, on a find, or not at all. */
  lemma RepollFacts(env: LoopEnv, cursor: nat)
    requires Wired(env)
    ensures var p := Repoll(env, cursor);
      1 <= p.calls <= REPOLL_TRIES &&
      p.sent == (if p.outcome.Found? then [Notice(env)] else [])
  {
    assert Repoll(env, cursor) == Poller.Poll(env.query, env.listing, cursor, REPOLL_TRIES);
    var _ := Poller.PollSpec(env.query, env.listing, cursor, REPOLL_TRIES, 0);
  }

  /** A capacity rejection always triggers a re-poll. If the re-poll finds the instance the
      run exits with the instance's record as its only notification (no launch error); if it finds nothing, exactly one
      launch-error notification is sent and the loop goes on; if the re-poll is itself
      rejected, that rejection escapes the loop and nothing is notified. */
  lemma LimitExceededReconciles(env: LoopEnv, e: ServiceError, cursor: nat)
    requires Wired(env)
    requires e.code == LIMIT_EXCEEDED
    ensures var s := Iterate(env, Rejected(e), cursor);
      var p := Repoll(env, cursor);
      s.listCalls == p.calls && 1 <= s.listCalls <= REPOLL_TRIES &&
      (s.stop == Some(ExitedAfterLimit) <==> p.outcome.Found?) &&
      (p.outcome.Found? ==> LaunchError(e) !in s.sent && s.sent == [Notice(env)]) &&
      (p.outcome.NotFound? ==> s.stop.None? && s.sent == [LaunchError(e)]) &&
      (p.outcome.Raised? ==> s.stop == Some(Escaped(p.outcome.error)) && s.sent == [])
  {
    RepollFacts(env, cursor);
  }

  /** Any other rejection sends one notification, makes no re-poll and does not end the loop. */
  lemma OtherRejectionNotifiesOnly(env: LoopEnv, e: ServiceError, cursor: nat)
    requires e.code != LIMIT_EXCEEDED
    ensures Iterate(env, Rejected(e), cursor) == Step(None, 0, [LaunchError(e)])
  {
  }

  /** After a 200 response the re-poll alone decides whether the loop stops; a response with
      another status changes nothing. A rejected re-poll is handled by the `except` clause
      exactly as a create call rejected with the same error would be, from the next
      `list_instances` call on. */
  lemma SuccessResponseRepolls(env: LoopEnv, status: int, cursor: nat)
    requires Wired(env)
    ensures var s := Iterate(env, Replied(status), cursor);
      var p := Repoll(env, cursor);
      (status != HTTP_OK ==> s == Step(None, 0, [])) &&
      (status == HTTP_OK ==> 1 <= s.listCalls) &&
      (status == HTTP_OK && !p.outcome.Raised? ==>
        (s.stop == Some(Acquired) <==> p.outcome.Found?) && s.sent == p.sent && s.listCalls == p.calls) &&
      (status == HTTP_OK && p.outcome.Raised? ==>
        var h := Iterate(env, Rejected(p.outcome.error), cursor + p.calls);
        s.stop == h.stop && s.listCalls == p.calls + h.listCalls && s.sent == h.sent)
  {
    RepollFacts(env, cursor);
  }

  // ---------------------------------------------------------------------------
  // The whole loop

  /** The loop makes one create call per iteration and at most one per scripted reply; it
      stops early only on one of the ending conditions, so when the replies run out every
      one of them was used. */
  lemma {:induction false} LoopBounded(env: LoopEnv, replies: seq<Reply<int>>, pos: nat, cursor: nat)
    requires OnCandidate(env, pos)
    ensures var r := RunLoop(env, replies, pos, cursor);
      |r.requests| <= |replies| &&
      (r.end == RepliesExhausted ==> |r.requests| == |replies|) &&
      (r.end == NoCandidates ==> env.candidates == [] && r.requests == []) &&
      (env.candidates == [] ==> r.requests == [] && (replies != [] ==> r.end == NoCandidates))
    decreases |replies|
  {
    if replies != [] && env.candidates != [] {
      var s := Iterate(env, replies[0], cursor);
      if s.stop.None? {
        LoopBounded(env, replies[1..], Advance(pos, |env.candidates|), cursor + s.listCalls);
      }
    }
  }

  /** Iteration `j` sends the fixed request fields to the domain the rotation reaches after
      `j` further steps: successive create calls take the candidates in cyclic order. */
  lemma {:induction false} LoopRotatesDomains(env: LoopEnv, replies: seq<Reply<int>>, pos: nat, cursor: nat)
    requires OnCandidate(env, pos)
    ensures var r := RunLoop(env, replies, pos, cursor);
      forall j :: 0 <= j < |r.requests| ==>
        |env.candidates| > 0 && Advanced(pos, |env.candidates|, j) < |env.candidates| &&
        r.requests[j] == MakeRequest(env.params, env.candidates[Advanced(pos, |env.candidates|, j)])
    decreases |replies|
  {
    if replies != [] && env.candidates != [] {
      var n := |env.candidates|;
      var s := Iterate(env, replies[0], cursor);
      if s.stop.None? {
        var next := Advance(pos, n);
        LoopRotatesDomains(env, replies[1..], next, cursor + s.listCalls);
        var r := RunLoop(env, replies, pos, cursor);
        var rest := RunLoop(env, replies[1..], next, cursor + s.listCalls);
        assert r.requests == [MakeRequest(env.params, env.candidates[pos])] + rest.requests;
        forall j | 1 <= j < |r.requests|
          ensures Advanced(pos, n, j) < n
          ensures r.requests[j] == MakeRequest(env.params, env.candidates[Advanced(pos, n, j)])
        {
          assert r.requests[j] == rest.requests[j - 1];
          assert Advanced(pos, n, j) == Advanced(next, n, j - 1);
        }
      }
    }
  }

  /** Number of capacity or other rejections among the create replies. */
  function Rejections(replies: seq<Reply<int>>): nat
    decreases |replies|
  {
    if replies == [] then 0
    else (if replies[0].Rejected? then 1 else 0) + Rejections(replies[1..])
  }

  /** Every `list_instances` call from number `cursor` on answers, and never with the instance. */
  ghost predicate NeverFound(env: LoopEnv, cursor: nat) {
    forall m: nat :: cursor <= m ==> Poller.Miss(env.query, env.listing, m, 0)
  }

  /** An iteration while the instance never appears does not stop the loop, and notifies
      once (a launch error) exactly when the create call was rejected. */
  lemma IterateMisses(env: LoopEnv, reply: Reply<int>, cursor: nat)
    requires Wired(env)
    requires NeverFound(env, cursor)
    ensures var s := Iterate(env, reply, cursor);
      s.stop.None? && |s.sent| == (if reply.Rejected? then 1 else 0) &&
      forall k :: 0 <= k < |s.sent| ==> s.sent[k].LaunchError?
  {
    var p := Repoll(env, cursor);
    assert p == Poller.Poll(env.query, env.listing, cursor, REPOLL_TRIES);
    var j := Poller.PollSpec(env.query, env.listing, cursor, REPOLL_TRIES, 0);
    forall n | 0 <= n < REPOLL_TRIES
      ensures Poller.Miss(env.query, env.listing, cursor, n)
    {
      assert Poller.Miss(env.query, env.listing, cursor + n, 0);
    }
    assert p.outcome.NotFound? && p.sent == [];
  }

  /** While the instance never appears, the loop uses up every scripted reply, makes one
      create call for each, and sends exactly one notification per rejected create call. */
  lemma {:induction false} LoopNotificationCount(env: LoopEnv, replies: seq<Reply<int>>, pos: nat, cursor: nat)
    requires Wired(env)
    requires pos < |env.candidates|
    requires NeverFound(env, cursor)
    ensures var r := RunLoop(env, replies, pos, cursor);
      r.end == RepliesExhausted && |r.requests| == |replies| && |r.sent| == Rejections(replies) &&
      forall k :: 0 <= k < |r.sent| ==> r.sent[k].LaunchError?
    decreases |replies|
  {
    if replies != [] {
      IterateMisses(env, replies[0], cursor);
      var s := Iterate(env, replies[0], cursor);
      LoopNotificationCount(env, replies[1..], Advance(pos, |env.candidates|), cursor + s.listCalls);
    }
  }

  /** The notification that records the instance. */
  function Notice(env: LoopEnv): Notification {
    InstanceAvailable(env.query.shape, Recorder.DetailsFileName(env.query.shape))
  }

  /** An iteration that ends the loop because the instance exists has just recorded it: its
      last notification is the instance's. */
  lemma IterateRecords(env: LoopEnv, reply: Reply<int>, cursor: nat)
    requires Wired(env)
    ensures var s := Iterate(env, reply, cursor);
      s.stop == Some(Acquired) || s.stop == Some(ExitedAfterLimit) ==>
        s.sent != [] && s.sent[|s.sent| - 1] == Notice(env)
  {
    var p := Repoll(env, cursor);
    RepollFacts(env, cursor);
    if reply.Replied? && p.outcome.Raised? {
      RepollFacts(env, cursor + p.calls);
    }
  }

  /** The loop stops because the instance exists only right after recording it: a run that
      acquires the instance, or exits after a capacity rejection, ends with its notification. */
  lemma {:induction false} LoopEndsWithRecord(env: LoopEnv, replies: seq<Reply<int>>, pos: nat, cursor: nat)
    requires Wired(env) && OnCandidate(env, pos)
    ensures var r := RunLoop(env, replies, pos, cursor);
      r.end == Acquired || r.end == ExitedAfterLimit ==>
        r.sent != [] && r.sent[|r.sent| - 1] == Notice(env)
    decreases |replies|
  {
    if replies != [] && env.candidates != [] {
      var s := Iterate(env, replies[0], cursor);
      IterateRecords(env, replies[0], cursor);
      if s.stop.None? {
        LoopEndsWithRecord(env, replies[1..], Advance(pos, |env.candidates|), cursor + s.listCalls);
      }
    }
  }

  /** The loop endings that come from finding the instance. */
  predicate FoundEnd(end: LoopEnd) {
    end == Acquired || end == ExitedAfterLimit
  }

  /** An iteration records the instance once if it ends the loop because the instance
      exists, and otherwise not at all. */
  lemma IterateRecordCount(env: LoopEnv, reply: Reply<int>, cursor: nat)
    requires Wired(env)
    ensures var s := Iterate(env, reply, cursor);
      Recorder.Records(s.sent) == (if s.stop.Some? && FoundEnd(s.stop.value) then 1 else 0)
  {
    var p := Repoll(env, cursor);
    RepollFacts(env, cursor);
    assert Recorder.Records([Notice(env)]) == 1;
    if reply.Rejected? && reply.error.code == LIMIT_EXCEEDED && p.outcome.NotFound? {
      assert p.sent + [LaunchError(reply.error)] == [LaunchError(reply.error)];
    } else if reply.Replied? && reply.value == HTTP_OK && p.outcome.Raised? {
      var e := p.outcome.error;
      var p2 := Repoll(env, cursor + p.calls);
      RepollFacts(env, cursor + p.calls);
      assert p.sent == [];
      if e.code == LIMIT_EXCEEDED && p2.outcome.NotFound? {
        assert p2.sent + [LaunchError(e)] == [LaunchError(e)];
      }
      var h := OnServiceError(env, e, cursor + p.calls);
      assert p.sent + h.sent == h.sent;
    }
  }

  /** The details file is written at most once per run of the loop: exactly once when the
      loop ends because the instance exists, and never otherwise. */
  lemma {:induction false} LoopRecordsOnce(env: LoopEnv, replies: seq<Reply<int>>, pos: nat, cursor: nat)
    requires Wired(env) && OnCandidate(env, pos)
    ensures var r := RunLoop(env, replies, pos, cursor);
      Recorder.Records(r.sent) == (if FoundEnd(r.end) then 1 else 0)
    decreases |replies|
  {
    if replies != [] && env.candidates != [] {
      var s := Iterate(env, replies[0], cursor);
      IterateRecordCount(env, replies[0], cursor);
      if s.stop.None? {
        var rest := RunLoop(env, replies[1..], Advance(pos, |env.candidates|), cursor + s.listCalls);
        LoopRecordsOnce(env, replies[1..], Advance(pos, |env.candidates|), cursor + s.listCalls);
        Recorder.RecordsConcat(s.sent, rest.sent);
      }
    }
  }

  /** The `list_instances` call number `c` answers with a listing the shape's policy selects. */
  ghost predicate FoundAt(env: LoopEnv, c: nat) {
    env.listing(c).Replied? && Poller.Select(env.query, env.listing(c).value).Some?
  }

  /** A capacity rejection whose re-poll misses three times, then a 200 response whose
      re-poll finds the instance at once: the loop makes two create calls, ends with the
      instance acquired, and sends exactly two notifications, the rejection's and the
      instance's. */
  lemma CapacityThenSuccess(env: LoopEnv, e: ServiceError, cursor: nat)
    requires Wired(env) && env.candidates != []
    requires e.code == LIMIT_EXCEEDED
    requires forall n :: 0 <= n < REPOLL_TRIES ==> Poller.Miss(env.query, env.listing, cursor, n)
    requires FoundAt(env, cursor + REPOLL_TRIES)
    ensures var r := RunLoop(env, [Rejected(e), Replied(HTTP_OK)], 0, cursor);
      r.end == Acquired && |r.requests| == 2 && r.listCalls == REPOLL_TRIES + 1 &&
      r.sent == [LaunchError(e), Notice(env)]
  {
    var replies := [Rejected(e), Replied(HTTP_OK)];
    var p1 := Repoll(env, cursor);
    assert p1 == Poller.Poll(env.query, env.listing, cursor, REPOLL_TRIES);
    var _ := Poller.PollSpec(env.query, env.listing, cursor, REPOLL_TRIES, 0);
    assert p1.outcome.NotFound? && p1.sent == [] && p1.calls == REPOLL_TRIES;
    var s1 := Iterate(env, replies[0], cursor);
    assert s1 == Step(None, REPOLL_TRIES, [LaunchError(e)]);
    var c2 := cursor + REPOLL_TRIES;
    var p2 := Repoll(env, c2);
    assert p2 == Poller.Poll(env.query, env.listing, c2, REPOLL_TRIES);
    assert p2.outcome.Found? && p2.calls == 1 && p2.sent == [Notice(env)];
    assert replies[1..] == [Replied(HTTP_OK)];
  }

  // ---------------------------------------------------------------------------
  // The loop as the source runs it

  /** One iteration of the loop, from the state after iteration `i - 1`: what ran before
      it, followed by the rest of the loop, is what ran up to and including it, followed by
      the loop from iteration `i + 1` (or by the end it reached). */
  lemma RunLoopStep(env: LoopEnv, replies: seq<Reply<int>>, i: nat, pos: nat, cursor: nat,
                    requests: seq<LaunchRequest>, listCalls: nat, sent: seq<Notification>)
    requires i < |replies| && pos < |env.candidates|
    ensures var request := MakeRequest(env.params, env.candidates[pos]);
      var s := Iterate(env, replies[i], cursor);
      Preceded(requests, listCalls, sent, RunLoop(env, replies[i..], pos, cursor)) ==
        Preceded(requests + [request], listCalls + s.listCalls, sent + s.sent,
          if s.stop.Some? then LoopRun(s.stop.value, [], 0, [])
          else RunLoop(env, replies[i + 1..], Advance(pos, |env.candidates|), cursor + s.listCalls))
  {
    assert replies[i..][1..] == replies[i + 1..];
    var request := MakeRequest(env.params, env.candidates[pos]);
    var s := Iterate(env, replies[i], cursor);
    var rest := if s.stop.Some? then LoopRun(s.stop.value, [], 0, [])
      else RunLoop(env, replies[i + 1..], Advance(pos, |env.candidates|), cursor + s.listCalls);
    assert RunLoop(env, replies[i..], pos, cursor) == Preceded([request], s.listCalls, s.sent, rest);
    assert requests + ([request] + rest.requests) == (requests + [request]) + rest.requests;
    assert sent + (s.sent + rest.sent) == (sent + s.sent) + rest.sent;
  }

  /** `check_instance_state_and_write(oci_tenancy, OCI_COMPUTE_SHAPE)` inside the loop. */
  method RepollNow(env: LoopEnv, cursor: nat) returns (p: Poller.PollRun)
    requires Wired(env)
    ensures p == Repoll(env, cursor)
  {
    p := Poller.CheckInstanceStateAndWrite(env.query, env.listing, cursor, REPOLL_TRIES);
  }

  /** The `try` block of one iteration and its `except ServiceError` clause, against the
      reply to this iteration's create call. */
  method Attempt(env: LoopEnv, reply: Reply<int>, cursor: nat) returns (s: Step)
    requires Wired(env)
    ensures s == Iterate(env, reply, cursor)
  {
    var error: Option<ServiceError> := None;
    var listCalls: nat := 0;
    var sent: seq<Notification> := [];
    match reply {
      case Rejected(e) =>
        error := Some(e);
      case Replied(status) =>
        if status == HTTP_OK {
          var p := RepollNow(env, cursor);
          listCalls, sent := p.calls, p.sent;
          match p.outcome {
            case Found(_) => return Step(Some(Acquired), listCalls, sent);
            case NotFound =>
            case Raised(e) => error := Some(e);
          }
        }
    }
    if error.Some? {
      var srvErr := error.value;
      if srvErr.code == LIMIT_EXCEEDED {
        var p := RepollNow(env, cursor + listCalls);
        listCalls, sent := listCalls + p.calls, sent + p.sent;
        match p.outcome {
          case Found(_) => return Step(Some(ExitedAfterLimit), listCalls, sent);
          case Raised(e2) => return Step(Some(Escaped(e2)), listCalls, sent);
          case NotFound =>
        }
      }
      sent := sent + [LaunchError(srvErr)];
    }
    s := Step(None, listCalls, sent);
  }

  /** The loop invariant of `LaunchLoop`: the whole run is what has been done so far followed by
      the run of the remaining replies from the current domain (or nothing more once an instance
      was acquired). */
  ghost predicate LoopInv(env: LoopEnv, replies: seq<Reply<int>>, base: nat, flag: bool, i: nat, pos: nat,
                          requests: seq<LaunchRequest>, listCalls: nat, sent: seq<Notification>) {
    i <= |replies| && OnCandidate(env, pos) &&
    RunLoop(env, replies, 0, base) == Preceded(requests, listCalls, sent,
      if flag then LoopRun(Acquired, [], 0, []) else RunLoop(env, replies[i..], pos, base + listCalls))
  }

  /** An iteration that does not stop the loop keeps `LoopInv` on the following domain. */
  lemma LoopInvContinue(env: LoopEnv, replies: seq<Reply<int>>, base: nat, i: nat, pos: nat,
                        requests: seq<LaunchRequest>, listCalls: nat, sent: seq<Notification>)
    requires LoopInv(env, replies, base, false, i, pos, requests, listCalls, sent)
    requires i < |replies| && pos < |env.candidates|
    requires Iterate(env, replies[i], base + listCalls).stop.None?
    ensures var s := Iterate(env, replies[i], base + listCalls);
      LoopInv(env, replies, base, false, i + 1, Advance(pos, |env.candidates|),
        requests + [MakeRequest(env.params, env.candidates[pos])], listCalls + s.listCalls, sent + s.sent)
  {
    RunLoopStep(env, replies, i, pos, base + listCalls, requests, listCalls, sent);
  }

  /** An iteration that stops the loop ends the run there; an acquisition also keeps `LoopInv`
      with the flag raised. */
  lemma LoopInvStops(env: LoopEnv, replies: seq<Reply<int>>, base: nat, i: nat, pos: nat,
                     requests: seq<LaunchRequest>, listCalls: nat, sent: seq<Notification>)
    requires LoopInv(env, replies, base, false, i, pos, requests, listCalls, sent)
    requires i < |replies| && pos < |env.candidates|
    requires Iterate(env, replies[i], base + listCalls).stop.Some?
    ensures var s := Iterate(env, replies[i], base + listCalls);
      var requests', listCalls', sent' := requests + [MakeRequest(env.params, env.candidates[pos])],
        listCalls + s.listCalls, sent + s.sent;
      RunLoop(env, replies, 0, base) == Preceded(requests', listCalls', sent', LoopRun(s.stop.value, [], 0, [])) &&
      (s.stop == Some(Acquired) ==>
        LoopInv(env, replies, base, true, i + 1, Advance(pos, |env.candidates|), requests', listCalls', sent'))
  {
    RunLoopStep(env, replies, i, pos, base + listCalls, requests, listCalls, sent);
  }

  /** Before the first iteration nothing has been done. */
  lemma LoopInvInit(env: LoopEnv, replies: seq<Reply<int>>, base: nat)
    ensures LoopInv(env, replies, base, false, 0, 0, [], 0, [])
  {
    assert replies[0..] == replies;
    var r := RunLoop(env, replies, 0, base);
    assert [] + r.requests == r.requests && [] + r.sent == r.sent;
  }

  /** Where the loop leaves off: after an acquisition, with the replies used up, or with no
      domain to try, the whole run is what has been done so far. */
  lemma LoopInvEnds(env: LoopEnv, replies: seq<Reply<int>>, base: nat, flag: bool, i: nat, pos: nat,
                    requests: seq<LaunchRequest>, listCalls: nat, sent: seq<Notification>)
    requires LoopInv(env, replies, base, flag, i, pos, requests, listCalls, sent)
    requires flag || i == |replies| || env.candidates == []
    ensures RunLoop(env, replies, 0, base) == Preceded(requests, listCalls, sent,
      LoopRun(if flag then Acquired else if i == |replies| then RepliesExhausted else NoCandidates, [], 0, []))
  {
    assert requests + [] == requests && sent + [] == sent;
  }

  /** The `while not instance_exist_flag` loop, entered with the flag false, the rotation at
      its first domain and the next `list_instances` call being number `base`. */
  method LaunchLoop(env: LoopEnv, replies: seq<Reply<int>>, base: nat) returns (run: LoopRun)
    requires Wired(env)
    ensures run == RunLoop(env, replies, 0, base)
  {
    var instanceExistFlag := false;
    var i := 0;
    var adIndex: nat := 0;
    var requests: seq<LaunchRequest> := [];
    var listCalls: nat := 0;
    var sent: seq<Notification> := [];
    LoopInvInit(env, replies, base);
    while !instanceExistFlag && i < |replies|
      invariant LoopInv(env, replies, base, instanceExistFlag, i, adIndex, requests, listCalls, sent)
      decreases |replies| - i
    {
      if |env.candidates| == 0 {
        LoopInvEnds(env, replies, base, false, i, adIndex, requests, listCalls, sent);
        return Preceded(requests, listCalls, sent, LoopRun(NoCandidates, [], 0, []));
      }
      // next(oci_ad_names)
      var ad := env.candidates[adIndex];
      var nextIndex := Advance(adIndex, |env.candidates|);
      var request := MakeRequest(env.params, ad);
      var s := Attempt(env, replies[i], base + listCalls);
      if s.stop.None? {
        LoopInvContinue(env, replies, base, i, adIndex, requests, listCalls, sent);
      } else {
        LoopInvStops(env, replies, base, i, adIndex, requests, listCalls, sent);
      }
      requests, listCalls, sent := requests + [request], listCalls + s.listCalls, sent + s.sent;
      if s.stop == Some(Acquired) {
        instanceExistFlag := true;
      } else if s.stop.Some? {
        return Preceded(requests, listCalls, sent, LoopRun(s.stop.value, [], 0, []));
      }
      i, adIndex := i + 1, nextIndex;
    }
    LoopInvEnds(env, replies, base, instanceExistFlag, i, adIndex, requests, listCalls, sent);
    run := Preceded(requests, listCalls, sent,
      LoopRun(if instanceExistFlag then Acquired else RepliesExhausted, [], 0, []));
  }
}
