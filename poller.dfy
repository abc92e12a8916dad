/**
 * The existence poller (`check_instance_state_and_write`): up to `tries` times it
 * lists the instances of the compartment and applies the shape's selection
 * policy; on a match it records the instance and notifies.
 *
 * `list_instances` is called directly on the client, not through the retry
 * wrapper, so a rejection of it escapes the poller (outcome `Raised`).
 */
module Poller {
  import opened Wrappers
  import opened OciTypes
  import Seqs
  import Recorder

  /** What the poll looks for: the shape, the acceptable lifecycle states, and whether a
      second micro instance is wanted (`SECOND_MICRO_INSTANCE`). */
  datatype PollQuery = PollQuery(shape: string, states: seq<string>, secondMicro: bool)

  predicate IsMatch(q: PollQuery, inst: Instance) {
    inst.shape == q.shape && inst.lifecycleState in q.states
  }

  function MatchOf(q: PollQuery): Instance -> bool {
    inst => IsMatch(q, inst)
  }

  /** The matching instances of one listing, in listing order. */
  function Matches(q: PollQuery, instances: seq<Instance>): seq<Instance> {
    Seqs.Filter(instances, MatchOf(q))
  }

  /** The instance one listing reports under the shape's policy: for the flex shape the
      first match; for any other shape the last match, provided the number of matches
      fits the second-instance flag. */
  function Select(q: PollQuery, instances: seq<Instance>): Option<Instance> {
    if q.shape == ARM_SHAPE then Seqs.First(instances, MatchOf(q))
    else
      var ms := Matches(q, instances);
      if |ms| > 1 && q.secondMicro then Some(ms[|ms| - 1])
      else if |ms| == 1 && !q.secondMicro then Some(ms[|ms| - 1])
      else None
  }

  /** Flex shape: a listing reports an instance iff some listed instance matches, and the
      one it reports is the first match. */
  lemma FlexPolicy(q: PollQuery, instances: seq<Instance>) returns (j: nat)
    requires q.shape == ARM_SHAPE
    ensures Select(q, instances).Some? <==> exists i :: 0 <= i < |instances| && IsMatch(q, instances[i])
    ensures Select(q, instances).Some? ==>
      j < |instances| && IsMatch(q, instances[j]) && Select(q, instances) == Some(instances[j]) &&
      forall i :: 0 <= i < j ==> !IsMatch(q, instances[i])
  {
    j := Seqs.FirstSpec(instances, MatchOf(q));
  }

  /** Micro shape: a listing reports an instance iff there are more than one matches and a
      second instance is wanted, or exactly one match and it is not; the one it reports is
      the last match in listing order. */
  lemma MicroPolicy(q: PollQuery, instances: seq<Instance>) returns (j: nat)
    requires q.shape != ARM_SHAPE
    ensures Select(q, instances).Some? <==>
      (|Matches(q, instances)| > 1 && q.secondMicro) || (|Matches(q, instances)| == 1 && !q.secondMicro)
    ensures Select(q, instances).Some? ==>
      j < |instances| && IsMatch(q, instances[j]) && Select(q, instances) == Some(instances[j]) &&
      forall i :: j < i < |instances| ==> !IsMatch(q, instances[i])
  {
    j := 0;
    if Select(q, instances).Some? {
      j := Seqs.FilterLast(instances, MatchOf(q));
    }
  }

  /** The matches are exactly the listed instances that match, each once, in listing order;
      so the micro policy counts matching instances. */
  lemma MatchesAreTheMatchingInstances(q: PollQuery, instances: seq<Instance>) returns (idx: seq<nat>)
    ensures |idx| == |Matches(q, instances)| && Seqs.Increasing(idx)
    ensures forall k :: 0 <= k < |idx| ==>
      idx[k] < |instances| && Matches(q, instances)[k] == instances[idx[k]]
    ensures forall i :: 0 <= i < |instances| ==> (IsMatch(q, instances[i]) <==> i in idx)
  {
    idx := Seqs.FilterPositions(instances, MatchOf(q));
  }

  datatype PollOutcome = Found(instance: Instance) | NotFound | Raised(error: ServiceError)

  /** What one poll did: its outcome, how many times it listed instances, how often it
      slept, and the notifications it sent. */
  datatype PollRun = PollRun(outcome: PollOutcome, calls: nat, sleeps: nat, sent: seq<Notification>)

  /** The sleep after a missed attempt: taken whenever more than one try was asked for,
      whatever the attempt (the source tests `tries - 1 > 0`). */
  function SleepAfterMiss(tries: nat): nat {
    if tries - 1 > 0 then 1 else 0
  }

  /** Attempt `n` of the poll listed instances and found nothing under the policy. */
  ghost predicate Miss(q: PollQuery, listing: Listing, base: nat, n: nat) {
    listing(base + n).Replied? && Select(q, listing(base + n).value).None?
  }

  /** The poll's attempts `i` .. `tries - 1` against the listings from call `base` on. */
  function PollFrom(q: PollQuery, listing: Listing, base: nat, tries: nat, i: nat): PollRun
    requires i <= tries
    decreases tries - i
  {
    if i == tries then PollRun(NotFound, 0, 0, [])
    else match listing(base + i)
      case Rejected(e) => PollRun(Raised(e), 1, 0, [])
      case Replied(instances) =>
        match Select(q, instances)
        case Some(inst) =>
          PollRun(Found(inst), 1, 0, [InstanceAvailable(q.shape, Recorder.DetailsFileName(q.shape))])
        case None =>
          var rest := PollFrom(q, listing, base, tries, i + 1);
          PollRun(rest.outcome, rest.calls + 1, rest.sleeps + SleepAfterMiss(tries), rest.sent)
  }

  /** `r` preceded by `calls` missed attempts and `sleeps` sleeps. */
  function After(r: PollRun, calls: nat, sleeps: nat): PollRun {
    PollRun(r.outcome, r.calls + calls, r.sleeps + sleeps, r.sent)
  }

  lemma PollFromMiss(q: PollQuery, listing: Listing, base: nat, tries: nat, i: nat)
    requires i < tries && Miss(q, listing, base, i)
    ensures PollFrom(q, listing, base, tries, i) ==
      After(PollFrom(q, listing, base, tries, i + 1), 1, SleepAfterMiss(tries))
  {
  }

  /** The whole poll: attempts 0 .. `tries - 1`. */
  function Poll(q: PollQuery, listing: Listing, base: nat, tries: nat): PollRun {
    PollFrom(q, listing, base, tries, 0)
  }

  /** The poll reports NotFound iff every remaining attempt listed and missed; it then listed
      once per attempt, slept after every attempt when more than one try was asked for, and
      notified nobody. Otherwise some attempt `j` ended it, after misses only: a rejection
      there is raised, a match there is recorded and notified once. */
  lemma {:induction false} PollSpec(q: PollQuery, listing: Listing, base: nat, tries: nat, i: nat)
    returns (j: nat)
    requires i <= tries
    ensures var r := PollFrom(q, listing, base, tries, i);
      (r.outcome.NotFound? <==> forall n :: i <= n < tries ==> Miss(q, listing, base, n)) &&
      (r.outcome.NotFound? ==>
        r.calls == tries - i && r.sleeps == (if tries > 1 then tries - i else 0) && r.sent == []) &&
      (!r.outcome.NotFound? ==>
        i <= j < tries && (forall n :: i <= n < j ==> Miss(q, listing, base, n)) &&
        r.calls == j - i + 1 && r.sleeps == (if tries > 1 then j - i else 0) &&
        match listing(base + j)
        case Rejected(e) => r.outcome == Raised(e) && r.sent == []
        case Replied(instances) =>
          Select(q, instances).Some? && r.outcome == Found(Select(q, instances).value) &&
          r.sent == [InstanceAvailable(q.shape, Recorder.DetailsFileName(q.shape))])
    decreases tries - i
  {
    if i == tries {
      j := i;
    } else if Miss(q, listing, base, i) {
      j := PollSpec(q, listing, base, tries, i + 1);
    } else {
      j := i;
    }
  }

  /** The pre-launch check (one try) lists exactly once and never sleeps. */
  lemma SingleCheckNeverSleeps(q: PollQuery, listing: Listing, base: nat)
    ensures Poll(q, listing, base, 1).calls == 1
    ensures Poll(q, listing, base, 1).sleeps == 0
  {
    var _ := PollSpec(q, listing, base, 1, 0);
  }

  /** `check_instance_state_and_write`: the `for _ in range(tries)` loop with its early returns. */
  method CheckInstanceStateAndWrite(q: PollQuery, listing: Listing, base: nat, tries: nat)
    returns (r: PollRun)
    ensures r == Poll(q, listing, base, tries)
  {
    var sleeps := 0;
    for i := 0 to tries
      invariant sleeps == (if tries > 1 then i else 0)
      invariant Poll(q, listing, base, tries) == After(PollFrom(q, listing, base, tries, i), i, sleeps)
    {
      var notice := InstanceAvailable(q.shape, Recorder.DetailsFileName(q.shape));
      match listing(base + i) {
        case Rejected(e) =>
          return PollRun(Raised(e), i + 1, sleeps, []);
        case Replied(instanceList) =>
          // the shape's selection policy on this listing
          var selected := Select(q, instanceList);
          if selected.Some? {
            return PollRun(Found(selected.value), i + 1, sleeps, [notice]);
          }
      }
      PollFromMiss(q, listing, base, tries, i);
      if tries - 1 > 0 {
        sleeps := sleeps + 1;
      }
    }
    r := PollRun(NotFound, tries, sleeps, []);
  }
}
