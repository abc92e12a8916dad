/**
 * `launch_instance`: the preparation steps (tenancy, availability-domain candidates,
 * subnet, image, request fields, SSH key), the single pre-launch existence check, and
 * the acquisition loop of `Launcher`.
 *
 * Configuration values arrive already read from the environment; an unset
 * `OCI_SUBNET_ID` or `OCI_IMAGE_ID` is the empty string, and a missing SSH public-key
 * file is `None`. The provider answers from scripts: the `get_user` reply, one script
 * per wrapped listing call, the listing function of `list_instances` and the replies to
 * the create calls.
 */
module Orchestrator {
  import opened Wrappers
  import opened OciTypes
  import Executor
  import Poller
  import Launcher
  import Recorder
  import Seqs
  import opened LaunchRules

  const LIST_ADS: string := "list_availability_domains"
  const LIST_SUBNETS: string := "list_subnets"
  const LIST_IMAGES: string := "list_images"

  /** The environment-derived settings `launch_instance` reads. */
  datatype Config = Config(
    freeAd: string,
    displayName: string,
    shape: string,
    secondMicro: bool,
    subnetId: string,
    imageId: string,
    operatingSystem: string,
    osVersion: string,
    assignPublicIp: string,
    bootVolumeSize: int,
    sshPublicKey: Option<string>)

  /** What the provider answers: `get_user` (called directly, so a rejection escapes), the
      scripted replies of the three wrapped listing calls (domain names, subnet ids and
      images), the answers to `list_instances` by call number, and the create replies. */
  datatype Provider = Provider(
    user: Reply<string>,
    adScript: seq<Outcome<seq<string>>>,
    subnetScript: seq<Outcome<seq<string>>>,
    imageScript: seq<Outcome<seq<Image>>>,
    listing: Listing,
    launchReplies: seq<Reply<int>>)

  /** Why `launch_instance` stopped before acquiring an instance: a rejected `get_user`;
      a wrapped call whose scripted replies ran out while it was still retrying; an
      empty subnet list (`subnets[0]`); no image of the wanted operating system and
      version (`next` without a default); a missing key file; or a rejection of the
      pre-launch check's `list_instances` call. */
  datatype Abort =
    | UserLookupRejected(error: ServiceError)
    | ProviderSilent(operation: string)
    | NoSubnet
    | NoMatchingImage
    | SshKeyMissing
    | CheckRejected(error: ServiceError)

  /** A preparation step's value, or why it stopped, with the notifications it sent. */
  datatype Staged<+T> = Done(value: T, sent: seq<Notification>) | Stopped(abort: Abort, sent: seq<Notification>)

  /** The result of the preparation: the rotation's candidates and the fixed request fields. */
  datatype Prepared = Prepared(candidates: seq<string>, params: LaunchParams)

  /** How `launch_instance` ended: the pre-launch check found the instance, the loop ended
      in the given way, or a preparation step or the pre-launch check stopped it. */
  datatype LaunchEnd = AlreadyRunning | Looped(loopEnd: Launcher.LoopEnd) | Aborted(abort: Abort)

  /** A whole run: how it ended, every create request in order, the number of
      `list_instances` calls and every notification, in order. */
  datatype LaunchRun = LaunchRun(end: LaunchEnd, requests: seq<LaunchRequest>, listCalls: nat, sent: seq<Notification>)

  function Query(cfg: Config): Poller.PollQuery {
    Poller.PollQuery(cfg.shape, DEFAULT_STATES, cfg.secondMicro)
  }

  // ---------------------------------------------------------------------------
  // Preparation

  /** Step 2: the domains whose names end with an allowed suffix. */
  function DomainsStep(cfg: Config, prov: Provider): Staged<seq<string>> {
    var r := Executor.Execute(LIST_ADS, prov.adScript);
    if r.result.None? then Stopped(ProviderSilent(LIST_ADS), r.sent)
    else Done(AdCandidates(r.result.value, cfg.freeAd), r.sent)
  }

  /** Step 3: the configured subnet, or the first one listed. */
  function SubnetStep(cfg: Config, prov: Provider): Staged<string> {
    if cfg.subnetId != "" then Done(cfg.subnetId, [])
    else
      var r := Executor.Execute(LIST_SUBNETS, prov.subnetScript);
      if r.result.None? then Stopped(ProviderSilent(LIST_SUBNETS), r.sent)
      else if r.result.value == [] then Stopped(NoSubnet, r.sent)
      else Done(r.result.value[0], r.sent)
  }

  /** Step 4: the configured image, or the first listed image of the wanted system. */
  function ImageStep(cfg: Config, prov: Provider): Staged<string> {
    if cfg.imageId != "" then Done(cfg.imageId, [])
    else
      var r := Executor.Execute(LIST_IMAGES, prov.imageScript);
      if r.result.None? then Stopped(ProviderSilent(LIST_IMAGES), r.sent)
      else
        var pick := PickImage(r.result.value, cfg.operatingSystem, cfg.osVersion);
        if pick.None? then Stopped(NoMatchingImage, r.sent) else Done(pick.value, r.sent)
  }

  function Prepare(cfg: Config, prov: Provider): Staged<Prepared> {
    match prov.user
    case Rejected(e) => Stopped(UserLookupRejected(e), [])
    case Replied(tenancy) =>
      var ads := DomainsStep(cfg, prov);
      if ads.Stopped? then Stopped(ads.abort, ads.sent)
      else
        var sub := SubnetStep(cfg, prov);
        if sub.Stopped? then Stopped(sub.abort, ads.sent + sub.sent)
        else
          var img := ImageStep(cfg, prov);
          var sent := ads.sent + sub.sent + img.sent;
          if img.Stopped? then Stopped(img.abort, sent)
          else if cfg.sshPublicKey.None? then Stopped(SshKeyMissing, sent)
          else
            Done(Prepared(ads.value, LaunchParams(
              tenancy, cfg.displayName, sub.value, AssignPublicIp(cfg.assignPublicIp), cfg.shape,
              ShapeConfigFor(cfg.shape), img.value, BootVolumeSize(cfg.bootVolumeSize),
              cfg.sshPublicKey.value)), sent)
  }

  /** The loop's environment: its re-polls are the poller with the default patience. */
  function LoopEnvFor(cfg: Config, prov: Provider, pr: Prepared): Launcher.LoopEnv {
    Launcher.LoopEnv(pr.params, pr.candidates, Query(cfg), prov.listing,
      (c: nat) => Poller.Poll(Query(cfg), prov.listing, c, Launcher.REPOLL_TRIES))
  }

  /** `launch_instance` from start to end; the pre-launch check is `list_instances` call 0. */
  function Launch(cfg: Config, prov: Provider): LaunchRun {
    match Prepare(cfg, prov)
    case Stopped(a, sent) => LaunchRun(Aborted(a), [], 0, sent)
    case Done(pr, sent) =>
      var check := Poller.Poll(Query(cfg), prov.listing, 0, 1);
      match check.outcome
      case Raised(e) => LaunchRun(Aborted(CheckRejected(e)), [], check.calls, sent + check.sent)
      case Found(_) => LaunchRun(AlreadyRunning, [], check.calls, sent + check.sent)
      case NotFound =>
        var loop := Launcher.RunLoop(LoopEnvFor(cfg, prov, pr), prov.launchReplies, 0, check.calls);
        LaunchRun(Looped(loop.end), loop.requests, check.calls + loop.listCalls, sent + check.sent + loop.sent)
  }

  // ---------------------------------------------------------------------------
  // Properties of the preparation

  /** Step 2 stops only when the wrapper gives up, and its notifications are the wrapper's;
      otherwise the candidates are exactly the listed domains whose names end with an
      allowed suffix, in the provider's order. */
  lemma DomainsStepSpec(cfg: Config, prov: Provider) returns (idx: seq<nat>)
    ensures var r := Executor.Execute(LIST_ADS, prov.adScript);
      var st := DomainsStep(cfg, prov);
      (st.Stopped? <==> r.result.None?) && st.sent == r.sent &&
      (st.Stopped? ==> st.abort == ProviderSilent(LIST_ADS)) &&
      (st.Done? ==>
        var names := r.result.value;
        |idx| == |st.value| && Seqs.Increasing(idx) &&
        (forall k :: 0 <= k < |idx| ==> idx[k] < |names| && st.value[k] == names[idx[k]]) &&
        forall i :: 0 <= i < |names| ==> (IsAllowedAd(names[i], AllowedSuffixes(cfg.freeAd)) <==> i in idx))
  {
    idx := [];
    var r := Executor.Execute(LIST_ADS, prov.adScript);
    if r.result.Some? {
      idx := AdCandidatesSpec(r.result.value, cfg.freeAd);
    }
  }

  /** A configured subnet is used without a `list_subnets` call; otherwise the first
      listed subnet is used, and an empty listing stops the run. */
  lemma SubnetStepSpec(cfg: Config, prov: Provider)
    ensures cfg.subnetId != "" ==> SubnetStep(cfg, prov) == Done(cfg.subnetId, [])
    ensures cfg.subnetId == "" ==>
      var r := Executor.Execute(LIST_SUBNETS, prov.subnetScript);
      (SubnetStep(cfg, prov).Done? <==> r.result.Some? && r.result.value != []) &&
      (SubnetStep(cfg, prov).Done? ==> SubnetStep(cfg, prov).value == r.result.value[0]) &&
      (SubnetStep(cfg, prov) == Stopped(NoSubnet, r.sent) <==> r.result == Some([]))
  {
  }

  /** A configured image is used without a `list_images` call; otherwise the image chosen
      is the first listed one whose system and version are the configured ones, and the run
      stops when there is none. */
  lemma ImageStepSpec(cfg: Config, prov: Provider) returns (j: nat)
    ensures cfg.imageId != "" ==> ImageStep(cfg, prov) == Done(cfg.imageId, [])
    ensures cfg.imageId == "" && ImageStep(cfg, prov).Done? ==>
      var images := Executor.Execute(LIST_IMAGES, prov.imageScript).result.value;
      j < |images| && ImageStep(cfg, prov).value == images[j].id &&
      images[j].operatingSystem == cfg.operatingSystem && images[j].operatingSystemVersion == cfg.osVersion &&
      forall i :: 0 <= i < j ==>
        !(images[i].operatingSystem == cfg.operatingSystem && images[i].operatingSystemVersion == cfg.osVersion)
    ensures cfg.imageId == "" && Executor.Execute(LIST_IMAGES, prov.imageScript).result.Some? ==>
      var images := Executor.Execute(LIST_IMAGES, prov.imageScript).result.value;
      (ImageStep(cfg, prov).Stopped? <==>
        forall i :: 0 <= i < |images| ==>
          !(images[i].operatingSystem == cfg.operatingSystem && images[i].operatingSystemVersion == cfg.osVersion))
  {
    j := 0;
    if cfg.imageId == "" {
      var r := Executor.Execute(LIST_IMAGES, prov.imageScript);
      if r.result.Some? {
        j := PickImageSpec(r.result.value, cfg.operatingSystem, cfg.osVersion);
      }
    }
  }

  /** Every request field fixed before the loop comes from the configuration by the launch
      rules: the tenancy as compartment, the shape and its sizing, the public-IP flag, the
      boot volume `max(50, n)` and the key. A rejected `get_user` or a missing key
      stops the run. */
  lemma PrepareSpec(cfg: Config, prov: Provider)
    ensures prov.user.Rejected? ==> Prepare(cfg, prov) == Stopped(UserLookupRejected(prov.user.error), [])
    ensures cfg.sshPublicKey.None? ==> Prepare(cfg, prov).Stopped?
    ensures Prepare(cfg, prov).Done? ==>
      var pr := Prepare(cfg, prov).value;
      prov.user.Replied? && cfg.sshPublicKey.Some? &&
      pr.candidates == AdCandidates(Executor.Execute(LIST_ADS, prov.adScript).result.value, cfg.freeAd) &&
      pr.params.compartmentId == prov.user.value &&
      pr.params.displayName == cfg.displayName &&
      pr.params.shape == cfg.shape &&
      pr.params.shapeConfig == ShapeConfigFor(cfg.shape) &&
      pr.params.assignPublicIp == AssignPublicIp(cfg.assignPublicIp) &&
      pr.params.bootVolumeSizeGbs == BootVolumeSize(cfg.bootVolumeSize) &&
      pr.params.bootVolumeSizeGbs >= MIN_BOOT_VOLUME_GBS &&
      pr.params.bootVolumeSizeGbs >= cfg.bootVolumeSize &&
      pr.params.sshPublicKey == cfg.sshPublicKey.value &&
      pr.params.subnetId == SubnetStep(cfg, prov).value &&
      pr.params.imageId == ImageStep(cfg, prov).value
  {
  }

  // ---------------------------------------------------------------------------
  // Properties of the whole run

  /** The wrapper records nothing: its notifications are its command errors. */
  lemma ExecuteRecordsNothing<T>(operation: string, script: seq<Outcome<T>>)
    ensures Recorder.Records(Executor.Execute(operation, script).sent) == 0
  {
    Executor.ExecuteReportsOnlyErrors(operation, script);
    Recorder.NoRecordsAmong(Executor.Execute(operation, script).sent);
  }

  /** The preparation notifies only about rejected listing calls, so it records nothing. */
  lemma PrepareRecordsNothing(cfg: Config, prov: Provider)
    ensures Recorder.Records(Prepare(cfg, prov).sent) == 0
  {
    ExecuteRecordsNothing(LIST_ADS, prov.adScript);
    ExecuteRecordsNothing(LIST_SUBNETS, prov.subnetScript);
    ExecuteRecordsNothing(LIST_IMAGES, prov.imageScript);
    var ads, sub, img := DomainsStep(cfg, prov), SubnetStep(cfg, prov), ImageStep(cfg, prov);
    assert Recorder.Records(ads.sent) == 0 && Recorder.Records(sub.sent) == 0 && Recorder.Records(img.sent) == 0;
    Recorder.RecordsConcat(ads.sent, sub.sent);
    Recorder.RecordsConcat(ads.sent + sub.sent, img.sent);
  }

  lemma EnvWired(cfg: Config, prov: Provider, pr: Prepared)
    ensures Launcher.Wired(LoopEnvFor(cfg, prov, pr))
  {
  }

  /** The pre-launch check is a single `list_instances` call without a sleep. When it finds
      the instance no create call is made, and a create call is made only after it missed. */
  lemma NoLaunchUnlessCheckMissed(cfg: Config, prov: Provider)
    ensures var run := Launch(cfg, prov);
      var check := Poller.Poll(Query(cfg), prov.listing, 0, 1);
      (Prepare(cfg, prov).Done? ==> check.calls == 1 && check.sleeps == 0) &&
      (Prepare(cfg, prov).Done? && check.outcome.Found? ==> run.end == AlreadyRunning && run.requests == []) &&
      (run.requests != [] ==> Prepare(cfg, prov).Done? && check.outcome.NotFound? && run.end.Looped?)
  {
    Poller.SingleCheckNeverSleeps(Query(cfg), prov.listing, 0);
  }

  /** The pre-launch check records the instance once when it finds it, and otherwise not at all. */
  lemma CheckRecords(cfg: Config, prov: Provider)
    ensures var check := Poller.Poll(Query(cfg), prov.listing, 0, 1);
      Recorder.Records(check.sent) == (if check.outcome.Found? then 1 else 0)
  {
    var _ := Poller.PollSpec(Query(cfg), prov.listing, 0, 1, 0);
    assert Recorder.Records([InstanceAvailable(cfg.shape, Recorder.DetailsFileName(cfg.shape))]) == 1;
  }

  /** At most one details file per run: exactly one when the pre-launch check or the loop
      finds the instance, and none otherwise. */
  lemma LaunchRecordsOnce(cfg: Config, prov: Provider)
    ensures var run := Launch(cfg, prov);
      Recorder.Records(run.sent) ==
        (if run.end == AlreadyRunning || (run.end.Looped? && Launcher.FoundEnd(run.end.loopEnd)) then 1 else 0)
  {
    PrepareRecordsNothing(cfg, prov);
    match Prepare(cfg, prov)
    case Stopped(_, _) =>
    case Done(pr, sent) =>
      var check := Poller.Poll(Query(cfg), prov.listing, 0, 1);
      CheckRecords(cfg, prov);
      Recorder.RecordsConcat(sent, check.sent);
      if check.outcome.NotFound? {
        var env := LoopEnvFor(cfg, prov, pr);
        EnvWired(cfg, prov, pr);
        var loop := Launcher.RunLoop(env, prov.launchReplies, 0, check.calls);
        Launcher.LoopRecordsOnce(env, prov.launchReplies, 0, check.calls);
        Recorder.RecordsConcat(sent + check.sent, loop.sent);
        assert Launch(cfg, prov).sent == sent + check.sent + loop.sent;
      }
  }

  /** Create call `j` sends the prepared fields to candidate `j mod n`: the rotation starts
      at the first candidate and goes round them in order. */
  lemma RequestsRotate(cfg: Config, prov: Provider)
    ensures var run := Launch(cfg, prov);
      run.requests != [] ==>
        Prepare(cfg, prov).Done? &&
        var pr := Prepare(cfg, prov).value;
        |pr.candidates| > 0 &&
        forall j :: 0 <= j < |run.requests| ==>
          run.requests[j] == MakeRequest(pr.params, pr.candidates[j % |pr.candidates|])
  {
    var run := Launch(cfg, prov);
    if run.requests != [] {
      var pr := Prepare(cfg, prov).value;
      var check := Poller.Poll(Query(cfg), prov.listing, 0, 1);
      var env := LoopEnvFor(cfg, prov, pr);
      var loop := Launcher.RunLoop(env, prov.launchReplies, 0, check.calls);
      assert run.requests == loop.requests;
      Launcher.LoopRotatesDomains(env, prov.launchReplies, 0, check.calls);
      forall j | 0 <= j < |run.requests|
        ensures run.requests[j] == MakeRequest(pr.params, pr.candidates[j % |pr.candidates|])
      {
        AdvancedIsModulo(0, |pr.candidates|, j);
      }
    }
  }

  /** No instance exists, the first create call meets a capacity rejection whose re-poll
      finds nothing, the second gets a 200 response whose re-poll finds the instance: the run
      ends with the instance acquired after two create calls and five `list_instances`
      calls, having sent exactly two notifications, the rejection's and the instance's. */
  lemma EndToEndScenario(cfg: Config, prov: Provider, e: ServiceError)
    requires Prepare(cfg, prov).Done? && Prepare(cfg, prov).sent == [] && Prepare(cfg, prov).value.candidates != []
    requires e.code == LIMIT_EXCEEDED && prov.launchReplies == [Rejected(e), Replied(HTTP_OK)]
    requires forall n :: 0 <= n <= Launcher.REPOLL_TRIES ==> Poller.Miss(Query(cfg), prov.listing, 0, n)
    requires prov.listing(Launcher.REPOLL_TRIES + 1).Replied?
    requires Poller.Select(Query(cfg), prov.listing(Launcher.REPOLL_TRIES + 1).value).Some?
    ensures var run := Launch(cfg, prov);
      run.end == Looped(Launcher.Acquired) && |run.requests| == 2 && run.listCalls == 5 &&
      run.sent == [LaunchError(e), InstanceAvailable(cfg.shape, Recorder.DetailsFileName(cfg.shape))]
  {
    var pr := Prepare(cfg, prov).value;
    var env := LoopEnvFor(cfg, prov, pr);
    var check := Poller.Poll(Query(cfg), prov.listing, 0, 1);
    var _ := Poller.PollSpec(Query(cfg), prov.listing, 0, 1, 0);
    assert Poller.Miss(Query(cfg), prov.listing, 0, 0);
    assert check.outcome.NotFound? && check.calls == 1 && check.sent == [];
    forall n | 0 <= n < Launcher.REPOLL_TRIES
      ensures Poller.Miss(env.query, env.listing, 1, n)
    {
      assert Poller.Miss(Query(cfg), prov.listing, 0, n + 1);
    }
    EnvWired(cfg, prov, pr);
    Launcher.CapacityThenSuccess(env, e, 1);
  }

  // ---------------------------------------------------------------------------
  // The function as the source runs it

  /** Step 3 of `launch_instance`. */
  method ResolveSubnet(cfg: Config, prov: Provider) returns (st: Staged<string>)
    ensures st == SubnetStep(cfg, prov)
  {
    var subnetId := cfg.subnetId;
    if subnetId != "" {
      return Done(subnetId, []);
    }
    var subnets, _, sent := Executor.ExecuteOciCommand(LIST_SUBNETS, prov.subnetScript);
    if subnets.None? {
      return Stopped(ProviderSilent(LIST_SUBNETS), sent);
    }
    if subnets.value == [] {
      return Stopped(NoSubnet, sent);
    }
    st := Done(subnets.value[0], sent);
  }

  /** Step 4 of `launch_instance`. */
  method ResolveImage(cfg: Config, prov: Provider) returns (st: Staged<string>)
    ensures st == ImageStep(cfg, prov)
  {
    if cfg.imageId != "" {
      return Done(cfg.imageId, []);
    }
    var images, _, sent := Executor.ExecuteOciCommand(LIST_IMAGES, prov.imageScript);
    if images.None? {
      return Stopped(ProviderSilent(LIST_IMAGES), sent);
    }
    var pick := PickImage(images.value, cfg.operatingSystem, cfg.osVersion);
    if pick.None? {
      return Stopped(NoMatchingImage, sent);
    }
    st := Done(pick.value, sent);
  }

  /** Steps 1 to 4 of `launch_instance` and the request fields computed after them. */
  method PrepareLaunch(cfg: Config, prov: Provider) returns (st: Staged<Prepared>)
    ensures st == Prepare(cfg, prov)
  {
    var tenancy: string;
    match prov.user {
      case Rejected(e) => return Stopped(UserLookupRejected(e), []);
      case Replied(t) => tenancy := t;
    }
    var names, _, sent := Executor.ExecuteOciCommand(LIST_ADS, prov.adScript);
    if names.None? {
      return Stopped(ProviderSilent(LIST_ADS), sent);
    }
    var candidates := AdCandidates(names.value, cfg.freeAd);
    var subnet := ResolveSubnet(cfg, prov);
    sent := sent + subnet.sent;
    if subnet.Stopped? {
      return Stopped(subnet.abort, sent);
    }
    var image := ResolveImage(cfg, prov);
    sent := sent + image.sent;
    if image.Stopped? {
      return Stopped(image.abort, sent);
    }
    var assignPublicIp := AssignPublicIp(cfg.assignPublicIp);
    var bootVolumeSize := BootVolumeSize(cfg.bootVolumeSize);
    if cfg.sshPublicKey.None? {
      return Stopped(SshKeyMissing, sent);
    }
    var params := LaunchParams(tenancy, cfg.displayName, subnet.value, assignPublicIp, cfg.shape,
      ShapeConfigFor(cfg.shape), image.value, bootVolumeSize, cfg.sshPublicKey.value);
    st := Done(Prepared(candidates, params), sent);
  }

  /** `launch_instance`: the preparation, the pre-launch check (`tries=1`) and the loop. */
  method LaunchInstance(cfg: Config, prov: Provider) returns (run: LaunchRun)
    ensures run == Launch(cfg, prov)
  {
    var prep := PrepareLaunch(cfg, prov);
    if prep.Stopped? {
      return LaunchRun(Aborted(prep.abort), [], 0, prep.sent);
    }
    var q := Query(cfg);
    var check := Poller.CheckInstanceStateAndWrite(q, prov.listing, 0, 1);
    var sent := prep.sent + check.sent;
    match check.outcome {
      case Raised(e) => return LaunchRun(Aborted(CheckRejected(e)), [], check.calls, sent);
      case Found(_) => return LaunchRun(AlreadyRunning, [], check.calls, sent);
      case NotFound =>
    }
    var env := LoopEnvFor(cfg, prov, prep.value);
    EnvWired(cfg, prov, prep.value);
    var loop := Launcher.LaunchLoop(env, prov.launchReplies, check.calls);
    run := LaunchRun(Looped(loop.end), loop.requests, check.calls + loop.listCalls, sent + loop.sent);
  }
}
