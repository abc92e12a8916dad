# Free-tier instance acquisition: a verified model

The script `main.py` acquires an Oracle Cloud free-tier compute instance. It retries the
create call until the provider has capacity, then records the instance and notifies an
operator. This project models its decision logic and control loops in Dafny and proves
what they do against a scripted provider:

- **Retry wrapper**: `execute_oci_command` (module `Executor`, `executor.dfy`). It calls an
  operation until one call succeeds. It unwraps `.data` when the response has it, and it
  sends one notification per `ServiceError` before retrying.
- **Existence poller**: `check_instance_state_and_write` (module `Poller`, `poller.dfy`).
  It lists instances up to `tries` times and applies the shape's selection policy:
  - the flex shape takes the first match;
  - a micro shape needs exactly one match, or more than one when a second instance is
    wanted, and takes the last.
  A hit names the details file and sends one notification.
- **Launch rules** (module `LaunchRules`, `launch_rules.dfy`):
  - the `OCT_FREE_AD` suffix allow-list, with Python's `str.split` and its round trip;
  - the `itertools.cycle` rotation over the candidates;
  - the image pick;
  - the public-IP flag;
  - the 50 GB boot-volume floor;
  - the shape sizing;
  - the create request.
- **Details file name** (module `Recorder`, `recorder.dfy`).
- **Launch loop**: the `while not instance_exist_flag` loop (module `Launcher`,
  `launcher.dfy`). Each iteration makes one create call with the next domain of the
  rotation. The reply then decides what happens:
  - a 200 response leads to a re-poll;
  - `LimitExceeded` leads to a re-poll, and then to `sys.exit` if the instance exists;
  - any other rejection is notified.
- **`launch_instance`** as a whole (module `Orchestrator`, `orchestrator.dfy`):
  tenancy, domains, subnet, image, request fields, the key, the one-try pre-launch check,
  then the loop.

The provider is given as inputs:

- `get_user` is one reply.
- Each wrapped listing call has a finite script of outcomes (`Outcome`).
- `list_instances` is a function from call number to reply (`Listing`).
- The create calls have a finite list of replies.

Notifications are returned as data (`Notification`), in order.

Each imperative piece of the source is a method proved equal to a recursive specification
function, and the properties are lemmas about those functions:

- `ExecuteOciCommand` equals `Execute`.
- `CheckInstanceStateAndWrite` equals `Poll`.
- `Attempt` equals `Iterate`.
- `LaunchLoop` equals `RunLoop`.
- `LaunchInstance` equals `Launch`.

The loop's re-poll is kept as a function field of `LoopEnv` (`repoll`), and
`Launcher.Wired` ties that field to `Poller.Poll` with three tries. This keeps the loop
lemmas independent of the poller's internals. The rotation is `itertools.cycle`'s cursor
(`Advance`, `Advanced`), and `AdvancedIsModulo` proves that the k-th step lands on
candidate `k mod n`.

Behaviour of `main.py` that the model follows and a reader might not expect:

- The wrapper catches only `ServiceError`, notifies, and retries at once, forever. The
  repository's own tests (test_main.py:21-34, 52-86) exercise a retried
  `RequestException` and a `custom_error_handler` argument, which `execute_oci_command`
  as written does not have; the model has neither.
- The poller sleeps after every missed attempt when `tries > 1`, the last one included.
  The test is `tries - 1 > 0`, which does not depend on the attempt.
- A micro shape with the second-instance flag set needs *more than one* match.
- A re-poll after `LimitExceeded` that finds the instance ends the run through
  `sys.exit`, which is a distinct end (`ExitedAfterLimit`).
- A rejection of the re-poll after a 200 response is inside the `try`. It is therefore
  handled by the `except ServiceError` clause like a create rejection.
- Rejections of `get_user` and of the pre-launch check's `list_instances` call escape.
- An empty subnet list (`subnets[0]`), an image list without a match (`next` without a
  default) and an empty candidate list (`next` on an empty cycle) stop the run.

## Model

| member | source | states |
|---|---|---|
| Executor.ExecuteOciCommand | main.py:106-119 | the `while True` loop returns exactly what `Execute` describes: the first successful payload, the number of calls made, one command-error notification per rejection before it |
| Executor.FirstCallSucceeds | main.py:109-111 | a successful first call returns `response.data` when present, else the response itself, after one call and with no notification |
| Executor.RetriesUntilSuccess | main.py:107-119 | after k rejections and then a success: the success payload, k+1 calls, exactly k notifications, the i-th naming the operation and the i-th error |
| Executor.NeverGivesUp | main.py:107-119 | when every reply is a rejection, every one is retried and notified and nothing is returned |
| Executor.ExecuteReportsOnlyErrors | main.py:112-119 | the wrapper's only notifications are command errors naming its own operation |
| Poller.FlexPolicy | main.py:85-90 | for the flex shape: found iff some instance has the shape and an accepted state, and the selected one is the first such instance |
| Poller.MicroPolicy | main.py:91-99 | for other shapes: found iff (more than one match and a second instance wanted) or (exactly one match and not wanted), and the selected one is the last match |
| Poller.MatchesAreTheMatchingInstances | main.py:92-93 | the micro list holds exactly the matching instances, each once, in listing order |
| Poller.PollSpec | main.py:82-103 | NotFound iff every remaining attempt listed and missed, then one call per attempt, a sleep after every miss when tries > 1 and no notification; otherwise the attempt that ended it follows misses only, has its rejection raised or its selection recorded with one notification |
| Poller.SingleCheckNeverSleeps | main.py:100-101 | with one try the poll lists exactly once and never sleeps |
| Poller.CheckInstanceStateAndWrite | main.py:82-103 | the `for _ in range(tries)` loop with its early returns has exactly the outcome, call count, sleep count and notifications of `Poll` |
| Recorder.ReplaceChar | main.py:246 | same length, and every position holds the replacement exactly where the original held the replaced character |
| Recorder.DetailsFileName | main.py:246 | the name is `instance_details_`, then the shape with each '.' turned into '_', then `.json`; no '.' is left in the middle part |
| Recorder.KnownShapesDistinctFiles | main.py:246 | the flex and micro shapes are recorded under different file names |
| LaunchRules.Split | main.py:145 | `str.split` yields at least one piece and no piece holds the separator |
| LaunchRules.JoinSplit | main.py:145 | joining the pieces of a split restores the string |
| LaunchRules.SplitJoin | main.py:145 | splitting a join of separator-free pieces restores the pieces |
| LaunchRules.AdCandidatesSpec | main.py:144-145 | the candidates are exactly the domain names ending with some comma-separated allow-list entry, each once, in the provider's order |
| LaunchRules.EmptyAllowListKeepsAll | main.py:145 | an empty `OCT_FREE_AD` keeps every domain, because it splits into one empty suffix |
| LaunchRules.AdvancedIsModulo | main.py:146 | the `itertools.cycle` cursor k steps after position p is at (p + k) mod n |
| LaunchRules.CyclicRotation | main.py:146 | from the first candidate, step k is at k mod n: the first n steps take the candidates in order, and the rotation has period n |
| LaunchRules.PickImageSpec | main.py:167-169 | no image iff none has the configured system and version; otherwise the id of the first that has them |
| LaunchRules.Lower | main.py:173 | lower-casing keeps the length and maps each character by ASCII lower-casing |
| LaunchRules.AssignPublicIpSpec | main.py:173 | the flag is set iff the value equals "true", "1", "y" or "yes" up to letter case; "false" leaves it unset |
| LaunchRules.BootVolumeSize | main.py:175 | `max(50, n)`: at least 50, at least n, and one of the two |
| LaunchRules.ShapeConfigFor | main.py:182-185 | the flex shape gets 4 OCPUs and 24 GB, every other shape 1 OCPU and 1 GB |
| LaunchRules.RequestFields | main.py:189-216 | the `LaunchInstanceDetails` of a create call (`MakeRequest`) carries its domain and every prepared field unchanged (`ParamsOf` recovers them), with a private DNS record, `RESTORE_INSTANCE` recovery, legacy metadata endpoints left enabled and an `image` source; two requests are equal iff their domains and fields are |
| Launcher.LimitExceededReconciles | main.py:221-234 | a capacity rejection always re-polls (1 to 3 calls); the run exits iff the re-poll finds the instance, and then without a launch-error notification; a re-poll that finds nothing gives exactly that one notification and the loop goes on; a rejected re-poll escapes the loop with no notification |
| Launcher.OtherRejectionNotifiesOnly | main.py:221-234 | any other rejection: one launch-error notification, no re-poll, the loop goes on |
| Launcher.SuccessResponseRepolls | main.py:218-234 | a non-200 reply changes nothing; a 200 reply re-polls, and unless the re-poll is rejected it alone decides whether the loop stops, with its notifications and calls; a rejected re-poll is handled by the `except` clause exactly as a create call rejected with that error, from the next listing call on |
| Launcher.LoopBounded | main.py:187-190 | one create call per iteration, never more than the replies; when the replies run out every one was used; no candidates means no create call, and with a reply left the loop ends for lack of candidates |
| Launcher.LoopRotatesDomains | main.py:192 | create call j sends the fixed fields to the rotation's domain j steps on |
| Launcher.IterateMisses | main.py:189-234 | an iteration while the instance never appears does not stop the loop and notifies once, with a launch error, exactly when the create call was rejected |
| Launcher.LoopNotificationCount | main.py:187-234 | while the instance never appears, the loop uses every reply, makes one create call for each, and sends exactly one notification, a launch error, per rejected create call |
| Launcher.IterateRecords | main.py:218-225 | an iteration that ends the loop because the instance exists has just recorded it: its last notification is the instance's |
| Launcher.LoopEndsWithRecord | main.py:187-225 | a run that acquires the instance, or exits after a capacity rejection, ends with the instance's notification |
| Launcher.IterateRecordCount | main.py:218-225 | an iteration records the instance once if it ends the loop because the instance exists, and otherwise records nothing |
| Launcher.LoopRecordsOnce | main.py:187-234 | the loop writes the details file at most once: exactly once when it ends because the instance exists, never otherwise |
| Launcher.CapacityThenSuccess | main.py:187-234 | capacity rejection with a missing re-poll, then 200 with a finding re-poll: acquired after two create calls and four listings, with exactly two notifications, the rejection's then the instance's |
| Launcher.Attempt | main.py:189-234 | the `try` block and its `except ServiceError` clause do exactly what `Iterate` describes |
| Launcher.LaunchLoop | main.py:187-234 | the `while not instance_exist_flag` loop, with its flag and `itertools.cycle` cursor, does exactly what `RunLoop` describes |
| Orchestrator.DomainsStepSpec | main.py:141-146 | step 2 (`DomainsStep`) stops only when the wrapper gives up, with the wrapper's notifications; otherwise the candidates are exactly the listed domains whose names end with an allowed suffix, in the provider's order |
| Orchestrator.SubnetStepSpec | main.py:149-154 | a configured subnet is used without a listing call; otherwise the first listed subnet, and an empty listing stops the run |
| Orchestrator.ImageStepSpec | main.py:157-171 | a configured image is used without a listing call; otherwise the first listed image of the configured system and version, and the run stops iff there is none |
| Orchestrator.PrepareSpec | main.py:134-185 | a rejected `get_user` or a missing key stops the run; otherwise the request fields are the tenancy, the configured name and shape, the shape's sizing, the public-IP flag, a boot volume of exactly `max(50, n)` for the configured n (so at least 50 GB and at least n), the key, the resolved subnet and image, and the candidates come from the allow-list |
| Orchestrator.NoLaunchUnlessCheckMissed | main.py:180-187 | the pre-launch check lists once without sleeping; if it finds the instance no create call is made; a create call is made only after it missed |
| Orchestrator.PrepareRecordsNothing | main.py:134-177 | the preparation's notifications are only the wrapper's command errors, so it records no instance |
| Orchestrator.LaunchRecordsOnce | main.py:134-234 | a run writes at most one details file: exactly one when the pre-launch check or the loop finds the instance, none otherwise |
| Orchestrator.RequestsRotate | main.py:146-192 | create call j sends the prepared fields to candidate j mod n |
| Orchestrator.EndToEndScenario | main.py:180-234 | no instance, a capacity rejection whose re-poll misses, then a 200 whose re-poll finds it: acquired after two create calls and five listings, with exactly two notifications |
| Orchestrator.ResolveSubnet | main.py:149-154 | step 3 computes exactly `SubnetStep` |
| Orchestrator.ResolveImage | main.py:157-171 | step 4 computes exactly `ImageStep` |
| Orchestrator.PrepareLaunch | main.py:134-177 | steps 1 to 4, the public-IP flag, the boot volume and the key compute exactly `Prepare` |
| Orchestrator.LaunchInstance | main.py:134-234 | `launch_instance` as a whole computes exactly `Launch` |

## Left out

- The OCI SDK clients and `init_oci_clients` (main.py:49-61): foreign calls. They are replaced by the scripted `Provider`.
- Discord delivery (main.py:40-47): network I/O. Only the notifications, as data (`Notification`), are kept. Message wording and emoji are not modelled.
- Writes to files: `write_into_file`, the image-list dump and the details JSON (main.py:73-75, 164-166, 247-248). These are I/O; only the details file name is modelled.
- Environment loading (main.py:19-38): the settings are a `Config` value.
- `BootVolumeSize`: takes the already-parsed integer. The `ValueError` of `int(BOOT_VOLUME_SIZE)` is not modelled.
- Reading the SSH key (main.py:122-131): filesystem I/O. A missing key file is `None` and stops the run.
- `time.sleep`: durations are not modelled. The poller counts its sleeps (`PollRun.sleeps`), but the loop does not carry them on: `Step`, `LoopRun` and `LaunchRun` have no sleep count, so the re-polls' sleeps and the `WAIT_TIME` sleep before each create call are not counted in a run.
- `sys.exit` and the `__main__` block (main.py:256-265): the exit is the loop end `ExitedAfterLimit`. Escaping errors are `Abort` or `Escaped` values; the start-up, success and crash messages of `__main__` are not modelled.
- `get_user` (main.py:137) is a single given reply; the tenancy is the `compartment_id` it answers.
- Exceptions other than `ServiceError`, such as connection errors, are not modelled. The retry wrapper does not catch them.
- `Executor.ExecuteOciCommand`: the source retries forever. The model stops with no result when the scripted replies run out, and `launch_instance` then ends with `ProviderSilent`.
- `Launcher.LaunchLoop`: the source loops until the instance exists. The model also stops when the scripted create replies run out (`RepliesExhausted`).
- `LaunchRules.Lower`: lower-cases ASCII letters only, not the full Unicode mapping of `str.lower`.
- The list of `list_instances` answers does not depend on the compartment, since every call in the script passes the same tenancy.
