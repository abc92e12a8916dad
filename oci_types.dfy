/**
 * The values the acquisition script exchanges with the cloud provider and the
 * notifier: shape names, instance and image records, the provider's structured
 * rejection, replies and notifications.
 */
module OciTypes {

  /** The multi-core flex shape and the fixed micro shape the script knows by name. */
  const ARM_SHAPE: string := "VM.Standard.A1.Flex"
  const E2_MICRO_SHAPE: string := "VM.Standard.E2.1.Micro"

  /** The provider's error code for a capacity or quota rejection of a launch. */
  const LIMIT_EXCEEDED: string := "LimitExceeded"

  /** HTTP status of a successful launch response. */
  const HTTP_OK: int := 200

  /** Lifecycle states that count as "the instance exists". */
  const DEFAULT_STATES: seq<string> := ["RUNNING", "PROVISIONING"]

  /** An instance as listed by the provider. */
  datatype Instance = Instance(
    id: string,
    displayName: string,
    shape: string,
    lifecycleState: string,
    timeCreated: string)

  /** An image as listed by the provider (only the fields the selection reads). */
  datatype Image = Image(id: string, operatingSystem: string, operatingSystemVersion: string)

  /** The provider's structured rejection of a request. */
  datatype ServiceError = ServiceError(status: int, code: string, message: string)

  /** A successful reply: a response object with a `data` attribute, or a value without one. */
  datatype Response<+T> = WithData(data: T) | Plain(value: T)

  /** One scripted answer to a call made through the retry wrapper. */
  datatype Outcome<+T> = Success(response: Response<T>) | Failure(error: ServiceError)

  /** One scripted answer to a call made directly on a client. */
  datatype Reply<+T> = Replied(value: T) | Rejected(error: ServiceError)

  /** The provider's answer to the n-th call of `list_instances` in a run. */
  type Listing = nat -> Reply<seq<Instance>>

  /** A message handed to the notifier (the text it is formatted into is not modelled). */
  datatype Notification =
    | CommandError(operation: string, error: ServiceError)
    | LaunchError(error: ServiceError)
    | InstanceAvailable(shape: string, fileName: string)
}
