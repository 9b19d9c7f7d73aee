/** Types shared by every component: optional values, the clock and the alert payload. */
module Common {
  datatype Option<+T> = None | Some(value: T)

  /** Instants and durations are integers counting nanoseconds. */
  type Time = int

  const SECOND: Time := 1_000_000_000
  const MINUTE: Time := 60 * SECOND
  const HOUR: Time := 60 * MINUTE

  /** The fields of an alert payload that the modelled code reads. `node` is None when the
      payload carries no target. */
  datatype Alert = Alert(
    clusterId: string,
    alertName: string,
    namespace: string,
    podName: string,
    severity: string,
    status: string,
    node: Option<string>,
    firedAt: int)
}
