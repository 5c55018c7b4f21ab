/** How the provisioning of a resource ends: `Outcome` in `crates/engine/src/planner.rs`. */
module Outcomes {
  import opened Ids

  /** Why a resource did not start. */
  datatype Wait = WaitingFor(dep: Descriptor) | OutOfTime | NotStarted | Refused

  datatype Outcome =
    | Provisioned
    | Failed(reason: string)
    | Unknown(reason: string)
    | Pending(wait: Wait)

  /** What a resource that did not provision ends with. */
  type Setback = o: Outcome | !o.Provisioned? witness Pending(NotStarted)
}
