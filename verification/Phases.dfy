/** Stages, and the status phases that a product, a stage or a cleanup can report. */
module Phases {
  const BOOTSTRAP := "bootstrap"
  const GRAFANA := "grafana"

  /** A stage of an installation type: its products in the order Go's map iteration happens to visit
      them. */
  datatype Stage = Stage(name: string, products: seq<string>)

  datatype Phase =
    | NoPhase | AwaitingOperator | AwaitingCloudResources | CreatingComponents | AwaitingComponents
    | InProgress | Completed | Failed

  type Unfinished = p: Phase | p != Completed witness InProgress

  /** A phase together with whether an error came with it. */
  datatype Outcome = Outcome(phase: Phase, failed: bool)
}
