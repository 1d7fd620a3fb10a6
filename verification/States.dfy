/**
 The state vocabulary shared by applies, apply operations and tasks
 (pkg/state/apply.go, pkg/state/metadata.go), plus the two rollout policies an
 operation row captures when it is created (pkg/storage/types.go).

 A state is one constructor per canonical value; `Unrecognized` stands for every
 string that is not a canonical value.
 */
module States {

  datatype State =
    | Pending
    | Running
    | RunningDegraded
    | Paused
    | Resuming
    | WaitingForDeploy
    | WaitingForCutover
    | Recovering
    | CuttingOver
    | RevertWindow
    | SkippingRevert
    | Reverting
    | Completed
    | Failed
    | FailedRetryable
    | Stopped
    | Cancelled
    | Reverted
    | PreparingBranch
    | ApplyingBranchChanges
    | ValidatingBranch
    | CreatingDeployRequest
    | ValidatingDeployRequest
    | Checksumming // a task state, never an apply state
    | Unrecognized

  datatype OnFailure = Halt | Continue | Pause | OtherFailurePolicy

  datatype CutoverPolicy = Rolling | Barrier | Parallel | OtherCutoverPolicy

  // `stopped` is terminal at the apply level; `failed_retryable` is not.
  predicate IsTerminal(s: State) {
    s.Completed? || s.Failed? || s.Stopped? || s.Cancelled? || s.Reverted?
  }

  predicate IsRunning(s: State) {
    s.Running? || s.RunningDegraded?
  }

  predicate IsTerminalTask(s: State) {
    s.Completed? || s.Failed? || s.Reverted? || s.Cancelled?
  }

  // How the aggregate derivation reads one child state (normalizeApplyState):
  // a checksumming table is running, and every state the derivation does not
  // list counts as pending.
  function Folded(s: State): State {
    match s
    case Checksumming => Running
    case Resuming => Pending
    case SkippingRevert => Pending
    case PreparingBranch => Pending
    case ApplyingBranchChanges => Pending
    case CreatingDeployRequest => Pending
    case Unrecognized => Pending
    case _ => s
  }

  // Folding never makes a live state terminal or a terminal state live.
  lemma FoldingKeepsTerminality(s: State)
    ensures IsTerminal(Folded(s)) == IsTerminal(s)
    ensures IsTerminal(s) ==> Folded(s) == s
  {
  }
}
