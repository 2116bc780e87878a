/** The three status tables of the control plane.  A state mapped to the empty
    set is terminal; a request outside the table raises InvalidTransition. */
module StateMachines {

  datatype DeploymentStatus = DPending | DInProgress | DSucceeded | DFailed | DRolledBack

  datatype InstanceStatus =
    Pending | Starting | Running | Unhealthy | Restarting | Draining | Stopped | Failed

  datatype CommandStatus =
    CPending | CSent | CAcknowledged | CRunning | CSucceeded | CFailed | CTimedOut | CExpired

  function DeploymentTargets(s: DeploymentStatus): set<DeploymentStatus> {
    match s
    case DPending => {DInProgress, DFailed}
    case DInProgress => {DSucceeded, DFailed}
    case DSucceeded => {DRolledBack}
    case DFailed => {DRolledBack}
    case DRolledBack => {}
  }

  function InstanceTargets(s: InstanceStatus): set<InstanceStatus> {
    match s
    case Pending => {Starting, Failed}
    case Starting => {Running, Failed}
    case Running => {Unhealthy, Restarting, Draining, Stopped}
    case Unhealthy => {Running, Restarting, Draining, Stopped, Failed}
    case Restarting => {Running, Failed}
    case Draining => {Stopped, Failed}
    case Stopped => {Starting}
    case Failed => {Starting}
  }

  function CommandTargets(s: CommandStatus): set<CommandStatus> {
    match s
    case CPending => {CSent, CExpired}
    case CSent => {CAcknowledged, CFailed, CTimedOut}
    case CAcknowledged => {CRunning, CFailed, CTimedOut}
    case CRunning => {CSucceeded, CFailed, CTimedOut}
    case CSucceeded => {}
    case CFailed => {}
    case CTimedOut => {}
    case CExpired => {}
  }

  predicate CanMoveDeployment(s: DeploymentStatus, t: DeploymentStatus) {
    s != t && t in DeploymentTargets(s)
  }

  predicate CanMoveInstance(s: InstanceStatus, t: InstanceStatus) {
    s != t && t in InstanceTargets(s)
  }

  predicate CanMoveCommand(s: CommandStatus, t: CommandStatus) {
    s != t && t in CommandTargets(s)
  }

  /** The statuses outside the partial unique index on (server, port). */
  predicate Terminal(s: InstanceStatus) {
    s == Stopped || s == Failed
  }

  predicate CommandTerminal(s: CommandStatus) {
    CommandTargets(s) == {}
  }

  /** What an execution may report at its end. */
  predicate IsFinal(s: CommandStatus) {
    s == CSucceeded || s == CFailed || s == CTimedOut
  }
}
