/**
 * The records of src/types/service.ts: what `inspect` returns for a
 * container (`ContainerInfo`) and what the resolver produces for each
 * service (`ContainerService`).
 */
module ServiceTypes {
  import opened Wrappers

  /** `State.Status` of an inspected container. */
  datatype RunStatus = Running | Paused | Restarting | Exited | Dead

  /** `State.Health.Status`; `NoCheck` is the runtime's "none". */
  datatype HealthStatus = Healthy | Unhealthy | Starting | NoCheck

  /** One entry of `State.Health.Log` as the runtime reports it. */
  datatype HealthLogEntry = HealthLogEntry(start: string, end: string, exitCode: int, output: string)

  datatype Health = Health(status: HealthStatus, log: seq<HealthLogEntry>)

  datatype State = State(status: RunStatus, health: Option<Health>)

  /** `ContainerInfo`, the body of an inspect request (the fields the resolver reads). */
  datatype ContainerInfo = ContainerInfo(id: string, created: string, state: Option<State>)

  /** `ContainerHealthLog`, one health-check result as handed to the dashboard. */
  datatype ContainerHealthLog = ContainerHealthLog(start: string, end: string, exitCode: int, output: string)

  /** `ContainerService`; `kind` is the source's `type`. */
  datatype ContainerService = ContainerService(
    containerID: string,
    id: string,
    kind: Option<string>,
    name: string,
    url: Option<string>,
    status: Option<RunStatus>,
    health: Option<HealthStatus>,
    healthLogs: Option<seq<ContainerHealthLog>>,
    statusText: string,
    createdAt: string,
    tags: Option<seq<string>>)
}
