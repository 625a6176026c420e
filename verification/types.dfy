/**
 * The shared data shapes of the engine (src/types.ts): tasks, the tracker
 * document, the agent's validated output and the output contract, plus the
 * Option/Result wrappers used for values that may be absent and for
 * operations that throw. A thrown `Error` is modelled as `Err(msg)` carrying
 * the error's message, since the orchestrator uses that message as the
 * reason when it marks a task blocked.
 */
module Types {

  datatype Option<+T> = None | Some(value: T)

  datatype Result<+T> = Ok(value: T) | Err(msg: string)

  /** `Task["status"]`. */
  datatype TaskStatus = Open | Done | Blocked

  /** How a status is written where a task is shown with its status (`${task.status}`). */
  function TaskStatusName(s: TaskStatus): string {
    match s
    case Open => "open"
    case Done => "done"
    case Blocked => "blocked"
  }

  datatype Task = Task(id: string, title: string, description: string, status: TaskStatus)

  /** `TaskTrackerDocument`: free prelude text followed by the ordered tasks. */
  datatype Document = Document(preludeText: string, tasks: seq<Task>)

  /** `AgentOutput["status"]`: "success" | "blocked" | "failed". */
  datatype AgentStatus = Success | Stuck | Failed

  function AgentStatusName(s: AgentStatus): string {
    match s
    case Success => "success"
    case Stuck => "blocked"
    case Failed => "failed"
  }

  /** `AgentOutput` as src/types.ts declares it (one free-text `aiThoughts` field). */
  datatype AgentOutput = AgentOutput(taskId: string, status: AgentStatus, commitMessage: string, aiThoughts: string)

  /** `OutputContractField`; `maxLines` is optional. */
  datatype ContractField = ContractField(name: string, descriptionOfContent: string, maxLines: Option<int>)

  datatype OutputContract = OutputContract(fields: seq<ContractField>)

  /** JavaScript truthiness of an optional `maxLines`: absent and 0 impose no limit. */
  predicate HasLimit(maxLines: Option<int>) {
    maxLines.Some? && maxLines.value != 0
  }
}
