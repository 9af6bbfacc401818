/**
  The remote agent's synchronisation loop as small steps on its identity in memory and on
  disk.  The agent is a stop-and-wait client: a result is saved before it is posted and
  posted before the next poll.  A save is atomic and succeeds; a restart reloads the disk.
 */
module AgentSteps {
  import opened Basics
  import opened Rollouts
  import opened CommandQueue

  datatype Report = Report(command: CommandId, response: Response)
  datatype Identity = Identity(sequence: int, revision: int, pending: Option<Report>, certificate: string)

  /** Where the loop stands: at its top, waiting for a poll, holding a command, or about to save. */
  datatype Stage = Ready | Polling | Received(command: CommandId, op: string, params: string) | Unsaved
  datatype Agent = Agent(mem: Identity, disk: Identity, stage: Stage)

  predicate ChangesPolicy(op: string) {
    op == "ApplyTransaction" || op == "RestoreSnapshot" || op == "Reload" || op == "Restart"
  }

  /** At the top of the loop with nothing left to post. */
  predicate CanPoll(a: Agent) { a.stage == Ready && a.mem.pending == None }

  /** At the top of the loop with a saved result to post. */
  predicate CanPost(a: Agent) { a.stage == Ready && a.mem.pending.Some? }

  /** The poll goes out under the next sequence number. */
  function CountPoll(a: Agent): Agent {
    a.(mem := a.mem.(sequence := a.mem.sequence + 1), stage := Polling)
  }

  /** No usable answer: lost, refused or garbled. */
  function GiveUp(a: Agent): Agent { a.(stage := Ready) }

  function Receive(a: Agent, c: CommandId, op: string, params: string): Agent {
    a.(stage := Received(c, op, params))
  }

  function HearNothing(a: Agent): Agent { a.(stage := Unsaved) }

  function Execute(a: Agent, r: Response): Agent
    requires a.stage.Received?
  {
    var bump := if r.ok && ChangesPolicy(a.stage.op) then 1 else 0;
    Agent(a.mem.(pending := Some(Report(a.stage.command, r)), revision := a.mem.revision + bump), a.disk, Unsaved)
  }

  function Save(a: Agent): Agent { Agent(a.mem, a.mem, Ready) }

  function Acknowledge(a: Agent): Agent { a.(mem := a.mem.(pending := None), stage := Unsaved) }

  /** A rotated certificate is taken up at the top of the loop, and the whole identity is saved with it. */
  function Renew(a: Agent, certificate: string): Agent {
    var mem := a.mem.(certificate := certificate);
    Agent(mem, mem, a.stage)
  }

  function Restart(a: Agent): Agent { Agent(a.disk, a.disk, Ready) }

  datatype AgentStep =
    | Counted
    | GaveUp
    | Heard(command: CommandId, op: string, params: string)
    | HeardNothing
    | Executed(response: Response)
    | Saved
    | Acked
    | Renewed(certificate: string)

  /** The protocol allows the step: no poll with a result pending, no run without a command. */
  predicate Allowed(a: Agent, step: AgentStep) {
    match step
    case Counted => CanPoll(a)
    case GaveUp => a.stage.Polling?
    case Heard(_, _, _) => a.stage.Polling?
    case HeardNothing => a.stage.Polling?
    case Executed(_) => a.stage.Received?
    case Saved => a.stage.Unsaved?
    case Acked => CanPost(a)
    case Renewed(_) => a.stage == Ready
  }

  function Take(a: Agent, step: AgentStep): Agent
    requires Allowed(a, step)
  {
    match step
    case Counted => CountPoll(a)
    case GaveUp => GiveUp(a)
    case Heard(c, op, params) => Receive(a, c, op, params)
    case HeardNothing => HearNothing(a)
    case Executed(r) => Execute(a, r)
    case Saved => Save(a)
    case Acked => Acknowledge(a)
    case Renewed(certificate) => Renew(a, certificate)
  }

  /** Each step is allowed where it is taken, and they lead from a to b. */
  ghost predicate Leads(a: Agent, steps: seq<AgentStep>, b: Agent)
    decreases |steps|
  {
    if steps == [] then a == b
    else Allowed(a, steps[0]) && Leads(Take(a, steps[0]), steps[1..], b)
  }
}
