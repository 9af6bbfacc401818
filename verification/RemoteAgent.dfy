/**
  One pass through the agent's synchronisation loop, as the code runs it, and the small
  steps that the pass consists of.  The environment decides what the network and the
  executed command answer.
 */
module RemoteAgent {
  import opened Basics
  import opened Rollouts
  import opened CommandQueue
  import opened AgentSteps

  datatype PollAnswer =
    | Disconnected
    | Refused
    | NoContent
    | Garbled
    | Work(command: CommandId, op: string, params: string, response: Response)

  /** A certificate that is not about to expire, a failed rotation, or a new certificate. */
  datatype Rotation = NotDue | RotationFailed | Rotated(certificate: string)

  /**
    How a rotation goes, whether a leftover result is accepted, what the poll answers, and
    whether a new result is accepted.
   */
  datatype Weather = Weather(rotation: Rotation, leftoverPosted: bool, answer: PollAnswer, resultPosted: bool)

  /** The back-off after a poll, in seconds. */
  function NextBackoff(backoff: int, answer: PollAnswer): int {
    match answer
    case Disconnected => if backoff < 30 then backoff * 2 else backoff
    case NoContent => 1
    case Work(_, _, _, _) => 1
    case _ => backoff
  }

  function Backoff(answers: seq<PollAnswer>): int {
    if answers == [] then 1
    else NextBackoff(Backoff(answers[..|answers| - 1]), answers[|answers| - 1])
  }

  /** Whatever the polls answer, the back-off is between one second and 32. */
  lemma {:induction false} BackoffBounded(answers: seq<PollAnswer>)
    ensures Backoff(answers) in {1, 2, 4, 8, 16, 32}
  {
    if answers != [] { BackoffBounded(answers[..|answers| - 1]); }
  }

  /** Between two passes memory and disk agree on the result that is still to be posted. */
  predicate Settled(a: Agent) {
    a.stage == Ready && a.mem.pending == a.disk.pending
  }

  /** How far the answer to a poll raises the policy revision. */
  function Raise(answer: PollAnswer): int {
    if answer.Work? && answer.response.ok && answer.op in {"ApplyTransaction", "RestoreSnapshot", "Reload", "Restart"}
    then 1 else 0
  }

  lemma {:induction false} LeadsJoin(a: Agent, xs: seq<AgentStep>, b: Agent, ys: seq<AgentStep>, c: Agent)
    requires Leads(a, xs, b) && Leads(b, ys, c)
    ensures Leads(a, xs + ys, c)
    decreases |xs|
  {
    if xs == [] {
      assert xs + ys == ys;
    } else {
      assert (xs + ys)[1..] == xs[1..] + ys;
      LeadsJoin(Take(a, xs[0]), xs[1..], b, ys, c);
    }
  }

  lemma LeadsOn(a: Agent, xs: seq<AgentStep>, b: Agent, step: AgentStep)
    requires Leads(a, xs, b) && Allowed(b, step)
    ensures Leads(a, xs + [step], Take(b, step))
  {
    assert [step][1..] == [];
    assert Leads(b, [step], Take(b, step));
    LeadsJoin(a, xs, b, [step], Take(b, step));
  }

  class Synchroniser {
    var sequence: int
    var revision: int
    var pending: Option<Report>
    var certificate: string
    var file: Identity
    var backoff: int

    function Memory(): Identity reads this { Identity(sequence, revision, pending, certificate) }

    /** The agent at the top of the loop. */
    function AtTop(): Agent reads this { Agent(Memory(), file, Ready) }

    /** A start of the agent: the identity comes from the file, and the back-off is one second. */
    constructor (identity: Identity)
      ensures Memory() == file == identity && Settled(AtTop()) && backoff == Backoff([])
    {
      sequence, revision, pending := identity.sequence, identity.revision, identity.pending;
      certificate, file, backoff := identity.certificate, identity, 1;
    }

    /** saveRemoteIdentity: the temporary file replaces the old one. */
    method SaveIdentity()
      modifies this`file
      ensures file == Memory()
    {
      file := Memory();
    }

    /** Posting a result that was left over: accepted, it is forgotten and that is saved. */
    method PostLeftover() returns (steps: seq<AgentStep>)
      requires Settled(AtTop()) && pending.Some?
      modifies this
      ensures steps == [Acked, Saved] && Leads(old(AtTop()), steps, AtTop())
      ensures Settled(AtTop()) && pending == None
      ensures sequence == old(sequence) && revision == old(revision)
      ensures certificate == old(certificate) == file.certificate && backoff == old(backoff)
      ensures file == Memory()
    {
      ghost var start := AtTop();
      pending := None;
      SaveIdentity();
      steps := [Acked, Saved];
      TwoSteps(start, Acked, Saved);
    }

    /** Executing a received command: the result is saved before it is posted. */
    method Perform(c: CommandId, op: string, params: string, response: Response, resultPosted: bool)
      returns (steps: seq<AgentStep>)
      requires Settled(AtTop()) && pending == None
      modifies this
      ensures Leads(old(AtTop()).(stage := Polling), steps, AtTop())
      ensures Settled(AtTop()) && sequence == old(sequence)
      ensures certificate == old(certificate) == file.certificate && backoff == old(backoff)
      ensures pending == if resultPosted then None else Some(Report(c, response))
      ensures revision == old(revision) + Raise(Work(c, op, params, response)) && file.revision == revision
      ensures Executed(response) in steps
    {
      ghost var start := AtTop().(stage := Polling);
      if response.ok && ChangesPolicy(op) {
        revision := revision + 1;
      }
      pending := Some(Report(c, response));
      SaveIdentity();
      steps := [Heard(c, op, params), Executed(response)] + [Saved];
      TwoSteps(start, Heard(c, op, params), Executed(response));
      LeadsOn(start, [Heard(c, op, params), Executed(response)],
              Execute(Receive(start, c, op, params), response), Saved);
      if resultPosted {
        ghost var saved := AtTop();
        var more := PostLeftover();
        LeadsJoin(start, steps, saved, more, AtTop());
        assert steps[1] == Executed(response);
        steps := steps + more;
        assert steps[1] == Executed(response);
      } else {
        assert steps[1] == Executed(response);
      }
    }

    /** The poll of one iteration and what follows from its answer. */
    method PollOnce(w: Weather) returns (steps: seq<AgentStep>)
      requires Settled(AtTop()) && pending == None
      modifies this
      ensures Leads(old(AtTop()), steps, AtTop()) && Settled(AtTop())
      ensures sequence == old(sequence) + 1 && revision == old(revision) + Raise(w.answer)
      ensures certificate == old(certificate) && (file == old(file) || file.certificate == certificate)
      ensures backoff == NextBackoff(old(backoff), w.answer)
      ensures pending ==
        if w.answer.Work? && !w.resultPosted then Some(Report(w.answer.command, w.answer.response)) else None
      ensures Executes(steps) <==> w.answer.Work?
    {
      ghost var start := AtTop();
      sequence := sequence + 1;
      ghost var counted := AtTop().(stage := Polling);
      steps := [Counted];
      OneStep(start, Counted);
      if w.answer.Disconnected? && backoff < 30 {
        backoff := backoff * 2;
      }
      match w.answer {
        case Work(c, op, params, response) =>
          var more := Perform(c, op, params, response, w.resultPosted);
          LeadsJoin(start, [Counted], counted, more, AtTop());
          ExecutesJoin(steps, more);
          assert Executes(more);
          steps := steps + more;
          backoff := 1;
        case NoContent =>
          backoff := 1;
          SaveIdentity();
          TwoSteps(counted, HeardNothing, Saved);
          LeadsJoin(start, [Counted], counted, [HeardNothing, Saved], AtTop());
          steps := steps + [HeardNothing, Saved];
        case _ =>
          OneStep(counted, GaveUp);
          LeadsJoin(start, [Counted], counted, [GaveUp], AtTop());
          steps := steps + [GaveUp];
      }
    }

    /** A rotated certificate is taken up and saved; a failed rotation is only logged. */
    method RotateIfDue(rotation: Rotation) returns (steps: seq<AgentStep>)
      requires Settled(AtTop())
      modifies this
      ensures Leads(old(AtTop()), steps, AtTop()) && Settled(AtTop()) && !Executes(steps)
      ensures pending == old(pending) && sequence == old(sequence) && revision == old(revision)
      ensures backoff == old(backoff)
      ensures if rotation.Rotated? then certificate == rotation.certificate == file.certificate
              else certificate == old(certificate) && file == old(file)
    {
      steps := [];
      if rotation.Rotated? {
        ghost var start := AtTop();
        certificate := rotation.certificate;
        SaveIdentity();
        steps := [Renewed(rotation.certificate)];
        OneStep(start, steps[0]);
      }
    }

    /**
      One iteration.  It is made of steps that the protocol allows, it leaves memory and disk
      in agreement, and it executes a command exactly when it received one, which takes that
      no result was left to post, or that it was posted first.  A rotated certificate is on
      disk at the end of the iteration that received it.
     */
    method Iterate(w: Weather) returns (steps: seq<AgentStep>)
      requires Settled(AtTop())
      modifies this
      ensures Leads(old(AtTop()), steps, AtTop()) && Settled(AtTop())
      ensures Executes(steps) <==> w.answer.Work? && (old(pending).None? || w.leftoverPosted)
      ensures pending ==
        if old(pending).Some? && !w.leftoverPosted then old(pending)
        else if w.answer.Work? && !w.resultPosted then Some(Report(w.answer.command, w.answer.response))
        else None
      ensures sequence == old(sequence) + if old(pending).Some? && !w.leftoverPosted then 0 else 1
      ensures certificate == if w.rotation.Rotated? then w.rotation.certificate else old(certificate)
      ensures w.rotation.Rotated? || old(certificate == file.certificate) ==> file.certificate == certificate
      ensures revision == old(revision) + if old(pending).Some? && !w.leftoverPosted then 0 else Raise(w.answer)
      ensures backoff ==
        if old(pending).Some? && !w.leftoverPosted then old(backoff) else NextBackoff(old(backoff), w.answer)
    {
      ghost var start := AtTop();
      steps := RotateIfDue(w.rotation);
      if pending.Some? {
        if !w.leftoverPosted {
          return;
        }
        ghost var rotated := AtTop();
        var posted := PostLeftover();
        LeadsJoin(start, steps, rotated, posted, AtTop());
        ExecutesJoin(steps, posted);
        steps := steps + posted;
      }
      ghost var ready := AtTop();
      var more := PollOnce(w);
      LeadsJoin(start, steps, ready, more, AtTop());
      ExecutesJoin(steps, more);
      steps := steps + more;
    }
  }

  /** Some command is executed. */
  predicate Executes(steps: seq<AgentStep>) {
    exists i :: 0 <= i < |steps| && steps[i].Executed?
  }

  lemma ExecutesJoin(xs: seq<AgentStep>, ys: seq<AgentStep>)
    ensures Executes(xs + ys) <==> Executes(xs) || Executes(ys)
  {
    if i :| 0 <= i < |xs| && xs[i].Executed? { assert (xs + ys)[i] == xs[i]; }
    if i :| 0 <= i < |ys| && ys[i].Executed? { assert (xs + ys)[|xs| + i] == ys[i]; }
  }

  lemma OneStep(a: Agent, step: AgentStep)
    requires Allowed(a, step)
    ensures Leads(a, [step], Take(a, step))
  {
  }

  lemma TwoSteps(a: Agent, x: AgentStep, y: AgentStep)
    requires Allowed(a, x) && Allowed(Take(a, x), y)
    ensures Leads(a, [x, y], Take(Take(a, x), y))
  {
  }
}
