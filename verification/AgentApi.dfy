/**
  The server's handlers for agents: authentication, then repository calls in sequence.
  Decoding of requests is a parameter; a handler runs on its own between other handlers.
 */
module AgentApi {
  import opened Basics
  import opened Rollouts
  import opened CommandQueue
  import AgentRegistry
  import Certificates
  import FleetRepo

  datatype Peer = Peer(commonName: AgentId, fingerprint: string)

  /** What a request carries to prove who sent it. */
  datatype Proof = Proof(agent: AgentId, credential: string, peer: Option<Peer>)

  datatype Status = Ok | Created | NoContent | BadRequest | Unauthorized | Conflict | InternalError | Unavailable

  /** The request is from an enrolled agent with its credential and, under TLS, a listed certificate. */
  predicate Admits(r: AgentRegistry.Registry, tls: bool, p: Proof) {
    && p.agent != "" && p.credential != ""
    && AgentRegistry.Authenticates(r, p.agent, p.credential)
    && (tls ==>
          && p.peer.Some? && p.peer.value.commonName == p.agent
          && r.agents[p.agent].connection != AgentRegistry.Revoked
          && p.peer.value.fingerprint in r.agents[p.agent].fingerprints)
  }

  /** The list of an agent's fingerprints. */
  function Fingerprints(r: AgentRegistry.Registry, agent: AgentId): seq<string> {
    if agent in r.agents then r.agents[agent].fingerprints else []
  }

  function WithFingerprints(r: AgentRegistry.Registry, agent: AgentId, list: seq<string>): AgentRegistry.Registry {
    if agent in r.agents then r.(agents := r.agents[agent := r.agents[agent].(fingerprints := list)]) else r
  }

  /** The tables after an attempt to authenticate: under TLS, using the newest certificate retires the others. */
  function Authenticated(r: AgentRegistry.Registry, tls: bool, p: Proof): AgentRegistry.Registry {
    if tls && Admits(r, tls, p) then
      WithFingerprints(r, p.agent, Certificates.Retired(Fingerprints(r, p.agent), p.peer.value.fingerprint))
    else r
  }

  /** Only the fingerprints of one agent may differ. */
  ghost predicate OnlyFingerprints(r: AgentRegistry.Registry, t: AgentRegistry.Registry, agent: AgentId) {
    && t.tokens == r.tokens
    && (agent !in r.agents ==> t.agents == r.agents)
    && (agent in r.agents ==> t.agents == r.agents[agent := r.agents[agent].(fingerprints := Fingerprints(t, agent))])
  }

  /** The certificate session of an agent, as the overlap theorems see it. */
  function SessionOf(r: AgentRegistry.Registry, p: Proof): Certificates.Session
    requires p.peer.Some?
  {
    Certificates.Session(Fingerprints(r, p.agent), p.peer.value.fingerprint)
  }

  /** The first tick with a command for the agent is tick k, and that command was delivered. */
  ghost predicate DeliveredAt(q: Queue, agent: AgentId, ticks: seq<int>, k: nat, command: Option<CommandId>, r: Queue)
    requires k < |ticks|
  {
    && MayDeliver(q, agent, ticks[k], command) && command.Some?
    && r == Deliver(q, agent, ticks[k], command)
    && forall j :: 0 <= j < k ==> MayDeliver(q, agent, ticks[j], None)
  }

  class AgentApi {
    const repo: FleetRepo.FleetRepo
    const tls: bool

    constructor (repo: FleetRepo.FleetRepo, tls: bool)
      ensures this.repo == repo && this.tls == tls
    {
      this.repo, this.tls := repo, tls;
    }

    method AuthenticateAgent(p: Proof) returns (ok: bool)
      modifies repo`agents
      ensures ok <==> Admits(old(repo.Registry()), tls, p)
      ensures repo.Registry() == Authenticated(old(repo.Registry()), tls, p)
    {
      if p.agent == "" || p.credential == "" {
        return false;
      }
      ok := repo.Authenticate(p.agent, p.credential);
      if !ok || !tls {
        return;
      }
      if p.peer.None? || p.peer.value.commonName != p.agent {
        return false;
      }
      ok := repo.CertificateMatches(p.agent, p.peer.value.fingerprint);
    }

    /**
      Enrolls and, with a certificate authority, issues the first certificate.  What a
      successful enrollment hands out is admitted right away.  When issuing fails the token
      is spent all the same.
     */
    method HandleEnroll(raw: string, agent: AgentId, hostname: string, profile: AgentRegistry.Profile,
                        credential: string, hasAuthority: bool, issued: Option<string>, now: int)
      returns (status: Status)
      requires credential != ""
      modifies repo`tokens, repo`agents
      ensures status == BadRequest <==> raw == "" || agent == "" || hostname == ""
      ensures status in {BadRequest, Unauthorized} ==> repo.Registry() == old(repo.Registry())
      ensures status == Unauthorized ==>
        AgentRegistry.Enroll(old(repo.Registry()), raw, agent, profile, credential, now).None?
      ensures status in {Created, InternalError} ==>
        var enrolled := AgentRegistry.Enroll(old(repo.Registry()), raw, agent, profile, credential, now);
        && enrolled.Some?
        && repo.Registry() == (if hasAuthority && issued.Some?
                               then WithFingerprints(enrolled.value, agent, [issued.value]) else enrolled.value)
        && forall later :: !AgentRegistry.TokenFits(repo.Registry(), raw, agent, later)
      ensures status == InternalError <==> status !in {BadRequest, Unauthorized} && hasAuthority && issued.None?
      ensures status == Created && hasAuthority ==>
        forall p: Proof :: p.agent == agent ==>
          (Admits(repo.Registry(), tls, p) <==>
            p.credential == credential && (tls ==> p.peer == Some(Peer(agent, issued.value))))
      ensures status == Created && !tls ==> Admits(repo.Registry(), tls, Proof(agent, credential, None))
      ensures status == Created && tls && !hasAuthority ==>
        forall f :: f in Fingerprints(old(repo.Registry()), agent) <==>
          Admits(repo.Registry(), tls, Proof(agent, credential, Some(Peer(agent, f))))
    {
      if raw == "" || agent == "" || hostname == "" {
        return BadRequest;
      }
      var ok := repo.Enroll(raw, agent, profile, credential, now);
      if !ok {
        return Unauthorized;
      }
      if hasAuthority {
        if issued.None? {
          return InternalError;
        }
        repo.SetAgentCertificate(agent, issued.value);
      }
      status := Created;
    }

    /** Stores a result exactly for an admitted agent that names a command. */
    method HandleResult(p: Proof, command: Option<CommandId>, payload: string, error: string, now: int)
      returns (status: Status)
      requires repo.Valid()
      modifies repo
      ensures status == Ok <==> Admits(old(repo.Registry()), tls, p) && command.Some?
      ensures repo.Tables() ==
        if status == Ok then Complete(old(repo.Tables()), p.agent, command.value, payload, error, now)
        else old(repo.Tables())
      ensures repo.Registry() == Authenticated(old(repo.Registry()), tls, p)
    {
      var ok := AuthenticateAgent(p);
      if !ok {
        return Unauthorized;
      }
      if command.None? {
        return BadRequest;
      }
      repo.CompleteCommand(p.agent, command.value, payload, error, now);
      status := Ok;
    }

    /** A rotation of an admitted agent is one rotation of its overlap session. */
    method HandleRotate(p: Proof, issued: Option<string>, hasAuthority: bool) returns (status: Status)
      modifies repo`agents
      ensures status == Ok <==> Admits(old(repo.Registry()), tls, p) && hasAuthority && issued.Some?
      ensures status == Ok && tls ==>
        Fingerprints(repo.Registry(), p.agent)
          == Certificates.Next(SessionOf(old(repo.Registry()), p), Certificates.Lost(issued.value)).stored
          == Certificates.Next(SessionOf(old(repo.Registry()), p), Certificates.Adopted(issued.value)).stored
      ensures repo.Registry() ==
        var r := Authenticated(old(repo.Registry()), tls, p);
        if status == Ok
        then WithFingerprints(r, p.agent, Certificates.Rotated(Fingerprints(r, p.agent), issued.value)) else r
    {
      var ok := AuthenticateAgent(p);
      if !ok {
        return Unauthorized;
      }
      if !hasAuthority {
        return Unavailable;
      }
      if issued.None? {
        return InternalError;
      }
      var rotated := repo.RotateAgentCertificate(p.agent, issued.value);
      status := if rotated then Ok else InternalError;
    }

    /** Asks for a command at every tick until one is there. */
    method AwaitCommand(agent: AgentId, ticks: seq<int>) returns (command: Option<CommandId>)
      requires repo.Valid()
      modifies repo`commands
      ensures repo.Valid()
      ensures command.Some? ==>
        exists k :: 0 <= k < |ticks| && DeliveredAt(old(repo.Tables()), agent, ticks, k, command, repo.Tables())
      ensures command.None? ==> repo.Tables() == old(repo.Tables())
      ensures command.None? ==> forall j :: 0 <= j < |ticks| ==> MayDeliver(old(repo.Tables()), agent, ticks[j], None)
    {
      command := None;
      ghost var before := repo.Tables();
      var i := 0;
      while i < |ticks|
        invariant 0 <= i <= |ticks|
        invariant repo.Valid() && repo.Tables() == before == old(repo.Tables())
        invariant command == None
        invariant forall j :: 0 <= j < i ==> MayDeliver(before, agent, ticks[j], None)
      {
        command := repo.NextCommand(agent, ticks[i]);
        if command.Some? {
          assert DeliveredAt(before, agent, ticks, i, command, repo.Tables());
          return;
        }
        i := i + 1;
      }
    }

    /**
      Accepts the report, then asks for a command at every tick until one is there.  The
      handler answers with nothing exactly when there is none at any tick, and then the
      queue is as it was.  An accepted report is stored, and an operator is notified exactly
      when it shows drift.
     */
    method HandlePoll(p: Proof, report: Option<AgentRegistry.StateReport>, ticks: seq<int>)
      returns (status: Status, command: Option<CommandId>, notified: bool)
      requires repo.Valid()
      modifies repo
      ensures repo.Valid()
      ensures status == Unauthorized <==> !Admits(old(repo.Registry()), tls, p)
      ensures status == Conflict <==>
        Admits(old(repo.Registry()), tls, p) && report.Some?
        && !AgentRegistry.Fresh(old(repo.Registry()), p.agent, report.value)
      ensures status == BadRequest <==> Admits(old(repo.Registry()), tls, p) && report.None?
      ensures status == Ok <==> command.Some?
      ensures notified <==>
        status in {Ok, NoContent} && AgentRegistry.Drifted(old(repo.Registry()), p.agent, report.value)
      ensures repo.Registry() ==
        var r := Authenticated(old(repo.Registry()), tls, p);
        if status in {Ok, NoContent} then AgentRegistry.UpdateState(r, p.agent, report.value) else r
      ensures status == Ok ==>
        exists k :: 0 <= k < |ticks| && DeliveredAt(old(repo.Tables()), p.agent, ticks, k, command, repo.Tables())
      ensures status != Ok ==> repo.Tables() == old(repo.Tables())
      ensures status == NoContent ==> forall j :: 0 <= j < |ticks| ==>
        MayDeliver(old(repo.Tables()), p.agent, ticks[j], None)
    {
      command, notified := None, false;
      var ok := AuthenticateAgent(p);
      if !ok {
        return Unauthorized, None, false;
      }
      if report.None? {
        return BadRequest, None, false;
      }
      var accepted, drift := repo.UpdateState(p.agent, report.value);
      if !accepted {
        return Conflict, None, false;
      }
      notified := drift;
      command := AwaitCommand(p.agent, ticks);
      status := if command.Some? then Ok else NoContent;
    }
  }

  /** Under TLS, letting a certificate in is one request of its overlap session. */
  lemma AdmissionIsRequest(r: AgentRegistry.Registry, p: Proof)
    requires p.peer.Some? && Admits(r, true, p)
    ensures var t := Authenticated(r, true, p);
      && OnlyFingerprints(r, t, p.agent)
      && SessionOf(t, p) == Certificates.Next(SessionOf(r, p), Certificates.Request)
  {
  }

  /** After a revocation nothing admits the agent, whatever it presents and with or without TLS. */
  lemma RevokedIsShutOut(r: AgentRegistry.Registry, tls: bool, p: Proof)
    requires AgentRegistry.Revoke(r, p.agent).Some?
    ensures !Admits(AgentRegistry.Revoke(r, p.agent).value, tls, p)
  {
  }

  /** Under TLS a certificate stays admitted through a run of its session as long as it is let in. */
  lemma AdmittedWhileLetIn(r: AgentRegistry.Registry, p: Proof)
    requires p.peer.Some? && Admits(r, true, p)
    ensures Certificates.LetIn(SessionOf(r, p))
    ensures forall t: AgentRegistry.Registry :: OnlyFingerprints(r, t, p.agent) ==>
      (Admits(t, true, p) <==> Certificates.LetIn(SessionOf(t, p)))
  {
  }
}
