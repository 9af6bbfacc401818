/**
  The agents and enrollment_tokens tables as one value, with enrollment, authentication,
  revocation and state reports as functions.
 */
module AgentRegistry {
  import opened Basics
  import opened Rollouts

  /** The token row; `agent` is empty when the token is not bound to an agent. */
  datatype Token = Token(agent: AgentId, expires: int, usedBy: Option<AgentId>)

  datatype Connection = Online | Revoked

  /**
    What an agent says about itself when it enrolls: its groups, and the place that its
    display name and hostname give it in a listing.
   */
  datatype Profile = Profile(place: int, groups: seq<string>)

  /** The columns of an agent row that carry the protocol; `fingerprints` is the split list. */
  datatype AgentRow = AgentRow(
    profile: Profile,
    connection: Connection,
    credential: Option<Digest>,
    fingerprints: seq<string>,
    sequence: int,
    stateHash: string,
    revision: int)

  datatype Registry = Registry(tokens: map<Digest, Token>, agents: map<AgentId, AgentRow>)

  /** Inserting a token whose hash is present violates the primary key. */
  function CreateToken(r: Registry, raw: string, agent: AgentId, expires: int): Option<Registry> {
    if Sha256(raw) in r.tokens then None
    else Some(r.(tokens := r.tokens[Sha256(raw) := Token(agent, expires, None)]))
  }

  predicate TokenFits(r: Registry, raw: string, agent: AgentId, now: int) {
    && Sha256(raw) in r.tokens
    && var t := r.tokens[Sha256(raw)];
       t.usedBy == None && t.expires >= now && (t.agent == "" || t.agent == agent)
  }

  /** The row that enrollment writes; a known agent keeps its fingerprints and revision. */
  function EnrolledRow(r: Registry, agent: AgentId, profile: Profile, credential: string): AgentRow {
    if agent in r.agents then
      r.agents[agent].(profile := profile, connection := Online, credential := Some(Sha256(credential)),
                       sequence := 0, stateHash := "")
    else AgentRow(profile, Online, Some(Sha256(credential)), [], 0, "", 0)
  }

  function Enroll(r: Registry, raw: string, agent: AgentId, profile: Profile, credential: string, now: int)
    : Option<Registry>
  {
    if !TokenFits(r, raw, agent, now) then None
    else Some(Registry(
      r.tokens[Sha256(raw) := r.tokens[Sha256(raw)].(usedBy := Some(agent))],
      r.agents[agent := EnrolledRow(r, agent, profile, credential)]))
  }

  /** When enrollment succeeds, and what it writes. */
  lemma EnrollExact(r: Registry, raw: string, agent: AgentId, profile: Profile, credential: string, now: int)
    ensures var token := Sha256(raw); var enrolled := Enroll(r, raw, agent, profile, credential, now);
      && (enrolled.Some? <==>
            && token in r.tokens && r.tokens[token].usedBy.None? && now <= r.tokens[token].expires
            && r.tokens[token].agent in {"", agent})
      && (enrolled.Some? ==>
            var t := enrolled.value;
            && t.tokens == r.tokens[token := Token(r.tokens[token].agent, r.tokens[token].expires, Some(agent))]
            && t.agents.Keys == r.agents.Keys + {agent}
            && t.agents[agent].profile == profile && t.agents[agent].connection == Online
            && t.agents[agent].credential == Some(Sha256(credential))
            && t.agents[agent].sequence == 0 && t.agents[agent].stateHash == ""
            && (agent !in r.agents ==> t.agents[agent].fingerprints == [] && t.agents[agent].revision == 0))
  {
  }

  predicate Authenticates(r: Registry, agent: AgentId, credential: string) {
    agent in r.agents && r.agents[agent].credential == Some(Sha256(credential))
  }

  function Revoke(r: Registry, agent: AgentId): Option<Registry> {
    if agent !in r.agents then None
    else Some(r.(agents := r.agents[agent :=
      r.agents[agent].(connection := Revoked, credential := None, fingerprints := [])]))
  }

  datatype StateReport = StateReport(sequence: int, stateHash: string, revision: int)

  /** The stored sequence must not be ahead of the reported one. */
  predicate Fresh(r: Registry, agent: AgentId, s: StateReport) {
    agent in r.agents && r.agents[agent].sequence <= s.sequence
  }

  function UpdateState(r: Registry, agent: AgentId, s: StateReport): Registry
    requires Fresh(r, agent, s)
  {
    r.(agents := r.agents[agent := r.agents[agent].(
      connection := Online, sequence := s.sequence, stateHash := s.stateHash, revision := s.revision)])
  }

  /** The state changed although the agent reports the same policy revision. */
  predicate Drifted(r: Registry, agent: AgentId, s: StateReport) {
    && agent in r.agents
    && r.agents[agent].stateHash != "" && r.agents[agent].stateHash != s.stateHash
    && r.agents[agent].revision == s.revision
  }

  /** What creating a token, revoking an agent and accepting a report write, and what they leave. */
  lemma TokenCreated(r: Registry, raw: string, agent: AgentId, expires: int)
    ensures var t := CreateToken(r, raw, agent, expires); var hash := Sha256(raw);
      && (t.Some? <==> hash !in r.tokens)
      && (t.Some? ==>
            && t.value.agents == r.agents && t.value.tokens.Keys == r.tokens.Keys + {hash}
            && t.value.tokens[hash].agent == agent && t.value.tokens[hash].expires == expires
            && t.value.tokens[hash].usedBy == None
            && forall h :: h in r.tokens ==> t.value.tokens[h] == r.tokens[h])
  {
  }

  lemma RevokeExact(r: Registry, agent: AgentId)
    ensures var t := Revoke(r, agent);
      && (t.Some? <==> agent in r.agents)
      && (t.Some? ==>
            && t.value.tokens == r.tokens && t.value.agents.Keys == r.agents.Keys
            && t.value.agents[agent].connection == Revoked && t.value.agents[agent].credential == None
            && t.value.agents[agent].fingerprints == []
            && forall other :: other in r.agents && other != agent ==> t.value.agents[other] == r.agents[other])
  {
  }

  lemma ReportExact(r: Registry, agent: AgentId, s: StateReport)
    requires Fresh(r, agent, s)
    ensures var t := UpdateState(r, agent, s);
      && t.tokens == r.tokens && t.agents.Keys == r.agents.Keys
      && t.agents[agent].connection == Online && t.agents[agent].sequence == s.sequence
      && t.agents[agent].stateHash == s.stateHash && t.agents[agent].revision == s.revision
      && t.agents[agent].profile == r.agents[agent].profile
      && t.agents[agent].credential == r.agents[agent].credential
      && t.agents[agent].fingerprints == r.agents[agent].fingerprints
      && forall other :: other in r.agents && other != agent ==> t.agents[other] == r.agents[other]
  {
  }

  // ---------- runs of enrollments and revocations ----------

  datatype Event =
    | TokenCreated(raw: string, agent: AgentId, expires: int)
    | EnrollTried(raw: string, agent: AgentId, profile: Profile, credential: string, now: int)
    | RevokeTried(agent: AgentId)
    | StateReported(agent: AgentId, report: StateReport)

  function Happen(r: Registry, e: Event): Registry {
    var next :=
      match e
      case TokenCreated(raw, agent, expires) => CreateToken(r, raw, agent, expires)
      case EnrollTried(raw, agent, profile, credential, now) => Enroll(r, raw, agent, profile, credential, now)
      case RevokeTried(agent) => Revoke(r, agent)
      case StateReported(agent, report) =>
        if Fresh(r, agent, report) then Some(UpdateState(r, agent, report)) else None;
    if next.Some? then next.value else r
  }

  function Play(r: Registry, es: seq<Event>): Registry
    decreases |es|
  {
    if es == [] then r else Play(Happen(r, es[0]), es[1..])
  }

  predicate Enrolls(r: Registry, e: Event) {
    e.EnrollTried? && Enroll(r, e.raw, e.agent, e.profile, e.credential, e.now).Some?
  }

  /** How often a token enrolls some agent along a run. */
  function Uses(r: Registry, es: seq<Event>, raw: string): nat
    decreases |es|
  {
    if es == [] then 0
    else (if Enrolls(r, es[0]) && es[0].raw == raw then 1 else 0) + Uses(Happen(r, es[0]), es[1..], raw)
  }

  function CredentialDigest(r: Registry, agent: AgentId): Option<Digest> {
    if agent in r.agents then r.agents[agent].credential else None
  }

  /**
    The credential that counts after a run: the one of the latest successful enrollment of
    the agent, unless it was revoked since, and `before` if neither happened.
   */
  function Current(r: Registry, es: seq<Event>, agent: AgentId, before: Option<Digest>): Option<Digest>
    decreases |es|
  {
    if es == [] then before
    else
      var now :=
        if Enrolls(r, es[0]) && es[0].agent == agent then Some(Sha256(es[0].credential))
        else if es[0].RevokeTried? && es[0].agent == agent then None
        else before;
      Current(Happen(r, es[0]), es[1..], agent, now)
  }

  /** A token enrolls at most once in any run, and never again after it was used. */
  lemma {:induction false} TokensAreSingleUse(r: Registry, es: seq<Event>, raw: string)
    ensures Uses(r, es, raw) <= 1
    ensures Sha256(raw) in r.tokens && r.tokens[Sha256(raw)].usedBy.Some? ==> Uses(r, es, raw) == 0
    decreases |es|
  {
    if es != [] {
      TokensAreSingleUse(Happen(r, es[0]), es[1..], raw);
    }
  }

  /** A token bound to an agent stays bound, and whoever it enrolls is that agent. */
  lemma {:induction false} BoundTokensStayBound(r: Registry, es: seq<Event>, raw: string)
    requires Sha256(raw) in r.tokens && r.tokens[Sha256(raw)].agent != ""
    ensures var t := Play(r, es);
      && Sha256(raw) in t.tokens
      && t.tokens[Sha256(raw)].agent == r.tokens[Sha256(raw)].agent
      && (t.tokens[Sha256(raw)].usedBy.Some? && r.tokens[Sha256(raw)].usedBy.None? ==>
            t.tokens[Sha256(raw)].usedBy.value == r.tokens[Sha256(raw)].agent)
      && (r.tokens[Sha256(raw)].usedBy.Some? ==> t.tokens[Sha256(raw)] == r.tokens[Sha256(raw)])
    decreases |es|
  {
    if es != [] {
      BoundTokensStayBound(Happen(r, es[0]), es[1..], raw);
    }
  }

  /**
    After any run an agent authenticates with exactly the credential of its latest
    enrollment, and with none after a revocation until it enrolls again.
   */
  lemma {:induction false} LatestEnrollmentAuthenticates(r: Registry, es: seq<Event>, agent: AgentId,
                                                         credential: string)
    ensures CredentialDigest(Play(r, es), agent) == Current(r, es, agent, CredentialDigest(r, agent))
    ensures Authenticates(Play(r, es), agent, credential) <==>
      Current(r, es, agent, CredentialDigest(r, agent)) == Some(Sha256(credential))
    decreases |es|
  {
    if es != [] {
      LatestEnrollmentAuthenticates(Happen(r, es[0]), es[1..], agent, credential);
    }
  }

  /**
    Enrollment lets the agent start its sequence over, keeps the fingerprints and the
    policy revision of an agent that is known, and touches no other agent.
   */
  lemma EnrollmentStartsOver(r: Registry, raw: string, agent: AgentId, profile: Profile, credential: string,
                             now: int, s: StateReport)
    requires Enroll(r, raw, agent, profile, credential, now).Some?
    ensures var t := Enroll(r, raw, agent, profile, credential, now).value;
      && (Fresh(t, agent, s) <==> s.sequence >= 0)
      && !Drifted(t, agent, s)
      && (agent in r.agents ==>
            && t.agents[agent].fingerprints == r.agents[agent].fingerprints
            && t.agents[agent].revision == r.agents[agent].revision)
      && forall other :: other != agent ==>
           (other in t.agents <==> other in r.agents)
           && (other in r.agents ==> t.agents[other] == r.agents[other])
  {
  }

  /** Drift is flagged exactly between accepted reports whose hashes differ under one revision. */
  lemma DriftBetweenReports(r: Registry, agent: AgentId, first: StateReport, second: StateReport)
    requires Fresh(r, agent, first) && first.stateHash != ""
    ensures Drifted(UpdateState(r, agent, first), agent, second) <==>
      second.stateHash != first.stateHash && second.revision == first.revision
    ensures Fresh(UpdateState(r, agent, first), agent, second) <==> first.sequence <= second.sequence
  {
  }

  // ---------- the poll sequence ----------

  /** The reports that an agent restarted at sequence n sends; lost[i] says that report i never arrives. */
  function Attempts(r: Registry, agent: AgentId, n: int, reports: seq<StateReport>, lost: seq<bool>): (ok: seq<bool>)
    requires |reports| == |lost|
    ensures |ok| == |lost|
    decreases |reports|
  {
    if reports == [] then []
    else
      var s := reports[0].(sequence := n + 1);
      var accepted := !lost[0] && Fresh(r, agent, s);
      [accepted] + Attempts(if accepted then UpdateState(r, agent, s) else r, agent, n + 1, reports[1..], lost[1..])
  }

  /**
    An agent that restarts behind the server is accepted again exactly from its attempt
    number (sequence at the server) - n on, whatever was lost before; so the attempt
    max(1, d) succeeds if it arrives, where d is the distance.
   */
  lemma {:induction false} AcceptedWhenCaughtUp(r: Registry, agent: AgentId, n: int,
                                                reports: seq<StateReport>, lost: seq<bool>, i: nat)
    requires |reports| == |lost| && i < |lost|
    requires agent in r.agents
    ensures Attempts(r, agent, n, reports, lost)[i] <==> !lost[i] && r.agents[agent].sequence - n <= i + 1
    decreases |reports|
  {
    if i > 0 {
      var s := reports[0].(sequence := n + 1);
      var t := if !lost[0] && Fresh(r, agent, s) then UpdateState(r, agent, s) else r;
      AcceptedWhenCaughtUp(t, agent, n + 1, reports[1..], lost[1..], i - 1);
    }
  }

  /** Between enrollments the stored sequence of an agent never decreases. */
  lemma {:induction false} SequenceNeverDecreases(r: Registry, es: seq<Event>, agent: AgentId)
    requires agent in r.agents
    requires forall i :: 0 <= i < |es| && es[i].EnrollTried? ==> es[i].agent != agent
    ensures var t := Play(r, es);
      agent in t.agents && r.agents[agent].sequence <= t.agents[agent].sequence
    decreases |es|
  {
    if es != [] {
      SequenceNeverDecreases(Happen(r, es[0]), es[1..], agent);
    }
  }
}
