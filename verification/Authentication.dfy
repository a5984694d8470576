/**
 Identification and login. Both check the session under the read lock, leave it
 while an external authority decides, and check again under the write lock. The
 functions below are the parts that run under one lock.
 */
module Authentication {
  import opened Wrappers
  import opened Text
  import opened Model
  import opened State
  import opened Lifecycle
  import Routing

  /** What the authentication authority answers. */
  datatype Verdict = Authenticated(identity: AuthenticatedIdentity) | AuthSuspended | AuthRefused

  // ---------------------------------------------------------------- Identification

  function IdentifyBegin(s: NetworkState, id: ConnectionId): Result<nat, Effects> {
    if id !in s.sessions then Err(NO_EFFECTS)
    else if !s.sessions[id].phase.Connected? then
      Err(ErrorEffect(id, s.sessions[id].CallsignOf(), AlreadyRegistered, ""))
    else Ok(s.sessions[id].generation)
  }

  function IdentifyCommit(
    s: NetworkState, id: ConnectionId, command: Identification, generation: nat): Outcome
  {
    if id !in s.sessions then Outcome(s, NO_EFFECTS) else
    var session := s.sessions[id];
    if !session.phase.Connected? || session.generation != generation then
      Outcome(s, ErrorEffect(id, session.CallsignOf(), AlreadyRegistered, ""))
    else
      var identified := session.(
        identification := Some(command), phase := Identified, generation := session.generation + 1);
      Outcome(s.(sessions := s.sessions[id := identified]), NO_EFFECTS)
  }

  /** The end of `identify`: the authority has accepted or refused the client. */
  function IdentifyEnd(
    s: NetworkState, id: ConnectionId, command: Identification, generation: nat, authorized: bool): Outcome
  {
    if !authorized then
      Outcome(s, ErrorAndClose(id, Some(command.callsign), UnauthorizedClient, command.clientId))
    else IdentifyCommit(s, id, command, generation)
  }

  // ---------------------------------------------------------------- Login

  function LoginGeneration(s: NetworkState, id: ConnectionId, command: LoginCommand): Result<nat, Effects> {
    if id !in s.sessions then Err(NO_EFFECTS) else
    var session := s.sessions[id];
    if session.phase.Active? then Err(ErrorEffect(id, session.CallsignOf(), AlreadyRegistered, ""))
    else if session.dialect.Vatsim? && !session.phase.Identified? then
      Err(ErrorAndClose(id, Some(command.callsign), Syntax, "missing $ID"))
    else if command.protocolRevision != ExpectedRevision(session.dialect) then
      Err(ErrorAndClose(id, Some(command.callsign), InvalidProtocolRevision, ""))
    else if command.callsign in s.callsigns then
      Err(ErrorAndClose(id, Some(command.callsign), CallsignInUse, ""))
    else Ok(session.generation)
  }

  predicate RatingAllowed(command: LoginCommand, identity: AuthenticatedIdentity) {
    match command.clientType
    case Atc => identity.atcRating.AllowsWireValue(command.requestedRating)
    case Pilot => identity.pilotRating.AllowsWireValue(command.requestedRating)
    case Observer => identity.pilotRating.AllowsWireValue(command.requestedRating)
  }

  predicate IdentityActive(command: LoginCommand, identity: AuthenticatedIdentity) {
    match command.clientType
    case Atc => !identity.atcRating.Suspended?
    case Pilot => !identity.pilotRating.Unrated?
    case Observer => !identity.pilotRating.Unrated?
  }

  /** `None` when the identity may log in as requested. */
  function ValidateRating(
    id: ConnectionId, command: LoginCommand, identity: AuthenticatedIdentity): Option<Effects>
  {
    if identity.suspended || !IdentityActive(command, identity) then
      Some(ErrorAndClose(id, Some(command.callsign), AccountSuspended, ""))
    else if !RatingAllowed(command, identity) then
      Some(ErrorAndClose(id, Some(command.callsign), RequestedLevelTooHigh, Decimal(command.requestedRating)))
    else None
  }

  function PresenceFor(command: LoginCommand, identity: AuthenticatedIdentity): ClientPresence {
    ClientPresence(
      command.callsign, command.clientType, identity.networkId, identity.realName, command.requestedRating,
      command.protocolRevision, command.simulatorType)
  }

  /** The VATSIM identification names the same callsign and network id. */
  predicate IdentificationMatches(session: Session, command: LoginCommand) {
    && session.identification.Some?
    && session.identification.value.callsign == command.callsign
    && session.identification.value.networkId == Some(command.networkId)
  }

  function ActivateLogin(
    config: CoreConfig, s: NetworkState, id: ConnectionId, command: LoginCommand,
    identity: AuthenticatedIdentity, generation: nat): Outcome
  {
    if command.callsign in s.callsigns then
      Outcome(s, ErrorAndClose(id, Some(command.callsign), CallsignInUse, ""))
    else if id !in s.sessions then Outcome(s, NO_EFFECTS) else
    var session := s.sessions[id];
    if !(session.phase.Connected? || session.phase.Identified?) || session.generation != generation then
      Outcome(s, ErrorEffect(id, session.CallsignOf(), AlreadyRegistered, ""))
    else if session.dialect.Vatsim? && !IdentificationMatches(session, command) then
      Outcome(s, ErrorAndClose(id, Some(command.callsign), InvalidSource, ""))
    else
      var presence := PresenceFor(command, identity);
      var active := session.(phase := Active, presence := Some(presence), generation := session.generation + 1);
      var after := NetworkState(s.sessions[id := active], s.callsigns[command.callsign := id]);
      Outcome(after, LoginEffects(config, after, id, presence))
  }

  /** The end of `login`: everything after the authority has answered. */
  function LoginEnd(
    config: CoreConfig, s: NetworkState, id: ConnectionId, command: LoginCommand, generation: nat, verdict: Verdict
  ): Outcome
  {
    match verdict
    case AuthSuspended => Outcome(s, ErrorAndClose(id, Some(command.callsign), AccountSuspended, ""))
    case AuthRefused => Outcome(s, ErrorAndClose(id, Some(command.callsign), InvalidCredentials, command.networkId))
    case Authenticated(identity) =>
      var refusal := ValidateRating(id, command, identity);
      if refusal.Some? then Outcome(s, refusal.value)
      else ActivateLogin(config, s, id, command, identity, generation)
  }

  /** `login` run without interruption, with the verdict known in advance. */
  function AtomicLogin(
    config: CoreConfig, s: NetworkState, id: ConnectionId, command: LoginCommand, verdict: Verdict): Outcome
  {
    match LoginGeneration(s, id, command)
    case Err(effects) => Outcome(s, effects)
    case Ok(generation) => LoginEnd(config, s, id, command, generation, verdict)
  }

  // ---------------------------------------------------------------- Login effects

  function WelcomeLines(id: ConnectionId, callsign: Callsign, lines: seq<Bytes>): (ds: seq<Delivery>)
    ensures |ds| == |lines|
    ensures forall i :: 0 <= i < |ds| ==> ds[i] == Delivery({id}, Welcome(callsign, lines[i]))
  {
    seq(|lines|, i requires 0 <= i < |lines| => Delivery({id}, Welcome(callsign, lines[i])))
  }

  function VatsimProfile(id: ConnectionId, peer: SocketAddr, presence: ClientPresence): seq<Delivery> {
    var destination := Direct(presence.callsign);
    [Delivery({id}, QueryEvent("SERVER", destination, Capabilities, []))]
    + (if presence.clientType.Atc? then
         [Delivery({id}, ResponseEvent("SERVER", destination, Raw("ATC"), ["N", presence.callsign.text])),
          Delivery({id}, ResponseEvent("SERVER", destination, Capabilities, ["ATCINFO=1", "SECPOS=1"]))]
       else [])
    + [Delivery({id}, ResponseEvent("SERVER", destination, Raw("IP"), [peer.ip]))]
    + (if presence.clientType.Atc? then []
       else
         [Delivery(
            {id},
            ErrorEvent(Some(presence.callsign), NoFlightPlan, presence.callsign.text, NoFlightPlan.Description()))])
  }

  function LoginEffects(
    config: CoreConfig, s: NetworkState, id: ConnectionId, presence: ClientPresence): Effects
  {
    Effects(
      Send(Routing.ActiveIds(s, Some(id)), ClientAdded(presence)).deliveries
      + PrivateLoginEffects(config, s, id, presence),
      None)
  }

  /** The part of the login effects that only the new client receives. */
  function PrivateLoginEffects(
    config: CoreConfig, s: NetworkState, id: ConnectionId, presence: ClientPresence): seq<Delivery>
  {
    WelcomeLines(id, presence.callsign, [config.productMessage] + config.motd)
    + (if id in s.sessions && s.sessions[id].dialect.Vatsim?
       then VatsimProfile(id, s.sessions[id].peer, presence) else [])
  }

  // ---------------------------------------------------------------- Invariant

  lemma IdentifyCommitKeepsInv(s: NetworkState, id: ConnectionId, command: Identification, generation: nat)
    requires Inv(s)
    ensures Inv(IdentifyCommit(s, id, command, generation).state)
  {
    if id in s.sessions {
      assert SessionOk(id, s.sessions[id]);
    }
  }

  /** A login that may still commit: its begin-time checks hold of the session
      as it is now. */
  predicate LoginChecksHold(s: NetworkState, id: ConnectionId, command: LoginCommand, generation: nat) {
    id in s.sessions && s.sessions[id].generation == generation && !s.sessions[id].phase.Active? ==>
      && command.protocolRevision == ExpectedRevision(s.sessions[id].dialect)
      && (s.sessions[id].dialect.Vatsim? ==> s.sessions[id].phase.Identified?)
  }

  lemma ActivateLoginKeepsInv(
    config: CoreConfig, s: NetworkState, id: ConnectionId, command: LoginCommand,
    identity: AuthenticatedIdentity, generation: nat)
    requires Inv(s) && LoginChecksHold(s, id, command, generation)
    ensures Inv(ActivateLogin(config, s, id, command, identity, generation).state)
  {
    if id in s.sessions {
      assert SessionOk(id, s.sessions[id]);
    }
  }

  // ---------------------------------------------------------------- When a login commits

  /** The session still waits at the ticket's generation, the callsign is free,
      the authority grants the rating and, for VATSIM, the identification
      matches. */
  predicate LoginCommits(
    s: NetworkState, id: ConnectionId, command: LoginCommand, generation: nat, verdict: Verdict)
  {
    && id in s.sessions
    && (s.sessions[id].phase.Connected? || s.sessions[id].phase.Identified?)
    && s.sessions[id].generation == generation
    && command.callsign !in s.callsigns
    && verdict.Authenticated?
    && !verdict.identity.suspended
    && RatingAllowed(command, verdict.identity)
    && (s.sessions[id].dialect.Vatsim? ==> IdentificationMatches(s.sessions[id], command))
  }

  /** The indexes once `id` is active. */
  function Activated(s: NetworkState, id: ConnectionId, presence: ClientPresence): NetworkState
    requires id in s.sessions
  {
    NetworkState(
      s.sessions[id := s.sessions[id].(
        phase := Active, presence := Some(presence), generation := s.sessions[id].generation + 1)],
      s.callsigns[presence.callsign := id])
  }

  /** A login that does not commit changes nothing and tells only the client
      that tried; one that does enters both indexes and is announced. */
  lemma LoginEndExactly(
    config: CoreConfig, s: NetworkState, id: ConnectionId, command: LoginCommand, generation: nat, verdict: Verdict)
    ensures var outcome := LoginEnd(config, s, id, command, generation, verdict);
            if LoginCommits(s, id, command, generation, verdict) then
              var presence := PresenceFor(command, verdict.identity);
              var after := Activated(s, id, presence);
              outcome == Outcome(after, LoginEffects(config, after, id, presence))
            else
              && outcome.state == s
              && |outcome.effects.deliveries| <= 1
              && forall i :: 0 <= i < |outcome.effects.deliveries| ==>
                   outcome.effects.deliveries[i].recipients == {id} && outcome.effects.deliveries[i].event.ErrorEvent?
  {
  }
}
