/** Commands of an active session. */
module Commands {
  import opened Wrappers
  import opened Text
  import opened Model
  import opened State
  import opened Lifecycle
  import opened Routing

  const KILL_RATING: int := 11
  const FLIGHT_PLAN_RANGE: real := 400.0

  // ---------------------------------------------------------------- Relayed commands

  /** Where a relayed command goes, and the event its recipients get. */
  datatype Relay = Relay(destination: Destination, policy: RangePolicy, event: Event)

  /** `None` for commands that are not relayed. Queries and pings to the server
      itself are answered, not relayed. */
  function RelayOf(command: Command): Option<Relay> {
    match command
    case Text(source, destination, message) =>
      Some(Relay(destination, MessageRange, TextEvent(source, destination, message)))
    case Response(source, destination, kind, arguments) =>
      Some(Relay(destination, SourceRange, ResponseEvent(source.text, destination, kind, arguments)))
    case Pong(source, destination, payload) =>
      Some(Relay(destination, SourceRange, PongEvent(source.text, destination, payload)))
    case Handoff(source, target, kind, fields) =>
      Some(Relay(Direct(target), SourceRange, HandoffEvent(source, target, kind, fields)))
    case ClientData(source, target, kind, fields) =>
      Some(Relay(Direct(target), SourceRange, ClientDataEvent(source, target, kind, fields)))
    case Query(source, destination, kind, arguments) =>
      if destination.Server? then None
      else Some(Relay(destination, SourceRange, QueryEvent(source.text, destination, kind, arguments)))
    case Ping(source, destination, payload) =>
      if destination.Server? then None
      else Some(Relay(destination, SourceRange, PingEvent(source, destination, payload)))
    case _ => None
  }

  function HandleRouted(config: CoreConfig, s: NetworkState, id: ConnectionId, relay: Relay): Effects {
    Send(ResolveDestination(config, s, id, relay.destination, relay.policy), relay.event)
  }

  /** The server's own answer to a flight-plan query. */
  function AnswerFlightPlanQuery(
    s: NetworkState, id: ConnectionId, source: Callsign, arguments: seq<Bytes>): Effects
  {
    if arguments == [] || ParseCallsign(arguments[0]).Err? then ErrorEffect(id, Some(source), Syntax, "") else
    var target := ParseCallsign(arguments[0]).value;
    if target !in s.callsigns then ErrorEffect(id, Some(source), NoSuchCallsign, target.text) else
    var owner := s.callsigns[target];
    if owner in s.sessions && s.sessions[owner].flightPlan.Some? then
      Send({id}, FlightPlanEvent(s.sessions[owner].flightPlan.value, Direct(source)))
    else ErrorEffect(id, Some(source), NoFlightPlan, "")
  }

  // ---------------------------------------------------------------- State commands

  function HandlePosition(
    config: CoreConfig, s: NetworkState, id: ConnectionId, presence: ClientPresence, position: Position): Outcome
    requires id in s.sessions
  {
    var violation := position.Violation();
    if violation.Some? then
      Outcome(s, ErrorEffect(id, Some(presence.callsign), Syntax, violation.value.Text()))
    else if presence.clientType != (if position.PilotPosition? then Pilot else Atc) then
      Outcome(s, ErrorEffect(id, Some(presence.callsign), Syntax, "position type"))
    else
      var after := s.(sessions := s.sessions[id := s.sessions[id].(position := Some(position))]);
      Outcome(after, Send(PositionRecipients(config, after, id), PositionEvent(position)))
  }

  function HandleFlightPlan(config: CoreConfig, s: NetworkState, id: ConnectionId, plan: FlightPlan): Outcome
    requires id in s.sessions
  {
    var after := s.(sessions := s.sessions[id := s.sessions[id].(flightPlan := Some(plan))]);
    Outcome(after,
            Send(FlightPlanRecipients(config, after, id, FLIGHT_PLAN_RANGE), FlightPlanEvent(plan, AllAtc)))
  }

  function HandleKill(
    s: NetworkState, id: ConnectionId, presence: ClientPresence, target: Callsign, reason: Bytes): Outcome
  {
    if target !in s.callsigns then
      Outcome(s, ErrorEffect(id, Some(presence.callsign), NoSuchCallsign, target.text))
    else if presence.rating < KILL_RATING then
      Outcome(s, Send({id}, Welcome(presence.callsign, "You are not allowed to kill users!")))
    else
      var targetId := s.callsigns[target];
      var notice := Send({id}, Welcome(presence.callsign, "Attempting to kill " + target.text));
      var farewell := Send({targetId}, DisconnectEvent(target, reason));
      var release := Disconnect(s, targetId, reason);
      Outcome(release.state, notice.Extend(farewell).Extend(release.effects))
  }

  predicate IsStateCommand(command: Command) {
    command.Logoff? || command.UpdatePosition? || command.FileFlightPlan?
  }

  function HandleStateCommand(
    config: CoreConfig, s: NetworkState, id: ConnectionId, presence: ClientPresence, command: Command): Outcome
    requires id in s.sessions && IsStateCommand(command)
  {
    match command
    case Logoff(_) => Disconnect(s, id, "client logoff")
    case UpdatePosition(position) => HandlePosition(config, s, id, presence, position)
    case FileFlightPlan(plan) => HandleFlightPlan(config, s, id, plan)
  }

  // ---------------------------------------------------------------- Answers of the server

  /** The answer to a query or ping to the server itself; other commands get
      none. */
  function ServerReply(s: NetworkState, id: ConnectionId, command: Command): Effects {
    match command
    case Query(source, _, kind, arguments) =>
      if kind.FlightPlanQuery? then AnswerFlightPlanQuery(s, id, source, arguments) else NO_EFFECTS
    case Ping(source, _, payload) => Send({id}, PongEvent("server", Direct(source), payload))
    case _ => NO_EFFECTS
  }

  // ---------------------------------------------------------------- Dispatcher

  /** The command comes from the active session whose callsign it claims. */
  predicate FromItsOwner(s: NetworkState, id: ConnectionId, command: Command) {
    IsActive(s, id) && s.sessions[id].CallsignOf() == Some(command.Source())
  }

  function ExecuteActive(config: CoreConfig, s: NetworkState, id: ConnectionId, command: Command): Outcome {
    if !IsActive(s, id) || s.sessions[id].presence.None? then Outcome(s, NO_EFFECTS) else
    var presence := s.sessions[id].presence.value;
    if command.Source() != presence.callsign then
      Outcome(s, ErrorEffect(id, Some(presence.callsign), InvalidSource, command.Source().text))
    else if RelayOf(command).Some? then
      Outcome(s, HandleRouted(config, s, id, RelayOf(command).value))
    else if IsStateCommand(command) then HandleStateCommand(config, s, id, presence, command)
    else if command.Kill? then HandleKill(s, id, presence, command.target, command.reason)
    else Outcome(s, ServerReply(s, id, command))
  }

  // ---------------------------------------------------------------- Accepted commands

  /** The commands that change the state. */
  predicate Accepted(s: NetworkState, id: ConnectionId, command: Command) {
    && FromItsOwner(s, id, command)
    && var presence := s.sessions[id].presence.value;
       match command
       case Logoff(_) => true
       case FileFlightPlan(_) => true
       case UpdatePosition(position) =>
         position.Violation().None? && presence.clientType == (if position.PilotPosition? then Pilot else Atc)
       case Kill(_, target, _) => target in s.callsigns && presence.rating >= KILL_RATING
       case _ => false
  }

  /** The one session an accepted command touches: its issuer's, or the victim
      of a kill. */
  function Touched(s: NetworkState, id: ConnectionId, command: Command): ConnectionId {
    if command.Kill? && command.target in s.callsigns then s.callsigns[command.target] else id
  }

  /** The state after an accepted command. */
  function AcceptedState(s: NetworkState, id: ConnectionId, command: Command): NetworkState
    requires Accepted(s, id, command)
  {
    match command
    case UpdatePosition(position) =>
      s.(sessions := s.sessions[id := s.sessions[id].(position := Some(position))])
    case FileFlightPlan(plan) =>
      s.(sessions := s.sessions[id := s.sessions[id].(flightPlan := Some(plan))])
    case _ => Disconnect(s, Touched(s, id, command), "").state
  }

  /** A spoofed command, an invalid position, a refused kill: whatever is not
      accepted changes neither index. */
  lemma ExecuteState(config: CoreConfig, s: NetworkState, id: ConnectionId, command: Command)
    ensures ExecuteActive(config, s, id, command).state ==
            if Accepted(s, id, command) then AcceptedState(s, id, command) else s
  {
  }

  // ---------------------------------------------------------------- Invariant and frames

  lemma UpdateKeepsInv(s: NetworkState, id: ConnectionId, session: Session)
    requires Inv(s) && id in s.sessions
    requires SessionOk(id, session) && session.presence == s.sessions[id].presence
    ensures Inv(s.(sessions := s.sessions[id := session]))
  {
  }

  lemma ExecuteKeepsInv(config: CoreConfig, s: NetworkState, id: ConnectionId, command: Command)
    requires Inv(s)
    ensures Inv(ExecuteActive(config, s, id, command).state)
  {
    ExecuteState(config, s, id, command);
    if Accepted(s, id, command) {
      assert SessionOk(id, s.sessions[id]);
      match command
      case UpdatePosition(position) => UpdateKeepsInv(s, id, s.sessions[id].(position := Some(position)));
      case FileFlightPlan(plan) => UpdateKeepsInv(s, id, s.sessions[id].(flightPlan := Some(plan)));
      case _ => DisconnectKeepsInv(s, Touched(s, id, command), "");
    }
  }

  /** Every session but one is untouched, and the callsign index only loses the
      callsigns of sessions that are gone. */
  ghost predicate TouchesOnly(s: NetworkState, after: NetworkState, touched: ConnectionId) {
    && (forall other :: other != touched ==> (other in after.sessions <==> other in s.sessions))
    && (forall other :: other != touched && other in after.sessions ==> after.sessions[other] == s.sessions[other])
    && (forall cs :: cs in after.callsigns <==> cs in s.callsigns && s.callsigns[cs] in after.sessions)
    && (forall cs :: cs in after.callsigns ==> after.callsigns[cs] == s.callsigns[cs])
  }

  lemma UpdateTouchesOnly(s: NetworkState, id: ConnectionId, session: Session)
    requires Inv(s) && id in s.sessions
    ensures TouchesOnly(s, s.(sessions := s.sessions[id := session]), id)
  {
  }

  lemma DisconnectTouchesOnly(s: NetworkState, id: ConnectionId, reason: Bytes)
    requires Inv(s)
    ensures TouchesOnly(s, Disconnect(s, id, reason).state, id)
    ensures id !in Disconnect(s, id, reason).state.sessions
  {
    DisconnectReleasesExactly(s, id, reason);
  }

  /** An accepted command touches a single session: a logoff and a kill remove
      it, the other commands keep it. */
  lemma AcceptedTouchesOnly(config: CoreConfig, s: NetworkState, id: ConnectionId, command: Command)
    requires Inv(s) && Accepted(s, id, command)
    ensures var after := ExecuteActive(config, s, id, command).state;
            && TouchesOnly(s, after, Touched(s, id, command))
            && (Touched(s, id, command) in after.sessions <==> !(command.Logoff? || command.Kill?))
  {
    ExecuteState(config, s, id, command);
    match command
    case UpdatePosition(position) =>
      UpdateTouchesOnly(s, id, s.sessions[id].(position := Some(position)));
    case FileFlightPlan(plan) =>
      UpdateTouchesOnly(s, id, s.sessions[id].(flightPlan := Some(plan)));
    case _ => DisconnectTouchesOnly(s, Touched(s, id, command), "");
  }

  lemma StateCommandCloses(
    config: CoreConfig, s: NetworkState, id: ConnectionId, presence: ClientPresence, command: Command)
    requires id in s.sessions && IsStateCommand(command)
    ensures HandleStateCommand(config, s, id, presence, command).effects.close
            == if command.Logoff? then Some(CloseConnection(id, "client logoff")) else None
  {
    hide PositionRecipients;
    hide FlightPlanRecipients;
    hide Routing.ActiveIds;
  }

  lemma KillCloses(s: NetworkState, id: ConnectionId, presence: ClientPresence, target: Callsign, reason: Bytes)
    requires IndexOk(s)
    ensures HandleKill(s, id, presence, target, reason).effects.close ==
            if target in s.callsigns && presence.rating >= KILL_RATING
            then Some(CloseConnection(s.callsigns[target], reason)) else None
  {
    hide Routing.ActiveIds;
  }

  lemma ReplyNeverCloses(s: NetworkState, id: ConnectionId, command: Command)
    ensures ServerReply(s, id, command).close.None?
  {
  }

  lemma RelayNeverCloses(config: CoreConfig, s: NetworkState, id: ConnectionId, relay: Relay)
    ensures HandleRouted(config, s, id, relay).close.None?
  {
    hide ResolveDestination;
  }

  /** A session is only ever closed by the command of its own logoff, or by a
      kill, and the killed session is the one that is closed. */
  lemma ExecuteCloses(config: CoreConfig, s: NetworkState, id: ConnectionId, command: Command)
    requires Inv(s)
    ensures ExecuteActive(config, s, id, command).effects.close ==
            if !Accepted(s, id, command) then None
            else match command
              case Logoff(_) => Some(CloseConnection(id, "client logoff"))
              case Kill(_, _, reason) => Some(CloseConnection(Touched(s, id, command), reason))
              case _ => None
  {
    hide HandleStateCommand;
    hide HandleKill;
    hide HandleRouted;
    hide ServerReply;
    if IsActive(s, id) {
      assert SessionOk(id, s.sessions[id]);
      var presence := s.sessions[id].presence.value;
      hide Inv;
      if IsStateCommand(command) {
        StateCommandCloses(config, s, id, presence, command);
      } else if command.Kill? {
        KillCloses(s, id, presence, command.target, command.reason);
      } else {
        ReplyNeverCloses(s, id, command);
        if RelayOf(command).Some? {
          RelayNeverCloses(config, s, id, RelayOf(command).value);
        }
      }
    }
  }
}
