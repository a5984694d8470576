/**
 The shared network object: two mutable indexes behind one lock. Each method is
 one critical section. Its contract ties the new indexes and the effects to the
 specification functions that the run-level theorems are about.
 */
module NetworkCore {
  import opened Wrappers
  import opened Text
  import opened Model
  import opened State
  import opened Lifecycle
  import Authentication
  import Commands
  import Routing

  // ---------------------------------------------------------------- Ordered effects

  /** A delivery with the recipients in the order the session map yielded them. */
  datatype OrderedDelivery = OrderedDelivery(recipients: seq<ConnectionId>, event: Event)

  datatype OrderedEffects = OrderedEffects(deliveries: seq<OrderedDelivery>, close: Option<CloseConnection>)

  predicate Distinct(ids: seq<ConnectionId>) {
    forall i, j :: 0 <= i < j < |ids| ==> ids[i] != ids[j]
  }

  /** `ids` lists `chosen` without repetition. */
  predicate Lists(ids: seq<ConnectionId>, chosen: set<ConnectionId>) {
    && Distinct(ids)
    && (forall id :: id in ids ==> id in chosen)
    && (forall id :: id in chosen ==> id in ids)
  }

  predicate ListsDeliveries(ordered: seq<OrderedDelivery>, ds: seq<Delivery>) {
    && |ordered| == |ds|
    && forall i :: 0 <= i < |ds| ==>
         Lists(ordered[i].recipients, ds[i].recipients) && ordered[i].event == ds[i].event
  }

  predicate Orders(ordered: OrderedEffects, effects: Effects) {
    ListsDeliveries(ordered.deliveries, effects.deliveries) && ordered.close == effects.close
  }

  lemma AppendLists(
    a: seq<OrderedDelivery>, b: seq<OrderedDelivery>, x: seq<Delivery>, y: seq<Delivery>)
    requires ListsDeliveries(a, x) && ListsDeliveries(b, y)
    ensures ListsDeliveries(a + b, x + y)
  {
    hide Lists;
  }

  const NOTHING := OrderedEffects([], None)

  function SendTo(ids: seq<ConnectionId>, event: Event): (o: OrderedEffects)
    ensures forall chosen :: Lists(ids, chosen) ==> Orders(o, Send(chosen, event))
  {
    assert ids != [] ==> forall chosen :: Lists(ids, chosen) ==> ids[0] in chosen;
    if ids == [] then NOTHING else OrderedEffects([OrderedDelivery(ids, event)], None)
  }

  function Fail(id: ConnectionId, callsign: Option<Callsign>, code: ErrorCode, environment: Bytes): (o: OrderedEffects)
    ensures Orders(o, ErrorEffect(id, callsign, code, environment))
  {
    assert Lists([id], {id});
    SendTo([id], ErrorEvent(callsign, code, environment, code.Description()))
  }

  function FailAndClose(
    id: ConnectionId, callsign: Option<Callsign>, code: ErrorCode, environment: Bytes): (o: OrderedEffects)
    ensures Orders(o, ErrorAndClose(id, callsign, code, environment))
  {
    Fail(id, callsign, code, environment).(close := Some(CloseConnection(id, code.Description())))
  }

  /** `Effects::extend` on the ordered form. */
  function Extended(a: OrderedEffects, b: OrderedEffects): (o: OrderedEffects)
    requires a.close.None? || b.close.None?
    ensures forall x: Effects, y: Effects ::
              Orders(a, x) && Orders(b, y) ==> (x.close.None? || y.close.None?) && Orders(o, x.Extend(y))
  {
    OrderedEffects(a.deliveries + b.deliveries, if b.close.Some? then b.close else a.close)
  }

  class Network {
    const config: CoreConfig
    var sessions: map<ConnectionId, Session>
    var callsigns: map<Callsign, ConnectionId>

    ghost function Contents(): NetworkState
      reads this
    {
      NetworkState(sessions, callsigns)
    }

    ghost predicate Valid()
      reads this
    {
      Inv(Contents())
    }

    /** Every session carries the id it is stored under. */
    ghost predicate KeysMatch()
      reads this
    {
      forall id :: id in sessions ==> sessions[id].connectionId == id
    }

    lemma ValidKeysMatch()
      requires Valid()
      ensures KeysMatch()
    {
      forall id | id in sessions ensures sessions[id].connectionId == id {
        assert SessionOk(id, sessions[id]);
      }
    }

    constructor (config: CoreConfig)
      ensures this.config == config
      ensures Valid() && Contents() == NetworkState(map[], map[])
    {
      this.config := config;
      sessions, callsigns := map[], map[];
    }

    /** Iterates over the session map in whatever order it yields, and collects
        the ids that the selected sessions carry. */
    method Collect(keep: Session -> bool) returns (ids: seq<ConnectionId>)
      requires KeysMatch()
      ensures Distinct(ids)
      ensures forall id :: id in ids <==> id in sessions && keep(sessions[id])
    {
      ids := [];
      var rest := sessions.Keys;
      while rest != {}
        invariant rest <= sessions.Keys
        invariant Distinct(ids)
        invariant forall id :: id in ids <==> id in sessions && id !in rest && keep(sessions[id])
        decreases |rest|
      {
        var key :| key in rest;
        if keep(sessions[key]) {
          ids := ids + [sessions[key].connectionId];
        }
        rest := rest - {key};
      }
    }

    method ActiveIds(exclude: Option<ConnectionId>) returns (ids: seq<ConnectionId>)
      requires KeysMatch()
      ensures Lists(ids, Routing.ActiveIds(Contents(), exclude))
    {
      ids := Collect((x: Session) => x.phase.Active? && Some(x.connectionId) != exclude);
    }

    method Register(id: ConnectionId, peer: SocketAddr, dialect: ProtocolDialect)
      returns (r: Result<(), RegisterError>)
      requires Valid()
      modifies this
      ensures Valid() && callsigns == old(callsigns)
      ensures match Lifecycle.Register(config, old(Contents()), id, peer, dialect)
              case Ok(after) => r == Ok(()) && Contents() == after
              case Err(error) => r == Err(error) && Contents() == old(Contents())
    {
      if id in sessions {
        return Err(DuplicateConnection);
      }
      if |sessions| >= config.maxClients {
        return Err(ServerAtCapacity);
      }
      RegisterKeepsInv(config, Contents(), id, peer, dialect);
      sessions := sessions[id := FreshSession(id, peer, dialect)];
      r := Ok(());
    }

    /** The second half of `identify`, after the client software was accepted. */
    method IdentifyCommit(id: ConnectionId, command: Identification, generation: nat)
      returns (effects: OrderedEffects)
      requires Valid()
      modifies this
      ensures Valid()
      ensures var outcome := Authentication.IdentifyCommit(old(Contents()), id, command, generation);
              Contents() == outcome.state && Orders(effects, outcome.effects)
    {
      hide IndexOk;
      hide SessionOk;
      Authentication.IdentifyCommitKeepsInv(Contents(), id, command, generation);
      if id !in sessions {
        return NOTHING;
      }
      var session := sessions[id];
      if !session.phase.Connected? || session.generation != generation {
        return Fail(id, session.CallsignOf(), AlreadyRegistered, "");
      }
      session := session.(identification := Some(command));
      session := session.(phase := Identified);
      session := session.(generation := session.generation + 1);
      sessions := sessions[id := session];
      effects := NOTHING;
    }

    /** The first half of `identify`, under the read lock: the generation to come
        back with. */
    method IdentifyBegin(id: ConnectionId) returns (r: Result<nat, OrderedEffects>)
      requires Valid()
      ensures match Authentication.IdentifyBegin(Contents(), id)
              case Ok(generation) => r == Ok(generation)
              case Err(effects) => r.Err? && Orders(r.error, effects)
    {
      if id !in sessions {
        return Err(NOTHING);
      }
      if !sessions[id].phase.Connected? {
        return Err(Fail(id, sessions[id].CallsignOf(), AlreadyRegistered, ""));
      }
      r := Ok(sessions[id].generation);
    }

    /** The end of `identify`, once the client software was accepted or not. */
    method IdentifyEnd(id: ConnectionId, command: Identification, generation: nat, authorized: bool)
      returns (effects: OrderedEffects)
      requires Valid()
      modifies this
      ensures Valid()
      ensures var outcome := Authentication.IdentifyEnd(old(Contents()), id, command, generation, authorized);
              Contents() == outcome.state && Orders(effects, outcome.effects)
    {
      if !authorized {
        return FailAndClose(id, Some(command.callsign), UnauthorizedClient, command.clientId);
      }
      effects := IdentifyCommit(id, command, generation);
    }

    /** `login_generation`: the checks of `login` under the read lock. */
    method LoginGeneration(id: ConnectionId, command: LoginCommand) returns (r: Result<nat, OrderedEffects>)
      requires Valid()
      ensures match Authentication.LoginGeneration(Contents(), id, command)
              case Ok(generation) => r == Ok(generation)
              case Err(effects) => r.Err? && Orders(r.error, effects)
    {
      hide IndexOk;
      hide SessionOk;
      if id !in sessions {
        return Err(NOTHING);
      }
      var session := sessions[id];
      if session.phase.Active? {
        return Err(Fail(id, session.CallsignOf(), AlreadyRegistered, ""));
      }
      if session.dialect.Vatsim? && !session.phase.Identified? {
        return Err(FailAndClose(id, Some(command.callsign), Syntax, "missing $ID"));
      }
      if command.protocolRevision != ExpectedRevision(session.dialect) {
        return Err(FailAndClose(id, Some(command.callsign), InvalidProtocolRevision, ""));
      }
      if command.callsign in callsigns {
        return Err(FailAndClose(id, Some(command.callsign), CallsignInUse, ""));
      }
      r := Ok(session.generation);
    }

    /** The end of `login`, once the authority has answered. */
    method LoginEnd(id: ConnectionId, command: LoginCommand, generation: nat, verdict: Authentication.Verdict)
      returns (effects: OrderedEffects)
      requires Valid() && Authentication.LoginChecksHold(Contents(), id, command, generation)
      modifies this
      ensures Valid()
      ensures var outcome := Authentication.LoginEnd(config, old(Contents()), id, command, generation, verdict);
              Contents() == outcome.state && Orders(effects, outcome.effects)
    {
      hide IndexOk;
      hide SessionOk;
      hide Authentication.ActivateLogin;
      match verdict
      case AuthSuspended => effects := FailAndClose(id, Some(command.callsign), AccountSuspended, "");
      case AuthRefused => effects := FailAndClose(id, Some(command.callsign), InvalidCredentials, command.networkId);
      case Authenticated(identity) =>
        if identity.suspended || !Authentication.IdentityActive(command, identity) {
          return FailAndClose(id, Some(command.callsign), AccountSuspended, "");
        }
        if !Authentication.RatingAllowed(command, identity) {
          return FailAndClose(
              id, Some(command.callsign), RequestedLevelTooHigh, Decimal(command.requestedRating));
        }
        effects := ActivateLogin(id, command, identity, generation);
    }

    /** The last step of `login`, under the write lock. It keeps the invariant
        if the begin-time checks still hold of the session at this generation,
        as they do in every reachable state. */
    method ActivateLogin(
      id: ConnectionId, command: LoginCommand, identity: AuthenticatedIdentity, generation: nat)
      returns (effects: OrderedEffects)
      requires Valid()
      modifies this
      ensures old(Authentication.LoginChecksHold(Contents(), id, command, generation)) ==> Valid()
      ensures var outcome := Authentication.ActivateLogin(config, old(Contents()), id, command, identity, generation);
              Contents() == outcome.state && Orders(effects, outcome.effects)
    {
      if Authentication.LoginChecksHold(Contents(), id, command, generation) {
        Authentication.ActivateLoginKeepsInv(config, Contents(), id, command, identity, generation);
      }
      ValidKeysMatch();
      hide IndexOk;
      hide SessionOk;
      if command.callsign in callsigns {
        return FailAndClose(id, Some(command.callsign), CallsignInUse, "");
      }
      if id !in sessions {
        return NOTHING;
      }
      var session := sessions[id];
      if !(session.phase.Connected? || session.phase.Identified?) || session.generation != generation {
        return Fail(id, session.CallsignOf(), AlreadyRegistered, "");
      }
      if session.dialect.Vatsim? && !Authentication.IdentificationMatches(session, command) {
        return FailAndClose(id, Some(command.callsign), InvalidSource, "");
      }
      var presence := Authentication.PresenceFor(command, identity);
      session := session.(phase := Active);
      session := session.(presence := Some(presence));
      session := session.(generation := session.generation + 1);
      sessions := sessions[id := session];
      callsigns := callsigns[command.callsign := id];
      effects := LoginEffects(id, presence);
    }

    /** The welcome lines of a new client. */
    method WelcomeLines(id: ConnectionId, callsign: Callsign) returns (deliveries: seq<OrderedDelivery>)
      ensures ListsDeliveries(
                deliveries, Authentication.WelcomeLines(id, callsign, [config.productMessage] + config.motd))
    {
      var first := OrderedDelivery([id], Welcome(callsign, config.productMessage));
      deliveries := [first];
      for i := 0 to |config.motd|
        invariant |deliveries| == i + 1 && deliveries[0] == first
        invariant forall k :: 0 <= k < i ==>
                    deliveries[k + 1] == OrderedDelivery([id], Welcome(callsign, config.motd[k]))
      {
        deliveries := deliveries + [OrderedDelivery([id], Welcome(callsign, config.motd[i]))];
      }
      assert Lists([id], {id});
      forall i | 0 <= i < |deliveries|
        ensures deliveries[i] == OrderedDelivery([id], Welcome(callsign, ([config.productMessage] + config.motd)[i]))
      {
        assert i > 0 ==> deliveries[(i - 1) + 1] == OrderedDelivery([id], Welcome(callsign, config.motd[i - 1]));
      }
    }

    method LoginEffects(id: ConnectionId, presence: ClientPresence) returns (effects: OrderedEffects)
      requires KeysMatch()
      ensures Orders(effects, Authentication.LoginEffects(config, Contents(), id, presence))
    {
      ghost var public := Send(Routing.ActiveIds(Contents(), Some(id)), ClientAdded(presence)).deliveries;
      ghost var lines := Authentication.WelcomeLines(id, presence.callsign, [config.productMessage] + config.motd);
      ghost var private := Authentication.PrivateLoginEffects(config, Contents(), id, presence);
      var peers := ActiveIds(Some(id));
      var announcement := SendTo(peers, ClientAdded(presence));
      var welcome := WelcomeLines(id, presence.callsign);
      if id in sessions && sessions[id].dialect.Vatsim? {
        var profile := VatsimProfile(id, sessions[id].peer, presence);
        AppendLists(welcome, profile, lines, Authentication.VatsimProfile(id, sessions[id].peer, presence));
        welcome := welcome + profile;
      } else {
        assert lines + [] == lines;
      }
      AppendLists(announcement.deliveries, welcome, public, private);
      effects := OrderedEffects(announcement.deliveries + welcome, None);
    }

    method VatsimProfile(id: ConnectionId, peer: SocketAddr, presence: ClientPresence)
      returns (deliveries: seq<OrderedDelivery>)
      ensures ListsDeliveries(deliveries, Authentication.VatsimProfile(id, peer, presence))
    {
      assert Lists([id], {id});
      var destination := Direct(presence.callsign);
      deliveries := [OrderedDelivery([id], QueryEvent("SERVER", destination, Capabilities, []))];
      if presence.clientType.Atc? {
        deliveries := deliveries
        + [OrderedDelivery([id], ResponseEvent("SERVER", destination, Raw("ATC"), ["N", presence.callsign.text]))];
        deliveries := deliveries
        + [OrderedDelivery([id], ResponseEvent("SERVER", destination, Capabilities, ["ATCINFO=1", "SECPOS=1"]))];
      }
      deliveries := deliveries + [OrderedDelivery([id], ResponseEvent("SERVER", destination, Raw("IP"), [peer.ip]))];
      if presence.clientType.Pilot? || presence.clientType.Observer? {
        deliveries := deliveries
        + [OrderedDelivery([id],
             ErrorEvent(Some(presence.callsign), NoFlightPlan, presence.callsign.text, NoFlightPlan.Description()))];
      }
    }

    method Disconnect(id: ConnectionId, reason: Bytes) returns (effects: OrderedEffects)
      requires Valid()
      modifies this
      ensures Valid() && id !in sessions
      ensures var outcome := Lifecycle.Disconnect(old(Contents()), id, reason);
              Contents() == outcome.state && Orders(effects, outcome.effects)
    {
      DisconnectKeepsInv(Contents(), id, reason);
      if id !in sessions {
        return NOTHING;
      }
      var session := sessions[id];
      sessions := sessions - {id};
      effects := NOTHING;
      if session.presence.Some? {
        var presence := session.presence.value;
        callsigns := callsigns - {presence.callsign};
        var peers := ActiveIds(None);
        effects := SendTo(peers, ClientRemoved(presence.callsign, presence.clientType, presence.networkId));
      }
      effects := effects.(close := Some(CloseConnection(id, reason)));
    }

    method Broadcast(event: Event) returns (effects: OrderedEffects)
      requires Valid()
      ensures Orders(effects, Lifecycle.Broadcast(Contents(), event))
    {
      var ids := ActiveIds(None);
      effects := SendTo(ids, event);
    }

    /** Lists the recipients of a relayed command. */
    method ResolveDestination(sender: ConnectionId, destination: Destination, policy: Routing.RangePolicy)
      returns (ids: seq<ConnectionId>)
      requires Valid()
      ensures Lists(ids, Routing.ResolveDestination(config, Contents(), sender, destination, policy))
    {
      var s := NetworkState(sessions, callsigns);
      ValidKeysMatch();
      match destination
      case Server => ids := [];
      case Direct(callsign) =>
        ids := if callsign in callsigns && callsigns[callsign] != sender then [callsigns[callsign]] else [];
        assert Lists(ids, Routing.ResolveDestination(config, s, sender, destination, policy));
      case All =>
        ids := ActiveIds(Some(sender));
        assert Lists(ids, Routing.ActiveIds(s, Some(sender)));
      case AllAtc =>
        ids := Collect((x: Session) => x.connectionId != sender && x.phase.Active? && Routing.HasClientType(x, Atc));
        assert Lists(ids, Routing.ResolveDestination(config, s, sender, destination, policy));
      case Pilots =>
        ids := Collect((x: Session) => x.connectionId != sender && x.phase.Active? && Routing.IsPilotSide(x));
        assert Lists(ids, Routing.ResolveDestination(config, s, sender, destination, policy));
      case Range(_) =>
        var c := config;
        ids := Collect((x: Session) => x.connectionId != sender && x.phase.Active?
                            && Routing.InPolicyRange(c, s, sender, x.connectionId, policy));
    }

    // -------------------------------------------------------------- Active commands

    method PositionRecipients(source: ConnectionId) returns (ids: seq<ConnectionId>)
      requires Valid()
      ensures Lists(ids, Routing.PositionRecipients(config, Contents(), source))
    {
      var c, s := config, NetworkState(sessions, callsigns);
      ValidKeysMatch();
      ids := Collect((x: Session) => x.connectionId != source && x.phase.Active?
                                     && Routing.WithinPositionRange(c, s, source, x.connectionId));
    }

    method FlightPlanRecipients(source: ConnectionId, range: real) returns (ids: seq<ConnectionId>)
      requires Valid()
      ensures Lists(ids, Routing.FlightPlanRecipients(config, Contents(), source, range))
    {
      var c, s := config, NetworkState(sessions, callsigns);
      ValidKeysMatch();
      ids := Collect((x: Session) => x.connectionId != source && x.phase.Active? && Routing.HasClientType(x, Atc)
                                     && Routing.DistanceAtMost(c, s, source, x.connectionId, range));
    }

    method HandlePosition(id: ConnectionId, position: Position) returns (effects: OrderedEffects)
      requires Valid() && id in sessions && sessions[id].presence.Some?
      requires position.callsign == sessions[id].presence.value.callsign
      modifies this
      ensures Valid()
      ensures var presence := old(sessions[id].presence.value);
              var outcome := Commands.HandlePosition(config, old(Contents()), id, presence, position);
              Contents() == outcome.state && Orders(effects, outcome.effects)
    {
      assert SessionOk(id, sessions[id]);
      var presence := sessions[id].presence.value;
      var violation := position.Violation();
      if violation.Some? {
        return Fail(id, Some(presence.callsign), Syntax, violation.value.Text());
      }
      if presence.clientType != (if position.PilotPosition? then Pilot else Atc) {
        return Fail(id, Some(presence.callsign), Syntax, "position type");
      }
      var session := sessions[id].(position := Some(position));
      Commands.UpdateKeepsInv(Contents(), id, session);
      sessions := sessions[id := session];
      var ids := PositionRecipients(id);
      effects := SendTo(ids, PositionEvent(position));
    }

    method HandleFlightPlan(id: ConnectionId, plan: FlightPlan) returns (effects: OrderedEffects)
      requires Valid() && id in sessions && sessions[id].presence.Some?
      requires plan.callsign == sessions[id].presence.value.callsign
      modifies this
      ensures Valid()
      ensures var outcome := Commands.HandleFlightPlan(config, old(Contents()), id, plan);
              Contents() == outcome.state && Orders(effects, outcome.effects)
    {
      assert SessionOk(id, sessions[id]);
      var session := sessions[id].(flightPlan := Some(plan));
      Commands.UpdateKeepsInv(Contents(), id, session);
      sessions := sessions[id := session];
      var ids := FlightPlanRecipients(id, Commands.FLIGHT_PLAN_RANGE);
      effects := SendTo(ids, FlightPlanEvent(plan, AllAtc));
    }

    method HandleKill(id: ConnectionId, presence: ClientPresence, target: Callsign, reason: Bytes)
      returns (effects: OrderedEffects)
      requires Valid()
      modifies this
      ensures Valid()
      ensures var outcome := Commands.HandleKill(old(Contents()), id, presence, target, reason);
              Contents() == outcome.state && Orders(effects, outcome.effects)
    {
      if target !in callsigns {
        return Fail(id, Some(presence.callsign), NoSuchCallsign, target.text);
      }
      var targetId := callsigns[target];
      assert Lists([id], {id}) && Lists([targetId], {targetId});
      if presence.rating < Commands.KILL_RATING {
        return SendTo([id], Welcome(presence.callsign, "You are not allowed to kill users!"));
      }
      effects := SendTo([id], Welcome(presence.callsign, "Attempting to kill " + target.text));
      effects := Extended(effects, SendTo([targetId], DisconnectEvent(target, reason)));
      var release := Disconnect(targetId, reason);
      effects := Extended(effects, release);
    }

    method Relayed(id: ConnectionId, relay: Commands.Relay) returns (effects: OrderedEffects)
      requires Valid()
      ensures Orders(effects, Commands.HandleRouted(config, Contents(), id, relay))
    {
      var ids := ResolveDestination(id, relay.destination, relay.policy);
      effects := SendTo(ids, relay.event);
    }

    method AnswerFlightPlanQuery(id: ConnectionId, source: Callsign, arguments: seq<Bytes>)
      returns (effects: OrderedEffects)
      requires Valid()
      ensures Orders(effects, Commands.AnswerFlightPlanQuery(Contents(), id, source, arguments))
    {
      if arguments == [] || ParseCallsign(arguments[0]).Err? {
        return Fail(id, Some(source), Syntax, "");
      }
      var target := ParseCallsign(arguments[0]).value;
      if target !in callsigns {
        return Fail(id, Some(source), NoSuchCallsign, target.text);
      }
      var owner := callsigns[target];
      if owner !in sessions || sessions[owner].flightPlan.None? {
        return Fail(id, Some(source), NoFlightPlan, "");
      }
      assert Lists([id], {id});
      effects := SendTo([id], FlightPlanEvent(sessions[owner].flightPlan.value, Direct(source)));
    }

    method HandleStateCommand(id: ConnectionId, command: Command) returns (effects: OrderedEffects)
      requires Valid() && id in sessions && sessions[id].presence.Some?
      requires Commands.IsStateCommand(command) && command.Source() == sessions[id].presence.value.callsign
      modifies this
      ensures Valid()
      ensures var presence := old(sessions[id].presence.value);
              var outcome := Commands.HandleStateCommand(config, old(Contents()), id, presence, command);
              Contents() == outcome.state && Orders(effects, outcome.effects)
    {
      hide Commands.HandlePosition;
      hide Commands.HandleFlightPlan;
      hide Lifecycle.Disconnect;
      hide Inv;
      hide Orders;
      match command
      case Logoff(_) => effects := Disconnect(id, "client logoff");
      case UpdatePosition(position) => effects := HandlePosition(id, position);
      case FileFlightPlan(plan) => effects := HandleFlightPlan(id, plan);
    }

    /** What the server answers itself. */
    method ServerReply(id: ConnectionId, command: Command) returns (effects: OrderedEffects)
      requires Valid()
      ensures Orders(effects, Commands.ServerReply(Contents(), id, command))
    {
      hide Commands.AnswerFlightPlanQuery;
      hide Inv;
      effects := NOTHING;
      match command
      case Query(source, _, kind, arguments) =>
        if kind.FlightPlanQuery? {
          effects := AnswerFlightPlanQuery(id, source, arguments);
        }
      case Ping(source, _, payload) =>
        assert Lists([id], {id});
        effects := SendTo([id], PongEvent("server", Direct(source), payload));
      case _ =>
    }

    /** The dispatcher for commands of active sessions. */
    method ExecuteActive(id: ConnectionId, command: Command) returns (effects: OrderedEffects)
      requires Valid()
      modifies this
      ensures Valid()
      ensures var outcome := Commands.ExecuteActive(config, old(Contents()), id, command);
              Contents() == outcome.state && Orders(effects, outcome.effects)
    {
      assert Orders(NOTHING, NO_EFFECTS);
      hide Commands.HandleStateCommand;
      hide Commands.HandleKill;
      hide Commands.HandleRouted;
      hide Commands.ServerReply;
      hide Commands.RelayOf;
      hide Commands.IsStateCommand;
      hide Inv;
      hide Orders;
      if id !in sessions || !sessions[id].phase.Active? || sessions[id].presence.None? {
        return NOTHING;
      }
      var presence := sessions[id].presence.value;
      var relay := Commands.RelayOf(command);
      if command.Source() != presence.callsign {
        effects := Fail(id, Some(presence.callsign), InvalidSource, command.Source().text);
      } else if relay.Some? {
        effects := Relayed(id, relay.value);
      } else if Commands.IsStateCommand(command) {
        effects := HandleStateCommand(id, command);
      } else if command.Kill? {
        effects := HandleKill(id, presence, command.target, command.reason);
      } else {
        effects := ServerReply(id, command);
      }
    }
  }
}
