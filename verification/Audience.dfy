/**
 Who hears what. For every command of an active session this module says, from
 the point of view of one listener and on the fields of the command alone, which
 events the listener is due; and proves that these are what it gets, each once
 and in this order.
 */
module Audience {
  import opened Wrappers
  import opened Text
  import opened Model
  import opened State
  import Routing
  import Lifecycle
  import Commands

  // ---------------------------------------------------------------- What a listener gets

  /** The events delivered to `j`, in order. */
  function Heard(ds: seq<Delivery>, j: ConnectionId): seq<Event> {
    if ds == [] then []
    else (if j in ds[0].recipients then [ds[0].event] else []) + Heard(ds[1..], j)
  }

  lemma {:induction false} HeardAppend(a: seq<Delivery>, b: seq<Delivery>, j: ConnectionId)
    ensures Heard(a + b, j) == Heard(a, j) + Heard(b, j)
  {
    if a == [] {
      assert a + b == b;
    } else {
      var first := if j in a[0].recipients then [a[0].event] else [];
      assert (a + b)[0] == a[0] && (a + b)[1..] == a[1..] + b;
      assert Heard(a + b, j) == first + Heard(a[1..] + b, j);
      assert Heard(a, j) == first + Heard(a[1..], j);
      HeardAppend(a[1..], b, j);
      hide Heard;
      EventsRegroup(first, Heard(a[1..], j), Heard(b, j));
    }
  }

  lemma EventsRegroup(a: seq<Event>, b: seq<Event>, c: seq<Event>)
    ensures a + (b + c) == a + b + c
  {
  }

  lemma HeardOne(d: Delivery, j: ConnectionId)
    ensures Heard([d], j) == if j in d.recipients then [d.event] else []
  {
    assert [d][1..] == [];
  }

  lemma HeardSend(recipients: set<ConnectionId>, event: Event, j: ConnectionId)
    ensures Heard(Lifecycle.Send(recipients, event).deliveries, j) == if j in recipients then [event] else []
  {
    HeardOne(Delivery(recipients, event), j);
  }

  // ---------------------------------------------------------------- Distances and audiences

  predicate IsPeer(s: NetworkState, id: ConnectionId, j: ConnectionId) {
    j != id && IsActive(s, j)
  }

  /** `k` is the active session that presents the callsign. */
  predicate Presents(s: NetworkState, k: ConnectionId, callsign: Callsign) {
    IsActive(s, k) && s.sessions[k].presence.Some? && s.sessions[k].presence.value.callsign == callsign
  }

  ghost predicate Claimed(s: NetworkState, callsign: Callsign) {
    exists k :: Presents(s, k, callsign)
  }

  ghost function Holder(s: NetworkState, callsign: Callsign): ConnectionId
    requires Claimed(s, callsign)
  {
    var k :| Presents(s, k, callsign);
    k
  }

  lemma HolderIsIndexed(s: NetworkState, callsign: Callsign)
    requires Inv(s)
    ensures Claimed(s, callsign) <==> callsign in s.callsigns
    ensures Claimed(s, callsign) ==> Holder(s, callsign) == s.callsigns[callsign]
    ensures forall k :: Presents(s, k, callsign) <==> callsign in s.callsigns && s.callsigns[callsign] == k
  {
    if callsign in s.callsigns {
      var k := s.callsigns[callsign];
      assert SessionOk(k, s.sessions[k]);
      assert Presents(s, k, callsign);
    }
  }

  predicate OfType(s: NetworkState, k: ConnectionId, types: set<ClientType>) {
    k in s.sessions && s.sessions[k].presence.Some? && s.sessions[k].presence.value.clientType in types
  }

  predicate Located(position: Option<Position>) {
    position.Some? && position.value.latitude.Finite? && position.value.longitude.Finite?
  }

  /** Both have reported a position, and they are at most `reach` apart. */
  predicate Near(config: CoreConfig, a: Option<Position>, b: Option<Position>, reach: real) {
    && Located(a) && Located(b)
    && config.distance(
         Point(a.value.latitude.value, a.value.longitude.value),
         Point(b.value.latitude.value, b.value.longitude.value)) <= reach
  }

  /** How far a message carries between two sessions: pilots and observers add
      their ranges, otherwise the longer one counts. */
  function MessageReach(s: NetworkState, id: ConnectionId, j: ConnectionId): real
    requires id in s.sessions && j in s.sessions
  {
    var a, b := Routing.SessionRange(s.sessions[id]), Routing.SessionRange(s.sessions[j]);
    if OfType(s, id, {Pilot, Observer}) && OfType(s, j, {Pilot, Observer}) then a + b
    else if a <= b then b else a
  }

  /** What `j` hears of a message from `id`; texts carry as messages do, all other
      commands only as far as the sender's own range. */
  predicate InAudience(
    config: CoreConfig, s: NetworkState, id: ConnectionId, j: ConnectionId, destination: Destination, isText: bool)
    requires id in s.sessions
  {
    && IsPeer(s, id, j)
    && match destination
       case Server => false
       case Direct(callsign) => Presents(s, j, callsign)
       case All => true
       case AllAtc => OfType(s, j, {Atc})
       case Pilots => OfType(s, j, {Pilot, Observer})
       case Range(_) =>
         Near(
           config, s.sessions[id].position, s.sessions[j].position,
           if isText then MessageReach(s, id, j) else Routing.SessionRange(s.sessions[id]))
  }

  /** `j` sees the position that `id` reports: a controller within the visual range
      it reported itself, the others as far as messages carry. */
  predicate SeesPosition(config: CoreConfig, s: NetworkState, id: ConnectionId, j: ConnectionId, position: Position)
    requires id in s.sessions
  {
    && IsPeer(s, id, j)
    && var now := s.(sessions := s.sessions[id := s.sessions[id].(position := Some(position))]);
       var own := s.sessions[j].position;
       if OfType(s, j, {Atc}) then
         own.Some? && own.value.AtcPosition? && Near(config, Some(position), own, own.value.visualRange as real)
       else Near(config, Some(position), own, MessageReach(now, id, j))
  }

  // ---------------------------------------------------------------- What a listener is due

  function When(condition: bool, event: Event): seq<Event> {
    if condition then [event] else []
  }

  function SessionCallsign(s: NetworkState, k: ConnectionId): Option<Callsign> {
    if k in s.sessions && s.sessions[k].presence.Some? then Some(s.sessions[k].presence.value.callsign) else None
  }

  /** What `j` is due when `id`, whose presence is `presence`, leaves. */
  function DueFarewell(s: NetworkState, id: ConnectionId, j: ConnectionId, presence: ClientPresence): seq<Event> {
    When(IsPeer(s, id, j), ClientRemoved(presence.callsign, presence.clientType, presence.networkId))
  }

  /** The server's answer to a flight-plan query. */
  ghost function DueAnswer(s: NetworkState, source: Callsign, arguments: seq<Bytes>): Event {
    if arguments == [] || ParseCallsign(arguments[0]).Err? then
      ErrorEvent(Some(source), Syntax, "", "Syntax error")
    else
      var target := ParseCallsign(arguments[0]).value;
      if !Claimed(s, target) then ErrorEvent(Some(source), NoSuchCallsign, target.text, "No such callsign")
      else
        var k := Holder(s, target);
        if k in s.sessions && s.sessions[k].flightPlan.Some?
        then FlightPlanEvent(s.sessions[k].flightPlan.value, Direct(source))
        else ErrorEvent(Some(source), NoFlightPlan, "", "No flightplan")
  }

  ghost function DueOfKill(
    s: NetworkState, id: ConnectionId, presence: ClientPresence, target: Callsign, reason: Bytes, j: ConnectionId
  ): seq<Event>
  {
    if !Claimed(s, target) then
      When(j == id, ErrorEvent(Some(presence.callsign), NoSuchCallsign, target.text, "No such callsign"))
    else if presence.rating < 11 then
      When(j == id, Welcome(presence.callsign, "You are not allowed to kill users!"))
    else
      var victim := Holder(s, target);
      When(j == id, Welcome(presence.callsign, "Attempting to kill " + target.text))
      + When(Presents(s, j, target), DisconnectEvent(target, reason))
      + if victim in s.sessions && s.sessions[victim].presence.Some?
        then DueFarewell(s, victim, j, s.sessions[victim].presence.value) else []
  }

  ghost function DueOfPosition(
    config: CoreConfig, s: NetworkState, id: ConnectionId, presence: ClientPresence, position: Position, j: ConnectionId
  ): seq<Event>
    requires id in s.sessions
  {
    if position.Violation().Some? then
      When(j == id, ErrorEvent(Some(presence.callsign), Syntax, position.Violation().value.Text(), "Syntax error"))
    else if position.PilotPosition? != presence.clientType.Pilot?
            || position.AtcPosition? != presence.clientType.Atc? then
      When(j == id, ErrorEvent(Some(presence.callsign), Syntax, "position type", "Syntax error"))
    else When(SeesPosition(config, s, id, j, position), PositionEvent(position))
  }

  /** All that `j` is due for a command of the session `id`. */
  ghost function Due(
    config: CoreConfig, s: NetworkState, id: ConnectionId, command: Command, j: ConnectionId): seq<Event>
  {
    if !IsActive(s, id) || s.sessions[id].presence.None? then [] else
    var presence := s.sessions[id].presence.value;
    var source := presence.callsign;
    if command.Source() != source then
      When(j == id, ErrorEvent(Some(source), InvalidSource, command.Source().text, "Invalid source callsign"))
    else
      match command
      case Text(_, destination, message) =>
        When(InAudience(config, s, id, j, destination, true), TextEvent(source, destination, message))
      case Query(_, destination, kind, arguments) =>
        if destination.Server? then
          (if kind.FlightPlanQuery? then When(j == id, DueAnswer(s, source, arguments)) else [])
        else
          When(InAudience(config, s, id, j, destination, false), QueryEvent(source.text, destination, kind, arguments))
      case Response(_, destination, kind, arguments) =>
        When(
          InAudience(config, s, id, j, destination, false), ResponseEvent(source.text, destination, kind, arguments))
      case Ping(_, destination, payload) =>
        if destination.Server? then When(j == id, PongEvent("server", Direct(source), payload))
        else When(InAudience(config, s, id, j, destination, false), PingEvent(source, destination, payload))
      case Pong(_, destination, payload) =>
        When(InAudience(config, s, id, j, destination, false), PongEvent(source.text, destination, payload))
      case Handoff(_, target, kind, fields) =>
        When(IsPeer(s, id, j) && Presents(s, j, target), HandoffEvent(source, target, kind, fields))
      case ClientData(_, target, kind, fields) =>
        When(IsPeer(s, id, j) && Presents(s, j, target), ClientDataEvent(source, target, kind, fields))
      case Logoff(_) => DueFarewell(s, id, j, presence)
      case Kill(_, target, reason) => DueOfKill(s, id, presence, target, reason, j)
      case UpdatePosition(position) => DueOfPosition(config, s, id, presence, position, j)
      case FileFlightPlan(plan) =>
        When(
          IsPeer(s, id, j) && OfType(s, j, {Atc})
          && Near(config, s.sessions[id].position, s.sessions[j].position, 400.0),
          FlightPlanEvent(plan, AllAtc))
      case _ => []
  }

  // ---------------------------------------------------------------- They are the same

  /** Stored positions are finite, so the distance the core computes is this one. */
  lemma DistanceIsNear(config: CoreConfig, s: NetworkState, a: ConnectionId, b: ConnectionId, reach: real)
    requires Inv(s) && a in s.sessions && b in s.sessions
    ensures Routing.DistanceAtMost(config, s, a, b, reach)
            <==> Near(config, s.sessions[a].position, s.sessions[b].position, reach)
  {
    assert SessionOk(a, s.sessions[a]) && SessionOk(b, s.sessions[b]);
  }

  lemma ResolvedIsAudience(
    config: CoreConfig, s: NetworkState, id: ConnectionId, destination: Destination, isText: bool, j: ConnectionId)
    requires Inv(s) && id in s.sessions
    ensures j in Routing.ResolveDestination(
                   config, s, id, destination, if isText then Routing.MessageRange else Routing.SourceRange)
            <==> InAudience(config, s, id, j, destination, isText)
  {
    hide Routing.SessionRange;
    hide Near;
    match destination
    case Direct(callsign) => HolderIsIndexed(s, callsign);
    case Range(_) =>
      if j in s.sessions {
        RangesAreReach(config, s, id, j);
      }
    case _ =>
  }

  lemma RangesAreReach(config: CoreConfig, s: NetworkState, id: ConnectionId, j: ConnectionId)
    requires Inv(s) && id in s.sessions && j in s.sessions
    ensures Routing.WithinMessageRange(config, s, id, j)
            <==> Near(config, s.sessions[id].position, s.sessions[j].position, MessageReach(s, id, j))
    ensures Routing.WithinSourceRange(config, s, id, j)
            <==> Near(
                   config, s.sessions[id].position, s.sessions[j].position, Routing.SessionRange(s.sessions[id]))
  {
    hide Routing.SessionRange;
    hide Near;
    hide Inv;
    DistanceIsNear(config, s, id, j, MessageReach(s, id, j));
    DistanceIsNear(config, s, id, j, Routing.SessionRange(s.sessions[id]));
  }

  lemma PositionIsSeen(
    config: CoreConfig, s: NetworkState, id: ConnectionId, position: Position, j: ConnectionId)
    requires Inv(s) && id in s.sessions && s.sessions[id].presence.Some?
    requires StoredPositionOk(position, s.sessions[id].presence.value)
    ensures var after := s.(sessions := s.sessions[id := s.sessions[id].(position := Some(position))]);
            j in Routing.PositionRecipients(config, after, id) <==> SeesPosition(config, s, id, j, position)
  {
    var session := s.sessions[id].(position := Some(position));
    var after := s.(sessions := s.sessions[id := session]);
    assert SessionOk(id, s.sessions[id]);
    Commands.UpdateKeepsInv(s, id, session);
    if IsPeer(s, id, j) {
      hide Routing.SessionRange;
      PositionIsReach(config, after, id, j);
    }
  }

  lemma PositionIsReach(config: CoreConfig, s: NetworkState, id: ConnectionId, j: ConnectionId)
    requires Inv(s) && id in s.sessions && j in s.sessions
    ensures Routing.WithinPositionRange(config, s, id, j) <==>
            if OfType(s, j, {Atc}) then
              var own := s.sessions[j].position;
              own.Some? && own.value.AtcPosition?
              && Near(config, s.sessions[id].position, own, own.value.visualRange as real)
            else Near(config, s.sessions[id].position, s.sessions[j].position, MessageReach(s, id, j))
  {
    hide Routing.SessionRange;
    assert SessionOk(j, s.sessions[j]);
    if OfType(s, j, {Atc}) {
      if Routing.DistanceBetween(config, s, id, j).Some? {
        Routing.ControllerHearsItsVisualRange(config, s, id, j);
        DistanceIsNear(config, s, id, j, s.sessions[j].position.value.visualRange as real);
      }
    } else {
      Routing.PositionRangeIsMessageRange(config, s, id, j);
      RangesAreReach(config, s, id, j);
    }
  }

  lemma FarewellIsHeard(s: NetworkState, id: ConnectionId, reason: Bytes, j: ConnectionId)
    requires Inv(s)
    ensures Heard(Lifecycle.Disconnect(s, id, reason).effects.deliveries, j) ==
            if id in s.sessions && s.sessions[id].presence.Some?
            then DueFarewell(s, id, j, s.sessions[id].presence.value) else []
  {
    if id in s.sessions && s.sessions[id].presence.Some? {
      var p := s.sessions[id].presence.value;
      HeardSend(
        Routing.ActiveIds(Lifecycle.Released(s, id), None), ClientRemoved(p.callsign, p.clientType, p.networkId), j);
    }
  }

  lemma ErrorIsHeard(
    id: ConnectionId, callsign: Option<Callsign>, code: ErrorCode, environment: Bytes, j: ConnectionId)
    ensures Heard(Lifecycle.ErrorEffect(id, callsign, code, environment).deliveries, j)
            == When(j == id, ErrorEvent(callsign, code, environment, code.Description()))
  {
    HeardSend({id}, ErrorEvent(callsign, code, environment, code.Description()), j);
  }

  lemma RelayIsHeard(
    config: CoreConfig, s: NetworkState, id: ConnectionId, destination: Destination, isText: bool, event: Event,
    j: ConnectionId)
    requires Inv(s) && id in s.sessions
    ensures var policy := if isText then Routing.MessageRange else Routing.SourceRange;
            Heard(Commands.HandleRouted(config, s, id, Commands.Relay(destination, policy, event)).deliveries, j)
            == When(InAudience(config, s, id, j, destination, isText), event)
  {
    hide Routing.ResolveDestination;
    hide InAudience;
    var policy := if isText then Routing.MessageRange else Routing.SourceRange;
    ResolvedIsAudience(config, s, id, destination, isText, j);
    HeardSend(Routing.ResolveDestination(config, s, id, destination, policy), event, j);
  }

  lemma RelayedCommandIsHeard(
    config: CoreConfig, s: NetworkState, id: ConnectionId, command: Command, j: ConnectionId)
    requires Inv(s) && Commands.FromItsOwner(s, id, command) && Commands.RelayOf(command).Some?
    ensures Heard(Commands.HandleRouted(config, s, id, Commands.RelayOf(command).value).deliveries, j)
            == Due(config, s, id, command, j)
  {
    hide InAudience;
    hide Commands.HandleRouted;
    hide Inv;
    var relay := Commands.RelayOf(command).value;
    RelayIsHeard(config, s, id, relay.destination, command.Text?, relay.event, j);
    match command
    case Handoff(_, target, _, _) => DirectAudience(config, s, id, j, target);
    case ClientData(_, target, _, _) => DirectAudience(config, s, id, j, target);
    case _ =>
  }

  lemma DirectAudience(config: CoreConfig, s: NetworkState, id: ConnectionId, j: ConnectionId, target: Callsign)
    requires id in s.sessions
    ensures InAudience(config, s, id, j, Direct(target), false) <==> IsPeer(s, id, j) && Presents(s, j, target)
  {
  }

  lemma KillIsHeard(
    s: NetworkState, id: ConnectionId, presence: ClientPresence, target: Callsign, reason: Bytes, j: ConnectionId)
    requires Inv(s)
    ensures Heard(Commands.HandleKill(s, id, presence, target, reason).effects.deliveries, j)
            == DueOfKill(s, id, presence, target, reason, j)
  {
    hide Lifecycle.Disconnect;
    HolderIsIndexed(s, target);
    ErrorIsHeard(id, Some(presence.callsign), NoSuchCallsign, target.text, j);
    HeardSend({id}, Welcome(presence.callsign, "You are not allowed to kill users!"), j);
    if target in s.callsigns {
      var victim := s.callsigns[target];
      var notice := Lifecycle.Send({id}, Welcome(presence.callsign, "Attempting to kill " + target.text)).deliveries;
      var farewell := Lifecycle.Send({victim}, DisconnectEvent(target, reason)).deliveries;
      var release := Lifecycle.Disconnect(s, victim, reason).effects.deliveries;
      HeardSend({id}, Welcome(presence.callsign, "Attempting to kill " + target.text), j);
      HeardSend({victim}, DisconnectEvent(target, reason), j);
      FarewellIsHeard(s, victim, reason, j);
      HeardAppend(notice, farewell, j);
      HeardAppend(notice + farewell, release, j);
    }
  }

  lemma StateCommandIsHeard(
    config: CoreConfig, s: NetworkState, id: ConnectionId, command: Command, j: ConnectionId)
    requires Inv(s) && Commands.FromItsOwner(s, id, command) && Commands.IsStateCommand(command)
    ensures Heard(
              Commands.HandleStateCommand(config, s, id, s.sessions[id].presence.value, command).effects.deliveries, j)
            == Due(config, s, id, command, j)
  {
    hide Lifecycle.Disconnect;
    hide SeesPosition;
    var presence := s.sessions[id].presence.value;
    match command
    case Logoff(_) => FarewellIsHeard(s, id, "client logoff", j);
    case UpdatePosition(position) => PositionIsHeard(config, s, id, position, j);
    case FileFlightPlan(plan) => PlanIsHeard(config, s, id, plan, j);
  }

  lemma PositionIsHeard(config: CoreConfig, s: NetworkState, id: ConnectionId, position: Position, j: ConnectionId)
    requires Inv(s) && id in s.sessions && s.sessions[id].presence.Some?
    requires position.callsign == s.sessions[id].presence.value.callsign
    ensures var presence := s.sessions[id].presence.value;
            Heard(Commands.HandlePosition(config, s, id, presence, position).effects.deliveries, j)
            == DueOfPosition(config, s, id, presence, position, j)
  {
    hide Routing.PositionRecipients;
    hide SeesPosition;
    hide Inv;
    var presence := s.sessions[id].presence.value;
    if position.Violation().Some? {
      ErrorIsHeard(id, Some(presence.callsign), Syntax, position.Violation().value.Text(), j);
    } else if presence.clientType != (if position.PilotPosition? then Pilot else Atc) {
      ErrorIsHeard(id, Some(presence.callsign), Syntax, "position type", j);
    } else {
      PositionIsSeen(config, s, id, position, j);
      var after := s.(sessions := s.sessions[id := s.sessions[id].(position := Some(position))]);
      HeardSend(Routing.PositionRecipients(config, after, id), PositionEvent(position), j);
    }
  }

  lemma PlanIsHeard(config: CoreConfig, s: NetworkState, id: ConnectionId, plan: FlightPlan, j: ConnectionId)
    requires Inv(s) && id in s.sessions && s.sessions[id].presence.Some?
    requires plan.callsign == s.sessions[id].presence.value.callsign
    ensures Heard(Commands.HandleFlightPlan(config, s, id, plan).effects.deliveries, j) ==
            When(
              IsPeer(s, id, j) && OfType(s, j, {Atc})
              && Near(config, s.sessions[id].position, s.sessions[j].position, 400.0),
              FlightPlanEvent(plan, AllAtc))
  {
    hide Near;
    var session := s.sessions[id].(flightPlan := Some(plan));
    var after := s.(sessions := s.sessions[id := session]);
    assert SessionOk(id, s.sessions[id]);
    Commands.UpdateKeepsInv(s, id, session);
    if j in s.sessions {
      DistanceIsNear(config, after, id, j, 400.0);
    }
    HeardSend(Routing.FlightPlanRecipients(config, after, id, 400.0), FlightPlanEvent(plan, AllAtc), j);
  }

  lemma ReplyIsHeard(config: CoreConfig, s: NetworkState, id: ConnectionId, command: Command, j: ConnectionId)
    requires Inv(s) && Commands.FromItsOwner(s, id, command)
    requires Commands.RelayOf(command).None? && !Commands.IsStateCommand(command) && !command.Kill?
    ensures Heard(Commands.ServerReply(s, id, command).deliveries, j) == Due(config, s, id, command, j)
  {
    hide InAudience;
    match command
    case Query(source, _, kind, arguments) =>
      if kind.FlightPlanQuery? {
        AnswerIsHeard(s, id, source, arguments, j);
      }
    case Ping(source, _, payload) => HeardSend({id}, PongEvent("server", Direct(source), payload), j);
    case _ =>
  }

  lemma AnswerIsHeard(s: NetworkState, id: ConnectionId, source: Callsign, arguments: seq<Bytes>, j: ConnectionId)
    requires Inv(s)
    ensures Heard(Commands.AnswerFlightPlanQuery(s, id, source, arguments).deliveries, j)
            == When(j == id, DueAnswer(s, source, arguments))
  {
    hide ParseCallsign;
    HeardSend({id}, DueAnswer(s, source, arguments), j);
    if arguments != [] && ParseCallsign(arguments[0]).Ok? {
      HolderIsIndexed(s, ParseCallsign(arguments[0]).value);
    }
  }

  /** The main result: whatever a session commands, every session hears exactly
      what it is due. */
  lemma CommandIsHeard(config: CoreConfig, s: NetworkState, id: ConnectionId, command: Command, j: ConnectionId)
    requires Inv(s)
    ensures Heard(Commands.ExecuteActive(config, s, id, command).effects.deliveries, j)
            == Due(config, s, id, command, j)
  {
    if !IsActive(s, id) || s.sessions[id].presence.None? {
      return;
    }
    var source := s.sessions[id].presence.value.callsign;
    if command.Source() != source {
      ErrorIsHeard(id, Some(source), InvalidSource, command.Source().text, j);
      return;
    }
    hide Due;
    hide Inv;
    hide Commands.RelayOf;
    hide Commands.HandleRouted;
    hide Commands.HandleStateCommand;
    hide Commands.HandleKill;
    hide Commands.ServerReply;
    if Commands.RelayOf(command).Some? {
      RelayedCommandIsHeard(config, s, id, command, j);
    } else if Commands.IsStateCommand(command) {
      StateCommandIsHeard(config, s, id, command, j);
    } else if command.Kill? {
      KillIsDue(config, s, id, command, j);
      KillIsHeard(s, id, s.sessions[id].presence.value, command.target, command.reason, j);
    } else {
      ReplyIsHeard(config, s, id, command, j);
    }
  }

  lemma KillIsDue(config: CoreConfig, s: NetworkState, id: ConnectionId, command: Command, j: ConnectionId)
    requires Commands.FromItsOwner(s, id, command) && command.Kill?
    ensures Due(config, s, id, command, j)
            == DueOfKill(s, id, s.sessions[id].presence.value, command.target, command.reason, j)
  {
  }

  /** The deliveries of an accepted kill: the notice to the issuer, then the one
      disconnect event, to the session that presents the callsign and to no other,
      then the news of the removal to whoever is left. */
  lemma KillDelivers(config: CoreConfig, s: NetworkState, id: ConnectionId, command: Command)
    requires Inv(s) && Commands.FromItsOwner(s, id, command) && command.Kill?
    requires Claimed(s, command.target) && s.sessions[id].presence.value.rating >= 11
    ensures var ds := Commands.ExecuteActive(config, s, id, command).effects.deliveries;
            && 2 <= |ds| <= 3
            && ds[0] == Delivery({id}, Welcome(command.Source(), "Attempting to kill " + command.target.text))
            && ds[1] == Delivery({Holder(s, command.target)}, DisconnectEvent(command.target, command.reason))
            && (|ds| == 3 ==> ds[2].event.ClientRemoved? && ds[2].event.removed == command.target
                              && ds[2].recipients == set k | k in s.sessions && IsActive(s, k)
                                                             && k != Holder(s, command.target))
  {
    HolderIsIndexed(s, command.target);
    var victim := s.callsigns[command.target];
    assert SessionOk(victim, s.sessions[victim]);
  }

  /** Which positions are accepted, and the field that is reported otherwise. */
  lemma PositionAcceptedExactly(position: Position)
    ensures var latitudeOk := position.latitude.Finite? && -90.0 <= position.latitude.value <= 90.0;
            var longitudeOk := position.longitude.Finite? && -180.0 <= position.longitude.value <= 180.0;
            match position.Violation()
            case None =>
              && latitudeOk && longitudeOk
              && (position.PilotPosition? ==>
                    && position.mode in "NSY"
                    && 1 <= |position.squawk| <= 4
                    && forall i :: 0 <= i < |position.squawk| ==> position.squawk[i] in "01234567")
              && (position.AtcPosition? ==> position.visualRange >= 0)
            case Some(error) =>
              && error.InvalidField?
              && if !latitudeOk then error.field == "latitude"
                 else if !longitudeOk then error.field == "longitude"
                 else if position.AtcPosition? then error.field == "visual_range" && position.visualRange < 0
                 else if position.mode !in "NSY" then error.field == "mode"
                 else
                   && error.field == "squawk"
                   && (|position.squawk| < 1 || |position.squawk| > 4
                       || exists i :: 0 <= i < |position.squawk| && position.squawk[i] !in "01234567")
  {
    forall c: char ensures c in "01234567" <==> '0' <= c <= '7' {
      OctalDigit(c);
    }
    forall c: char ensures c in "NSY" <==> c == 'N' || c == 'S' || c == 'Y' {
    }
  }

  lemma OctalDigit(c: char)
    ensures c in "01234567" <==> '0' <= c <= '7'
  {
    assert "01234567" == ['0', '1', '2', '3', '4', '5', '6', '7'];
  }
}
