/** A directed command on its whole way, from the sender's frame to the receiver's decoder. */
module EndToEnd {
  import opened Wrappers
  import opened Text
  import opened Model
  import opened State
  import opened System
  import Backends
  import Codec
  import Commands
  import NetworkCore
  import Packet
  import Routing
  import Runtime
  import ClassicProtocol
  import RelayRoundTrip
  import RelayContent
  import RelayLimits

  const LIMIT := ClassicProtocol.CLASSIC_MAX_FRAME_BYTES

  /** What the recipient of a directed command is told. */
  function DirectedEvent(command: Command): Event
    requires exists target :: RelayLimits.IsDirectedTo(command, target)
  {
    match command
    case Text(source, destination, message) => TextEvent(source, destination, message)
    case Query(source, destination, kind, arguments) => QueryEvent(source.text, destination, kind, arguments)
    case Response(source, destination, kind, arguments) => ResponseEvent(source.text, destination, kind, arguments)
    case Ping(source, destination, payload) => PingEvent(source, destination, payload)
    case Pong(source, destination, payload) => PongEvent(source.text, destination, payload)
    case Handoff(source, to, kind, fields) => HandoffEvent(source, to, kind, fields)
    case ClientData(source, to, kind, fields) => ClientDataEvent(source, to, kind, fields)
  }

  predicate Accepted(event: Event) {
    ClassicProtocol.PacketOf(event).Some? && ClassicProtocol.PacketOf(event).value.Encoded(LIMIT).Ok?
  }

  function SentFor(event: Event): Bytes
    requires Accepted(event)
  {
    ClassicProtocol.PacketOf(event).value.Encoded(LIMIT).value
  }

  /** In any reachable state, a directed command that an active client sends in a
      frame within the limit is delivered to exactly one session, the one that
      holds the target callsign now. The encoder never refuses it; and the octets
      sent make the receiver's decoder yield one frame, which means exactly what
      the sender's frame meant and carries its fields. */
  lemma DirectedCommandArrives(
    config: CoreConfig, run: seq<Action>, sender: ConnectionId, frame: Bytes, command: Command,
    target: Callsign)
    requires Codec.IsFrame(LIMIT, frame)
    requires ClassicProtocol.Decode(frame) == ClassicProtocol.Decoded(command)
    requires RelayLimits.IsDirectedTo(command, target)
    requires Commands.FromItsOwner(Play(config, run).net, sender, command)
    requires var s := Play(config, run).net; target in s.callsigns && s.callsigns[target] != sender
    ensures var s := Play(config, run).net;
            var receiver := s.callsigns[target];
            && Apply(config, Play(config, run), Execute(sender, command))
               == Outcome(s, Effects([Delivery({receiver}, DirectedEvent(command))], None))
            && IsActive(s, receiver) && s.sessions[receiver].CallsignOf() == Some(target)
    ensures Accepted(DirectedEvent(command))
    ensures var sent := SentFor(DirectedEvent(command));
            && Codec.Drain(LIMIT, Codec.EncodeAll([sent])) == Codec.Progress([sent], false, [])
            && ClassicProtocol.Decode(sent) == ClassicProtocol.Decode(frame)
            && Packet.Parse(frame).Ok? && Packet.Parse(sent).Ok?
            && RelayContent.SameContent(Packet.Parse(frame).value, Packet.Parse(sent).value)
            && RelayContent.PrefixKept(frame, sent)
  {
    hide Packet.Parse;
    hide RelayContent.SameContent;
    hide ClassicProtocol.Decode;
    hide ClassicProtocol.PacketOf;
    hide Commands.RelayOf;
    hide Commands.ExecuteActive;
    hide Codec.Drain;
    hide Codec.EncodeAll;
    hide Next;
    var s := Play(config, run).net;
    ReachableGood(config, run);
    var event := DirectedEvent(command);
    DirectedRelay(config, s, sender, command, target);
    Routing.DirectReachesExactlyTheOwner(
      config, s, sender, target, Commands.RelayOf(command).value.policy, s.callsigns[target]);
    RelayLimits.DirectedIsNeverRefused(frame, command, event, target);
    RelayLimits.RelayedExactly(frame, command, event);
    EncodedIsFrame(ClassicProtocol.PacketOf(event).value);
    Codec.StreamRoundTrip(LIMIT, [SentFor(event)]);
  }

  /** The dispatcher's part of the way: whatever other threads do to the
      connections before it serves the receiver, and in whatever form it gets the
      effects of the command, it puts that one frame into the mailbox of the
      receiver, if the receiver is connected over the classic or the VATSIM
      protocol; if the mailbox cannot take it, the connection is cancelled. Nobody
      else is touched. */
  lemma DirectedCommandIsQueued(
    config: CoreConfig, run: seq<Action>, sender: ConnectionId, frame: Bytes, command: Command,
    target: Callsign,
    capacity: nat, serverName: Bytes, library: Backends.Library, schedule: Runtime.Schedule,
    connections: Runtime.Connections, effects: NetworkCore.OrderedEffects)
    requires Codec.IsFrame(LIMIT, frame)
    requires ClassicProtocol.Decode(frame) == ClassicProtocol.Decoded(command)
    requires RelayLimits.IsDirectedTo(command, target)
    requires Commands.FromItsOwner(Play(config, run).net, sender, command)
    requires var s := Play(config, run).net; target in s.callsigns && s.callsigns[target] != sender
    requires NetworkCore.Orders(effects, Apply(config, Play(config, run), Execute(sender, command)).effects)
    requires var receiver := Play(config, run).net.callsigns[target];
             var before := schedule(0)(0).others(connections);
             receiver in before && !before[receiver].dialect.AsterV1?
    ensures Accepted(DirectedEvent(command))
    ensures var receiver := Play(config, run).net.callsigns[target];
            var sent := SentFor(DirectedEvent(command));
            var before := schedule(0)(0).others(connections);
            var handle := before[receiver];
            Runtime.Dispatched(Backends.Registry(capacity, serverName, library), schedule, connections, effects)
            == before[receiver :=
                 if handle.receiverGone || |handle.mailbox| >= capacity then handle.(cancelled := true)
                 else handle.(mailbox := handle.mailbox + [Runtime.Frames([sent])])]
  {
    hide ClassicProtocol.Decode;
    hide ClassicProtocol.PacketOf;
    hide Commands.RelayOf;
    hide Apply;
    hide Play;
    hide Backends.Registry;
    hide Codec.Drain;
    hide Packet.Parse;
    hide RelayContent.SameContent;
    var event := DirectedEvent(command);
    DirectedCommandArrives(config, run, sender, frame, command, target);
    var receiver := Play(config, run).net.callsigns[target];
    var env := Backends.Registry(capacity, serverName, library);
    OneDelivery(env, schedule, connections, effects, receiver, event);
    Backends.RelayIsQueued(capacity, serverName, library, schedule(0)(0), connections, receiver, event);
  }

  /** Effects with one recipient are dispatched in one step. */
  lemma OneDelivery(
    env: Runtime.Environment, schedule: Runtime.Schedule, connections: Runtime.Connections,
    effects: NetworkCore.OrderedEffects, receiver: ConnectionId, event: Event)
    requires NetworkCore.Orders(effects, Effects([Delivery({receiver}, event)], None))
    ensures Runtime.Dispatched(env, schedule, connections, effects)
            == Runtime.DeliverOne(env, connections, schedule(0)(0), receiver, event)
  {
    hide Runtime.DeliverOne;
    var ds := effects.deliveries;
    var ids := ds[0].recipients;
    assert receiver in ids;
    assert ids[0] in ids && ids[|ids| - 1] in ids;
    assert ids == [receiver];
    assert ds[..0] == [] && ids[..0] == [];
    assert Runtime.DeliverAll(env, schedule, connections, ds[..0]) == connections;
    assert Runtime.Deliver(env, schedule(0), connections, ids[..0], event) == connections;
  }

  lemma DirectedRelay(config: CoreConfig, s: NetworkState, sender: ConnectionId, command: Command, target: Callsign)
    requires RelayLimits.IsDirectedTo(command, target) && Commands.FromItsOwner(s, sender, command)
    requires target in s.callsigns && s.callsigns[target] != sender
    ensures RelayRoundTrip.EventOf(command) == Some(DirectedEvent(command)) && Commands.RelayOf(command).Some?
    ensures !command.FileFlightPlan? && !command.Identify? && !command.Login? && !command.WeatherRequest?
    ensures Commands.ExecuteActive(config, s, sender, command)
            == Outcome(s, Effects([Delivery({s.callsigns[target]}, DirectedEvent(command))], None))
  {
  }

  lemma EncodedIsFrame(p: Packet.RawPacket)
    requires p.Encoded(LIMIT).Ok?
    ensures Codec.IsFrame(LIMIT, p.Encoded(LIMIT).value)
  {
    Packet.PrintParts(p);
  }
}
