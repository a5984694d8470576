/** The three protocol backends as the dispatcher sees them. */
module Backends {
  import opened Wrappers
  import opened Text
  import opened Model
  import opened Runtime
  import Packet
  import ClassicProtocol

  const VATSIM_MAX_FRAME_BYTES: nat := 4096

  /** Library code: the formatting of coordinates, and JSON. */
  datatype Library = Library(format: ClassicProtocol.Formatter, json: (EncodeContext, Event) -> Encoding)

  function EncodePacket(packet: Packet.RawPacket, limit: nat): Encoding {
    match packet.Encoded(limit)
    case Ok(frame) => Ok([frame])
    case Err(_) => Err(())
  }

  function EncodeClassic(library: Library, context: EncodeContext, event: Event): Encoding {
    EncodePacket(ClassicProtocol.AnyPacket(library.format, event), ClassicProtocol.CLASSIC_MAX_FRAME_BYTES)
  }

  /** VATSIM announces clients under its own revision, and pilots with their name. */
  function VatsimPresencePacket(client: ClientPresence): Packet.RawPacket {
    var revision := Decimal(VATSIM_PROTOCOL_REVISION);
    if client.clientType.Atc? then
      Packet.RawPacket(
        Packet.Client, "AA", client.callsign.text, "SERVER",
        [client.realName, client.networkId, "", Decimal(client.rating), revision])
    else
      Packet.RawPacket(
        Packet.Client, "AP", client.callsign.text, "SERVER",
        [client.networkId, "", Decimal(client.rating), revision, ClassicProtocol.SimulatorText(client),
         client.realName])
  }

  function EncodeVatsim(library: Library, context: EncodeContext, event: Event): Encoding {
    if event.ClientAdded? then EncodePacket(VatsimPresencePacket(event.client), VATSIM_MAX_FRAME_BYTES)
    else EncodeClassic(library, context, event)
  }

  function BackendOf(library: Library, dialect: ProtocolDialect): Backend {
    var nothing := (event: Event) => false;
    match dialect
    case Classic => Backend((context, event) => EncodeClassic(library, context, event), nothing)
    case Vatsim => Backend((context, event) => EncodeVatsim(library, context, event), nothing)
    case AsterV1 => Backend(library.json, nothing)
  }

  /** The registry of the server. */
  function Registry(capacity: nat, serverName: Bytes, library: Library): Environment {
    Environment(capacity, serverName, dialect => BackendOf(library, dialect))
  }

  /** JSON is produced from the event alone. */
  ghost predicate JsonIgnoresRecipient(library: Library, serverName: Bytes) {
    forall a: EncodeContext, b: EncodeContext, event: Event ::
      a.serverName == serverName && b.serverName == serverName && library.json(a, event).Ok? ==>
        library.json(b, event) == library.json(a, event)
  }

  /** No backend calls any event recipient-specific. The classic and the VATSIM
      encoder keep the promise this makes, so it is kept if and only if the JSON
      encoder keeps it. */
  lemma RegistryIsContextFreeExactlyWhen(capacity: nat, serverName: Bytes, library: Library)
    ensures Registry(capacity, serverName, library).ContextFree() <==> JsonIgnoresRecipient(library, serverName)
  {
    hide ClassicProtocol.AnyPacket;
    hide EncodePacket;
    var env := Registry(capacity, serverName, library);
    assert BackendIsContextFree(env.backends(Classic), serverName);
    assert BackendIsContextFree(env.backends(Vatsim), serverName);
    assert BackendIsContextFree(env.backends(AsterV1), serverName) <==> JsonIgnoresRecipient(library, serverName) by {
      assert env.backends(AsterV1).encode == library.json;
    }
  }

  /** What the recipients of a relayed event get in their mailboxes, whichever
      dispatcher serves them: the frame of the classic encoder as one batch, or a
      cancelled connection when the encoder refuses. */
  lemma RelayIsQueued(
    capacity: nat, serverName: Bytes, library: Library, moment: Moment, connections: Connections,
    id: ConnectionId, event: Event)
    requires ClassicProtocol.PacketOf(event).Some?
    requires id in moment.others(connections) && !moment.others(connections)[id].dialect.AsterV1?
    ensures var before := moment.others(connections);
            var after := DeliverOne(Registry(capacity, serverName, library), connections, moment, id, event);
            after == before[id :=
              match ClassicProtocol.PacketOf(event).value.Encoded(ClassicProtocol.CLASSIC_MAX_FRAME_BYTES)
              case Ok(sent) => TrySend(capacity, before[id], Frames([sent]))
              case Err(_) => before[id].(cancelled := true)]
  {
    assert !event.ClientAdded?;
    hide ClassicProtocol.PacketOf;
    var dialect := moment.others(connections)[id].dialect;
    assert BackendOf(library, dialect).encode(EncodeContext(id, moment.presence, serverName), event)
        == EncodeClassic(library, EncodeContext(id, moment.presence, serverName), event);
  }
}
