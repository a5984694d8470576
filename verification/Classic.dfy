/**
 The classic backend for the commands that the server relays between clients:
 frame to command, event to frame. Positions, logins and weather requests have
 decoders of their own, which are not part of this model.
 */
module ClassicProtocol {
  import opened Wrappers
  import opened Text
  import opened Model
  import opened Packet

  const CLASSIC_MAX_FRAME_BYTES: nat := 511

  datatype ErrorKind = SyntaxError | Unsupported | InvalidFieldError

  datatype ProtocolError = ProtocolError(kind: ErrorKind, code: Option<ErrorCode>)

  const SYNTAX := ProtocolError(SyntaxError, None)

  // ---------------------------------------------------------------- Decoding

  function DecodeCallsign(value: Bytes, code: ErrorCode): Result<Callsign, ProtocolError> {
    match ParseCallsign(value)
    case Ok(callsign) => Ok(callsign)
    case Err(_) => Err(ProtocolError(InvalidFieldError, Some(code)))
  }

  function DecodeDestination(value: Bytes): Result<Destination, ProtocolError> {
    match ParseDestination(value)
    case Ok(destination) => Ok(destination)
    case Err(_) => Err(ProtocolError(InvalidFieldError, None))
  }

  function DecodeDirect(value: Bytes): Result<Callsign, ProtocolError> {
    var destination :- DecodeDestination(value);
    if destination.Direct? then Ok(destination.callsign) else Err(SYNTAX)
  }

  function DecodeI32(value: Bytes): Result<I32, ProtocolError> {
    var n := ParseI32(value);
    if n.Some? then Ok(n.value) else Err(SYNTAX)
  }

  function QueryKindOf(value: Bytes): QueryKind {
    var folded := Upper(value);
    if folded == "RN" then RealName
    else if folded == "FP" then FlightPlanQuery
    else if folded == "CAPS" then Capabilities
    else if folded == "ATIS" then Atis
    else if folded == "INF" then SystemInfo
    else if folded == "ACC" then AircraftConfiguration
    else Raw(value)
  }

  function DecodeText(p: RawPacket): Result<Command, ProtocolError> {
    if |p.fields| < 1 then Err(SYNTAX) else
    var source :- DecodeCallsign(p.source, InvalidSource);
    var destination :- DecodeDestination(p.destination);
    Ok(Command.Text(source, destination, Join(p.fields)))
  }

  function DecodePingPong(p: RawPacket): Result<Command, ProtocolError> {
    var source :- DecodeCallsign(p.source, InvalidSource);
    var destination :- DecodeDestination(p.destination);
    var payload := Join(p.fields);
    Ok(if p.command == "PI" then Ping(source, destination, payload) else Pong(source, destination, payload))
  }

  function DecodeKill(p: RawPacket): Result<Command, ProtocolError> {
    if |p.fields| < 1 then Err(SYNTAX) else
    var source :- DecodeCallsign(p.source, InvalidSource);
    var target :- DecodeCallsign(p.destination, InvalidCallsign);
    Ok(Kill(source, target, Join(p.fields)))
  }

  function DecodeQueryResponse(p: RawPacket): Result<Command, ProtocolError> {
    var response := p.command == "CR";
    if |p.fields| < (if response then 2 else 1) then Err(SYNTAX) else
    var source :- DecodeCallsign(p.source, InvalidSource);
    var kind, arguments := QueryKindOf(p.fields[0]), p.fields[1..];
    if response then
      var target :- DecodeDirect(p.destination);
      Ok(Response(source, Direct(target), kind, arguments))
    else
      var destination :- DecodeDestination(p.destination);
      Ok(Query(source, destination, kind, arguments))
  }

  function DecodeDirectCommand(p: RawPacket): Result<Command, ProtocolError>
    requires p.command in {"HO", "HA", "SB", "PC", "C?", "CI"}
  {
    if p.command in {"HO", "HA", "CI"} && |p.fields| < 1 then Err(SYNTAX) else
    var source :- DecodeCallsign(p.source, InvalidSource);
    var target :- DecodeDirect(p.destination);
    Ok(
      if p.command == "HO" then Handoff(source, target, HandoffRequest, p.fields)
      else if p.command == "HA" then Handoff(source, target, HandoffAccept, p.fields)
      else ClientData(
        source, target,
        if p.command == "SB" then SquawkBox
        else if p.command == "PC" then ProController
        else if p.command == "C?" then CommunicationRequest
        else CommunicationReply,
        p.fields))
  }

  /** The first character of a field, as the octets that encode it. */
  function DecodeFirstChar(field: Bytes): Result<Bytes, ProtocolError> {
    if field == "" then Err(SYNTAX) else Ok(field[..CharLen(field)])
  }

  function DecodeFlightPlan(p: RawPacket): Result<Command, ProtocolError> {
    if |p.fields| < 15 then Err(SYNTAX) else
    var callsign :- DecodeCallsign(p.source, InvalidSource);
    var flightRules :- DecodeFirstChar(p.fields[0]);
    var cruiseSpeed :- DecodeI32(p.fields[2]);
    var estimatedDeparture :- DecodeI32(p.fields[4]);
    var actualDeparture :- DecodeI32(p.fields[5]);
    var hoursEnroute :- DecodeI32(p.fields[8]);
    var minutesEnroute :- DecodeI32(p.fields[9]);
    var hoursFuel :- DecodeI32(p.fields[10]);
    var minutesFuel :- DecodeI32(p.fields[11]);
    Ok(FileFlightPlan(FlightPlan(
      callsign, flightRules, p.fields[1], cruiseSpeed, p.fields[3], estimatedDeparture, actualDeparture,
      p.fields[6], p.fields[7], hoursEnroute, minutesEnroute, hoursFuel, minutesFuel,
      p.fields[12], p.fields[13], p.fields[14])))
  }

  /** What becomes of a frame. `Elsewhere` marks the packets whose decoders are
      not modelled. */
  datatype Decoding = Decoded(command: Command) | Refused(error: ProtocolError) | Elsewhere

  function ToDecoding(r: Result<Command, ProtocolError>): Decoding {
    if r.Ok? then Decoded(r.value) else Refused(r.error)
  }

  function DecodePacket(p: RawPacket): Decoding {
    if p.kind.PilotPosition? || p.kind.AtcPosition? then Elsewhere
    else if p.command == "CQ" || p.command == "CR" then ToDecoding(DecodeQueryResponse(p))
    else if p.command == "WX" || p.command == "AX" then Elsewhere
    else if p.command in {"HO", "HA", "SB", "PC", "C?", "CI"} then ToDecoding(DecodeDirectCommand(p))
    else if p.command == "AA" || p.command == "AP" then Elsewhere
    else if p.command == "DA" || p.command == "DP" then
      var source := DecodeCallsign(p.source, InvalidSource);
      if source.Ok? then Decoded(Logoff(source.value)) else Refused(source.error)
    else if p.command == "TM" then ToDecoding(DecodeText(p))
    else if p.command == "FP" then ToDecoding(DecodeFlightPlan(p))
    else if p.command == "PI" || p.command == "PO" then ToDecoding(DecodePingPong(p))
    else if p.command == "!!" then ToDecoding(DecodeKill(p))
    else Refused(ProtocolError(Unsupported, None))
  }

  function Decode(frame: Bytes): Decoding {
    match Parse(frame)
    case Ok(p) => DecodePacket(p)
    case Err(_) => Refused(SYNTAX)
  }

  // ---------------------------------------------------------------- Encoding

  function DestinationText(destination: Destination): Bytes {
    match destination
    case Server => "SERVER"
    case Direct(callsign) => callsign.text
    case All => "*"
    case AllAtc => "*A"
    case Pilots => "*P"
    case Range(token) => token
  }

  function QueryKindText(kind: QueryKind): Bytes {
    match kind
    case RealName => "RN"
    case FlightPlanQuery => "FP"
    case Capabilities => "CAPS"
    case Atis => "ATIS"
    case SystemInfo => "INF"
    case AircraftConfiguration => "ACC"
    case Raw(text) => text
  }

  function FlightPlanFields(plan: FlightPlan): seq<Bytes> {
    [plan.flightRules, plan.aircraft, Decimal(plan.cruiseSpeed), plan.departure,
     Decimal(plan.estimatedDeparture), Decimal(plan.actualDeparture), plan.cruiseAltitude, plan.destination,
     Decimal(plan.hoursEnroute), Decimal(plan.minutesEnroute), Decimal(plan.hoursFuel), Decimal(plan.minutesFuel),
     plan.alternate, plan.remarks, plan.route]
  }

  function ClientDataCommand(kind: ClientDataKind): Bytes {
    match kind
    case SquawkBox => "SB"
    case ProController => "PC"
    case CommunicationRequest => "C?"
    case CommunicationReply => "CI"
  }

  /** The packet of a relayed event; the other events have encoders that are
      not modelled. */
  function PacketOf(event: Event): Option<RawPacket> {
    match event
    case TextEvent(source, destination, message) =>
      Some(RawPacket(Client, "TM", source.text, DestinationText(destination), [message]))
    case PingEvent(source, destination, payload) =>
      Some(RawPacket(Request, "PI", source.text, DestinationText(destination), [payload]))
    case PongEvent(source, destination, payload) =>
      Some(RawPacket(Request, "PO", source, DestinationText(destination), [payload]))
    case QueryEvent(source, destination, kind, arguments) =>
      Some(RawPacket(Request, "CQ", source, DestinationText(destination), [QueryKindText(kind)] + arguments))
    case ResponseEvent(source, destination, kind, arguments) =>
      Some(RawPacket(Request, "CR", source, DestinationText(destination), [QueryKindText(kind)] + arguments))
    case HandoffEvent(source, target, kind, fields) =>
      Some(RawPacket(Request, if kind.HandoffRequest? then "HO" else "HA", source.text, target.text, fields))
    case ClientDataEvent(source, target, kind, fields) =>
      Some(RawPacket(
        if kind.SquawkBox? || kind.ProController? then Client else Request,
        ClientDataCommand(kind), source.text, target.text, fields))
    case FlightPlanEvent(plan, destination) =>
      Some(RawPacket(Request, "FP", plan.callsign.text, DestinationText(destination), FlightPlanFields(plan)))
    case _ => None
  }

  /** At least three digits. */
  function ThreeDigits(n: nat): Bytes {
    if n < 10 then "00" + Decimal(n) else if n < 100 then "0" + Decimal(n) else Decimal(n)
  }

  /** A coordinate with five decimals is formatted by library code. */
  type Formatter = Coordinate -> Bytes

  function PositionPacket(format: Formatter, position: Position): RawPacket {
    match position
    case PilotPosition(callsign, mode, squawk, rating, latitude, longitude, altitude, groundspeed, pbh, flags) =>
      RawPacket(
        RawPacketKind.PilotPosition, [mode], callsign.text, "",
        [squawk, Decimal(rating), format(latitude), format(longitude), Decimal(altitude), Decimal(groundspeed),
         Decimal(pbh), Decimal(flags)])
    case AtcPosition(callsign, frequency, facilityType, visualRange, rating, latitude, longitude, altitude) =>
      RawPacket(
        RawPacketKind.AtcPosition, "", callsign.text, "",
        [Decimal(frequency), Decimal(facilityType), Decimal(visualRange), Decimal(rating), format(latitude),
         format(longitude), Decimal(altitude)])
  }

  function SimulatorText(client: ClientPresence): Bytes {
    Decimal(if client.simulatorType.Some? then client.simulatorType.value else 0)
  }

  function PresencePacket(client: ClientPresence): RawPacket {
    var revision := Decimal(CLASSIC_PROTOCOL_REVISION);
    if client.clientType.Atc? then
      RawPacket(
        Client, "AA", client.callsign.text, "SERVER",
        [client.realName, client.networkId, "", Decimal(client.rating), revision])
    else
      RawPacket(
        Client, "AP", client.callsign.text, "SERVER",
        [client.networkId, "", Decimal(client.rating), revision, SimulatorText(client)])
  }

  /** The packet of any event: those of `PacketOf`, and the events that only the
      server itself originates. */
  function AnyPacket(format: Formatter, event: Event): RawPacket {
    match event
    case ErrorEvent(callsign, code, environment, description) =>
      RawPacket(
        Request, "ER", "server", if callsign.Some? then callsign.value.text else "unknown",
        [ThreeDigits(code.Number()), environment, description])
    case Welcome(callsign, message) => RawPacket(Client, "TM", "server", callsign.text, [message])
    case ClientAdded(client) => PresencePacket(client)
    case ClientRemoved(callsign, clientType, networkId) =>
      RawPacket(Client, if clientType.Atc? then "DA" else "DP", callsign.text, networkId, [])
    case PositionEvent(position) => PositionPacket(format, position)
    case WindDelta(speed, direction) =>
      RawPacket(Client, "DL", "SERVER", "*", [Decimal(speed), Decimal(direction)])
    case DisconnectEvent(target, reason) => RawPacket(Request, "!!", "SERVER", target.text, [reason])
    case _ => PacketOf(event).value
  }

  /** The encoder accepts the event, and `frame` is what it sends. */
  predicate Encodes(event: Event, frame: Bytes) {
    && PacketOf(event).Some?
    && PacketOf(event).value.Encoded(CLASSIC_MAX_FRAME_BYTES) == Ok(frame)
  }
}
