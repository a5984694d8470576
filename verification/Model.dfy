/** The protocol-independent domain model shared by the core and the backends. */
module Model {
  import opened Wrappers
  import opened Text

  type ConnectionId = nat

  datatype ModelError =
    | InvalidCallsignLength
    | InvalidCallsignCharacter
    | EmptyDestination
    | InvalidField(field: Bytes, reason: Bytes)
  {
    function Text(): Bytes {
      match this
      case InvalidCallsignLength => "callsign must contain between 2 and 12 ASCII bytes"
      case InvalidCallsignCharacter => "callsign contains a reserved character"
      case EmptyDestination => "destination is empty"
      case InvalidField(field, reason) => "field " + field + " is invalid: " + reason
    }
  }

  // ---------------------------------------------------------------- Identity

  datatype Callsign = Callsign(text: Bytes)

  predicate ReservedChar(c: char) {
    || c == '!' || c == '@' || c == '#' || c == '$' || c == '%' || c == '*'
    || c == ':' || c == '&' || c == ' ' || c == '\t'
  }

  predicate HasReserved(s: Bytes) {
    exists i :: 0 <= i < |s| && ReservedChar(s[i])
  }

  function ParseCallsign(value: Bytes): Result<Callsign, ModelError> {
    if !(2 <= |value| <= 12) || !IsAscii(value) then Err(InvalidCallsignLength)
    else if HasReserved(value) then Err(InvalidCallsignCharacter)
    else Ok(Callsign(Upper(value)))
  }

  datatype ClientType = Pilot | Atc | Observer

  datatype AtcRating =
    | Suspended | ObserverRating | Student1 | Student2 | Student3 | Controller1 | Controller2 | Controller3
    | Instructor1 | Instructor2 | Instructor3 | Supervisor | Administrator
  {
    function WireValue(): int {
      match this
      case Suspended => 0
      case ObserverRating => 1
      case Student1 => 2
      case Student2 => 3
      case Student3 => 4
      case Controller1 => 5
      case Controller2 => 6
      case Controller3 => 7
      case Instructor1 => 8
      case Instructor2 => 9
      case Instructor3 => 10
      case Supervisor => 11
      case Administrator => 12
    }

    predicate AllowsWireValue(requested: int) {
      !Suspended? && 1 <= requested <= 12 && requested <= WireValue()
    }
  }

  datatype PilotRating =
    | Unrated | PrivatePilotLicense | InstrumentRating | CommercialMultiEngineLicense
    | AirlineTransportPilotLicense | FlightInstructor | FlightExaminer
  {
    function WireValue(): int {
      match this
      case Unrated => 0
      case PrivatePilotLicense => 1
      case InstrumentRating => 3
      case CommercialMultiEngineLicense => 7
      case AirlineTransportPilotLicense => 15
      case FlightInstructor => 31
      case FlightExaminer => 63
    }

    predicate AllowsWireValue(requested: int) {
      !Unrated? && requested in {1, 3, 7, 15, 31, 63} && requested <= WireValue()
    }
  }

  datatype AuthenticatedIdentity = AuthenticatedIdentity(
    networkId: Bytes, realName: Bytes, atcRating: AtcRating, pilotRating: PilotRating, suspended: bool)

  datatype Identification = Identification(
    callsign: Callsign, clientId: Bytes, clientName: Bytes, networkId: Option<Bytes>)

  datatype LoginCommand = LoginCommand(
    callsign: Callsign, clientType: ClientType, networkId: Bytes, password: Bytes, requestedRating: I32,
    protocolRevision: nat, realName: Bytes, simulatorType: Option<I32>)

  datatype ClientPresence = ClientPresence(
    callsign: Callsign, clientType: ClientType, networkId: Bytes, realName: Bytes, rating: I32,
    protocolRevision: nat, simulatorType: Option<I32>)

  // ---------------------------------------------------------------- Sessions

  datatype ProtocolDialect = Classic | Vatsim | AsterV1

  const CLASSIC_PROTOCOL_REVISION: nat := 9
  const VATSIM_PROTOCOL_REVISION: nat := 100

  datatype SessionPhase = Connected | Identified | Active | Closed

  datatype SocketAddr = SocketAddr(ip: Bytes, port: nat)

  // ---------------------------------------------------------------- Positions

  /** A floating-point coordinate: a real number, or NaN or an infinity. */
  datatype Coordinate = Finite(value: real) | NotFinite

  datatype Position =
    | PilotPosition(
        callsign: Callsign, mode: char, squawk: Bytes, rating: I32, latitude: Coordinate, longitude: Coordinate,
        altitude: I32, groundspeed: I32, pbh: nat, flags: I32)
    | AtcPosition(
        callsign: Callsign, frequency: I32, facilityType: I32, visualRange: I32, rating: I32,
        latitude: Coordinate, longitude: Coordinate, altitude: I32)
  {
    /** The first rule the position breaks, in the order the source tests them. */
    function Violation(): Option<ModelError> {
      if !latitude.Finite? || !(-90.0 <= latitude.value <= 90.0) then
        Some(InvalidField("latitude", "must be finite and between -90 and 90"))
      else if !longitude.Finite? || !(-180.0 <= longitude.value <= 180.0) then
        Some(InvalidField("longitude", "must be finite and between -180 and 180"))
      else if PilotPosition? then
        if !(mode == 'N' || mode == 'S' || mode == 'Y') then
          Some(InvalidField("mode", "must be N, S, or Y"))
        else if squawk == "" || |squawk| > 4 || exists i :: 0 <= i < |squawk| && !('0' <= squawk[i] <= '7') then
          Some(InvalidField("squawk", "must contain between one and four octal digits"))
        else None
      else if visualRange < 0 then
        Some(InvalidField("visual_range", "must be non-negative"))
      else None
    }
  }

  datatype FlightPlan = FlightPlan(
    callsign: Callsign, flightRules: Bytes, aircraft: Bytes, cruiseSpeed: I32, departure: Bytes,
    estimatedDeparture: I32, actualDeparture: I32, cruiseAltitude: Bytes, destination: Bytes,
    hoursEnroute: I32, minutesEnroute: I32, hoursFuel: I32, minutesFuel: I32,
    alternate: Bytes, remarks: Bytes, route: Bytes)

  // ---------------------------------------------------------------- Routing

  datatype Destination = Server | Direct(callsign: Callsign) | All | AllAtc | Pilots | Range(token: Bytes)

  function ParseDestination(value: Bytes): Result<Destination, ModelError> {
    if value == "" then Err(EmptyDestination) else
    var folded := Upper(value);
    if folded == "SERVER" then Ok(Server)
    else if folded == "*" then Ok(All)
    else if folded == "*A" then Ok(AllAtc)
    else if folded == "*P" then Ok(Pilots)
    else if value[0] == '@' then Ok(Range(value))
    else match ParseCallsign(value)
      case Ok(callsign) => Ok(Direct(callsign))
      case Err(error) => Err(error)
  }

  datatype QueryKind =
    | RealName | FlightPlanQuery | Capabilities | Atis | SystemInfo | AircraftConfiguration | Raw(text: Bytes)

  datatype HandoffKind = HandoffRequest | HandoffAccept

  datatype ClientDataKind = SquawkBox | ProController | CommunicationRequest | CommunicationReply

  // ---------------------------------------------------------------- Errors

  datatype ErrorCode =
    | NoError | CallsignInUse | InvalidCallsign | AlreadyRegistered | Syntax | InvalidSource | InvalidCredentials
    | NoSuchCallsign | NoFlightPlan | NoWeather | InvalidProtocolRevision | RequestedLevelTooHigh | ServerFull
    | AccountSuspended | UnauthorizedClient
  {
    /** The number on the wire. */
    function Number(): nat {
      match this
      case NoError => 0
      case CallsignInUse => 1
      case InvalidCallsign => 2
      case AlreadyRegistered => 3
      case Syntax => 4
      case InvalidSource => 5
      case InvalidCredentials => 6
      case NoSuchCallsign => 7
      case NoFlightPlan => 8
      case NoWeather => 9
      case InvalidProtocolRevision => 10
      case RequestedLevelTooHigh => 11
      case ServerFull => 12
      case AccountSuspended => 13
      case UnauthorizedClient => 16
    }

    function Description(): Bytes {
      match this
      case NoError => "No error"
      case CallsignInUse => "Callsign in use"
      case InvalidCallsign => "Invalid callsign"
      case AlreadyRegistered => "Already registerd"
      case Syntax => "Syntax error"
      case InvalidSource => "Invalid source callsign"
      case InvalidCredentials => "Invalid CID/password"
      case NoSuchCallsign => "No such callsign"
      case NoFlightPlan => "No flightplan"
      case NoWeather => "No such weather profile"
      case InvalidProtocolRevision => "Invalid protocol revision"
      case RequestedLevelTooHigh => "Requested level too high"
      case ServerFull => "Too many clients connected"
      case AccountSuspended => "CID/PID was suspended"
      case UnauthorizedClient => "Unauthorized client software"
    }
  }

  // ---------------------------------------------------------------- Commands and events

  datatype Command =
    | Noop(noopSource: Callsign)
    | Identify(identification: Identification)
    | Login(login: LoginCommand)
    | Logoff(logoffSource: Callsign)
    | UpdatePosition(position: Position)
    | Text(textSource: Callsign, destination: Destination, message: Bytes)
    | FileFlightPlan(plan: FlightPlan)
    | Query(querySource: Callsign, destination: Destination, queryKind: QueryKind, arguments: seq<Bytes>)
    | Response(responseSource: Callsign, destination: Destination, queryKind: QueryKind, arguments: seq<Bytes>)
    | Ping(pingSource: Callsign, destination: Destination, payload: Bytes)
    | Pong(pongSource: Callsign, destination: Destination, payload: Bytes)
    | Handoff(handoffSource: Callsign, target: Callsign, handoffKind: HandoffKind, fields: seq<Bytes>)
    | ClientData(dataSource: Callsign, target: Callsign, dataKind: ClientDataKind, fields: seq<Bytes>)
    | WeatherRequest(weatherSource: Callsign, station: Bytes, parsed: bool)
    | Kill(killSource: Callsign, target: Callsign, reason: Bytes)
  {
    /** The callsign the command claims to come from. */
    function Source(): Callsign {
      match this
      case Noop(source) => source
      case Identify(identification) => identification.callsign
      case Login(login) => login.callsign
      case Logoff(source) => source
      case UpdatePosition(position) => position.callsign
      case Text(source, _, _) => source
      case FileFlightPlan(plan) => plan.callsign
      case Query(source, _, _, _) => source
      case Response(source, _, _, _) => source
      case Ping(source, _, _) => source
      case Pong(source, _, _) => source
      case Handoff(source, _, _, _) => source
      case ClientData(source, _, _, _) => source
      case WeatherRequest(source, _, _) => source
      case Kill(source, _, _) => source
    }
  }

  datatype Event =
    | ErrorEvent(callsign: Option<Callsign>, code: ErrorCode, environment: Bytes, description: Bytes)
    | Welcome(welcomed: Callsign, message: Bytes)
    | ClientAdded(client: ClientPresence)
    | ClientRemoved(removed: Callsign, clientType: ClientType, networkId: Bytes)
    | PositionEvent(position: Position)
    | TextEvent(textSource: Callsign, destination: Destination, message: Bytes)
    | FlightPlanEvent(plan: FlightPlan, destination: Destination)
    | QueryEvent(source: Bytes, destination: Destination, queryKind: QueryKind, arguments: seq<Bytes>)
    | ResponseEvent(source: Bytes, destination: Destination, queryKind: QueryKind, arguments: seq<Bytes>)
    | PingEvent(pingSource: Callsign, destination: Destination, payload: Bytes)
    | PongEvent(source: Bytes, destination: Destination, payload: Bytes)
    | HandoffEvent(handoffSource: Callsign, target: Callsign, handoffKind: HandoffKind, fields: seq<Bytes>)
    | ClientDataEvent(dataSource: Callsign, target: Callsign, dataKind: ClientDataKind, fields: seq<Bytes>)
    | WindDelta(speed: I32, direction: I32)
    | DisconnectEvent(target: Callsign, reason: Bytes)
}
