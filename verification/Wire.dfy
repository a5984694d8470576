/** The text of every frame the server writes in the classic and the VATSIM format. */
module WireForms {
  import opened Wrappers
  import opened Text
  import opened Model
  import opened Packet
  import opened ClassicProtocol
  import opened Runtime
  import Backends
  import Codec
  import RelayLimits

  // ---------------------------------------------------------------- The lines

  /** `head` is the prefix octet with the two letters of the command. */
  function Line(head: Bytes, source: Bytes, destination: Bytes, fields: seq<Bytes>): Bytes {
    head + source + ":" + Join([destination] + fields)
  }

  /** Error numbers have three digits. */
  function ErrorNumber(code: ErrorCode): Bytes {
    match code
    case NoError => "000"
    case CallsignInUse => "001"
    case InvalidCallsign => "002"
    case AlreadyRegistered => "003"
    case Syntax => "004"
    case InvalidSource => "005"
    case InvalidCredentials => "006"
    case NoSuchCallsign => "007"
    case NoFlightPlan => "008"
    case NoWeather => "009"
    case InvalidProtocolRevision => "010"
    case RequestedLevelTooHigh => "011"
    case ServerFull => "012"
    case AccountSuspended => "013"
    case UnauthorizedClient => "016"
  }

  function Number(n: Option<I32>): Bytes {
    if n.Some? then Decimal(n.value) else "0"
  }

  function PositionLine(format: Formatter, position: Position): Bytes {
    match position
    case PilotPosition(callsign, mode, squawk, rating, latitude, longitude, altitude, groundspeed, pbh, flags) =>
      "@" + Join(
        [[mode], callsign.text, squawk, Decimal(rating), format(latitude), format(longitude), Decimal(altitude),
         Decimal(groundspeed), Decimal(pbh), Decimal(flags)])
    case AtcPosition(callsign, frequency, facilityType, visualRange, rating, latitude, longitude, altitude) =>
      "%" + Join(
        [callsign.text, Decimal(frequency), Decimal(facilityType), Decimal(visualRange), Decimal(rating),
         format(latitude), format(longitude), Decimal(altitude)])
  }

  /** The prefix octet and the letters of each command. */
  function HeadOf(event: Event): Bytes
    requires !event.PositionEvent?
  {
    match event
    case ErrorEvent(_, _, _, _) => "$ER"
    case Welcome(_, _) => "#TM"
    case ClientAdded(client) => if client.clientType.Atc? then "#AA" else "#AP"
    case ClientRemoved(_, clientType, _) => if clientType.Atc? then "#DA" else "#DP"
    case TextEvent(_, _, _) => "#TM"
    case FlightPlanEvent(_, _) => "$FP"
    case QueryEvent(_, _, _, _) => "$CQ"
    case ResponseEvent(_, _, _, _) => "$CR"
    case PingEvent(_, _, _) => "$PI"
    case PongEvent(_, _, _) => "$PO"
    case HandoffEvent(_, _, kind, _) => if kind.HandoffRequest? then "$HO" else "$HA"
    case ClientDataEvent(_, _, kind, _) =>
      if kind.SquawkBox? then "#SB" else if kind.ProController? then "#PC"
      else if kind.CommunicationRequest? then "$C?" else "$CI"
    case WindDelta(_, _) => "#DL"
    case DisconnectEvent(_, _) => "$!!"
  }

  /** The frame of an event in the classic format. */
  function Wire(format: Formatter, event: Event): Bytes {
    match event
    case ErrorEvent(callsign, code, environment, description) =>
      Line(
        HeadOf(event), "server", if callsign.Some? then callsign.value.text else "unknown",
        [ErrorNumber(code), environment, description])
    case Welcome(callsign, message) => Line(HeadOf(event), "server", callsign.text, [message])
    case ClientAdded(client) =>
      if client.clientType.Atc? then
        Line(
          HeadOf(event), client.callsign.text, "SERVER",
          [client.realName, client.networkId, "", Decimal(client.rating), "9"])
      else
        Line(
          HeadOf(event), client.callsign.text, "SERVER",
          [client.networkId, "", Decimal(client.rating), "9", Number(client.simulatorType)])
    case ClientRemoved(callsign, clientType, networkId) =>
      Line(HeadOf(event), callsign.text, networkId, [])
    case PositionEvent(position) => PositionLine(format, position)
    case TextEvent(source, destination, message) =>
      Line(HeadOf(event), source.text, DestinationText(destination), [message])
    case FlightPlanEvent(plan, destination) =>
      Line(
        HeadOf(event), plan.callsign.text, DestinationText(destination),
        [plan.flightRules, plan.aircraft, Decimal(plan.cruiseSpeed), plan.departure,
         Decimal(plan.estimatedDeparture), Decimal(plan.actualDeparture), plan.cruiseAltitude, plan.destination,
         Decimal(plan.hoursEnroute), Decimal(plan.minutesEnroute), Decimal(plan.hoursFuel),
         Decimal(plan.minutesFuel), plan.alternate, plan.remarks, plan.route])
    case QueryEvent(source, destination, kind, arguments) =>
      Line(HeadOf(event), source, DestinationText(destination), [QueryKindText(kind)] + arguments)
    case ResponseEvent(source, destination, kind, arguments) =>
      Line(HeadOf(event), source, DestinationText(destination), [QueryKindText(kind)] + arguments)
    case PingEvent(source, destination, payload) =>
      Line(HeadOf(event), source.text, DestinationText(destination), [payload])
    case PongEvent(source, destination, payload) => Line(HeadOf(event), source, DestinationText(destination), [payload])
    case HandoffEvent(source, target, kind, fields) =>
      Line(HeadOf(event), source.text, target.text, fields)
    case ClientDataEvent(source, target, kind, fields) =>
      Line(HeadOf(event), source.text, target.text, fields)
    case WindDelta(speed, direction) => Line(HeadOf(event), "SERVER", "*", [Decimal(speed), Decimal(direction)])
    case DisconnectEvent(target, reason) => Line(HeadOf(event), "SERVER", target.text, [reason])
  }

  /** VATSIM announces clients under its own revision, and pilots with their name. */
  function VatsimWire(format: Formatter, event: Event): Bytes {
    if !event.ClientAdded? then Wire(format, event) else
    var client := event.client;
    if client.clientType.Atc? then
      Line(
        "#AA", client.callsign.text, "SERVER",
        [client.realName, client.networkId, "", Decimal(client.rating), "100"])
    else
      Line(
        "#AP", client.callsign.text, "SERVER",
        [client.networkId, "", Decimal(client.rating), "100", Number(client.simulatorType), client.realName])
  }

  // ---------------------------------------------------------------- They are what is printed

  lemma PrintIsLine(p: RawPacket, head: Bytes)
    requires RelayLimits.IsCommand(p) && p.command != "DI" && head == [p.kind.Prefix()] + p.command
    ensures p.Print() == Line(head, p.source, p.destination, p.fields)
  {
    PrintParts(p);
    JoinFirst(p.destination, p.fields);
    assert p.Head() == p.command + p.source + ":" + p.destination;
    assert [p.kind.Prefix()] + (p.command + p.source + ":" + p.destination + Tail(p.fields))
        == [p.kind.Prefix()] + p.command + p.source + ":" + (p.destination + Tail(p.fields));
  }

  lemma JoinFirst(first: Bytes, fields: seq<Bytes>)
    ensures Join([first] + fields) == first + Tail(fields)
  {
    TailJoin([first] + fields);
    assert ([first] + fields)[1..] == fields;
    assert Tail([first] + fields) == ":" + first + Tail(fields);
    assert (":" + first + Tail(fields))[1..] == first + Tail(fields);
  }

  lemma SmallNumbers()
    ensures Decimal(0) == "0" && Decimal(9) == "9" && Decimal(100) == "100"
  {
    assert Digits(1) == "1" && Digits(10) == "10" && Digits(100) == "100";
  }

  lemma ErrorNumbers(code: ErrorCode)
    ensures ThreeDigits(code.Number()) == ErrorNumber(code)
  {
    assert Digits(1) == "1" && Digits(0) == "0" && Digits(2) == "2" && Digits(3) == "3" && Digits(4) == "4";
    assert Digits(5) == "5" && Digits(6) == "6" && Digits(7) == "7" && Digits(8) == "8" && Digits(9) == "9";
    assert Digits(10) == "10" && Digits(11) == "11" && Digits(12) == "12" && Digits(13) == "13" && Digits(16) == "16";
  }

  lemma PilotFields(format: Formatter, position: Position)
    requires position.PilotPosition?
    ensures var p := PositionPacket(format, position);
            PositionLine(format, position) == "@" + Join([p.command] + ([p.source] + p.fields))
  {
    hide Decimal;
    hide Join;
    var p := PositionPacket(format, position);
    var all := [p.command] + ([p.source] + p.fields);
    assert all == [[position.mode], position.callsign.text, position.squawk, Decimal(position.rating),
                   format(position.latitude), format(position.longitude), Decimal(position.altitude),
                   Decimal(position.groundspeed), Decimal(position.pbh), Decimal(position.flags)];
  }

  lemma PositionPrints(format: Formatter, position: Position)
    ensures PositionPacket(format, position).Print() == PositionLine(format, position)
  {
    hide Decimal;
    var p := PositionPacket(format, position);
    PrintParts(p);
    if position.PilotPosition? {
      JoinFirst(p.command, [p.source] + p.fields);
      assert Tail([p.source] + p.fields) == ":" + p.source + Tail(p.fields);
      assert p.command + (":" + p.source + Tail(p.fields)) == p.command + ":" + p.source + Tail(p.fields);
      PilotFields(format, position);
    } else {
      JoinFirst(p.source, p.fields);
      assert PositionLine(format, position) == "%" + Join([p.source] + p.fields);
    }
  }

  lemma HeadIsPrinted(format: Formatter, event: Event)
    requires !event.PositionEvent?
    ensures var p := AnyPacket(format, event);
            RelayLimits.IsCommand(p) && p.command != "DI" && [p.kind.Prefix()] + p.command == HeadOf(event)
  {
    var p := AnyPacket(format, event);
    assert |p.command| == 2;
    assert [p.kind.Prefix()] + p.command == [p.kind.Prefix(), p.command[0], p.command[1]];
    assert HeadOf(event) == [HeadOf(event)[0], HeadOf(event)[1], HeadOf(event)[2]];
  }

  /** What is printed for an event is its line. */
  lemma PacketIsWire(format: Formatter, event: Event)
    ensures AnyPacket(format, event).Print() == Wire(format, event)
  {
    hide RawPacket.Print;
    hide Decimal;
    hide Line;
    hide DestinationText;
    hide QueryKindText;
    hide PositionPacket;
    hide PositionLine;
    hide ThreeDigits;
    hide ErrorNumber;
    if event.PositionEvent? {
      PositionPrints(format, event.position);
    } else {
      SmallNumbers();
      if event.ErrorEvent? {
        ErrorNumbers(event.code);
      }
      HeadIsPrinted(format, event);
      PrintIsLine(AnyPacket(format, event), HeadOf(event));
    }
  }

  lemma VatsimPresenceIsWire(format: Formatter, client: ClientPresence)
    ensures Backends.VatsimPresencePacket(client).Print() == VatsimWire(format, ClientAdded(client))
  {
    hide RawPacket.Print;
    hide Decimal;
    hide Line;
    SmallNumbers();
    var p := Backends.VatsimPresencePacket(client);
    var head := if client.clientType.Atc? then "#AA" else "#AP";
    assert [p.kind.Prefix()] + p.command == [p.kind.Prefix(), p.command[0], p.command[1]];
    assert head == [head[0], head[1], head[2]];
    PrintIsLine(p, head);
  }

  /** A frame is sent if it has no delimiter and is within the limit. */
  function Sendable(frame: Bytes, limit: nat): Encoding {
    if |frame| <= limit && '\r' !in frame && '\n' !in frame then Ok([frame]) else Err(())
  }

  lemma EncodedIsSendable(p: RawPacket, limit: nat)
    ensures Backends.EncodePacket(p, limit) == Sendable(p.Print(), limit)
  {
    hide RawPacket.Print;
    var s := p.Print();
    assert Codec.DelimiterFree(s) <==> '\r' !in s && '\n' !in s by {
      assert forall c :: c in s ==> exists i :: 0 <= i < |s| && s[i] == c;
    }
  }

  /** What the classic and the VATSIM backend encode every event to, for every
      recipient. */
  lemma BackendsSendTheWire(
    capacity: nat, serverName: Bytes, library: Backends.Library, context: EncodeContext, event: Event)
    ensures var env := Backends.Registry(capacity, serverName, library);
            && env.backends(Classic).encode(context, event) == Sendable(Wire(library.format, event), 511)
            && env.backends(Vatsim).encode(context, event)
               == Sendable(VatsimWire(library.format, event), if event.ClientAdded? then 4096 else 511)
  {
    hide AnyPacket;
    hide Wire;
    hide RawPacket.Print;
    hide Backends.EncodePacket;
    hide Backends.VatsimPresencePacket;
    hide Sendable;
    PacketIsWire(library.format, event);
    EncodedIsSendable(AnyPacket(library.format, event), 511);
    if event.ClientAdded? {
      hide VatsimWire;
      VatsimPresenceIsWire(library.format, event.client);
      EncodedIsSendable(Backends.VatsimPresencePacket(event.client), 4096);
    }
  }
}
