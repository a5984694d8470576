/**
 What a relayed command goes through: it is decoded from the sender's frame,
 turned into an event by the core, and encoded for the recipient. The recipient
 that decodes this frame gets the very same command.
 */
module RelayRoundTrip {
  import opened Wrappers
  import opened Text
  import opened Model
  import opened Packet
  import opened ClassicProtocol
  import Commands

  /** The event the core sends on for a command: a relay, or a filed plan. */
  function EventOf(command: Command): (event: Option<Event>)
    ensures event.Some? ==> PacketOf(event.value).Some?
  {
    if command.FileFlightPlan? then Some(FlightPlanEvent(command.plan, AllAtc))
    else
      var relay := Commands.RelayOf(command);
      if relay.Some? then Some(relay.value.event) else None
  }

  // ---------------------------------------------------------------- Normal forms

  /** A callsign as parsing leaves it. */
  predicate NormalCallsign(callsign: Callsign) {
    && ParseCallsign(callsign.text) == Ok(callsign)
    && IsToken(callsign.text) && IsAscii(callsign.text)
  }

  predicate NormalDestination(destination: Destination) {
    && ParseDestination(DestinationText(destination)) == Ok(destination)
    && IsToken(DestinationText(destination))
  }

  predicate NormalQueryKind(kind: QueryKind) {
    && QueryKindOf(QueryKindText(kind)) == kind
    && IsToken(QueryKindText(kind))
  }

  predicate NormalFields(fields: seq<Bytes>) {
    ColonFree(fields) && AllValid(fields)
  }

  predicate NormalPlan(plan: FlightPlan) {
    && NormalCallsign(plan.callsign)
    && plan.flightRules != "" && plan.flightRules[..CharLen(plan.flightRules)] == plan.flightRules
    && NormalFields(FlightPlanFields(plan))
  }

  /** The commands that a classic frame can decode to, for the relayed kinds. */
  predicate NormalCommand(command: Command) {
    match command
    case Text(source, destination, message) =>
      NormalCallsign(source) && NormalDestination(destination) && ValidUtf8(message)
    case Ping(source, destination, payload) =>
      NormalCallsign(source) && NormalDestination(destination) && ValidUtf8(payload)
    case Pong(source, destination, payload) =>
      NormalCallsign(source) && NormalDestination(destination) && ValidUtf8(payload)
    case Query(source, destination, kind, arguments) =>
      NormalCallsign(source) && NormalDestination(destination) && NormalQueryKind(kind) && NormalFields(arguments)
    case Response(source, destination, kind, arguments) =>
      && NormalCallsign(source) && destination.Direct? && NormalDestination(destination)
      && NormalQueryKind(kind) && NormalFields(arguments) && arguments != []
    case Handoff(source, target, _, fields) =>
      NormalCallsign(source) && NormalDestination(Direct(target)) && NormalFields(fields) && fields != []
    case ClientData(source, target, kind, fields) =>
      && NormalCallsign(source) && NormalDestination(Direct(target)) && NormalFields(fields)
      && (kind.CommunicationReply? ==> fields != [])
    case FileFlightPlan(plan) => NormalPlan(plan)
    case _ => true
  }

  // ---------------------------------------------------------------- Decoding normalises

  lemma CallsignNormal(value: Bytes)
    requires ParseCallsign(value).Ok?
    ensures NormalCallsign(ParseCallsign(value).value)
  {
    var text := Upper(value);
    assert forall i :: 0 <= i < |value| ==> text[i] as int < 0x80;
    assert forall i :: 0 <= i < |value| ==> ReservedChar(text[i]) == ReservedChar(value[i]);
    assert !HasReserved(text);
    assert ':' !in text by {
      assert forall i :: 0 <= i < |text| ==> !ReservedChar(text[i]);
    }
    UpperIdempotent(value);
    ValidAscii(text);
  }

  lemma DestinationNormal(value: Bytes)
    requires ParseDestination(value).Ok? && IsToken(value)
    ensures NormalDestination(ParseDestination(value).value)
  {
    var destination := ParseDestination(value).value;
    match destination
    case Direct(callsign) =>
      CallsignNormal(value);
      UpperIdempotent(value);
      assert callsign.text == Upper(value);
      assert callsign.text[0] != '@' by {
        assert !HasReserved(callsign.text);
        assert !ReservedChar(callsign.text[0]);
      }
    case Range(token) =>
    case Server => FixedTextNormal("SERVER");
    case All => FixedTextNormal("*");
    case AllAtc => FixedTextNormal("*A");
    case Pilots => FixedTextNormal("*P");
  }

  predicate PlainUpper(text: Bytes) {
    forall i :: 0 <= i < |text| ==> text[i] as int < 0x80 && !('a' <= text[i] <= 'z') && text[i] != ':'
  }

  lemma FixedTextNormal(text: Bytes)
    requires PlainUpper(text)
    ensures Upper(text) == text && IsToken(text)
  {
    ValidAscii(text);
    assert forall i :: 0 <= i < |text| ==> Upper(text)[i] == text[i];
  }

  lemma QueryKindNormal(value: Bytes)
    requires IsToken(value)
    ensures NormalQueryKind(QueryKindOf(value))
  {
    hide ValidUtf8;
    hide Upper;
    match QueryKindOf(value)
    case Raw(_) =>
    case RealName => FixedTextNormal("RN");
    case FlightPlanQuery => FixedTextNormal("FP");
    case Capabilities => FixedTextNormal("CAPS");
    case Atis => FixedTextNormal("ATIS");
    case SystemInfo => FixedTextNormal("INF");
    case AircraftConfiguration => FixedTextNormal("ACC");
  }

  /** The textual fields of a plan are tokens; the numbers always are. */
  predicate PlanTextsAreTokens(plan: FlightPlan) {
    && IsToken(plan.flightRules) && IsToken(plan.aircraft) && IsToken(plan.departure)
    && IsToken(plan.cruiseAltitude) && IsToken(plan.destination) && IsToken(plan.alternate)
    && IsToken(plan.remarks) && IsToken(plan.route)
  }

  lemma PlanFieldsNormal(plan: FlightPlan)
    requires PlanTextsAreTokens(plan)
    ensures NormalFields(FlightPlanFields(plan))
  {
    hide ValidUtf8;
    hide Decimal;
    forall n: int ensures IsToken(Decimal(n)) {
      DecimalIsToken(n);
    }
    assert forall i :: 0 <= i < 15 ==> IsToken(FlightPlanFields(plan)[i]);
  }

  lemma DecimalIsToken(n: int)
    ensures IsToken(Decimal(n))
  {
    DecimalPlain(n);
    ValidAscii(Decimal(n));
  }

  lemma FlightPlanNormal(p: RawPacket)
    requires WellFormed(p) && DecodeFlightPlan(p).Ok?
    ensures NormalCommand(DecodeFlightPlan(p).value)
  {
    hide ValidUtf8;
    hide CharLen;
    hide ParseI32;
    hide ParseCallsign;
    hide NormalCallsign;
    hide WellRouted;
    hide FlightPlanFields;
    var plan := DecodeFlightPlan(p).value.plan;
    CallsignNormal(p.source);
    var rules := p.fields[0];
    FirstScalarValid(rules);
    assert forall c :: c in rules[..CharLen(rules)] ==> c in rules;
    assert forall i :: 0 <= i < 15 ==> IsToken(p.fields[i]);
    PlanFieldsNormal(plan);
  }

  /** Whatever a classic frame decodes to is in normal form: callsigns are in
      upper case, and every part can be printed and read back. */
  lemma DecodedIsNormal(frame: Bytes)
    requires Decode(frame).Decoded?
    ensures NormalCommand(Decode(frame).command)
  {
    hide ValidUtf8;
    hide Parse;
    var p := Parse(frame).value;
    ParsedIsWellFormed(frame);
    PacketNormal(p);
  }

  lemma PacketNormal(p: RawPacket)
    requires WellFormed(p) && DecodePacket(p).Decoded?
    ensures NormalCommand(DecodePacket(p).command)
  {
    hide WellFormed;
    hide NormalCommand;
    hide DecodeText;
    hide DecodePingPong;
    hide DecodeKill;
    hide DecodeQueryResponse;
    hide DecodeDirectCommand;
    hide DecodeFlightPlan;
    hide DecodeCallsign;
    PartsNormal(p);
    if p.command == "CQ" || p.command == "CR" {
      QueryNormal(p);
    } else if p.command in {"HO", "HA", "SB", "PC", "C?", "CI"} {
      DirectCommandNormal(p);
    } else if p.command == "FP" {
      FlightPlanNormal(p);
    } else if p.command == "TM" {
      TextNormal(p);
    } else if p.command == "PI" || p.command == "PO" {
      TextNormal(p);
    } else {
      OthersNormal(p);
    }
  }

  /** The routing tokens of the packet, as far as they can be parsed. */
  predicate NormalParts(p: RawPacket) {
    && (ParseCallsign(p.source).Ok? ==> NormalCallsign(ParseCallsign(p.source).value))
    && (ParseDestination(p.destination).Ok? ==> NormalDestination(ParseDestination(p.destination).value))
    && NormalFields(p.fields)
  }

  lemma PartsNormal(p: RawPacket)
    requires WellFormed(p)
    ensures NormalParts(p)
  {
    if ParseCallsign(p.source).Ok? {
      CallsignNormal(p.source);
    }
    if ParseDestination(p.destination).Ok? {
      DestinationNormal(p.destination);
    }
  }

  lemma TextNormal(p: RawPacket)
    requires NormalParts(p)
    ensures DecodeText(p).Ok? ==> NormalCommand(DecodeText(p).value)
    ensures DecodePingPong(p).Ok? ==> NormalCommand(DecodePingPong(p).value)
  {
    hide ParseCallsign;
    hide ParseDestination;
    hide NormalCallsign;
    hide NormalDestination;
    ValidJoin(p.fields);
  }

  lemma QueryNormal(p: RawPacket)
    requires NormalParts(p)
    ensures DecodeQueryResponse(p).Ok? ==> NormalCommand(DecodeQueryResponse(p).value)
  {
    hide ParseCallsign;
    hide ParseDestination;
    hide NormalCallsign;
    hide NormalDestination;
    hide NormalQueryKind;
    hide QueryKindOf;
    if p.fields != [] {
      QueryKindNormal(p.fields[0]);
      assert NormalFields(p.fields[1..]);
    }
  }

  lemma DirectCommandNormal(p: RawPacket)
    requires NormalParts(p) && p.command in {"HO", "HA", "SB", "PC", "C?", "CI"}
    ensures DecodeDirectCommand(p).Ok? ==> NormalCommand(DecodeDirectCommand(p).value)
  {
    hide ParseCallsign;
    hide ParseDestination;
    hide NormalCallsign;
    hide NormalDestination;
  }

  lemma OthersNormal(p: RawPacket)
    ensures DecodeKill(p).Ok? ==> NormalCommand(DecodeKill(p).value)
    ensures forall callsign :: NormalCommand(Logoff(callsign))
  {
  }

  // ---------------------------------------------------------------- Encoding and decoding again

  /** The packet a receiver parses out of the printed packet `q`. */
  function Received(q: RawPacket): RawPacket {
    q.(fields := Tokens(q.fields))
  }

  lemma EncodedIsReceived(q: RawPacket)
    requires WellRouted(q) && AllValid(q.fields)
    requires q.Encoded(CLASSIC_MAX_FRAME_BYTES).Ok?
    ensures Decode(q.Encoded(CLASSIC_MAX_FRAME_BYTES).value) == DecodePacket(Received(q))
  {
    ParsePrint(q);
  }

  /** A packet as the encoder builds it: a two-letter command, a callsign and a
      destination. */
  lemma BuiltIsWellRouted(kind: RawPacketKind, command: Bytes, source: Bytes, destination: Bytes, fields: seq<Bytes>)
    requires kind.Request? || kind.Client?
    requires command in {"TM", "PI", "PO", "CQ", "CR", "HO", "HA", "SB", "PC", "C?", "CI", "FP"}
    requires IsToken(source) && IsAscii(source) && IsToken(destination)
    ensures WellRouted(RawPacket(kind, command, source, destination, fields))
  {
    hide ValidUtf8;
    assert |command| == 2 && command != "DI";
    assert IsAscii(command);
    assert ':' !in command;
  }

  lemma MessageTokens(message: Bytes)
    ensures Tokens([message]) == Split(message)
    ensures Join(Tokens([message])) == message && |Tokens([message])| >= 1
  {
    JoinSplit(message);
  }

  lemma TextRoundTrip(source: Callsign, destination: Destination, message: Bytes)
    requires NormalCallsign(source) && NormalDestination(destination) && ValidUtf8(message)
    ensures var q := PacketOf(TextEvent(source, destination, message)).value;
            && WellRouted(q) && AllValid(q.fields)
            && DecodePacket(Received(q)) == Decoded(Command.Text(source, destination, message))
  {
    hide ValidUtf8;
    hide ParseCallsign;
    hide ParseDestination;
    hide Tokens;
    hide WellRouted;
    hide Join;
    hide DestinationText;
    hide IsToken;
    BuiltIsWellRouted(Client, "TM", source.text, DestinationText(destination), [message]);
    MessageTokens(message);
  }

  lemma PingRoundTrip(source: Callsign, destination: Destination, payload: Bytes)
    requires NormalCallsign(source) && NormalDestination(destination) && ValidUtf8(payload)
    ensures var q := PacketOf(PingEvent(source, destination, payload)).value;
            && WellRouted(q) && AllValid(q.fields)
            && DecodePacket(Received(q)) == Decoded(Ping(source, destination, payload))
  {
    hide ValidUtf8;
    hide ParseCallsign;
    hide ParseDestination;
    hide Tokens;
    hide WellRouted;
    hide Join;
    hide DestinationText;
    hide IsToken;
    BuiltIsWellRouted(Request, "PI", source.text, DestinationText(destination), [payload]);
    MessageTokens(payload);
  }

  lemma PongRoundTrip(source: Callsign, destination: Destination, payload: Bytes)
    requires NormalCallsign(source) && NormalDestination(destination) && ValidUtf8(payload)
    ensures var q := PacketOf(PongEvent(source.text, destination, payload)).value;
            && WellRouted(q) && AllValid(q.fields)
            && DecodePacket(Received(q)) == Decoded(Pong(source, destination, payload))
  {
    hide ValidUtf8;
    hide ParseCallsign;
    hide ParseDestination;
    hide Tokens;
    hide WellRouted;
    hide Join;
    hide DestinationText;
    hide IsToken;
    BuiltIsWellRouted(Request, "PO", source.text, DestinationText(destination), [payload]);
    MessageTokens(payload);
  }

  lemma MessageRoundTrip(command: Command)
    requires NormalCommand(command) && (command.Text? || command.Ping? || command.Pong?)
    requires EventOf(command).Some?
    ensures var q := PacketOf(EventOf(command).value).value;
            WellRouted(q) && AllValid(q.fields) && DecodePacket(Received(q)) == Decoded(command)
  {
    hide DecodePacket;
    hide WellRouted;
    hide AllValid;
    hide NormalCallsign;
    hide NormalDestination;
    match command
    case Text(source, destination, message) => TextRoundTrip(source, destination, message);
    case Ping(source, destination, payload) => PingRoundTrip(source, destination, payload);
    case Pong(source, destination, payload) => PongRoundTrip(source, destination, payload);
  }

  lemma QueryTokens(kind: QueryKind, arguments: seq<Bytes>)
    requires NormalQueryKind(kind) && NormalFields(arguments)
    ensures var fields := [QueryKindText(kind)] + arguments;
            && NormalFields(fields) && Tokens(fields) == fields
            && fields[0] == QueryKindText(kind) && fields[1..] == arguments
  {
    hide ValidUtf8;
    var fields := [QueryKindText(kind)] + arguments;
    assert ColonFree(fields);
    TokensIdentity(fields);
  }

  lemma QueryRoundTrip(command: Command)
    requires NormalCommand(command) && (command.Query? || command.Response?)
    requires EventOf(command).Some?
    ensures var q := PacketOf(EventOf(command).value).value;
            WellRouted(q) && AllValid(q.fields) && DecodePacket(Received(q)) == Decoded(command)
  {
    hide ValidUtf8;
    hide ParseCallsign;
    hide ParseDestination;
    hide Tokens;
    hide WellRouted;
    hide QueryKindOf;
    hide QueryKindText;
    var q := PacketOf(EventOf(command).value).value;
    BuiltIsWellRouted(q.kind, q.command, q.source, q.destination, q.fields);
    QueryTokens(command.queryKind, command.arguments);
  }

  lemma DirectRoundTrip(command: Command)
    requires NormalCommand(command) && (command.Handoff? || command.ClientData?)
    ensures EventOf(command).Some?
    ensures var q := PacketOf(EventOf(command).value).value;
            WellRouted(q) && AllValid(q.fields) && DecodePacket(Received(q)) == Decoded(command)
  {
    hide ValidUtf8;
    hide ParseCallsign;
    hide ParseDestination;
    hide Tokens;
    hide WellRouted;
    var q := PacketOf(EventOf(command).value).value;
    BuiltIsWellRouted(q.kind, q.command, q.source, q.destination, q.fields);
    TokensIdentity(command.fields);
  }

  /** A flight plan survives with any destination the core gives it. */
  lemma FlightPlanRoundTrip(plan: FlightPlan, destination: Destination)
    requires NormalPlan(plan) && IsToken(DestinationText(destination))
    ensures var q := PacketOf(FlightPlanEvent(plan, destination)).value;
            WellRouted(q) && AllValid(q.fields) && DecodePacket(Received(q)) == Decoded(FileFlightPlan(plan))
  {
    hide ValidUtf8;
    hide CharLen;
    hide ParseCallsign;
    hide ParseDestination;
    hide Tokens;
    hide WellRouted;
    hide ParseI32;
    hide Decimal;
    var q := PacketOf(FlightPlanEvent(plan, destination)).value;
    BuiltIsWellRouted(q.kind, q.command, q.source, q.destination, q.fields);
    TokensIdentity(FlightPlanFields(plan));
    forall n: I32 ensures ParseI32(Decimal(n)) == Some(n) {
      DecimalRoundTrip(n);
    }
  }

  /** The round trip for every command in normal form that the core passes on. */
  lemma NormalCommandRoundTrip(command: Command, event: Event, sent: Bytes)
    requires NormalCommand(command) && EventOf(command) == Some(event) && Encodes(event, sent)
    ensures Decode(sent) == Decoded(command)
  {
    hide NormalCommand;
    hide WellRouted;
    hide DecodePacket;
    hide Decode;
    var q := PacketOf(EventOf(command).value).value;
    if WellRouted(q) && AllValid(q.fields) {
      EncodedIsReceived(q);
    }
    match command
    case Text(_, _, _) => MessageRoundTrip(command);
    case Ping(_, _, _) => MessageRoundTrip(command);
    case Pong(_, _, _) => MessageRoundTrip(command);
    case Query(_, _, _, _) => QueryRoundTrip(command);
    case Response(_, _, _, _) => QueryRoundTrip(command);
    case Handoff(_, _, _, _) => DirectRoundTrip(command);
    case ClientData(_, _, _, _) => DirectRoundTrip(command);
    case FileFlightPlan(plan) => PlanCommandRoundTrip(command);
  }

  lemma PlanCommandRoundTrip(command: Command)
    requires NormalCommand(command) && command.FileFlightPlan?
    ensures var q := PacketOf(EventOf(command).value).value;
            WellRouted(q) && AllValid(q.fields) && DecodePacket(Received(q)) == Decoded(command)
  {
    FixedTextNormal("*A");
    FlightPlanRoundTrip(command.plan, AllAtc);
  }

  /** What the recipient of a relayed command decodes is what the server decoded
      from the sender, for every frame that is accepted and still fits the
      limit: colons in messages, upper-casing, empty payloads and the printing
      of numbers change nothing. */
  lemma RelayPreservesMeaning(frame: Bytes, command: Command, event: Event, sent: Bytes)
    requires Decode(frame) == Decoded(command)
    requires EventOf(command) == Some(event) && Encodes(event, sent)
    ensures Decode(sent) == Decode(frame)
  {
    hide Decode;
    hide EventOf;
    hide PacketOf;
    hide NormalCommand;
    DecodedIsNormal(frame);
    NormalCommandRoundTrip(command, event, sent);
  }
}
