/**
 What a relayed frame keeps of the sender's frame on the wire. The round trip of
 decoding and encoding alone would also hold of a backend that loses a field.
 */
module RelayContent {
  import opened Wrappers
  import opened Text
  import opened Model
  import opened Packet
  import opened ClassicProtocol
  import opened RelayRoundTrip

  /** The fields of a flight plan that are printed as numbers. */
  const NUMBERS: set<nat> := {2, 4, 5, 8, 9, 10, 11}

  /** The fields a recipient gets for the fields `fields` of the sender, as far
      as they are determined: query kinds lose their case, numbers keep their
      value, the flight rules keep their first character, and an empty ping
      gains an empty payload. */
  predicate SameFields(command: Bytes, fields: seq<Bytes>, received: seq<Bytes>) {
    if command == "FP" then
      && |fields| >= 15 && |received| == 15
      && fields[0] != "" && received[0] == fields[0][..CharLen(fields[0])]
      && forall i: nat :: 1 <= i < 15 ==>
           if i in NUMBERS then ParseI32(fields[i]).Some? && ParseI32(received[i]) == ParseI32(fields[i])
           else received[i] == fields[i]
    else if command in {"CQ", "CR"} then
      && |fields| == |received| >= 1
      && Upper(received[0]) == Upper(fields[0]) && received[1..] == fields[1..]
    else if command in {"PI", "PO"} && fields == [] then received == [""]
    else received == fields
  }

  /** A plan always goes to the controllers; everything else goes where it was
      addressed, up to the case of the address. */
  predicate SameDestination(p: RawPacket, q: RawPacket) {
    if p.command == "FP" then q.destination == "*A" else Upper(q.destination) == Upper(p.destination)
  }

  /** The commands written after `#`; all others are written after `$`. */
  function StandardPrefix(command: Bytes): char {
    if command in {"TM", "SB", "PC"} then '#' else '$'
  }

  predicate SameContent(p: RawPacket, q: RawPacket) {
    && q.kind.Prefix() == StandardPrefix(p.command)
    && q.command == p.command
    && q.source == Upper(p.source)
    && SameDestination(p, q)
    && SameFields(p.command, p.fields, q.fields)
  }

  lemma CallsignKept(value: Bytes)
    requires ParseCallsign(value).Ok?
    ensures ParseCallsign(value).value.text == Upper(value)
  {
  }

  lemma DestinationKept(value: Bytes)
    requires ParseDestination(value).Ok?
    ensures Upper(DestinationText(ParseDestination(value).value)) == Upper(value)
  {
    UpperIdempotent(value);
  }

  lemma QueryKindKept(value: Bytes)
    ensures Upper(QueryKindText(QueryKindOf(value))) == Upper(value)
  {
    UpperIdempotent(value);
  }

  lemma QueryKindColonFree(value: Bytes)
    requires ':' !in value
    ensures ':' !in QueryKindText(QueryKindOf(value))
  {
  }

  /** Joining the fields and cutting them again only matters for no fields. */
  lemma MessageKept(fields: seq<Bytes>)
    requires ColonFree(fields)
    ensures Tokens([Join(fields)]) == if fields == [] then [""] else fields
  {
    MessageTokens(Join(fields));
    if fields == [] {
      SplitWhole("");
    } else {
      SplitJoin(fields);
    }
  }

  lemma TextContent(p: RawPacket, command: Command, event: Event)
    requires ColonFree(p.fields) && p.command == "TM"
    requires DecodePacket(p) == Decoded(command) && EventOf(command) == Some(event)
    ensures SameContent(p, Received(PacketOf(event).value))
  {
    hide ParseCallsign;
    hide Upper;
    hide DecodeQueryResponse;
    hide DecodeDirectCommand;
    hide DecodeFlightPlan;
    hide DecodeKill;
    hide DecodePingPong;
    hide Tokens;
    hide Join;
    hide ParseDestination;
    hide DestinationText;
    MessageKept(p.fields);
    DestinationKept(p.destination);
    CallsignKept(p.source);
  }

  lemma PingDecodes(p: RawPacket)
    requires p.command in {"PI", "PO"} && DecodePacket(p).Decoded?
    ensures DecodePingPong(p) == Ok(DecodePacket(p).command)
  {
    hide DecodePingPong;
  }

  lemma PingContent(p: RawPacket, command: Command, event: Event)
    requires ColonFree(p.fields) && p.command in {"PI", "PO"}
    requires DecodePacket(p) == Decoded(command) && EventOf(command) == Some(event)
    ensures SameContent(p, Received(PacketOf(event).value))
  {
    hide ParseCallsign;
    hide Upper;
    hide DecodePacket;
    hide Tokens;
    hide Join;
    hide ParseDestination;
    hide DestinationText;
    PingDecodes(p);
    MessageKept(p.fields);
    DestinationKept(p.destination);
    CallsignKept(p.source);
  }

  lemma QueryContent(p: RawPacket, command: Command, event: Event)
    requires ColonFree(p.fields) && p.command in {"CQ", "CR"}
    requires DecodePacket(p) == Decoded(command) && EventOf(command) == Some(event)
    ensures SameContent(p, Received(PacketOf(event).value))
  {
    hide ParseCallsign;
    hide Upper;
    hide DecodeText;
    hide DecodePingPong;
    hide DecodeDirectCommand;
    hide DecodeFlightPlan;
    hide DecodeKill;
    hide Tokens;
    hide QueryKindOf;
    hide QueryKindText;
    hide ParseDestination;
    hide DestinationText;
    var fields := PacketOf(event).value.fields;
    QueryKindKept(p.fields[0]);
    QueryKindColonFree(p.fields[0]);
    assert ColonFree(fields);
    TokensIdentity(fields);
    DestinationKept(p.destination);
    CallsignKept(p.source);
  }

  lemma DirectDecodes(p: RawPacket)
    requires p.command in {"HO", "HA", "SB", "PC", "C?", "CI"} && DecodePacket(p).Decoded?
    ensures DecodeDirectCommand(p) == Ok(DecodePacket(p).command)
  {
    hide DecodeDirectCommand;
  }

  lemma DirectContent(p: RawPacket, command: Command, event: Event)
    requires ColonFree(p.fields) && p.command in {"HO", "HA", "SB", "PC", "C?", "CI"}
    requires DecodePacket(p) == Decoded(command) && EventOf(command) == Some(event)
    ensures SameContent(p, Received(PacketOf(event).value))
  {
    hide ParseCallsign;
    hide Upper;
    hide DecodePacket;
    hide Tokens;
    hide ParseDestination;
    DirectDecodes(p);
    TokensIdentity(p.fields);
    DestinationKept(p.destination);
    CallsignKept(p.source);
  }

  lemma PlanDecodes(p: RawPacket)
    requires p.command == "FP" && DecodePacket(p).Decoded?
    ensures DecodeFlightPlan(p) == Ok(DecodePacket(p).command)
  {
    hide DecodeFlightPlan;
  }

  lemma PlanContent(p: RawPacket, command: Command, event: Event)
    requires ColonFree(p.fields) && p.command == "FP"
    requires DecodePacket(p) == Decoded(command) && EventOf(command) == Some(event)
    ensures SameContent(p, Received(PacketOf(event).value))
  {
    hide ParseCallsign;
    hide Upper;
    hide DecodePacket;
    hide Tokens;
    hide ParseI32;
    hide Decimal;
    hide CharLen;
    PlanDecodes(p);
    var fields := PacketOf(event).value.fields;
    forall n: I32 ensures ParseI32(Decimal(n)) == Some(n) && ':' !in Decimal(n) {
      DecimalRoundTrip(n);
      DecimalIsToken(n);
    }
    assert ColonFree(fields);
    TokensIdentity(fields);
    CallsignKept(p.source);
  }

  lemma BuiltKeepsContent(p: RawPacket, command: Command, event: Event)
    requires WellFormed(p) && DecodePacket(p) == Decoded(command) && EventOf(command) == Some(event)
    ensures SameContent(p, Received(PacketOf(event).value))
  {
    hide SameContent;
    hide PacketOf;
    if p.command == "TM" {
      TextContent(p, command, event);
    } else if p.command in {"PI", "PO"} {
      PingContent(p, command, event);
    } else if p.command in {"CQ", "CR"} {
      QueryContent(p, command, event);
    } else if p.command == "FP" {
      PlanContent(p, command, event);
    } else {
      DirectContent(p, command, event);
    }
  }

  /** The first octet of what is sent is the standard prefix of the command, in
      particular that of the sender's frame if it used the standard prefix. */
  predicate PrefixKept(frame: Bytes, sent: Bytes) {
    && Parse(frame).Ok? && frame != "" && sent != ""
    && sent[0] == StandardPrefix(Parse(frame).value.command)
  }

  /** The packet a recipient parses has the command, the sender and the fields
      of the packet the sender's frame carried. */
  lemma RelayKeepsContent(frame: Bytes, command: Command, event: Event, sent: Bytes)
    requires Decode(frame) == Decoded(command)
    requires EventOf(command) == Some(event) && Encodes(event, sent)
    ensures Parse(frame).Ok? && Parse(sent).Ok?
    ensures SameContent(Parse(frame).value, Parse(sent).value) && PrefixKept(frame, sent)
  {
    hide ParseCallsign;
    hide DecodePacket;
    hide NormalCommand;
    hide Parse;
    hide EventOf;
    hide PacketOf;
    hide WellRouted;
    hide WellFormed;
    hide SameDestination;
    hide SameFields;
    hide RawPacket.Print;
    var p := Parse(frame).value;
    FrameNotEmpty(frame);
    PrintParts(PacketOf(event).value);
    ParsedIsWellFormed(frame);
    DecodedIsNormal(frame);
    NormalIsPrintable(command, event);
    ParsePrint(PacketOf(event).value);
    BuiltKeepsContent(p, command, event);
  }

  lemma FrameNotEmpty(frame: Bytes)
    requires Parse(frame).Ok?
    ensures frame != ""
  {
  }

  lemma NormalIsPrintable(command: Command, event: Event)
    requires NormalCommand(command) && EventOf(command) == Some(event)
    ensures WellRouted(PacketOf(event).value) && AllValid(PacketOf(event).value.fields)
  {
    hide NormalCommand;
    hide DecodePacket;
    hide PacketOf;
    hide WellRouted;
    hide AllValid;
    match command
    case Text(_, _, _) => MessageRoundTrip(command);
    case Ping(_, _, _) => MessageRoundTrip(command);
    case Pong(_, _, _) => MessageRoundTrip(command);
    case Query(_, _, _, _) => QueryRoundTrip(command);
    case Response(_, _, _, _) => QueryRoundTrip(command);
    case Handoff(_, _, _, _) => DirectRoundTrip(command);
    case ClientData(_, _, _, _) => DirectRoundTrip(command);
    case FileFlightPlan(plan) => PlanCommandRoundTrip(command);
  }
}
