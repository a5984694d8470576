/**
 Which frames the server understands, and as what: stated on the octets of a
 frame and on the parts of a packet.
 */
module DecodingLaws {
  import opened Wrappers
  import opened Text
  import opened Model
  import opened Packet
  import opened ClassicProtocol

  // ---------------------------------------------------------------- Letters and names

  const SMALL: Bytes := "abcdefghijklmnopqrstuvwxyz"
  const LARGE: Bytes := "ABCDEFGHIJKLMNOPQRSTUVWXYZ"

  lemma LettersInOrder()
    ensures |SMALL| == |LARGE| == 26
    ensures forall i :: 0 <= i < 26 ==> SMALL[i] as int == 97 + i && LARGE[i] as int == 65 + i
  {
  }

  /** Only the twenty-six letters have an upper case. */
  lemma UpperExactly(c: char)
    ensures |SMALL| == |LARGE| == 26
    ensures forall i :: 0 <= i < 26 && SMALL[i] == c ==> UpperChar(c) == LARGE[i]
    ensures c !in SMALL ==> UpperChar(c) == c
  {
    hide SMALL;
    hide LARGE;
    LettersInOrder();
    if 'a' <= c <= 'z' {
      assert SMALL[c as int - 97] == c;
    }
  }

  const RESERVED: Bytes := "!@#$%*:& \t"

  /** A callsign has 2 to 12 ASCII characters, none of them reserved, and is kept in
      upper case; a wrong length or a foreign character is reported first. */
  lemma CallsignExactly(value: Bytes)
    ensures match ParseCallsign(value)
            case Ok(callsign) =>
              && 2 <= |value| <= 12 && callsign.text == Upper(value)
              && forall i :: 0 <= i < |value| ==> value[i] as int < 0x80 && value[i] !in RESERVED
            case Err(error) =>
              if 2 <= |value| <= 12 && forall i :: 0 <= i < |value| ==> value[i] as int < 0x80
              then error.InvalidCallsignCharacter? && exists i :: 0 <= i < |value| && value[i] in RESERVED
              else error.InvalidCallsignLength?
  {
    forall c: char ensures c in RESERVED <==> ReservedChar(c) {
      ReservedExactly(c);
    }
  }

  lemma ReservedExactly(c: char)
    ensures c in RESERVED <==> ReservedChar(c)
  {
    assert RESERVED == ['!', '@', '#', '$', '%', '*', ':', '&', ' ', '\t'];
  }

  /** The names of destinations, in any case; an `@` starts a range, and everything
      else has to be a callsign. */
  lemma DestinationExactly(value: Bytes)
    ensures ParseDestination(value) ==
            if value == "" then Err(EmptyDestination)
            else if |value| == 6 && Upper(value) == "SERVER" then Ok(Server)
            else if value == "*" then Ok(All)
            else if value in {"*A", "*a"} then Ok(AllAtc)
            else if value in {"*P", "*p"} then Ok(Pilots)
            else if value[0] == '@' then Ok(Range(value))
            else match ParseCallsign(value)
              case Ok(callsign) => Ok(Direct(callsign))
              case Err(error) => Err(error)
  {
    hide ParseCallsign;
    var folded := Upper(value);
    if |value| == 1 {
      assert value == [value[0]] && folded == [folded[0]];
    } else if |value| == 2 {
      assert value == [value[0], value[1]] && folded == [folded[0], folded[1]];
    }
  }

  /** The query kinds with a name of their own, in any case; every other text is
      kept as it is. */
  lemma QueryKindExactly(value: Bytes)
    ensures var kind := QueryKindOf(value);
            && (kind == RealName <==> Upper(value) == "RN")
            && (kind == FlightPlanQuery <==> Upper(value) == "FP")
            && (kind == Capabilities <==> Upper(value) == "CAPS")
            && (kind == Atis <==> Upper(value) == "ATIS")
            && (kind == SystemInfo <==> Upper(value) == "INF")
            && (kind == AircraftConfiguration <==> Upper(value) == "ACC")
            && (kind.Raw? ==> kind == Raw(value))
  {
  }

  // ---------------------------------------------------------------- Frames

  /** The accepted frames, octet by octet after the prefix. A pilot position has its
      mode first, with or without a colon before the callsign; a controller position
      has its callsign first; any other packet has at least two ASCII octets before
      its first colon. */
  ghost predicate Acceptable(frame: Bytes) {
    && frame != "" && ValidUtf8(frame[1..])
    && if frame[0] == '@' then
         && |frame| > 2 && frame[1] in "NSY"
         && (frame[2] != ':' || (|frame| > 3 && frame[3] != ':'))
       else if frame[0] == '%' then |frame| > 1 && frame[1] != ':'
       else
         && frame[0] in "$#!&-"
         && exists i :: 3 <= i < |frame| && frame[i] == ':'
                        && forall k :: 1 <= k < i ==> frame[k] != ':' && frame[k] as int < 0x80
  }

  lemma AcceptedExactly(frame: Bytes)
    ensures Parse(frame).Ok? <==> Acceptable(frame)
  {
    if frame != "" {
      var body := frame[1..];
      match KindOfPrefix(frame[0])
      case Some(PilotPosition) => PilotAccepted(frame);
      case Some(AtcPosition) => AtcAccepted(frame);
      case Some(kind) => CommandAccepted(frame, kind);
      case None =>
    }
  }

  lemma FirstToken(body: Bytes)
    ensures Split(body)[0] == body[..ColonIndex(body)]
    ensures |Split(body)| >= 2 <==> ColonIndex(body) < |body|
    ensures ColonIndex(body) < |body| ==> Split(body)[1..] == Split(body[ColonIndex(body) + 1..])
  {
    var i := ColonIndex(body);
    if i < |body| {
      var rest := Split(body[i + 1..]);
      assert Split(body) == [body[..i]] + rest;
      hide Split;
      assert ([body[..i]] + rest)[1..] == rest;
    } else {
      assert Split(body) == [body] && body[..i] == body;
    }
  }

  lemma PilotAccepted(frame: Bytes)
    requires frame != "" && frame[0] == '@'
    ensures Parse(frame).Ok? <==> Acceptable(frame)
  {
    hide ValidUtf8;
    hide Split;
    var body := frame[1..];
    var i := ColonIndex(body);
    FirstToken(body);
    assert forall c: char :: c in "NSY" <==> IsPilotMode(c);
    assert forall k :: 0 <= k < |body| ==> body[k] == frame[k + 1];
    if i == 1 && |body| > 1 {
      FirstToken(body[2..]);
      assert body[2..] != "" ==> body[2..][0] == frame[3];
    }
  }

  lemma AtcAccepted(frame: Bytes)
    requires frame != "" && frame[0] == '%'
    ensures Parse(frame).Ok? <==> Acceptable(frame)
  {
    hide ValidUtf8;
    hide Split;
    FirstToken(frame[1..]);
  }

  lemma CommandAccepted(frame: Bytes, kind: RawPacketKind)
    requires frame != "" && KindOfPrefix(frame[0]) == Some(kind) && !kind.PilotPosition? && !kind.AtcPosition?
    ensures Parse(frame).Ok? <==> Acceptable(frame)
  {
    hide ValidUtf8;
    hide Split;
    var body := frame[1..];
    var i := ColonIndex(body);
    assert forall k :: 0 <= k < |body| ==> body[k] == frame[k + 1];
    if ParseCommand(kind, body).Ok? {
      assert frame[i + 1] == ':';
      assert forall k :: 1 <= k < i + 1 ==> frame[k] == body[..i][k - 1];
    }
    if exists n :: 3 <= n < |frame| && frame[n] == ':'
                   && forall k :: 1 <= k < n ==> frame[k] != ':' && frame[k] as int < 0x80
    {
      var n :| 3 <= n < |frame| && frame[n] == ':'
               && forall k :: 1 <= k < n ==> frame[k] != ':' && frame[k] as int < 0x80;
      assert body[n - 1] == ':';
      assert i == n - 1;
      assert IsAscii(body[..i]);
    }
  }

  // ---------------------------------------------------------------- Commands

  /** The letters of the commands that are decoded here, and how many fields each
      needs at least. */
  function LeastFields(letters: Bytes): Option<nat> {
    if letters in {"PI", "PO", "SB", "PC", "C?", "DA", "DP"} then Some(0)
    else if letters in {"TM", "CQ", "HO", "HA", "CI", "!!"} then Some(1)
    else if letters == "CR" then Some(2)
    else if letters == "FP" then Some(15)
    else None
  }

  predicate IsCallsign(value: Bytes) {
    ParseCallsign(value).Ok?
  }

  /** The address of a packet is good for its command: logoffs and plans do not look
      at it, a kill wants a callsign, directed commands a callsign that is no other
      destination, the rest any destination. */
  predicate AddressOk(p: RawPacket) {
    if p.command in {"DA", "DP", "FP"} then true
    else if p.command == "!!" then IsCallsign(p.destination)
    else if p.command in {"CR", "HO", "HA", "SB", "PC", "C?", "CI"} then
      ParseDestination(p.destination).Ok? && ParseDestination(p.destination).value.Direct?
    else ParseDestination(p.destination).Ok?
  }

  predicate PlanOk(fields: seq<Bytes>) {
    && |fields| >= 15 && fields[0] != ""
    && forall i :: i in {2, 4, 5, 8, 9, 10, 11} ==> ParseI32(fields[i]).Some?
  }

  /** A packet of one of these commands is understood. */
  predicate Understood(p: RawPacket) {
    && LeastFields(p.command).Some? && |p.fields| >= LeastFields(p.command).value
    && IsCallsign(p.source) && AddressOk(p)
    && (p.command == "FP" ==> PlanOk(p.fields))
  }

  predicate Names(callsign: Callsign, value: Bytes) {
    callsign.text == Upper(value)
  }

  predicate PlanReads(p: RawPacket, plan: FlightPlan)
    requires PlanOk(p.fields)
  {
    var f := p.fields;
    && Names(plan.callsign, p.source) && plan.flightRules == f[0][..CharLen(f[0])] && plan.aircraft == f[1]
    && Some(plan.cruiseSpeed) == ParseI32(f[2]) && plan.departure == f[3]
    && Some(plan.estimatedDeparture) == ParseI32(f[4]) && Some(plan.actualDeparture) == ParseI32(f[5])
    && plan.cruiseAltitude == f[6] && plan.destination == f[7]
    && Some(plan.hoursEnroute) == ParseI32(f[8]) && Some(plan.minutesEnroute) == ParseI32(f[9])
    && Some(plan.hoursFuel) == ParseI32(f[10]) && Some(plan.minutesFuel) == ParseI32(f[11])
    && plan.alternate == f[12] && plan.remarks == f[13] && plan.route == f[14]
  }

  /** What an understood packet says. */
  predicate Reads(p: RawPacket, command: Command)
    requires Understood(p)
  {
    var address := ParseDestination(p.destination);
    match command
    case Logoff(source) => p.command in {"DA", "DP"} && Names(source, p.source)
    case Text(source, destination, message) =>
      p.command == "TM" && Names(source, p.source) && Ok(destination) == address && message == Join(p.fields)
    case Ping(source, destination, payload) =>
      p.command == "PI" && Names(source, p.source) && Ok(destination) == address && payload == Join(p.fields)
    case Pong(source, destination, payload) =>
      p.command == "PO" && Names(source, p.source) && Ok(destination) == address && payload == Join(p.fields)
    case Kill(source, target, reason) =>
      p.command == "!!" && Names(source, p.source) && Names(target, p.destination) && reason == Join(p.fields)
    case Query(source, destination, kind, arguments) =>
      && p.command == "CQ" && Names(source, p.source) && Ok(destination) == address
      && kind == QueryKindOf(p.fields[0]) && arguments == p.fields[1..]
    case Response(source, destination, kind, arguments) =>
      && p.command == "CR" && Names(source, p.source) && Ok(destination) == address
      && kind == QueryKindOf(p.fields[0]) && arguments == p.fields[1..]
    case Handoff(source, target, kind, fields) =>
      && p.command == (if kind.HandoffRequest? then "HO" else "HA")
      && Names(source, p.source) && Names(target, p.destination) && fields == p.fields
    case ClientData(source, target, kind, fields) =>
      && p.command == (match kind
                       case SquawkBox => "SB"
                       case ProController => "PC"
                       case CommunicationRequest => "C?"
                       case CommunicationReply => "CI")
      && Names(source, p.source) && Names(target, p.destination) && fields == p.fields
    case FileFlightPlan(plan) => p.command == "FP" && PlanReads(p, plan)
    case _ => false
  }

  /** The error code that goes with a refusal: none for a wrong form, otherwise the
      one for the callsign that is wrong. */
  function RefusalCode(p: RawPacket): Option<ErrorCode> {
    if LeastFields(p.command).None? || |p.fields| < LeastFields(p.command).value then None
    else if !IsCallsign(p.source) then Some(InvalidSource)
    else if p.command == "!!" then Some(InvalidCallsign)
    else None
  }

  /** A packet of a command decoded elsewhere: positions, weather and logins. */
  predicate DecodedElsewhere(p: RawPacket) {
    p.kind.PilotPosition? || p.kind.AtcPosition? || p.command in {"WX", "AX", "AA", "AP"}
  }

  /** The result of a decoder is what the packet says, or a refusal with its code. */
  predicate DecodesTo(p: RawPacket, r: Result<Command, ProtocolError>) {
    match r
    case Ok(command) => Understood(p) && Reads(p, command)
    case Err(error) => !Understood(p) && error.code == RefusalCode(p)
  }

  lemma SourceReads(value: Bytes)
    ensures IsCallsign(value) ==> Names(ParseCallsign(value).value, value)
  {
  }

  /** A direct destination is the callsign it is written as. */
  lemma DirectReads(value: Bytes)
    ensures ParseDestination(value).Ok? && ParseDestination(value).value.Direct? ==>
              Names(ParseDestination(value).value.callsign, value)
  {
  }

  lemma MessagesDecode(p: RawPacket)
    ensures p.command == "TM" ==> DecodesTo(p, DecodeText(p))
    ensures p.command in {"PI", "PO"} ==> DecodesTo(p, DecodePingPong(p))
    ensures p.command == "!!" ==> DecodesTo(p, DecodeKill(p))
  {
    hide ParseCallsign;
    hide ParseDestination;
    hide Join;
    hide Upper;
    hide PlanOk;
    SourceReads(p.source);
    SourceReads(p.destination);
  }

  lemma QueriesDecode(p: RawPacket)
    requires p.command in {"CQ", "CR"}
    ensures DecodesTo(p, DecodeQueryResponse(p))
  {
    hide ParseCallsign;
    hide ParseDestination;
    hide QueryKindOf;
    hide Upper;
    hide PlanOk;
    SourceReads(p.source);
  }

  lemma DirectsDecode(p: RawPacket)
    requires p.command in {"HO", "HA", "SB", "PC", "C?", "CI"}
    ensures DecodesTo(p, DecodeDirectCommand(p))
  {
    hide ParseCallsign;
    hide ParseDestination;
    hide Upper;
    hide PlanOk;
    SourceReads(p.source);
    DirectReads(p.destination);
  }

  lemma PlansDecode(p: RawPacket)
    requires p.command == "FP"
    ensures DecodesTo(p, DecodeFlightPlan(p))
  {
    hide ParseCallsign;
    hide ParseI32;
    hide CharLen;
    hide Upper;
    SourceReads(p.source);
  }

  lemma LogoffsDecode(p: RawPacket)
    requires p.command in {"DA", "DP"} && !p.kind.PilotPosition? && !p.kind.AtcPosition?
    ensures match DecodePacket(p)
            case Elsewhere => false
            case Decoded(command) => Understood(p) && Reads(p, command)
            case Refused(error) => !Understood(p) && error.code == RefusalCode(p)
  {
    hide ParseCallsign;
    hide Upper;
    hide PlanOk;
    SourceReads(p.source);
  }

  lemma UnknownIsNotUnderstood(p: RawPacket)
    requires LeastFields(p.command).None?
    ensures !Understood(p) && RefusalCode(p).None?
  {
  }

  /** A packet is decoded if and only if it is understood, as what it says; the
      others are refused with their code. */
  lemma DecodesExactly(p: RawPacket)
    ensures match DecodePacket(p)
            case Elsewhere => DecodedElsewhere(p)
            case Decoded(command) => !DecodedElsewhere(p) && Understood(p) && Reads(p, command)
            case Refused(error) => !DecodedElsewhere(p) && !Understood(p) && error.code == RefusalCode(p)
  {
    hide DecodeCallsign;
    hide DecodeText;
    hide DecodePingPong;
    hide DecodeKill;
    hide DecodeQueryResponse;
    hide DecodeDirectCommand;
    hide DecodeFlightPlan;
    hide Understood;
    hide Reads;
    hide RefusalCode;
    if DecodedElsewhere(p) {
    } else if p.command in {"DA", "DP"} {
      LogoffsDecode(p);
    } else if p.command in {"CQ", "CR"} {
      QueriesDecode(p);
    } else if p.command in {"HO", "HA", "SB", "PC", "C?", "CI"} {
      DirectsDecode(p);
    } else if p.command == "FP" {
      PlansDecode(p);
    } else if p.command in {"TM", "PI", "PO", "!!"} {
      MessagesDecode(p);
    } else {
      UnknownIsNotUnderstood(p);
    }
  }
}
