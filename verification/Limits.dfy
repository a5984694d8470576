/**
 When the classic encoder accepts what the server relays. A relayed frame is
 decoded, and encoded again under the limit of the classic protocol; the frame
 that results is as long as the one that came in, with exact exceptions.
 */
module RelayLimits {
  import opened Wrappers
  import opened Text
  import opened Model
  import opened Packet
  import opened ClassicProtocol
  import opened RelayRoundTrip
  import opened RelayContent
  import Codec
  import Commands

  const LIMIT: nat := CLASSIC_MAX_FRAME_BYTES

  /** A ping or pong that carries no payload field at all. */
  predicate IsEmptyPing(frame: Bytes) {
    Parse(frame).Ok? && Parse(frame).value.command in {"PI", "PO"} && Parse(frame).value.fields == []
  }

  // ---------------------------------------------------------------- Parts of a print

  predicate IsCommand(p: RawPacket) {
    !p.kind.PilotPosition? && !p.kind.AtcPosition?
  }

  lemma PrintOfCommand(p: RawPacket)
    requires IsCommand(p)
    ensures |p.Print()| == 2 + |p.command| + |p.source| + |p.destination| + |Tail(p.fields)|
    ensures Codec.DelimiterFree(p.Print()) <==>
              && Codec.DelimiterFree(p.command) && Codec.DelimiterFree(p.source) && Codec.DelimiterFree(p.destination)
              && Codec.DelimiterFree(Tail(p.fields))
  {
    var first := if p.command == "DI" then p.destination else p.source;
    var second := if p.command == "DI" then p.source else p.destination;
    PrintParts(p);
    assert p.Head() == p.command + first + ":" + second;
    assert Codec.DelimiterFree(":") && Codec.DelimiterFree([p.kind.Prefix()]);
    hide Codec.DelimiterFree;
    hide RawPacket.Print;
    FreeOfSum(p.command, first);
    FreeOfSum(p.command + first, ":");
    FreeOfSum(p.command + first + ":", second);
    FreeOfSum(p.Head(), Tail(p.fields));
    FreeOfSum([p.kind.Prefix()], p.Head() + Tail(p.fields));
  }

  lemma FreeOfSum(a: Bytes, b: Bytes)
    ensures Codec.DelimiterFree(a + b) <==> Codec.DelimiterFree(a) && Codec.DelimiterFree(b)
  {
    assert forall i :: 0 <= i < |b| ==> (a + b)[|a| + i] == b[i];
    assert forall i :: 0 <= i < |a| ==> (a + b)[i] == a[i];
  }

  lemma {:induction false} FreeTail(fields: seq<Bytes>)
    ensures Codec.DelimiterFree(Tail(fields)) <==> forall i :: 0 <= i < |fields| ==> Codec.DelimiterFree(fields[i])
  {
    if fields != [] {
      FreeTail(fields[1..]);
      FreeOfSum(":", fields[0]);
      FreeOfSum(":" + fields[0], Tail(fields[1..]));
      assert forall i :: 1 <= i < |fields| ==> fields[i] == fields[1..][i - 1];
    }
  }

  lemma FreeUpToCase(a: Bytes, b: Bytes)
    requires Upper(a) == Upper(b)
    ensures |a| == |b| && (Codec.DelimiterFree(a) ==> Codec.DelimiterFree(b))
  {
    assert forall i :: 0 <= i < |a| ==> UpperChar(a[i]) == Upper(a)[i] == UpperChar(b[i]);
  }

  /** Cutting the fields at their colons does not change what is printed. */
  lemma PrintReceived(q: RawPacket)
    ensures Received(q).Print() == q.Print()
  {
    TailJoin(q.fields);
    TailJoin(Tokens(q.fields));
    if q.fields != [] {
      JoinSplit(Join(q.fields));
    }
  }

  /** A frame that decodes to a command is the print of its packet. */
  lemma DecodedIsPrinted(frame: Bytes)
    requires Decode(frame).Decoded?
    ensures Parse(frame).Ok? && IsCommand(Parse(frame).value)
    ensures Parse(frame).value.Print() == frame && |Parse(frame).value.command| == 2
  {
    PrintParse(frame);
    ParsedIsWellFormed(frame);
  }

  // ---------------------------------------------------------------- Relayed commands

  /** The octets the fields gain on their way. */
  function Gain(command: Bytes, fields: seq<Bytes>): nat {
    if command in {"PI", "PO"} && fields == [] then 1 else 0
  }

  lemma FieldsKeepLength(command: Bytes, fields: seq<Bytes>, received: seq<Bytes>)
    requires command != "FP" && SameFields(command, fields, received)
    ensures |Tail(received)| == |Tail(fields)| + Gain(command, fields)
    ensures Codec.DelimiterFree(Tail(fields)) ==> Codec.DelimiterFree(Tail(received))
  {
    if command in {"CQ", "CR"} {
      FreeUpToCase(fields[0], received[0]);
      FreeTail(fields);
      FreeTail(received);
      assert forall i :: 1 <= i < |fields| ==> fields[i] == fields[1..][i - 1] == received[1..][i - 1] == received[i];
    } else if received != fields {
      assert received[1..] == [];
      FreeTail(received);
    }
  }

  lemma ContentKeepsLength(p: RawPacket, q: RawPacket)
    requires IsCommand(p) && IsCommand(q) && p.command != "FP" && SameContent(p, q)
    ensures |q.Print()| == |p.Print()| + Gain(p.command, p.fields)
    ensures Codec.DelimiterFree(p.Print()) ==> Codec.DelimiterFree(q.Print())
  {
    hide RawPacket.Print;
    hide SameFields;
    hide Tail;
    PrintOfCommand(p);
    PrintOfCommand(q);
    UpperIdempotent(p.source);
    FreeUpToCase(p.source, q.source);
    FreeUpToCase(p.destination, q.destination);
    FieldsKeepLength(p.command, p.fields, q.fields);
  }

  lemma RelayedLength(frame: Bytes, command: Command, event: Event)
    requires Decode(frame) == Decoded(command) && EventOf(command) == Some(event) && !command.FileFlightPlan?
    ensures var sent := PacketOf(event).value.Print();
            && |sent| == |frame| + (if IsEmptyPing(frame) then 1 else 0)
            && (Codec.DelimiterFree(frame) ==> Codec.DelimiterFree(sent))
  {
    hide Parse;
    hide EventOf;
    hide PacketOf;
    hide SameContent;
    hide PrefixKept;
    hide WellFormed;
    hide RawPacket.Print;
    var p, q := Parse(frame).value, PacketOf(event).value;
    DecodedIsPrinted(frame);
    ParsedIsWellFormed(frame);
    BuiltKeepsContent(p, command, event);
    BuiltIsCommand(event);
    OnlyPlansAreFiled(p, command);
    PrintReceived(q);
    ContentKeepsLength(p, Received(q));
  }

  lemma BuiltIsCommand(event: Event)
    requires PacketOf(event).Some?
    ensures IsCommand(PacketOf(event).value) && |PacketOf(event).value.command| == 2
  {
  }

  lemma OnlyPlansAreFiled(p: RawPacket, command: Command)
    requires DecodePacket(p) == Decoded(command)
    ensures p.command == "FP" <==> command.FileFlightPlan?
  {
  }

  /** What the recipient of a relayed command gets, for every frame without
      delimiters. The encoder refuses exactly the frames over its limit, where a
      ping or pong without a payload counts one octet more; from a frame within
      the limit this leaves only such a ping of exactly the limit. Otherwise the
      recipient decodes the same command, and its packet has the same content. */
  lemma RelayedExactly(frame: Bytes, command: Command, event: Event)
    requires Decode(frame) == Decoded(command) && EventOf(command) == Some(event) && !command.FileFlightPlan?
    requires Codec.DelimiterFree(frame)
    ensures match PacketOf(event).value.Encoded(LIMIT)
            case Err(error) =>
              && error == PacketTooLong(LIMIT)
              && |frame| + (if IsEmptyPing(frame) then 1 else 0) > LIMIT
              && (|frame| <= LIMIT ==> IsEmptyPing(frame) && |frame| == LIMIT)
            case Ok(sent) =>
              && |sent| == |frame| + (if IsEmptyPing(frame) then 1 else 0) <= LIMIT
              && Decode(sent) == Decode(frame)
              && Parse(frame).Ok? && Parse(sent).Ok? && SameContent(Parse(frame).value, Parse(sent).value)
              && PrefixKept(frame, sent)
  {
    hide Decode;
    hide Parse;
    hide EventOf;
    hide PacketOf;
    hide SameContent;
    hide PrefixKept;
    hide IsEmptyPing;
    hide RawPacket.Print;
    RelayedLength(frame, command, event);
    var encoded := PacketOf(event).value.Encoded(LIMIT);
    if encoded.Ok? {
      RelayPreservesMeaning(frame, command, event, encoded.value);
      RelayKeepsContent(frame, command, event, encoded.value);
    }
  }

  // ---------------------------------------------------------------- Flight plans

  /** `b` is `a` or shorter, and free of delimiters if `a` is. */
  predicate NoLonger(a: Bytes, b: Bytes) {
    && |b| <= |a|
    && (|b| == |a| ==> b == a)
    && (Codec.DelimiterFree(a) ==> Codec.DelimiterFree(b))
  }

  lemma NumberNoLonger(field: Bytes)
    requires ParseI32(field).Some?
    ensures NoLonger(field, Decimal(ParseI32(field).value))
  {
    hide ParseI32;
    DecimalShortest(field);
    var n: int := ParseI32(field).value;
    var digits := Digits(if n < 0 then -n else n);
    assert AllDigits(digits);
    assert forall i :: 0 <= i < |digits| ==> IsDigit(digits[i]);
  }

  /** As printed again, no field of a plan is longer. */
  lemma PlanFieldsNoLonger(p: RawPacket, plan: FlightPlan)
    requires DecodeFlightPlan(p) == Ok(FileFlightPlan(plan))
    ensures |p.fields| >= 15 && |FlightPlanFields(plan)| == 15
    ensures forall i :: 0 <= i < 15 ==> NoLonger(p.fields[i], FlightPlanFields(plan)[i])
    ensures plan.callsign.text == Upper(p.source)
  {
    hide NoLonger;
    hide ParseI32;
    hide Decimal;
    hide ParseCallsign;
    hide CharLen;
    CallsignKept(p.source);
    forall field | ParseI32(field).Some? ensures NoLonger(field, Decimal(ParseI32(field).value)) {
      NumberNoLonger(field);
    }
    forall field: Bytes ensures NoLonger(field, field) {
      SelfNoLonger(field);
    }
    var rules := p.fields[0];
    PrefixNoLonger(rules, CharLen(rules));
  }

  lemma SelfNoLonger(field: Bytes)
    ensures NoLonger(field, field)
  {
  }

  lemma PrefixNoLonger(field: Bytes, n: nat)
    requires n <= |field|
    ensures NoLonger(field, field[..n])
  {
  }

  /** The octets that printing the fields again saves: signs and leading zeros of
      numbers, all but the first character of the flight rules, and whatever
      follows the last field of a plan. */
  function Saved(fields: seq<Bytes>, printed: seq<Bytes>): int
    requires |printed| <= |fields|
  {
    if fields == [] then 0
    else if printed == [] then 1 + |fields[0]| + Saved(fields[1..], [])
    else |fields[0]| - |printed[0]| + Saved(fields[1..], printed[1..])
  }

  lemma {:induction false} SavedExactly(fields: seq<Bytes>, printed: seq<Bytes>)
    requires |printed| <= |fields|
    ensures |Tail(printed)| + Saved(fields, printed) == |Tail(fields)|
  {
    if printed != [] {
      SavedExactly(fields[1..], printed[1..]);
    } else if fields != [] {
      SavedExactly(fields[1..], []);
    }
  }

  lemma {:induction false} NothingSavedExactlyWhen(fields: seq<Bytes>, printed: seq<Bytes>)
    requires |printed| <= |fields|
    requires forall i :: 0 <= i < |printed| ==> NoLonger(fields[i], printed[i])
    ensures Saved(fields, printed) >= 0
    ensures Saved(fields, printed) == 0 <==> printed == fields
  {
    if printed != [] {
      NothingSavedExactlyWhen(fields[1..], printed[1..]);
      assert printed == [printed[0]] + printed[1..] && fields == [fields[0]] + fields[1..];
    } else if fields != [] {
      NothingSavedExactlyWhen(fields[1..], []);
    }
  }

  /** What filing the plan of `frame` again would save. */
  function SavedOf(frame: Bytes, plan: FlightPlan): int {
    if Parse(frame).Ok? && |FlightPlanFields(plan)| <= |Parse(frame).value.fields|
    then Saved(Parse(frame).value.fields, FlightPlanFields(plan)) else 0
  }

  /** The exact length of a plan that is sent on: that of the frame that filed it,
      with the destination replaced, less what printing saves; nothing is saved
      exactly when the fields were filed as they are printed. */
  lemma PlanLength(frame: Bytes, plan: FlightPlan, destination: Destination)
    requires Decode(frame) == Decoded(FileFlightPlan(plan))
    ensures Parse(frame).Ok?
    ensures var p, q := Parse(frame).value, PacketOf(FlightPlanEvent(plan, destination)).value;
            && |q.Print()| == |frame| - |p.destination| + |DestinationText(destination)| - SavedOf(frame, plan)
            && SavedOf(frame, plan) >= 0
            && (SavedOf(frame, plan) == 0 <==> FlightPlanFields(plan) == p.fields)
            && (Codec.DelimiterFree(frame) && Codec.DelimiterFree(DestinationText(destination)) ==>
                  Codec.DelimiterFree(q.Print()))
  {
    hide Parse;
    hide RawPacket.Print;
    hide DecodeFlightPlan;
    hide FlightPlanFields;
    hide NoLonger;
    hide Tail;
    hide Saved;
    DecodedIsPrinted(frame);
    var p, q := Parse(frame).value, PacketOf(FlightPlanEvent(plan, destination)).value;
    PlanIsDecoded(p, plan);
    PlanFieldsNoLonger(p, plan);
    PrintOfCommand(p);
    PrintOfCommand(q);
    UpperIdempotent(p.source);
    FreeUpToCase(p.source, q.source);
    SavedExactly(p.fields, q.fields);
    NothingSavedExactlyWhen(p.fields, q.fields);
    FreeTail(p.fields);
    FreeTail(q.fields);
    if forall i :: 0 <= i < |p.fields| ==> Codec.DelimiterFree(p.fields[i]) {
      FreeFields(p.fields, q.fields);
    }
  }

  lemma PlanIsDecoded(p: RawPacket, plan: FlightPlan)
    requires DecodePacket(p) == Decoded(FileFlightPlan(plan))
    ensures p.command == "FP" && DecodeFlightPlan(p) == Ok(FileFlightPlan(plan))
  {
    hide DecodeFlightPlan;
    OnlyPlansAreFiled(p, FileFlightPlan(plan));
  }

  lemma FreeFields(fields: seq<Bytes>, printed: seq<Bytes>)
    requires |printed| <= |fields|
    requires forall i :: 0 <= i < |printed| ==> NoLonger(fields[i], printed[i])
    requires forall i :: 0 <= i < |fields| ==> Codec.DelimiterFree(fields[i])
    ensures forall i :: 0 <= i < |printed| ==> Codec.DelimiterFree(printed[i])
  {
  }

  /** When a filed plan reaches the controllers: the encoder refuses it if and only
      if its frame, with `*A` in place of its destination and less what printing
      the fields again saves, is over the limit. So a plan that was filed within
      the limit with a destination of two octets or more always fits. What is sent
      files the same plan again. */
  lemma FiledPlanExactly(frame: Bytes, plan: FlightPlan)
    requires Decode(frame) == Decoded(FileFlightPlan(plan)) && Codec.DelimiterFree(frame)
    ensures Parse(frame).Ok?
    ensures var p := Parse(frame).value;
            var length := |frame| + 2 - |p.destination| - SavedOf(frame, plan);
            match PacketOf(FlightPlanEvent(plan, AllAtc)).value.Encoded(LIMIT)
            case Err(error) =>
              error == PacketTooLong(LIMIT) && length > LIMIT && (|frame| <= LIMIT ==> |p.destination| < 2)
            case Ok(sent) =>
              && |sent| == length <= LIMIT
              && Decode(sent) == Decode(frame)
              && Parse(sent).Ok? && SameContent(p, Parse(sent).value) && PrefixKept(frame, sent)
  {
    hide Decode;
    hide Parse;
    hide SameContent;
    hide PrefixKept;
    hide FlightPlanFields;
    hide SavedOf;
    hide RawPacket.Print;
    PlanLength(frame, plan, AllAtc);
    var encoded := PacketOf(FlightPlanEvent(plan, AllAtc)).value.Encoded(LIMIT);
    if encoded.Ok? {
      RelayPreservesMeaning(frame, FileFlightPlan(plan), FlightPlanEvent(plan, AllAtc), encoded.value);
      RelayKeepsContent(frame, FileFlightPlan(plan), FlightPlanEvent(plan, AllAtc), encoded.value);
    }
  }

  // ---------------------------------------------------------------- Directed commands

  /** The command names one callsign as its destination or target. */
  predicate IsDirectedTo(command: Command, target: Callsign) {
    match command
    case Text(_, destination, _) => destination == Direct(target)
    case Query(_, destination, _, _) => destination == Direct(target)
    case Response(_, destination, _, _) => destination == Direct(target)
    case Ping(_, destination, _) => destination == Direct(target)
    case Pong(_, destination, _) => destination == Direct(target)
    case Handoff(_, to, _, _) => to == target
    case ClientData(_, to, _, _) => to == target
    case _ => false
  }

  /** A command directed to a callsign always gets through: without a payload its
      frame is short. */
  lemma DirectedIsNeverRefused(frame: Bytes, command: Command, event: Event, target: Callsign)
    requires Decode(frame) == Decoded(command) && EventOf(command) == Some(event)
    requires IsDirectedTo(command, target)
    requires Codec.DelimiterFree(frame) && |frame| <= LIMIT
    ensures PacketOf(event).value.Encoded(LIMIT).Ok?
  {
    hide Parse;
    hide PacketOf;
    hide SameContent;
    hide PrefixKept;
    hide RawPacket.Print;
    RelayedExactly(frame, command, event);
    DecodedIsPrinted(frame);
    var p := Parse(frame).value;
    if IsEmptyPing(frame) {
      PrintOfCommand(p);
      EmptyPingIsShort(p, command, target);
    }
  }

  lemma EmptyPingIsShort(p: RawPacket, command: Command, target: Callsign)
    requires p.command in {"PI", "PO"} && DecodePacket(p) == Decoded(command)
    requires IsDirectedTo(command, target)
    ensures |p.source| <= 12 && |p.destination| <= 12
  {
    hide Join;
    PingDecodes(p);
  }

  // ---------------------------------------------------------------- Frames that are not relayed

  function Repeated(n: nat): (s: Bytes)
    ensures |s| == n && forall i :: 0 <= i < n ==> s[i] == 'A'
  {
    seq(n, _ => 'A')
  }

  const LONG_TOKEN: Bytes := "@" + Repeated(504)
  const LONG_PING := RawPacket(Request, "PI", "AB", LONG_TOKEN, [])

  lemma LongTokenIsPlain()
    ensures |LONG_TOKEN| == 505 && PlainUpper(LONG_TOKEN) && Codec.DelimiterFree(LONG_TOKEN)
    ensures IsToken(LONG_TOKEN) && ParseDestination(LONG_TOKEN) == Ok(Range(LONG_TOKEN))
  {
    FixedTextNormal(LONG_TOKEN);
    assert LONG_TOKEN[0] == '@';
  }

  lemma ShortTextIsPlain()
    ensures IsToken("PI") && IsToken("FP") && IsToken("AB") && IsToken("") && ParseCallsign("AB") == Ok(Callsign("AB"))
  {
    FixedTextNormal("PI");
    FixedTextNormal("FP");
    FixedTextNormal("AB");
    FixedTextNormal("");
    assert Upper("AB") == "AB";
  }

  lemma LongPingDecodes()
    ensures Decode(LONG_PING.Print()) == Decoded(Ping(Callsign("AB"), Range(LONG_TOKEN), ""))
    ensures Parse(LONG_PING.Print()) == Ok(LONG_PING)
  {
    hide IsToken;
    hide ParseCallsign;
    hide ParseDestination;
    hide Parse;
    hide RawPacket.Print;
    LongTokenIsPlain();
    ShortTextIsPlain();
    PacketRoundTrip(LONG_PING);
  }

  /** The exceptions are real. This ping, `$PIAB:@AAA...`, is accepted at the
      limit and addressed to everybody in range; its relay would be one octet
      over the limit. */
  lemma LongestPingIsRefused()
    ensures var frame, command := LONG_PING.Print(), Ping(Callsign("AB"), Range(LONG_TOKEN), "");
            && |frame| == LIMIT && Codec.DelimiterFree(frame)
            && Decode(frame) == Decoded(command)
            && EventOf(command).Some?
            && PacketOf(EventOf(command).value).value.Encoded(LIMIT) == Err(PacketTooLong(LIMIT))
  {
    hide Parse;
    hide Decode;
    hide RawPacket.Print;
    hide PacketOf;
    hide SameContent;
    hide PrefixKept;
    LongTokenIsPlain();
    LongPingDecodes();
    PrintOfCommand(LONG_PING);
    RelayedExactly(
      LONG_PING.Print(), Ping(Callsign("AB"), Range(LONG_TOKEN), ""), PingEvent(Callsign("AB"), Range(LONG_TOKEN), ""));
  }

  /** A plan filed without a destination address, with a route of `n` octets. */
  function PlanWithRoute(n: nat): FlightPlan {
    FlightPlan(Callsign("AB"), "I", "", 0, "", 0, 0, "", "", 0, 0, 0, 0, "", "", Repeated(n))
  }

  function Filing(n: nat): RawPacket {
    RawPacket(Request, "FP", "AB", "", FlightPlanFields(PlanWithRoute(n)))
  }

  lemma {:induction false} TailOfShort(fields: seq<Bytes>)
    requires forall i :: 0 <= i < |fields| ==> |fields[i]| <= 1
    ensures |Tail(fields)| <= 2 * |fields|
  {
    if fields != [] {
      TailOfShort(fields[1..]);
    }
  }

  lemma {:induction false} TailOfLast(fields: seq<Bytes>, last: Bytes)
    ensures Tail(fields + [last]) == Tail(fields) + ":" + last
  {
    if fields == [] {
      assert Tail([last]) == ":" + last + Tail([last][1..]);
    } else {
      TailOfLast(fields[1..], last);
      assert (fields + [last])[1..] == fields[1..] + [last];
      Regroup(":" + fields[0], Tail(fields[1..]), ":" + last);
    }
  }

  /** The fields before the route. */
  function ShortFields(): seq<Bytes> {
    FlightPlanFields(PlanWithRoute(0))[..14]
  }

  lemma FilingFields(n: nat)
    ensures Filing(n).fields == ShortFields() + [Repeated(n)]
    ensures forall i :: 0 <= i < 14 ==> |ShortFields()[i]| <= 1 && PlainUpper(ShortFields()[i])
                                        && Codec.DelimiterFree(ShortFields()[i])
  {
    assert Digits(0) == "0" && Decimal(0) == "0";
  }

  lemma FilingLength(n: nat)
    ensures |Filing(n).Print()| == |Filing(0).Print()| + n && |Filing(0).Print()| <= 36
    ensures Codec.DelimiterFree(Filing(n).Print())
  {
    hide RawPacket.Print;
    hide Tail;
    hide ShortFields;
    FilingFields(n);
    FilingFields(0);
    PrintOfCommand(Filing(n));
    PrintOfCommand(Filing(0));
    TailOfLast(ShortFields(), Repeated(n));
    TailOfLast(ShortFields(), Repeated(0));
    TailOfShort(ShortFields());
    FreeTail(Filing(n).fields);
  }

  lemma FilingIsPlan(n: nat)
    ensures DecodeFlightPlan(Filing(n)) == Ok(FileFlightPlan(PlanWithRoute(n)))
  {
    hide ParseCallsign;
    hide ParseI32;
    hide Decimal;
    ShortTextIsPlain();
    forall m: I32 ensures ParseI32(Decimal(m)) == Some(m) {
      DecimalRoundTrip(m);
    }
    assert "I"[..CharLen("I")] == "I";
  }

  lemma FilingDecodes(n: nat)
    ensures Parse(Filing(n).Print()) == Ok(Filing(n))
    ensures Decode(Filing(n).Print()) == Decoded(FileFlightPlan(PlanWithRoute(n)))
  {
    hide DecodeFlightPlan;
    hide FlightPlanFields;
    hide IsToken;
    hide Parse;
    hide RawPacket.Print;
    ShortTextIsPlain();
    FixedTextNormal("I");
    FixedTextNormal(Repeated(n));
    PlanFieldsNormal(PlanWithRoute(n));
    PacketRoundTrip(Filing(n));
    FilingIsPlan(n);
  }

  /** So is this one: a plan that is accepted at the limit, filed without a
      destination address, is two octets too long with the `*A` the server puts
      there. */
  lemma LongestPlanIsRefused() returns (n: nat)
    ensures |Filing(n).Print()| == LIMIT && Codec.DelimiterFree(Filing(n).Print())
    ensures Decode(Filing(n).Print()) == Decoded(FileFlightPlan(PlanWithRoute(n)))
    ensures PacketOf(FlightPlanEvent(PlanWithRoute(n), AllAtc)).value.Encoded(LIMIT) == Err(PacketTooLong(LIMIT))
  {
    hide Parse;
    hide Decode;
    hide RawPacket.Print;
    hide PacketOf;
    hide SameContent;
    hide PrefixKept;
    hide FlightPlanFields;
    hide PlanWithRoute;
    hide SavedOf;
    FilingLength(0);
    n := LIMIT - |Filing(0).Print()|;
    FilingLength(n);
    FilingDecodes(n);
    PlanLength(Filing(n).Print(), PlanWithRoute(n), AllAtc);
    FiledPlanExactly(Filing(n).Print(), PlanWithRoute(n));
  }
}
