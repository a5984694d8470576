/** The tokenized packet: three grammars under one prefix octet, and their printer. */
module Packet {
  import opened Wrappers
  import opened Text
  import Codec

  datatype CodecError =
    | PacketTooLong(limit: nat) | InvalidUtf8 | Empty | UnknownPrefix(prefix: char) | Missing(what: Bytes)
    | InvalidCommand | EmbeddedDelimiter

  datatype RawPacketKind =
    | Request | Client | PilotPosition | AtcPosition | IvaoSpecific | IvaoData | IvaoOther
  {
    function Prefix(): char {
      match this
      case Request => '$'
      case Client => '#'
      case PilotPosition => '@'
      case AtcPosition => '%'
      case IvaoSpecific => '!'
      case IvaoData => '&'
      case IvaoOther => '-'
    }
  }

  function KindOfPrefix(c: char): Option<RawPacketKind> {
    if c == '$' then Some(Request)
    else if c == '#' then Some(Client)
    else if c == '@' then Some(PilotPosition)
    else if c == '%' then Some(AtcPosition)
    else if c == '!' then Some(IvaoSpecific)
    else if c == '&' then Some(IvaoData)
    else if c == '-' then Some(IvaoOther)
    else None
  }

  // ---------------------------------------------------------------- Parsing

  function Parse(frame: Bytes): Result<RawPacket, CodecError> {
    if frame == "" then Err(Empty) else
    var kind := KindOfPrefix(frame[0]);
    if kind.None? then Err(UnknownPrefix(frame[0])) else
    var body := frame[1..];
    if !ValidUtf8(body) then Err(InvalidUtf8) else
    match kind.value
    case PilotPosition => ParsePilot(body)
    case AtcPosition => ParseAtc(body)
    case _ => ParseCommand(kind.value, body)
  }

  predicate IsPilotMode(c: char) {
    c == 'N' || c == 'S' || c == 'Y'
  }

  function ParsePilot(body: Bytes): Result<RawPacket, CodecError> {
    var tokens := Split(body);
    var head := tokens[0];
    if head == "" then Err(Missing("pilot mode"))
    else if !IsPilotMode(head[0]) then Err(InvalidCommand)
    else if head[1..] != "" then Ok(RawPacket(PilotPosition, head[..1], head[1..], "", tokens[1..]))
    else if |tokens| < 2 || tokens[1] == "" then Err(Missing("pilot callsign"))
    else Ok(RawPacket(PilotPosition, head[..1], tokens[1], "", tokens[2..]))
  }

  function ParseAtc(body: Bytes): Result<RawPacket, CodecError> {
    var tokens := Split(body);
    if tokens[0] == "" then Err(Missing("ATC callsign"))
    else Ok(RawPacket(AtcPosition, "", tokens[0], "", tokens[1..]))
  }

  function ParseCommand(kind: RawPacketKind, body: Bytes): Result<RawPacket, CodecError> {
    var i := ColonIndex(body);
    if i == |body| then Err(Missing("destination separator")) else
    var head := body[..i];
    if |head| < 2 || !IsAscii(head) then Err(InvalidCommand) else
    var tokens := Split(body[i + 1..]);
    if head[..2] == "DI" then Ok(RawPacket(kind, head[..2], tokens[0], head[2..], tokens[1..]))
    else Ok(RawPacket(kind, head[..2], head[2..], tokens[0], tokens[1..]))
  }

  // ---------------------------------------------------------------- Printing

  /** Each field after a colon. */
  function Tail(fields: seq<Bytes>): Bytes {
    if fields == [] then "" else ":" + fields[0] + Tail(fields[1..])
  }

  datatype RawPacket = RawPacket(
    kind: RawPacketKind, command: Bytes, source: Bytes, destination: Bytes, fields: seq<Bytes>)
  {
    /** What stands before the fields, without the prefix octet. */
    function Head(): Bytes {
      match kind
      case PilotPosition => command + ":" + source
      case AtcPosition => source
      case _ => if command == "DI" then command + destination + ":" + source else command + source + ":" + destination
    }

    /** The prefix octet and the head. */
    function Start(): Bytes {
      [kind.Prefix()] + Head()
    }

    function Print(): Bytes {
      Start() + Tail(fields)
    }

    /** `Start`, octet by octet as the encoder writes it. */
    lemma StartGrows()
      ensures var prefix := [kind.Prefix()];
              Start() ==
              match kind
              case PilotPosition => prefix + command + ":" + source
              case AtcPosition => prefix + source
              case _ =>
                if command == "DI" then prefix + command + destination + ":" + source
                else prefix + command + source + ":" + destination
    {
      var prefix := [kind.Prefix()];
      match kind
      case PilotPosition => AppendFour(prefix, command, ":", source);
      case AtcPosition =>
      case _ =>
        var first := if command == "DI" then destination else source;
        var second := if command == "DI" then source else destination;
        AppendFour(prefix, command, first, ":");
        Regroup(prefix, command + first + ":", second);
    }

    /** `RawPacket::encode`. */
    method Encode(limit: nat) returns (r: Result<Bytes, CodecError>)
      ensures r == Encoded(limit)
    {
      var output := [kind.Prefix()];
      match kind {
        case PilotPosition =>
          output := output + command;
          output := output + ":";
          output := output + source;
        case AtcPosition =>
          output := output + source;
        case _ =>
          if command == "DI" {
            output := output + command;
            output := output + destination;
            output := output + ":";
            output := output + source;
          } else {
            output := output + command;
            output := output + source;
            output := output + ":";
            output := output + destination;
          }
      }
      StartGrows();
      output := AppendFields(output, fields);
      if |output| > limit {
        return Err(PacketTooLong(limit));
      }
      if exists i :: 0 <= i < |output| && Codec.IsDelimiter(output[i]) {
        return Err(EmbeddedDelimiter);
      }
      r := Ok(output);
    }

    function Encoded(limit: nat): Result<Bytes, CodecError> {
      if |Print()| > limit then Err(PacketTooLong(limit))
      else if !Codec.DelimiterFree(Print()) then Err(EmbeddedDelimiter)
      else Ok(Print())
    }
  }

  method AppendFields(start: Bytes, fields: seq<Bytes>) returns (output: Bytes)
    ensures output == start + Tail(fields)
  {
    output := start;
    for i := 0 to |fields|
      invariant output + Tail(fields[i..]) == start + Tail(fields)
    {
      assert fields[i..][0] == fields[i] && fields[i..][1..] == fields[i + 1..];
      AppendFour(output, ":", fields[i], Tail(fields[i + 1..]));
      output := output + ":";
      output := output + fields[i];
    }
    assert fields[|fields|..] == [];
    assert output + "" == output;
  }

  lemma AppendFour(a: Bytes, b: Bytes, c: Bytes, d: Bytes)
    ensures a + (b + c + d) == a + b + c + d
  {
  }

  lemma Regroup(a: Bytes, b: Bytes, c: Bytes)
    ensures (a + b) + c == a + (b + c)
  {
  }

  // ---------------------------------------------------------------- Tokens and tails

  lemma {:induction false} TailJoin(fields: seq<Bytes>)
    ensures Tail(fields) == if fields == [] then "" else ":" + Join(fields)
  {
    if |fields| == 1 {
      assert Tail(fields[1..]) == "";
      assert ":" + fields[0] + "" == ":" + fields[0];
    } else if |fields| > 1 {
      TailJoin(fields[1..]);
      assert ":" + fields[0] + (":" + Join(fields[1..])) == ":" + (fields[0] + ":" + Join(fields[1..]));
    }
  }

  /** The tokens that the parser sees for `fields`: as printed, a field that
      contains colons falls apart. */
  function Tokens(fields: seq<Bytes>): seq<Bytes> {
    if fields == [] then [] else Split(Join(fields))
  }

  lemma SplitTail(a: Bytes, fields: seq<Bytes>)
    requires ':' !in a
    ensures Split(a + Tail(fields)) == [a] + Tokens(fields)
  {
    TailJoin(fields);
    if fields == [] {
      assert a + "" == a;
      SplitWhole(a);
    } else {
      assert a + (":" + Join(fields)) == a + ":" + Join(fields);
      SplitCons(a, Join(fields));
    }
  }

  lemma TokensIdentity(fields: seq<Bytes>)
    requires ColonFree(fields)
    ensures Tokens(fields) == fields
  {
    if fields != [] {
      SplitJoin(fields);
    }
  }

  lemma ValidTail(fields: seq<Bytes>)
    requires AllValid(fields)
    ensures ValidUtf8(Tail(fields))
  {
    TailJoin(fields);
    if fields != [] {
      ValidJoin(fields);
      ValidAscii(":");
      ValidAppend(":", Join(fields));
    }
  }

  // ---------------------------------------------------------------- Well-formed packets

  /** A token: valid text without a colon. */
  predicate IsToken(s: Bytes) {
    ValidUtf8(s) && ':' !in s
  }

  /** The routing part of a packet, apart from its fields. */
  predicate WellRouted(p: RawPacket) {
    && IsToken(p.source) && IsToken(p.destination)
    && match p.kind
       case PilotPosition => |p.command| == 1 && IsPilotMode(p.command[0]) && p.source != "" && p.destination == ""
       case AtcPosition => p.command == "" && p.source != "" && p.destination == ""
       case _ =>
         && |p.command| == 2 && IsAscii(p.command) && ':' !in p.command
         && IsAscii(if p.command == "DI" then p.destination else p.source)
  }

  predicate WellFormed(p: RawPacket) {
    WellRouted(p) && ColonFree(p.fields) && AllValid(p.fields)
  }

  // ---------------------------------------------------------------- Parse after print

  lemma ValidHead(p: RawPacket)
    requires WellRouted(p)
    ensures ValidUtf8(p.Head())
  {
    ValidAscii(":");
    ValidAscii(p.command);
    match p.kind
    case PilotPosition =>
      ValidAppend(p.command, ":");
      ValidAppend(p.command + ":", p.source);
    case AtcPosition =>
    case _ =>
      var first := if p.command == "DI" then p.destination else p.source;
      var second := if p.command == "DI" then p.source else p.destination;
      ValidAppend(p.command, first);
      ValidAppend(p.command + first, ":");
      ValidAppend(p.command + first + ":", second);
  }

  lemma PrintParts(p: RawPacket)
    ensures p.Print() == [p.kind.Prefix()] + (p.Head() + Tail(p.fields))
    ensures p.Print()[0] == p.kind.Prefix() && p.Print()[1..] == p.Head() + Tail(p.fields)
    ensures KindOfPrefix(p.kind.Prefix()) == Some(p.kind)
  {
    Regroup([p.kind.Prefix()], p.Head(), Tail(p.fields));
  }

  /** Printing and parsing a packet gives it back, with its fields cut at the
      colons they contain. */
  lemma ParsePrint(p: RawPacket)
    requires WellRouted(p) && AllValid(p.fields)
    ensures Parse(p.Print()) == Ok(p.(fields := Tokens(p.fields)))
  {
    hide Text.ValidUtf8;
    hide Text.Split;
    hide Text.ColonIndex;
    hide Tokens;
    hide Tail;
    hide RawPacket.Print;
    PrintParts(p);
    ValidHead(p);
    ValidTail(p.fields);
    ValidAppend(p.Head(), Tail(p.fields));
    match p.kind
    case PilotPosition => ParsePilotPrint(p.command, p.source, p.fields);
    case AtcPosition => SplitTail(p.source, p.fields);
    case _ =>
      var first := if p.command == "DI" then p.destination else p.source;
      var second := if p.command == "DI" then p.source else p.destination;
      Regroup(p.command + first + ":", second, Tail(p.fields));
      ParseCommandPrint(p.kind, p.command, first, second, p.fields);
  }

  lemma ParsePilotPrint(command: Bytes, source: Bytes, fields: seq<Bytes>)
    requires |command| == 1 && IsPilotMode(command[0]) && source != "" && ':' !in source
    ensures ParsePilot(command + ":" + source + Tail(fields))
            == Ok(RawPacket(PilotPosition, command, source, "", Tokens(fields)))
  {
    hide Text.Split;
    hide Tail;
    hide Tokens;
    var body := command + ":" + source + Tail(fields);
    assert Split(body) == [command] + ([source] + Tokens(fields)) by {
      Regroup(command + ":", source, Tail(fields));
      SplitTail(source, fields);
      SplitCons(command, source + Tail(fields));
    }
    TwoThenRest(command, source, Tokens(fields));
    assert command[..1] == command && command[1..] == "";
  }

  lemma TwoThenRest(a: Bytes, b: Bytes, rest: seq<Bytes>)
    ensures var s := [a] + ([b] + rest); |s| >= 2 && s[0] == a && s[1] == b && s[2..] == rest
  {
  }

  lemma ParseCommandPrint(kind: RawPacketKind, command: Bytes, first: Bytes, second: Bytes, fields: seq<Bytes>)
    requires |command| == 2 && IsAscii(command) && IsAscii(first)
    requires ':' !in command && ':' !in first && ':' !in second
    ensures ParseCommand(kind, command + first + ":" + (second + Tail(fields))) ==
            Ok(if command == "DI" then RawPacket(kind, command, second, first, Tokens(fields))
               else RawPacket(kind, command, first, second, Tokens(fields)))
  {
    var head := command + first;
    var rest := second + Tail(fields);
    var body := head + ":" + rest;
    assert forall j :: 0 <= j < |head| ==> body[j] == head[j] && head[j] != ':';
    assert body[|head|] == ':';
    assert ColonIndex(body) == |head|;
    assert body[..|head|] == head && body[|head| + 1..] == rest;
    assert head[..2] == command && head[2..] == first;
    SplitTail(second, fields);
  }

  /** The round trip for well-formed packets of every kind. */
  lemma PacketRoundTrip(p: RawPacket)
    requires WellFormed(p)
    ensures Parse(p.Print()) == Ok(p)
  {
    ParsePrint(p);
    TokensIdentity(p.fields);
  }

  // ---------------------------------------------------------------- Print after parse

  /** The parser only produces well-formed packets. */
  lemma ParsedIsWellFormed(frame: Bytes)
    requires Parse(frame).Ok?
    ensures WellFormed(Parse(frame).value)
  {
    hide Text.Split;
    hide Text.ColonIndex;
    hide Text.ValidUtf8;
    var body := frame[1..];
    match KindOfPrefix(frame[0]).value
    case PilotPosition => PilotWellFormed(body);
    case AtcPosition => AtcWellFormed(body);
    case kind => CommandWellFormed(kind, body);
  }

  lemma EmptyIsToken()
    ensures IsToken("")
  {
  }

  lemma PilotWellFormed(body: Bytes)
    requires ValidUtf8(body) && ParsePilot(body).Ok?
    ensures WellFormed(ParsePilot(body).value)
  {
    hide Text.Split;
    hide Text.ValidUtf8;
    EmptyIsToken();
    SplitColonFree(body);
    ValidSplit(body);
    var head := Split(body)[0];
    CutAt(head, 0);
    assert ':' !in head;
    ValidCut(head[..0], head[0], head[1..]);
    assert forall c :: c in head[1..] ==> c in head;
  }

  lemma AtcWellFormed(body: Bytes)
    requires ValidUtf8(body) && ParseAtc(body).Ok?
    ensures WellFormed(ParseAtc(body).value)
  {
    hide Text.Split;
    hide Text.ValidUtf8;
    EmptyIsToken();
    SplitColonFree(body);
    ValidSplit(body);
  }

  lemma CommandWellFormed(kind: RawPacketKind, body: Bytes)
    requires !kind.PilotPosition? && !kind.AtcPosition?
    requires ValidUtf8(body) && ParseCommand(kind, body).Ok?
    ensures WellFormed(ParseCommand(kind, body).value)
  {
    hide Text.Split;
    hide Text.ValidUtf8;
    var i := ColonIndex(body);
    CutAt(body, i);
    ValidCut(body[..i], ':', body[i + 1..]);
    SplitColonFree(body[i + 1..]);
    ValidSplit(body[i + 1..]);
    AsciiParts(body[..i]);
  }

  lemma AsciiParts(head: Bytes)
    requires |head| >= 2 && IsAscii(head) && ':' !in head
    ensures IsAscii(head[..2]) && ':' !in head[..2] && IsToken(head[2..]) && IsAscii(head[2..])
  {
    assert forall i :: 0 <= i < |head[2..]| ==> head[2..][i] == head[i + 2];
    ValidAscii(head[2..]);
    assert forall c :: c in head[2..] ==> c in head;
    assert forall c :: c in head[..2] ==> c in head;
  }

  /** A pilot position in the compact form, without the colon after the mode. */
  predicate IsCompactPilot(frame: Bytes) {
    |frame| > 2 && frame[0] == '@' && frame[2] != ':'
  }

  /** Printing a parsed frame gives the frame back, except for compact pilot
      frames, which gain the colon of the standard form. */
  lemma PrintParse(frame: Bytes)
    requires Parse(frame).Ok?
    ensures Parse(frame).value.Print() ==
            if IsCompactPilot(frame) then frame[..2] + ":" + frame[2..] else frame
  {
    hide Text.Split;
    hide Text.ColonIndex;
    hide Text.ValidUtf8;
    hide Tail;
    hide RawPacket.Print;
    var p := Parse(frame).value;
    var body := frame[1..];
    PrefixOfKind(frame[0]);
    assert frame == [frame[0]] + body;
    PrintParts(p);
    match KindOfPrefix(frame[0]).value
    case PilotPosition => PilotHeadAndTail(frame);
    case AtcPosition => AtcHeadAndTail(body);
    case kind => CommandHeadAndTail(kind, body);
  }

  lemma PrefixOfKind(c: char)
    requires KindOfPrefix(c).Some?
    ensures KindOfPrefix(c).value.Prefix() == c
  {
  }

  lemma AtcHeadAndTail(body: Bytes)
    requires ParseAtc(body).Ok?
    ensures var p := ParseAtc(body).value;
            p.kind.AtcPosition? && p.Head() + Tail(p.fields) == body
  {
    JoinHead(body);
  }

  lemma JoinHead(s: Bytes)
    ensures s == Split(s)[0] + Tail(Split(s)[1..])
  {
    hide Text.Split;
    var tokens := Split(s);
    JoinSplit(s);
    TailJoin(tokens[1..]);
    if |tokens| > 1 {
      Regroup(tokens[0], ":", Join(tokens[1..]));
    } else {
      assert tokens[0] + "" == tokens[0];
    }
  }

  lemma CommandHeadAndTail(kind: RawPacketKind, body: Bytes)
    requires !kind.PilotPosition? && !kind.AtcPosition?
    requires ParseCommand(kind, body).Ok?
    ensures var p := ParseCommand(kind, body).value;
            p.kind == kind && p.Head() + Tail(p.fields) == body
  {
    hide Text.Split;
    hide Tail;
    var p := ParseCommand(kind, body).value;
    var i := ColonIndex(body);
    var head, tail := body[..i], body[i + 1..];
    CutAt(body, i);
    JoinHead(tail);
    assert head == head[..2] + head[2..];
    Regroup(head + ":", Split(tail)[0], Tail(p.fields));
  }

  lemma PilotHeadAndTail(frame: Bytes)
    requires frame != "" && frame[0] == '@' && ParsePilot(frame[1..]).Ok?
    ensures var p := ParsePilot(frame[1..]).value;
            [p.kind.Prefix()] + (p.Head() + Tail(p.fields)) ==
            if IsCompactPilot(frame) then frame[..2] + ":" + frame[2..] else frame
  {
    hide Text.Split;
    hide Tail;
    var body := frame[1..];
    var p := ParsePilot(body).value;
    var tokens := Split(body);
    var head, rest := tokens[0], tokens[1..];
    JoinHead(body);
    SplitColonFree(body);
    assert frame == "@" + body;
    if head[1..] != "" {
      CompactPilot(frame, head, Tail(rest));
    } else {
      TailCons(rest);
      StandardPilot(frame, head, tokens[1], Tail(tokens[2..]));
    }
  }

  lemma TailCons(fields: seq<Bytes>)
    requires fields != []
    ensures Tail(fields) == ":" + fields[0] + Tail(fields[1..])
  {
  }

  lemma CompactPilot(frame: Bytes, head: Bytes, tail: Bytes)
    requires |head| >= 2 && ':' !in head && frame == "@" + (head + tail)
    ensures frame[0] == '@' ==> IsCompactPilot(frame)
    ensures "@" + (head[..1] + ":" + head[1..] + tail) == frame[..2] + ":" + frame[2..]
  {
    assert frame[2] == head[1] && head[1] in head;
    assert frame[..2] == "@" + head[..1];
    assert frame[2..] == head[1..] + tail;
    AppendFour("@", head[..1], ":", head[1..] + tail);
    Regroup(head[..1] + ":", head[1..], tail);
  }

  lemma StandardPilot(frame: Bytes, head: Bytes, source: Bytes, tail: Bytes)
    requires |head| == 1 && frame == "@" + (head + (":" + source + tail))
    ensures !IsCompactPilot(frame)
    ensures "@" + (head[..1] + ":" + source + tail) == frame
  {
    assert frame[2] == (":" + source + tail)[0];
    assert head[..1] == head;
    AppendFour(head, ":", source, tail);
  }

  /** Encoding an accepted frame again, within the same limit, succeeds and
      gives back the frame, unless it is a compact pilot frame: then the result
      is one octet longer, may be over the limit, parses to the same packet,
      and is not rewritten a second time. */
  lemma ReEncode(frame: Bytes, limit: nat)
    requires Parse(frame).Ok? && |frame| <= limit && Codec.DelimiterFree(frame)
    ensures var again := Parse(frame).value.Encoded(limit);
            if !IsCompactPilot(frame) then again == Ok(frame)
            else if |frame| == limit then again == Err(PacketTooLong(limit))
            else
              && again == Ok(frame[..2] + ":" + frame[2..])
              && Parse(again.value) == Parse(frame)
              && !IsCompactPilot(again.value)
  {
    PrintParse(frame);
    ParsedIsWellFormed(frame);
    PacketRoundTrip(Parse(frame).value);
  }
}
