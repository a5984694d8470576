/**
 Who is let in. The ratings that may be requested, the presence a session gets,
 and what is said to whom when a login succeeds or is refused, stated on the login
 and the identity themselves.
 */
module Admissions {
  import opened Wrappers
  import opened Text
  import opened Model
  import opened State
  import opened Audience
  import opened System
  import Authentication
  import Guarantees
  import Lifecycle
  import Routing

  // ---------------------------------------------------------------- Ratings

  /** The controller ratings in their order; a rating's number is its place. */
  const ATC_RATINGS: seq<AtcRating> := [
    Suspended, ObserverRating, Student1, Student2, Student3, Controller1, Controller2, Controller3,
    Instructor1, Instructor2, Instructor3, Supervisor, Administrator]

  /** The pilot certifications in their order; each includes the ones before it,
      so its number has one more bit set. */
  const PILOT_RATINGS: seq<PilotRating> := [
    Unrated, PrivatePilotLicense, InstrumentRating, CommercialMultiEngineLicense, AirlineTransportPilotLicense,
    FlightInstructor, FlightExaminer]

  /** The number with the `n` lowest bits set. */
  function Bits(n: nat): nat {
    if n == 0 then 0 else 2 * Bits(n - 1) + 1
  }

  /** The ratings an identity may request. Controllers: any number from 1 to that
      of their own rating. Pilots and observers: the numbers of certifications up
      to their own. */
  ghost predicate Grantable(clientType: ClientType, identity: AuthenticatedIdentity, requested: int) {
    if clientType.Atc? then
      exists own :: 0 <= own < |ATC_RATINGS| && ATC_RATINGS[own] == identity.atcRating && 1 <= requested <= own
    else
      exists own, k :: 0 < k <= own < |PILOT_RATINGS| && PILOT_RATINGS[own] == identity.pilotRating
                       && requested == Bits(k)
  }

  lemma PilotNumbers()
    ensures Bits(1) == 1 && Bits(2) == 3 && Bits(3) == 7 && Bits(4) == 15 && Bits(5) == 31 && Bits(6) == 63
  {
    assert Bits(3) == 7;
    assert Bits(5) == 31;
  }

  /** A rating is granted exactly when it is grantable. */
  lemma GrantedExactly(login: LoginCommand, identity: AuthenticatedIdentity)
    ensures Authentication.RatingAllowed(login, identity)
            <==> Grantable(login.clientType, identity, login.requestedRating)
  {
    PilotNumbers();
    var requested := login.requestedRating;
    if login.clientType.Atc? {
      AtcGrantedExactly(identity, requested);
    } else {
      PilotGrantedExactly(identity, requested);
    }
  }

  lemma AtcGrantedExactly(identity: AuthenticatedIdentity, requested: int)
    ensures identity.atcRating.AllowsWireValue(requested) <==> Grantable(Atc, identity, requested)
  {
    var own := identity.atcRating.WireValue();
    assert 0 <= own < |ATC_RATINGS| && ATC_RATINGS[own] == identity.atcRating;
  }

  function PilotRank(rating: PilotRating): (own: nat)
    ensures own < |PILOT_RATINGS| && PILOT_RATINGS[own] == rating
  {
    match rating
    case Unrated => 0
    case PrivatePilotLicense => 1
    case InstrumentRating => 2
    case CommercialMultiEngineLicense => 3
    case AirlineTransportPilotLicense => 4
    case FlightInstructor => 5
    case FlightExaminer => 6
  }

  lemma PilotGrantedExactly(identity: AuthenticatedIdentity, requested: int)
    ensures identity.pilotRating.AllowsWireValue(requested) <==> Grantable(Pilot, identity, requested)
  {
    PilotNumbers();
    if identity.pilotRating.AllowsWireValue(requested) {
      var own := PilotRank(identity.pilotRating);
      var k := if requested == 1 then 1 else if requested == 3 then 2 else if requested == 7 then 3
               else if requested == 15 then 4 else if requested == 31 then 5 else 6;
      assert 0 < k <= own && requested == Bits(k);
    }
  }

  // ---------------------------------------------------------------- Who is online

  /** What every active session of every reachable state is: the presence has the
      fields of the login that activated it and of the identity the authority
      returned, the rating is one that identity may request, the revision is that
      of the dialect, and a VATSIM client has identified itself as the same. */
  lemma OnlinePresenceIsGranted(config: CoreConfig, run: seq<Action>, id: ConnectionId)
    requires Guarantees.Online(config, run, id)
    ensures Guarantees.AdmittedWith(config, run, id).Some?
    ensures var x := Play(config, run).net.sessions[id];
            var login := Guarantees.AdmittedWith(config, run, id).value.login;
            var identity := Guarantees.AdmittedWith(config, run, id).value.identity;
            && x.presence.Some?
            && x.presence.value.callsign == login.callsign
            && x.presence.value.clientType == login.clientType
            && x.presence.value.networkId == identity.networkId
            && x.presence.value.realName == identity.realName
            && x.presence.value.rating == login.requestedRating
            && x.presence.value.protocolRevision == login.protocolRevision
            && x.presence.value.simulatorType == login.simulatorType
            && !identity.suspended
            && Grantable(login.clientType, identity, x.presence.value.rating)
            && login.protocolRevision == (match x.dialect case Classic => 9 case Vatsim => 100 case AsterV1 => 1)
            && (x.dialect.Vatsim? ==>
                  && x.identification.Some?
                  && x.identification.value.callsign == login.callsign
                  && x.identification.value.networkId == Some(login.networkId))
  {
    hide Play;
    hide Guarantees.AdmittedWith;
    hide Grantable;
    Guarantees.OnlineSessionsWereAdmitted(config, run, id);
    var admission := Guarantees.AdmittedWith(config, run, id).value;
    GrantedExactly(admission.login, admission.identity);
  }

  // ---------------------------------------------------------------- Refusals

  /** A refusal: an error to the client, and whether its connection is closed. */
  datatype Refusal = Refusal(callsign: Option<Callsign>, code: ErrorCode, environment: Bytes, text: Bytes, closes: bool)
  {
    function Due(id: ConnectionId, j: ConnectionId): seq<Event> {
      When(j == id, ErrorEvent(callsign, code, environment, text))
    }

    function Close(id: ConnectionId): Option<CloseConnection> {
      if closes then Some(CloseConnection(id, text)) else None
    }
  }

  /** The effects are this refusal and nothing else. */
  ghost predicate Says(effects: Effects, id: ConnectionId, refusal: Refusal) {
    && effects.close == refusal.Close(id)
    && forall j :: Heard(effects.deliveries, j) == refusal.Due(id, j)
  }

  function AlreadyThere(s: NetworkState, id: ConnectionId): Refusal {
    Refusal(SessionCallsign(s, id), AlreadyRegistered, "", "Already registerd", false)
  }

  lemma ErrorSays(id: ConnectionId, refusal: Refusal)
    requires refusal.text == refusal.code.Description()
    ensures Says(
              if refusal.closes
              then Lifecycle.ErrorAndClose(id, refusal.callsign, refusal.code, refusal.environment)
              else Lifecycle.ErrorEffect(id, refusal.callsign, refusal.code, refusal.environment),
              id, refusal)
  {
    forall j ensures
      Heard(Lifecycle.ErrorEffect(id, refusal.callsign, refusal.code, refusal.environment).deliveries, j)
      == refusal.Due(id, j)
    {
      ErrorIsHeard(id, refusal.callsign, refusal.code, refusal.environment, j);
    }
  }

  function WithLogin(login: LoginCommand, code: ErrorCode, environment: Bytes, text: Bytes): Refusal {
    Refusal(Some(login.callsign), code, environment, text, true)
  }

  /** Why a login is turned away before the authority is asked. */
  ghost function EarlyRefusal(s: NetworkState, id: ConnectionId, login: LoginCommand): Option<Refusal>
    requires id in s.sessions
  {
    var x := s.sessions[id];
    if IsActive(s, id) then Some(AlreadyThere(s, id))
    else if x.dialect.Vatsim? && x.phase != Identified then
      Some(WithLogin(login, Syntax, "missing $ID", "Syntax error"))
    else if login.protocolRevision != (match x.dialect case Classic => 9 case Vatsim => 100 case AsterV1 => 1) then
      Some(WithLogin(login, InvalidProtocolRevision, "", "Invalid protocol revision"))
    else if Claimed(s, login.callsign) then Some(WithLogin(login, CallsignInUse, "", "Callsign in use"))
    else None
  }

  lemma LoginBeginExactly(s: NetworkState, id: ConnectionId, login: LoginCommand)
    requires Inv(s)
    ensures match Authentication.LoginGeneration(s, id, login)
            case Ok(generation) =>
              id in s.sessions && EarlyRefusal(s, id, login).None? && generation == s.sessions[id].generation
            case Err(effects) =>
              if id !in s.sessions then effects == NO_EFFECTS
              else EarlyRefusal(s, id, login).Some? && Says(effects, id, EarlyRefusal(s, id, login).value)
  {
    HolderIsIndexed(s, login.callsign);
    if id in s.sessions && EarlyRefusal(s, id, login).Some? {
      ErrorSays(id, EarlyRefusal(s, id, login).value);
    }
  }

  /** Why a login is turned away after the authority has answered. */
  ghost function LateRefusal(
    s: NetworkState, id: ConnectionId, login: LoginCommand, generation: nat, verdict: Authentication.Verdict
  ): Option<Refusal>
    requires id in s.sessions
  {
    var x := s.sessions[id];
    if verdict.AuthSuspended? then Some(WithLogin(login, AccountSuspended, "", "CID/PID was suspended"))
    else if verdict.AuthRefused? then
      Some(WithLogin(login, InvalidCredentials, login.networkId, "Invalid CID/password"))
    else if verdict.identity.suspended || forall n :: !Grantable(login.clientType, verdict.identity, n) then
      Some(WithLogin(login, AccountSuspended, "", "CID/PID was suspended"))
    else if !Grantable(login.clientType, verdict.identity, login.requestedRating) then
      Some(WithLogin(login, RequestedLevelTooHigh, Decimal(login.requestedRating), "Requested level too high"))
    else if Claimed(s, login.callsign) then Some(WithLogin(login, CallsignInUse, "", "Callsign in use"))
    else if IsActive(s, id) || x.generation != generation then Some(AlreadyThere(s, id))
    else if x.dialect.Vatsim?
            && !(x.identification.Some? && x.identification.value.callsign == login.callsign
                 && x.identification.value.networkId == Some(login.networkId)) then
      Some(WithLogin(login, InvalidSource, "", "Invalid source callsign"))
    else None
  }

  /** An identity that may request nothing is the suspended controller and the
      pilot without a certificate. */
  lemma NothingGrantable(login: LoginCommand, identity: AuthenticatedIdentity)
    ensures Authentication.IdentityActive(login, identity)
            <==> exists n :: Grantable(login.clientType, identity, n)
  {
    PilotNumbers();
    if login.clientType.Atc? {
      var own := identity.atcRating.WireValue();
      assert ATC_RATINGS[own] == identity.atcRating;
      if Authentication.IdentityActive(login, identity) {
        assert Grantable(Atc, identity, own);
      }
    } else {
      var own := PilotRank(identity.pilotRating);
      if Authentication.IdentityActive(login, identity) {
        assert Grantable(login.clientType, identity, Bits(own));
      }
    }
  }

  lemma LoginRefusedExactly(
    config: CoreConfig, s: NetworkState, id: ConnectionId, login: LoginCommand, generation: nat,
    verdict: Authentication.Verdict)
    requires Inv(s) && id in s.sessions
    ensures Authentication.LoginCommits(s, id, login, generation, verdict)
            <==> LateRefusal(s, id, login, generation, verdict).None?
    ensures var refusal := LateRefusal(s, id, login, generation, verdict);
            refusal.Some? ==>
              Says(Authentication.LoginEnd(config, s, id, login, generation, verdict).effects, id, refusal.value)
  {
    hide Grantable;
    HolderIsIndexed(s, login.callsign);
    assert SessionOk(id, s.sessions[id]);
    if verdict.Authenticated? {
      GrantedExactly(login, verdict.identity);
      NothingGrantable(login, verdict.identity);
    }
    var refusal := LateRefusal(s, id, login, generation, verdict);
    if refusal.Some? {
      ErrorSays(id, refusal.value);
    }
  }

  // ---------------------------------------------------------------- Success

  /** What a new client is greeted with; a VATSIM client is also asked for its
      capabilities and told about itself. */
  function Greeting(config: CoreConfig, x: Session, callsign: Callsign, clientType: ClientType): seq<Event> {
    var to := Direct(callsign);
    [Welcome(callsign, config.productMessage)]
    + seq(|config.motd|, i requires 0 <= i < |config.motd| => Welcome(callsign, config.motd[i]))
    + if !x.dialect.Vatsim? then []
      else if clientType.Atc? then
        [QueryEvent("SERVER", to, Capabilities, []),
         ResponseEvent("SERVER", to, Raw("ATC"), ["N", callsign.text]),
         ResponseEvent("SERVER", to, Capabilities, ["ATCINFO=1", "SECPOS=1"]),
         ResponseEvent("SERVER", to, Raw("IP"), [x.peer.ip])]
      else
        [QueryEvent("SERVER", to, Capabilities, []),
         ResponseEvent("SERVER", to, Raw("IP"), [x.peer.ip]),
         ErrorEvent(Some(callsign), NoFlightPlan, callsign.text, "No flightplan")]
  }

  function EventsOf(ds: seq<Delivery>): seq<Event> {
    seq(|ds|, i requires 0 <= i < |ds| => ds[i].event)
  }

  /** Deliveries to one recipient only. */
  lemma {:induction false} PrivateIsHeard(ds: seq<Delivery>, id: ConnectionId, j: ConnectionId)
    requires forall i :: 0 <= i < |ds| ==> ds[i].recipients == {id}
    ensures Heard(ds, j) == if j == id then EventsOf(ds) else []
  {
    if ds != [] {
      PrivateIsHeard(ds[1..], id, j);
      assert EventsOf(ds) == [ds[0].event] + EventsOf(ds[1..]);
    }
  }

  lemma GreetingIsPrivate(config: CoreConfig, s: NetworkState, id: ConnectionId, presence: ClientPresence)
    requires id in s.sessions
    ensures var ds := Authentication.PrivateLoginEffects(config, s, id, presence);
            && (forall i :: 0 <= i < |ds| ==> ds[i].recipients == {id})
            && EventsOf(ds) == Greeting(config, s.sessions[id], presence.callsign, presence.clientType)
  {
    var lines := [config.productMessage] + config.motd;
    var ds := Authentication.PrivateLoginEffects(config, s, id, presence);
    var greeting := Greeting(config, s.sessions[id], presence.callsign, presence.clientType);
    var n := |config.motd|;
    assert |ds| == |greeting|;
    forall i | 0 <= i < |ds| ensures ds[i].recipients == {id} && ds[i].event == greeting[i] {
      if 1 <= i <= n {
        assert lines[i] == config.motd[i - 1];
      }
    }
  }

  /** A login that commits: the new client is greeted, every other active session
      is told of a client with these fields, and the session becomes active. */
  lemma LoginIsHeard(
    config: CoreConfig, s: NetworkState, id: ConnectionId, login: LoginCommand, generation: nat,
    identity: AuthenticatedIdentity)
    requires Inv(s) && id in s.sessions
    requires LateRefusal(s, id, login, generation, Authentication.Authenticated(identity)).None?
    ensures var outcome :=
              Authentication.LoginEnd(config, s, id, login, generation, Authentication.Authenticated(identity));
            var x := s.sessions[id];
            var presence := ClientPresence(
              login.callsign, login.clientType, identity.networkId, identity.realName, login.requestedRating,
              login.protocolRevision, login.simulatorType);
            && outcome.effects.close.None?
            && (forall j :: Heard(outcome.effects.deliveries, j) ==
                  if j == id then Greeting(config, x, login.callsign, login.clientType)
                  else When(IsActive(s, j), ClientAdded(presence)))
            && outcome.state.callsigns == s.callsigns[login.callsign := id]
            && outcome.state.sessions == s.sessions[id := Session(
                 id, x.peer, x.dialect, Active, generation + 1, x.identification, Some(presence),
                 x.position, x.flightPlan)]
  {
    hide Greeting;
    hide Authentication.PrivateLoginEffects;
    var verdict := Authentication.Authenticated(identity);
    var presence := Authentication.PresenceFor(login, identity);
    LoginRefusedExactly(config, s, id, login, generation, verdict);
    hide LateRefusal;
    Authentication.LoginEndExactly(config, s, id, login, generation, verdict);
    hide Authentication.LoginEnd;
    assert SessionOk(id, s.sessions[id]);
    var after := Authentication.Activated(s, id, presence);
    GreetingIsPrivate(config, after, id, presence);
    SameGreeting(config, s.sessions[id], after.sessions[id], login.callsign, login.clientType);
    var public := Lifecycle.Send(Routing.ActiveIds(after, Some(id)), ClientAdded(presence)).deliveries;
    var private := Authentication.PrivateLoginEffects(config, after, id, presence);
    forall j ensures Heard(public + private, j) ==
      if j == id then Greeting(config, s.sessions[id], login.callsign, login.clientType)
      else When(IsActive(s, j), ClientAdded(presence))
    {
      HeardAppend(public, private, j);
      HeardSend(Routing.ActiveIds(after, Some(id)), ClientAdded(presence), j);
      PrivateIsHeard(private, id, j);
    }
  }

  lemma SameGreeting(config: CoreConfig, x: Session, y: Session, callsign: Callsign, clientType: ClientType)
    requires x.dialect == y.dialect && x.peer == y.peer
    ensures Greeting(config, x, callsign, clientType) == Greeting(config, y, callsign, clientType)
  {
  }

  // ---------------------------------------------------------------- Identification

  /** An identification is stored as it was sent, once, by a session that is still
      connected; otherwise it is refused. */
  lemma IdentifyExactly(
    s: NetworkState, id: ConnectionId, command: Identification, generation: nat, authorized: bool)
    requires Inv(s) && id in s.sessions
    ensures var x := s.sessions[id];
            var outcome := Authentication.IdentifyEnd(s, id, command, generation, authorized);
            if !authorized then
              outcome.state == s
              && Says(outcome.effects, id,
                      Refusal(Some(command.callsign), UnauthorizedClient, command.clientId,
                              "Unauthorized client software", true))
            else if x.phase != Connected || x.generation != generation then
              outcome.state == s && Says(outcome.effects, id, AlreadyThere(s, id))
            else
              && outcome.effects == NO_EFFECTS
              && outcome.state.callsigns == s.callsigns
              && outcome.state.sessions == s.sessions[id := Session(
                   id, x.peer, x.dialect, Identified, generation + 1, Some(command), None, None, None)]
    ensures match Authentication.IdentifyBegin(s, id)
            case Ok(generation) => s.sessions[id].phase == Connected && generation == s.sessions[id].generation
            case Err(effects) => s.sessions[id].phase != Connected && Says(effects, id, AlreadyThere(s, id))
  {
    assert SessionOk(id, s.sessions[id]);
    ErrorSays(id, AlreadyThere(s, id));
    ErrorSays(
      id,
      Refusal(
        Some(command.callsign), UnauthorizedClient, command.clientId, "Unauthorized client software", true));
  }

  // ---------------------------------------------------------------- Coming and going

  /** A registered session is connected, at generation 0, with nothing else known
      of it; a full server and an id in use are refused. */
  lemma RegisterExactly(
    config: CoreConfig, s: NetworkState, id: ConnectionId, peer: SocketAddr, dialect: ProtocolDialect)
    ensures match Lifecycle.Register(config, s, id, peer, dialect)
            case Ok(after) =>
              && id !in s.sessions && |s.sessions| < config.maxClients
              && after.callsigns == s.callsigns
              && after.sessions
                 == s.sessions[id := Session(id, peer, dialect, Connected, 0, None, None, None, None)]
            case Err(error) =>
              if id in s.sessions then error.DuplicateConnection?
              else error.ServerAtCapacity? && |s.sessions| >= config.maxClients
  {
  }

  /** Whoever is left hears that an active session is gone; the connection is
      closed for the reason given. */
  lemma DisconnectIsHeard(s: NetworkState, id: ConnectionId, reason: Bytes, j: ConnectionId)
    requires Inv(s)
    ensures var effects := Lifecycle.Disconnect(s, id, reason).effects;
            && effects.close == (if id in s.sessions then Some(CloseConnection(id, reason)) else None)
            && Heard(effects.deliveries, j) ==
               if IsActive(s, id) && s.sessions[id].presence.Some? && IsPeer(s, id, j) then
                 var presence := s.sessions[id].presence.value;
                 [ClientRemoved(presence.callsign, presence.clientType, presence.networkId)]
               else []
  {
    FarewellIsHeard(s, id, reason, j);
    if id in s.sessions {
      assert SessionOk(id, s.sessions[id]);
    }
  }

  lemma BroadcastIsHeard(s: NetworkState, event: Event, j: ConnectionId)
    ensures Lifecycle.Broadcast(s, event).close.None?
    ensures Heard(Lifecycle.Broadcast(s, event).deliveries, j) == When(IsActive(s, j), event)
  {
    HeardSend(Routing.ActiveIds(s, None), event, j);
  }

  /** In every reachable state, a command makes every session hear exactly what it
      is due. */
  lemma ReachableCommandIsHeard(
    config: CoreConfig, run: seq<Action>, id: ConnectionId, command: Command, j: ConnectionId)
    requires !(command.Identify? || command.Login? || command.WeatherRequest?)
    ensures Heard(Apply(config, Play(config, run), Execute(id, command)).effects.deliveries, j)
            == Due(config, Play(config, run).net, id, command, j)
  {
    hide Play;
    hide Due;
    ReachableGood(config, run);
    CommandIsHeard(config, Play(config, run).net, id, command, j);
  }
}
