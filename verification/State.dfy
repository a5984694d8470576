/** Authoritative network state and the ordered effects of one command. */
module State {
  import opened Wrappers
  import opened Text
  import opened Model

  /** A place on the globe; the great-circle formula itself is a parameter. */
  datatype Point = Point(latitude: real, longitude: real)

  /** `distance` stands for the great-circle formula of `distance_between`. */
  datatype CoreConfig = CoreConfig(
    maxClients: nat, productMessage: Bytes, motd: seq<Bytes>, distance: (Point, Point) -> real)

  datatype Session = Session(
    connectionId: ConnectionId,
    peer: SocketAddr,
    dialect: ProtocolDialect,
    phase: SessionPhase,
    generation: nat,
    identification: Option<Identification>,
    presence: Option<ClientPresence>,
    position: Option<Position>,
    flightPlan: Option<FlightPlan>)
  {
    function CallsignOf(): Option<Callsign> {
      if presence.Some? then Some(presence.value.callsign) else None
    }
  }

  datatype NetworkState = NetworkState(
    sessions: map<ConnectionId, Session>,
    callsigns: map<Callsign, ConnectionId>)

  predicate IsActive(s: NetworkState, id: ConnectionId) {
    id in s.sessions && s.sessions[id].phase.Active?
  }

  // ---------------------------------------------------------------- Effects

  /** The recipients are gathered by iterating over a hash map, so their order
      is not specified: a delivery carries them as a set. */
  datatype Delivery = Delivery(recipients: set<ConnectionId>, event: Event)

  datatype CloseConnection = CloseConnection(connectionId: ConnectionId, reason: Bytes)

  datatype Effects = Effects(deliveries: seq<Delivery>, close: Option<CloseConnection>)
  {
    /** `Effects::extend`. The source only asserts in debug builds that at most
        one of the two closes a connection; here that is required. */
    function Extend(other: Effects): Effects
      requires close.None? || other.close.None?
    {
      Effects(deliveries + other.deliveries, if other.close.Some? then other.close else close)
    }
  }

  const NO_EFFECTS := Effects([], None)

  datatype Outcome = Outcome(state: NetworkState, effects: Effects)

  // ---------------------------------------------------------------- Invariant

  function ExpectedRevision(dialect: ProtocolDialect): nat {
    match dialect
    case Classic => CLASSIC_PROTOCOL_REVISION
    case AsterV1 => 1
    case Vatsim => VATSIM_PROTOCOL_REVISION
  }

  predicate StoredPositionOk(position: Position, presence: ClientPresence) {
    && position.Violation().None?
    && position.callsign == presence.callsign
    && (position.PilotPosition? <==> presence.clientType.Pilot?)
    && (position.AtcPosition? <==> presence.clientType.Atc?)
  }

  /** What every stored session satisfies on its own. */
  predicate SessionOk(id: ConnectionId, x: Session) {
    && x.connectionId == id
    && !x.phase.Closed?
    && (x.phase.Active? <==> x.presence.Some?)
    && (x.phase.Connected? ==> x.identification.None?)
    && (x.phase.Identified? ==> x.identification.Some?)
    && x.generation == (if x.identification.Some? then 1 else 0) + (if x.phase.Active? then 1 else 0)
    && (x.presence.Some? ==> x.presence.value.protocolRevision == ExpectedRevision(x.dialect))
    && (x.presence.Some? && x.dialect.Vatsim? ==>
          x.identification.Some? && x.identification.value.callsign == x.presence.value.callsign)
    && (x.position.Some? ==> x.presence.Some? && StoredPositionOk(x.position.value, x.presence.value))
    && (x.flightPlan.Some? ==> x.presence.Some? && x.flightPlan.value.callsign == x.presence.value.callsign)
  }

  /** `callsigns` maps a callsign to an id exactly when that id is an active
      session presenting the callsign. */
  predicate IndexOk(s: NetworkState) {
    && (forall cs :: cs in s.callsigns ==>
          var id := s.callsigns[cs];
          id in s.sessions && s.sessions[id].presence.Some? && s.sessions[id].presence.value.callsign == cs)
    && (forall id :: id in s.sessions && s.sessions[id].presence.Some? ==>
          var cs := s.sessions[id].presence.value.callsign;
          cs in s.callsigns && s.callsigns[cs] == id)
  }

  predicate Inv(s: NetworkState) {
    && (forall id :: id in s.sessions ==> SessionOk(id, s.sessions[id]))
    && IndexOk(s)
  }
}
