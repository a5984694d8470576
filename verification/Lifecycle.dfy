/** Registration, release of a connection, and the standard replies. */
module Lifecycle {
  import opened Wrappers
  import opened Text
  import opened Model
  import opened State
  import Routing

  datatype RegisterError = ServerAtCapacity | DuplicateConnection

  function FreshSession(id: ConnectionId, peer: SocketAddr, dialect: ProtocolDialect): Session {
    Session(id, peer, dialect, Connected, 0, None, None, None, None)
  }

  function Register(
    config: CoreConfig, s: NetworkState, id: ConnectionId, peer: SocketAddr, dialect: ProtocolDialect
  ): Result<NetworkState, RegisterError>
  {
    if id in s.sessions then Err(DuplicateConnection)
    else if |s.sessions| >= config.maxClients then Err(ServerAtCapacity)
    else Ok(s.(sessions := s.sessions[id := FreshSession(id, peer, dialect)]))
  }

  function Send(recipients: set<ConnectionId>, event: Event): Effects {
    if recipients == {} then NO_EFFECTS else Effects([Delivery(recipients, event)], None)
  }

  function ErrorEffect(
    id: ConnectionId, callsign: Option<Callsign>, code: ErrorCode, environment: Bytes): Effects
  {
    Send({id}, ErrorEvent(callsign, code, environment, code.Description()))
  }

  function ErrorAndClose(
    id: ConnectionId, callsign: Option<Callsign>, code: ErrorCode, environment: Bytes): Effects
  {
    ErrorEffect(id, callsign, code, environment).(close := Some(CloseConnection(id, code.Description())))
  }

  function Broadcast(s: NetworkState, event: Event): Effects {
    Send(Routing.ActiveIds(s, None), event)
  }

  /** Removes the session, and with it the callsign it holds. */
  function Released(s: NetworkState, id: ConnectionId): NetworkState
    requires id in s.sessions
  {
    var presence := s.sessions[id].presence;
    NetworkState(
      s.sessions - {id},
      if presence.Some? then s.callsigns - {presence.value.callsign} else s.callsigns)
  }

  function Disconnect(s: NetworkState, id: ConnectionId, reason: Bytes): Outcome {
    if id !in s.sessions then Outcome(s, NO_EFFECTS) else
    var after := Released(s, id);
    var presence := s.sessions[id].presence;
    var notices :=
      if presence.Some? then
        Send(Routing.ActiveIds(after, None),
             ClientRemoved(presence.value.callsign, presence.value.clientType, presence.value.networkId))
      else NO_EFFECTS;
    Outcome(after, notices.(close := Some(CloseConnection(id, reason))))
  }

  // ---------------------------------------------------------------- Invariant

  lemma RegisterKeepsInv(
    config: CoreConfig, s: NetworkState, id: ConnectionId, peer: SocketAddr, dialect: ProtocolDialect)
    requires Inv(s) && Register(config, s, id, peer, dialect).Ok?
    ensures Inv(Register(config, s, id, peer, dialect).value)
    ensures |Register(config, s, id, peer, dialect).value.sessions| <= config.maxClients
  {
    assert |s.sessions[id := FreshSession(id, peer, dialect)]| == |s.sessions| + 1;
  }

  lemma DisconnectKeepsInv(s: NetworkState, id: ConnectionId, reason: Bytes)
    requires Inv(s)
    ensures Inv(Disconnect(s, id, reason).state)
  {
    if id in s.sessions {
      assert SessionOk(id, s.sessions[id]);
    }
  }

  /** Releasing frees exactly the session and, when it was active, exactly its
      callsign; every other entry of both indexes is untouched. Doing it again
      changes nothing and says nothing. */
  lemma DisconnectReleasesExactly(s: NetworkState, id: ConnectionId, reason: Bytes)
    requires Inv(s)
    ensures var after := Disconnect(s, id, reason).state;
            && after.sessions.Keys == s.sessions.Keys - {id}
            && (forall other :: other in after.sessions ==> after.sessions[other] == s.sessions[other])
            && (forall cs :: cs in after.callsigns <==> cs in s.callsigns && s.callsigns[cs] != id)
            && (forall cs :: cs in after.callsigns ==> after.callsigns[cs] == s.callsigns[cs])
            && Disconnect(after, id, reason) == Outcome(after, NO_EFFECTS)
  {
    if id in s.sessions {
      assert SessionOk(id, s.sessions[id]);
    }
  }
}
