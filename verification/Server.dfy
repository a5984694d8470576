/**
 The server as one object: the network, the dispatcher and the id counter. Each
 method is one critical section and the dispatch of its effects, and each is a
 step of the system, so that every theorem about runs holds of the server.
 */
module Server {
  import opened Wrappers
  import opened Text
  import opened Model
  import opened State
  import opened System
  import Authentication
  import Codec
  import Commands
  import Lifecycle
  import NetworkCore
  import Runtime

  lemma OneMoreStep(config: CoreConfig, run: seq<Action>, a: Action)
    ensures Play(config, run + [a]) == Next(config, Play(config, run), a)
  {
    assert (run + [a])[..|run|] == run;
  }

  lemma RegisterStep(config: CoreConfig, sys: System, id: ConnectionId, peer: SocketAddr, dialect: ProtocolDialect)
    requires id !in sys.seen
    ensures var registered := Lifecycle.Register(config, sys.net, id, peer, dialect);
            var after := Next(config, sys, Register(id, peer, dialect));
            && Enabled(sys, Register(id, peer, dialect))
            && Apply(config, sys, Register(id, peer, dialect)).state
               == (if registered.Ok? then registered.value else sys.net)
            && after.seen == sys.seen + {id}
  {
  }

  lemma FreshRegistration(
    config: CoreConfig, s: NetworkState, id: ConnectionId, peer: SocketAddr, dialect: ProtocolDialect)
    requires id !in s.sessions
    ensures Lifecycle.Register(config, s, id, peer, dialect) ==
            if |s.sessions| < config.maxClients
            then Ok(NetworkState(s.sessions[id := Lifecycle.FreshSession(id, peer, dialect)], s.callsigns))
            else Err(Lifecycle.ServerAtCapacity)
  {
  }

  /** A session that never became active is released without a word. */
  lemma SilentRelease(s: NetworkState, id: ConnectionId, reason: Bytes)
    requires id in s.sessions && s.sessions[id].presence.None?
    ensures Lifecycle.Disconnect(s, id, reason)
            == Outcome(NetworkState(s.sessions - {id}, s.callsigns), Effects([], Some(CloseConnection(id, reason))))
  {
  }

  lemma NothingDispatched(
    env: Runtime.Environment, schedule: Runtime.Schedule, connections: Runtime.Connections,
    effects: NetworkCore.OrderedEffects)
    requires effects.deliveries == []
    ensures Runtime.Dispatched(env, schedule, connections, effects)
            == Runtime.AfterClose(env, schedule(0)(0), connections, effects.close)
  {
  }

  class Server {
    const network: NetworkCore.Network
    const runtime: Runtime.Runtime
    var nextConnectionId: nat
    /** What was done so far. */
    ghost var run: seq<Action>

    constructor (network: NetworkCore.Network, runtime: Runtime.Runtime)
      requires network.sessions == map[] && network.callsigns == map[] && runtime.connections == map[]
      requires runtime.env.ContextFree()
      ensures this.network == network && this.runtime == runtime && nextConnectionId == 1 && run == []
      ensures Valid()
    {
      this.network, this.runtime, nextConnectionId, run := network, runtime, 1, [];
    }

    ghost function Reached(): System
      reads this
    {
      Play(network.config, run)
    }

    /** The counter has handed this id out. */
    predicate Issued(id: ConnectionId)
      reads this
    {
      1 <= id < nextConnectionId
    }

    /** The network is in the state that the run reaches, and every id that was ever
        handed to registration was issued by the counter. */
    ghost predicate Valid()
      reads this, network, runtime
    {
      && nextConnectionId >= 1
      && network.Contents() == Reached().net
      && (forall id :: id in Reached().seen ==> Issued(id))
      && (forall id :: id in runtime.connections ==> Issued(id))
      && runtime.env.ContextFree()
    }

    /** While this server dispatches, other threads take connections away and
        change them, and open connections only under ids that were issued. */
    ghost predicate Admissible(schedule: Runtime.Schedule)
      reads this
    {
      forall id :: !Issued(id) ==> Runtime.NeverOpens(schedule, id)
    }

    /** The action `a` was performed, and its effects were dispatched. */
    twostate predicate Performed(a: Action, schedule: Runtime.Schedule, effects: NetworkCore.OrderedEffects)
      reads this, network, runtime
    {
      && run == old(run) + [a]
      && Enabled(old(Reached()), a)
      && NetworkCore.Orders(effects, Apply(network.config, old(Reached()), a).effects)
      && runtime.connections == Runtime.Dispatched(runtime.env, schedule, old(runtime.connections), effects)
    }

    lemma NetworkIsValid()
      requires Valid()
      ensures network.Valid() && Good(network.config, Reached())
    {
      ReachableGood(network.config, run);
    }

    /** Notes that `a` was performed on the network. */
    ghost method Record(a: Action)
      requires nextConnectionId >= 1 && runtime.env.ContextFree()
      requires forall id :: id in runtime.connections ==> Issued(id)
      requires network.Contents() == Apply(network.config, Reached(), a).state
      requires forall id :: id in Next(network.config, Reached(), a).seen ==> Issued(id)
      modifies this`run
      ensures Valid() && run == old(run) + [a]
    {
      hide Play;
      hide Apply;
      hide TicketsAfter;
      hide Runtime.Environment.ContextFree;
      OneMoreStep(network.config, run, a);
      run := run + [a];
    }

    /** Dispatches the effects of `a`, which the network has performed. */
    method Finish(ghost a: Action, schedule: Runtime.Schedule, effects: NetworkCore.OrderedEffects)
      requires nextConnectionId >= 1 && runtime.env.ContextFree() && Admissible(schedule)
      requires forall id :: id in runtime.connections ==> Issued(id)
      requires Enabled(Reached(), a) && network.Contents() == Apply(network.config, Reached(), a).state
      requires forall id :: id in Next(network.config, Reached(), a).seen ==> Issued(id)
      requires NetworkCore.Orders(effects, Apply(network.config, Reached(), a).effects)
      modifies this`run, runtime
      ensures Valid() && Performed(a, schedule, effects)
    {
      hide Play;
      hide Next;
      hide Apply;
      hide Enabled;
      hide NetworkCore.Orders;
      hide Runtime.Dispatched;
      hide Runtime.NeverTakes;
      hide Runtime.Environment.ContextFree;
      ghost var before := runtime.connections;
      runtime.Dispatch(schedule, effects);
      forall id | id in runtime.connections ensures Issued(id) {
        Runtime.DispatchKeepsIds(runtime.env, schedule, before, effects, id);
      }
      Record(a);
    }

    /** The next id was never issued before. */
    lemma NextIsFresh()
      requires Valid()
      ensures nextConnectionId !in Reached().seen && nextConnectionId !in runtime.connections
      ensures nextConnectionId !in network.sessions
    {
      NetworkIsValid();
      assert !Issued(nextConnectionId);
    }

    /** Takes the next id and registers it. */
    method RegisterNext(peer: SocketAddr, dialect: ProtocolDialect) returns (r: Result<(), Lifecycle.RegisterError>)
      requires Valid()
      modifies this, network
      ensures Valid() && nextConnectionId == old(nextConnectionId) + 1
      ensures run == old(run) + [Register(old(nextConnectionId), peer, dialect)]
      ensures match Lifecycle.Register(network.config, old(network.Contents()), old(nextConnectionId), peer, dialect)
              case Ok(after) => r == Ok(()) && network.Contents() == after
              case Err(error) => r == Err(error) && network.Contents() == old(network.Contents())
    {
      NetworkIsValid();
      NextIsFresh();
      hide Play;
      hide Next;
      hide Apply;
      hide Enabled;
      hide Inv;
      hide Lifecycle.Register;
      hide Runtime.Environment.ContextFree;
      ghost var a := Register(nextConnectionId, peer, dialect);
      RegisterStep(network.config, Reached(), nextConnectionId, peer, dialect);
      r := network.Register(nextConnectionId, peer, dialect);
      nextConnectionId := nextConnectionId + 1;
      Record(a);
    }

    /** The start of a connection: the next id, a codec for its frames, registration,
        the handshake, and then a mailbox. An invalid frame limit uses up the id. If
        the handshake cannot be sent, for the reason `failure`, the session is
        released again. */
    method Open(
      maxFrameBytes: nat, peer: SocketAddr, dialect: ProtocolDialect, failure: Option<Bytes>,
      schedule: Runtime.Schedule)
      returns (r: Option<ConnectionId>)
      requires Valid() && Admissible(schedule)
      modifies this, network, runtime
      ensures Valid() && nextConnectionId == old(nextConnectionId) + 1
      ensures var id, fits := old(nextConnectionId), |old(network.sessions)| < network.config.maxClients;
              && id !in old(Reached()).seen && id !in old(runtime.connections)
              && r == (if maxFrameBytes > 0 && fits && failure.None? then Some(id) else None)
              && run == old(run) + (if maxFrameBytes == 0 then [] else [Register(id, peer, dialect)])
                 + (if maxFrameBytes > 0 && fits && failure.Some? then [Disconnect(id, failure.value)] else [])
              && network.callsigns == old(network.callsigns)
              && network.sessions == (if r.None? then old(network.sessions)
                                      else old(network.sessions)[id := Lifecycle.FreshSession(id, peer, dialect)])
              && runtime.connections ==
                 if r.Some? then old(runtime.connections)[id := Runtime.Handle(dialect, [], false, false)]
                 else if maxFrameBytes > 0 && fits then
                   Runtime.AfterClose(
                     runtime.env, schedule(0)(0), old(runtime.connections), Some(CloseConnection(id, failure.value)))
                 else old(runtime.connections)
    {
      hide Play;
      hide Next;
      hide Apply;
      hide Inv;
      hide Lifecycle.Register;
      hide Lifecycle.Disconnect;
      hide Runtime.Dispatched;
      hide Runtime.AfterClose;
      hide Runtime.Environment.ContextFree;
      var id := nextConnectionId;
      NextIsFresh();
      FreshRegistration(network.config, network.Contents(), id, peer, dialect);
      var codec := Codec.FsdFrameCodec.New(maxFrameBytes);
      if codec.Err? {
        nextConnectionId := nextConnectionId + 1;
        return None;
      }
      var registered := RegisterNext(peer, dialect);
      if registered.Err? {
        return None;
      }
      if failure.Some? {
        Abandon(id, failure.value, schedule);
        return None;
      }
      runtime.connections := runtime.connections[id := Runtime.Handle(dialect, [], false, false)];
      r := Some(id);
    }

    /** Releases a session that never became active. */
    method Abandon(id: ConnectionId, reason: Bytes, schedule: Runtime.Schedule)
      requires Valid() && Admissible(schedule)
      requires id in network.sessions && network.sessions[id].presence.None?
      modifies this`run, network, runtime
      ensures Valid() && run == old(run) + [Disconnect(id, reason)]
      ensures network.sessions == old(network.sessions) - {id} && network.callsigns == old(network.callsigns)
      ensures runtime.connections ==
              Runtime.AfterClose(
                runtime.env, schedule(0)(0), old(runtime.connections), Some(CloseConnection(id, reason)))
    {
      hide Play;
      hide Inv;
      hide Lifecycle.Disconnect;
      hide Runtime.Dispatched;
      hide Runtime.AfterClose;
      hide Runtime.Environment.ContextFree;
      ghost var s := network.Contents();
      SilentRelease(s, id, reason);
      ghost var effects := Release(id, reason, schedule);
      NothingDispatched(runtime.env, schedule, old(runtime.connections), effects);
    }

    /** Releases a session and tells the others. */
    method Release(id: ConnectionId, reason: Bytes, schedule: Runtime.Schedule)
      returns (ghost effects: NetworkCore.OrderedEffects)
      requires Valid() && Admissible(schedule)
      modifies this`run, network, runtime
      ensures Valid() && Performed(Disconnect(id, reason), schedule, effects)
      ensures network.Contents() == Lifecycle.Disconnect(old(network.Contents()), id, reason).state
      ensures NetworkCore.Orders(effects, Lifecycle.Disconnect(old(network.Contents()), id, reason).effects)
      ensures id !in network.sessions
    {
      NetworkIsValid();
      hide Play;
      hide Lifecycle.Disconnect;
      hide NetworkCore.Orders;
      hide Runtime.Dispatched;
      hide Runtime.Environment.ContextFree;
      var released := network.Disconnect(id, reason);
      Finish(Disconnect(id, reason), schedule, released);
      effects := released;
    }

    /** The end of a connection: its mailbox is taken away first, then its session
        is released and the others are told. Afterwards the id is in neither
        table; if a logoff or a kill has already released the session, nothing is
        said a second time. */
    method Close(id: ConnectionId, schedule: Runtime.Schedule) returns (ghost effects: NetworkCore.OrderedEffects)
      requires Valid() && Admissible(schedule) && Runtime.NeverOpens(schedule, id)
      modifies this`run, network, runtime
      ensures Valid() && run == old(run) + [Disconnect(id, "connection closed")]
      ensures NetworkCore.Orders(
                effects, Lifecycle.Disconnect(old(network.Contents()), id, "connection closed").effects)
      ensures runtime.connections
              == Runtime.Dispatched(runtime.env, schedule, old(runtime.connections) - {id}, effects)
      ensures id !in network.sessions && id !in runtime.connections
      ensures id !in old(network.sessions) ==>
                effects == NetworkCore.NOTHING && runtime.connections == old(runtime.connections) - {id}
    {
      hide Play;
      hide Runtime.Environment.ContextFree;
      runtime.connections := runtime.connections - {id};
      ghost var left := runtime.connections;
      effects := Release(id, "connection closed", schedule);
      Runtime.DispatchKeepsIds(runtime.env, schedule, left, effects, id);
    }

    /** A command that needs no authority. */
    method Command(id: ConnectionId, command: Command, schedule: Runtime.Schedule)
      returns (ghost effects: NetworkCore.OrderedEffects)
      requires Valid() && Admissible(schedule)
      requires !(command.Identify? || command.Login? || command.WeatherRequest?)
      modifies this`run, network, runtime
      ensures Valid() && Performed(Execute(id, command), schedule, effects)
    {
      NetworkIsValid();
      hide Play;
      hide Commands.ExecuteActive;
      hide NetworkCore.Orders;
      hide Runtime.Dispatched;
      hide Runtime.Environment.ContextFree;
      var done := network.ExecuteActive(id, command);
      Finish(Execute(id, command), schedule, done);
      effects := done;
    }

    method Broadcasts(event: Event, schedule: Runtime.Schedule) returns (ghost effects: NetworkCore.OrderedEffects)
      requires Valid() && Admissible(schedule)
      modifies this`run, runtime
      ensures Valid() && Performed(Broadcast(event), schedule, effects)
    {
      NetworkIsValid();
      hide Play;
      hide Inv;
      hide Lifecycle.Broadcast;
      hide NetworkCore.Orders;
      hide Runtime.Dispatched;
      hide Runtime.Environment.ContextFree;
      var done := network.Broadcast(event);
      Finish(Broadcast(event), schedule, done);
      effects := done;
    }

    // -------------------------------------------------------------- Identification and login

    /** `identify` and `login` up to the call of the authority. Without a ticket
        there is nothing to come back for. */
    method BeginIdentify(id: ConnectionId, identification: Identification, schedule: Runtime.Schedule)
      returns (ticket: Option<Ticket>, ghost effects: NetworkCore.OrderedEffects)
      requires Valid() && Admissible(schedule)
      modifies this`run, runtime
      ensures Valid() && Performed(IdentifyBegin(id, identification), schedule, effects)
      ensures ticket.Some? ==> ticket.value.IdentifyTicket? && ticket.value in Reached().tickets
      ensures ticket.Some? <==> Authentication.IdentifyBegin(old(network.Contents()), id).Ok?
    {
      NetworkIsValid();
      hide Play;
      hide Inv;
      hide NetworkCore.Lists;
      hide Authentication.IdentifyBegin;
      hide Runtime.Dispatched;
      hide Runtime.Environment.ContextFree;
      var begun := network.IdentifyBegin(id);
      var reply := if begun.Err? then begun.error else NetworkCore.NOTHING;
      ghost var a := IdentifyBegin(id, identification);
      OneMoreStep(network.config, run, a);
      Finish(a, schedule, reply);
      effects := reply;
      ticket := if begun.Ok? then Some(IdentifyTicket(id, begun.value, identification)) else None;
    }

    method BeginLogin(id: ConnectionId, login: LoginCommand, schedule: Runtime.Schedule)
      returns (ticket: Option<Ticket>, ghost effects: NetworkCore.OrderedEffects)
      requires Valid() && Admissible(schedule)
      modifies this`run, runtime
      ensures Valid() && Performed(LoginBegin(id, login), schedule, effects)
      ensures ticket.Some? ==> ticket.value.LoginTicket? && ticket.value in Reached().tickets
      ensures ticket.Some? <==> Authentication.LoginGeneration(old(network.Contents()), id, login).Ok?
    {
      NetworkIsValid();
      hide Play;
      hide Inv;
      hide NetworkCore.Lists;
      hide Authentication.LoginGeneration;
      hide Runtime.Dispatched;
      hide Runtime.Environment.ContextFree;
      var begun := network.LoginGeneration(id, login);
      var reply := if begun.Err? then begun.error else NetworkCore.NOTHING;
      ghost var a := LoginBegin(id, login);
      OneMoreStep(network.config, run, a);
      Finish(a, schedule, reply);
      effects := reply;
      ticket := if begun.Ok? then Some(LoginTicket(id, begun.value, login)) else None;
    }

    /** The rest of `identify` and `login`, with the answer of the authority. The
        begin-time checks need not be required: that the ticket was handed out in
        this run is enough. */
    method EndIdentify(ticket: Ticket, authorized: bool, schedule: Runtime.Schedule)
      returns (ghost effects: NetworkCore.OrderedEffects)
      requires Valid() && Admissible(schedule)
      requires ticket in Reached().tickets && ticket.IdentifyTicket?
      modifies this`run, network, runtime
      ensures Valid() && Performed(IdentifyEnd(ticket, authorized), schedule, effects)
    {
      NetworkIsValid();
      hide Play;
      hide Authentication.IdentifyEnd;
      hide NetworkCore.Orders;
      hide Runtime.Dispatched;
      hide Runtime.Environment.ContextFree;
      var done := network.IdentifyEnd(ticket.id, ticket.identification, ticket.generation, authorized);
      Finish(IdentifyEnd(ticket, authorized), schedule, done);
      effects := done;
    }

    method EndLogin(ticket: Ticket, verdict: Authentication.Verdict, schedule: Runtime.Schedule)
      returns (ghost effects: NetworkCore.OrderedEffects)
      requires Valid() && Admissible(schedule)
      requires ticket in Reached().tickets && ticket.LoginTicket?
      modifies this`run, network, runtime
      ensures Valid() && Performed(LoginEnd(ticket, verdict), schedule, effects)
    {
      NetworkIsValid();
      assert TicketOk(Reached(), ticket);
      hide Play;
      hide Authentication.LoginEnd;
      hide NetworkCore.Orders;
      hide Runtime.Dispatched;
      hide Runtime.Environment.ContextFree;
      var done := network.LoginEnd(ticket.id, ticket.login, ticket.generation, verdict);
      Finish(LoginEnd(ticket, verdict), schedule, done);
      effects := done;
    }
  }
}
