/**
 The network as a step system. Each action is one critical section of the state
 lock; any number of identifications and logins may wait for their authority at
 the same time. A run is a sequence of actions, and an action that is not
 enabled leaves everything as it is.
 */
module System {
  import opened Wrappers
  import opened Text
  import opened Model
  import opened State
  import Lifecycle
  import Authentication
  import Commands

  /** An `identify` or `login` that has released the read lock and has not yet
      taken the write lock. */
  datatype Ticket =
    | IdentifyTicket(id: ConnectionId, generation: nat, identification: Identification)
    | LoginTicket(id: ConnectionId, generation: nat, login: LoginCommand)

  datatype Action =
    | Register(id: ConnectionId, peer: SocketAddr, dialect: ProtocolDialect)
    | IdentifyBegin(id: ConnectionId, identification: Identification)
    | IdentifyEnd(ticket: Ticket, authorized: bool)
    | LoginBegin(id: ConnectionId, login: LoginCommand)
    | LoginEnd(ticket: Ticket, verdict: Authentication.Verdict)
    | Execute(id: ConnectionId, command: Command)
    | Disconnect(id: ConnectionId, reason: Bytes)
    | Broadcast(event: Event)

  /** `seen` holds every id that was ever handed to `Register`. */
  datatype System = System(net: NetworkState, tickets: multiset<Ticket>, seen: set<ConnectionId>)

  const START := System(NetworkState(map[], map[]), multiset{}, {})

  /** Connection ids come from a counter, so an id is registered at most once.
      The three commands with a procedure of their own do not reach `Execute`. */
  predicate Enabled(sys: System, a: Action) {
    match a
    case Register(id, _, _) => id !in sys.seen
    case IdentifyEnd(ticket, _) => ticket in sys.tickets && ticket.IdentifyTicket?
    case LoginEnd(ticket, _) => ticket in sys.tickets && ticket.LoginTicket?
    case Execute(_, command) => !(command.Identify? || command.Login? || command.WeatherRequest?)
    case _ => true
  }

  /** The new indexes and the effects of an action. */
  function Apply(config: CoreConfig, sys: System, a: Action): Outcome {
    var s := sys.net;
    if !Enabled(sys, a) then Outcome(s, NO_EFFECTS) else
    match a
    case Register(id, peer, dialect) =>
      var registered := Lifecycle.Register(config, s, id, peer, dialect);
      Outcome(if registered.Ok? then registered.value else s, NO_EFFECTS)
    case IdentifyBegin(id, _) =>
      var begun := Authentication.IdentifyBegin(s, id);
      Outcome(s, if begun.Err? then begun.error else NO_EFFECTS)
    case IdentifyEnd(ticket, authorized) =>
      Authentication.IdentifyEnd(s, ticket.id, ticket.identification, ticket.generation, authorized)
    case LoginBegin(id, login) =>
      var begun := Authentication.LoginGeneration(s, id, login);
      Outcome(s, if begun.Err? then begun.error else NO_EFFECTS)
    case LoginEnd(ticket, verdict) =>
      Authentication.LoginEnd(config, s, ticket.id, ticket.login, ticket.generation, verdict)
    case Execute(id, command) => Commands.ExecuteActive(config, s, id, command)
    case Disconnect(id, reason) => Lifecycle.Disconnect(s, id, reason)
    case Broadcast(event) => Outcome(s, Lifecycle.Broadcast(s, event))
  }

  function TicketsAfter(sys: System, a: Action): multiset<Ticket> {
    if !Enabled(sys, a) then sys.tickets else
    match a
    case IdentifyBegin(id, identification) =>
      var begun := Authentication.IdentifyBegin(sys.net, id);
      if begun.Ok? then sys.tickets + multiset{IdentifyTicket(id, begun.value, identification)} else sys.tickets
    case LoginBegin(id, login) =>
      var begun := Authentication.LoginGeneration(sys.net, id, login);
      if begun.Ok? then sys.tickets + multiset{LoginTicket(id, begun.value, login)} else sys.tickets
    case IdentifyEnd(ticket, _) => sys.tickets - multiset{ticket}
    case LoginEnd(ticket, _) => sys.tickets - multiset{ticket}
    case _ => sys.tickets
  }

  function Next(config: CoreConfig, sys: System, a: Action): System {
    System(
      Apply(config, sys, a).state,
      TicketsAfter(sys, a),
      if a.Register? then sys.seen + {a.id} else sys.seen)
  }

  /** The state at the end of a run. */
  function Play(config: CoreConfig, run: seq<Action>): System {
    if run == [] then START
    else Next(config, Play(config, run[..|run| - 1]), run[|run| - 1])
  }

  // ---------------------------------------------------------------- Invariant

  /** What a waiting ticket may rely on: it never comes from the future, and
      while its generation is current its begin-time checks hold. */
  predicate TicketOk(sys: System, ticket: Ticket) {
    && ticket.id in sys.seen
    && (ticket.id in sys.net.sessions ==>
          && ticket.generation <= sys.net.sessions[ticket.id].generation
          && (ticket.IdentifyTicket? ==> ticket.generation == 0)
          && (ticket.LoginTicket? ==>
                Authentication.LoginChecksHold(sys.net, ticket.id, ticket.login, ticket.generation)))
  }

  ghost predicate Good(config: CoreConfig, sys: System) {
    && Inv(sys.net)
    && sys.net.sessions.Keys <= sys.seen
    && |sys.net.sessions| <= config.maxClients
    && (forall ticket :: ticket in sys.tickets ==> TicketOk(sys, ticket))
  }

  /** How a stored session can change while it keeps its id. */
  predicate Evolves(x: Session, y: Session) {
    && x.dialect == y.dialect
    && x.peer == y.peer
    && x.generation <= y.generation
    && (x.generation == y.generation ==>
          x.phase == y.phase && x.identification == y.identification && x.presence == y.presence)
    && (x.presence.Some? ==> x.identification == y.identification && x.presence == y.presence)
  }

  lemma StepKeepsInv(config: CoreConfig, sys: System, a: Action)
    requires Good(config, sys)
    ensures Inv(Apply(config, sys, a).state)
  {
    var s := sys.net;
    if Enabled(sys, a) {
      match a
      case Register(id, peer, dialect) =>
        if Lifecycle.Register(config, s, id, peer, dialect).Ok? {
          Lifecycle.RegisterKeepsInv(config, s, id, peer, dialect);
        }
      case IdentifyEnd(ticket, _) =>
        Authentication.IdentifyCommitKeepsInv(s, ticket.id, ticket.identification, ticket.generation);
      case LoginEnd(ticket, verdict) =>
        assert TicketOk(sys, ticket);
        if verdict.Authenticated? {
          Authentication.ActivateLoginKeepsInv(config, s, ticket.id, ticket.login, verdict.identity, ticket.generation);
        }
      case Execute(id, command) => Commands.ExecuteKeepsInv(config, s, id, command);
      case Disconnect(id, reason) => Lifecycle.DisconnectKeepsInv(s, id, reason);
      case _ =>
    }
  }

  /** A known id never comes back once released; while it stays, its session
      only evolves. */
  lemma StepEvolves(config: CoreConfig, sys: System, a: Action, id: ConnectionId)
    requires Good(config, sys)
    requires id in sys.seen && id in Apply(config, sys, a).state.sessions
    ensures id in sys.net.sessions
    ensures Evolves(sys.net.sessions[id], Apply(config, sys, a).state.sessions[id])
  {
    hide Commands.ExecuteActive;
    hide Authentication.LoginEnd;
    hide Authentication.IdentifyEnd;
    hide Evolves;
    if id in sys.net.sessions {
      EvolvesToItself(sys.net.sessions[id]);
    }
    if Enabled(sys, a) {
      match a
      case Execute(issuer, command) => ExecuteEvolves(config, sys.net, issuer, command, id);
      case LoginEnd(ticket, verdict) => LoginEvolves(config, sys.net, ticket, verdict, id);
      case IdentifyEnd(ticket, authorized) => IdentifyEvolves(sys.net, ticket, authorized, id);
      case _ =>
    }
  }

  lemma EvolvesToItself(x: Session)
    ensures Evolves(x, x)
  {
  }

  lemma IdentifyEvolves(s: NetworkState, ticket: Ticket, authorized: bool, id: ConnectionId)
    requires Inv(s) && ticket.IdentifyTicket?
    requires var outcome :=
               Authentication.IdentifyEnd(s, ticket.id, ticket.identification, ticket.generation, authorized);
             id in outcome.state.sessions
    ensures var outcome :=
              Authentication.IdentifyEnd(s, ticket.id, ticket.identification, ticket.generation, authorized);
            id in s.sessions && Evolves(s.sessions[id], outcome.state.sessions[id])
  {
    if ticket.id in s.sessions {
      assert SessionOk(ticket.id, s.sessions[ticket.id]);
    }
  }

  lemma LoginEvolves(
    config: CoreConfig, s: NetworkState, ticket: Ticket, verdict: Authentication.Verdict, id: ConnectionId)
    requires Inv(s) && ticket.LoginTicket?
    requires var outcome := Authentication.LoginEnd(config, s, ticket.id, ticket.login, ticket.generation, verdict);
             id in outcome.state.sessions
    ensures var outcome := Authentication.LoginEnd(config, s, ticket.id, ticket.login, ticket.generation, verdict);
            id in s.sessions && Evolves(s.sessions[id], outcome.state.sessions[id])
  {
    hide Authentication.LoginEnd;
    Authentication.LoginEndExactly(config, s, ticket.id, ticket.login, ticket.generation, verdict);
    if ticket.id in s.sessions {
      assert SessionOk(ticket.id, s.sessions[ticket.id]);
    }
  }

  lemma ExecuteEvolves(config: CoreConfig, s: NetworkState, issuer: ConnectionId, command: Command, id: ConnectionId)
    requires Inv(s)
    requires id in Commands.ExecuteActive(config, s, issuer, command).state.sessions
    ensures id in s.sessions
    ensures Evolves(s.sessions[id], Commands.ExecuteActive(config, s, issuer, command).state.sessions[id])
  {
    hide Commands.ExecuteActive;
    Commands.ExecuteState(config, s, issuer, command);
  }

  lemma StepKeepsIds(config: CoreConfig, sys: System, a: Action, id: ConnectionId)
    requires Good(config, sys) && !a.Register?
    requires id in Apply(config, sys, a).state.sessions
    ensures id in sys.net.sessions
  {
    hide Commands.ExecuteActive;
    if Enabled(sys, a) && a.Execute? {
      ExecuteEvolves(config, sys.net, a.id, a.command, id);
    }
  }

  lemma StepKeepsBounds(config: CoreConfig, sys: System, a: Action)
    requires Good(config, sys)
    ensures var after := Next(config, sys, a);
            after.net.sessions.Keys <= after.seen && |after.net.sessions| <= config.maxClients
  {
    hide Commands.ExecuteActive;
    hide Authentication.LoginEnd;
    hide Authentication.IdentifyEnd;
    hide Lifecycle.Disconnect;
    var after := Next(config, sys, a);
    if a.Register? {
      if Enabled(sys, a) && Lifecycle.Register(config, sys.net, a.id, a.peer, a.dialect).Ok? {
        Lifecycle.RegisterKeepsInv(config, sys.net, a.id, a.peer, a.dialect);
      }
    } else {
      assert after.net.sessions.Keys <= sys.net.sessions.Keys by {
        forall id | id in after.net.sessions ensures id in sys.net.sessions {
          StepKeepsIds(config, sys, a, id);
        }
      }
      SubsetCardinality(after.net.sessions.Keys, sys.net.sessions.Keys);
      assert |after.net.sessions| == |after.net.sessions.Keys|;
      assert |sys.net.sessions| == |sys.net.sessions.Keys|;
    }
  }

  lemma {:induction false} SubsetCardinality<T>(a: set<T>, b: set<T>)
    requires a <= b
    ensures |a| <= |b|
  {
    if a != {} {
      var x :| x in a;
      SubsetCardinality(a - {x}, b - {x});
    }
  }

  lemma OldTicketStaysOk(config: CoreConfig, sys: System, a: Action, ticket: Ticket)
    requires Good(config, sys) && ticket in sys.tickets
    ensures TicketOk(Next(config, sys, a), ticket)
  {
    hide Apply;
    assert TicketOk(sys, ticket);
    if ticket.id in Next(config, sys, a).net.sessions {
      StepEvolves(config, sys, a, ticket.id);
      StepKeepsInv(config, sys, a);
      assert SessionOk(ticket.id, sys.net.sessions[ticket.id]);
    }
  }

  lemma NewTicketIsOk(config: CoreConfig, sys: System, a: Action, ticket: Ticket)
    requires Good(config, sys) && ticket in TicketsAfter(sys, a) && ticket !in sys.tickets
    ensures TicketOk(Next(config, sys, a), ticket)
  {
    hide Commands.ExecuteActive;
    hide Authentication.LoginEnd;
    hide Authentication.IdentifyEnd;
    hide Lifecycle.Disconnect;
    assert a.IdentifyBegin? || a.LoginBegin?;
    assert SessionOk(ticket.id, sys.net.sessions[ticket.id]);
  }

  lemma StepKeepsGood(config: CoreConfig, sys: System, a: Action)
    requires Good(config, sys)
    ensures Good(config, Next(config, sys, a))
  {
    StepKeepsInv(config, sys, a);
    StepKeepsBounds(config, sys, a);
    forall ticket | ticket in TicketsAfter(sys, a) ensures TicketOk(Next(config, sys, a), ticket) {
      if ticket in sys.tickets {
        OldTicketStaysOk(config, sys, a, ticket);
      } else {
        NewTicketIsOk(config, sys, a, ticket);
      }
    }
  }

  /** Every reachable state: the two indexes agree, every session is
      consistent, the server is never over capacity, and every waiting ticket
      is sound. */
  lemma {:induction false} ReachableGood(config: CoreConfig, run: seq<Action>)
    ensures Good(config, Play(config, run))
  {
    if run != [] {
      ReachableGood(config, run[..|run| - 1]);
      StepKeepsGood(config, Play(config, run[..|run| - 1]), run[|run| - 1]);
    }
  }

  // ---------------------------------------------------------------- Split login

  lemma {:induction false} SeenOnlyGrows(config: CoreConfig, run: seq<Action>, more: seq<Action>)
    ensures Play(config, run).seen <= Play(config, run + more).seen
  {
    if more == [] {
      assert run + more == run;
    } else {
      SeenOnlyGrows(config, run, more[..|more| - 1]);
      PlayOneMore(config, run, more);
    }
  }

  lemma PlayOneMore(config: CoreConfig, run: seq<Action>, more: seq<Action>)
    requires more != []
    ensures Play(config, run + more)
            == Next(config, Play(config, run + more[..|more| - 1]), more[|more| - 1])
  {
    hide Next;
    assert (run + more)[..|run + more| - 1] == run + more[..|more| - 1];
  }

  lemma EvolvesOneMore(config: CoreConfig, first: NetworkState, mid: System, a: Action, id: ConnectionId)
    requires Good(config, mid) && id in mid.seen && id in Next(config, mid, a).net.sessions
    requires id in mid.net.sessions ==> id in first.sessions && Evolves(first.sessions[id], mid.net.sessions[id])
    ensures id in first.sessions && Evolves(first.sessions[id], Next(config, mid, a).net.sessions[id])
  {
    StepEvolves(config, mid, a, id);
  }

  /** The meaning of `generation`: as long as an id is registered, an unchanged
      generation means that nothing a login decides by has changed, however
      many actions lie in between. */
  lemma {:induction false} EqualGenerationMeansUnchanged(
    config: CoreConfig, run: seq<Action>, more: seq<Action>, id: ConnectionId)
    requires id in Play(config, run).seen
    requires id in Play(config, run + more).net.sessions
    ensures id in Play(config, run).net.sessions
    ensures Evolves(Play(config, run).net.sessions[id], Play(config, run + more).net.sessions[id])
  {
    if more == [] {
      assert run + more == run;
    } else {
      var shorter := more[..|more| - 1];
      var mid, a := Play(config, run + shorter), more[|more| - 1];
      PlayOneMore(config, run, more);
      ReachableGood(config, run + shorter);
      SeenOnlyGrows(config, run, shorter);
      if id in mid.net.sessions {
        EqualGenerationMeansUnchanged(config, run, shorter, id);
      }
      EvolvesOneMore(config, Play(config, run).net, mid, a, id);
    }
  }

  /** A login that waited for its authority commits exactly when its generation
      is still current and the same login, run without interruption now, would
      commit; and then both have the same state and the same effects. */
  lemma SplitLoginRefinesAtomicLogin(
    config: CoreConfig, run: seq<Action>, ticket: Ticket, verdict: Authentication.Verdict)
    requires ticket in Play(config, run).tickets && ticket.LoginTicket?
    ensures var s := Play(config, run).net;
            var split := Authentication.LoginEnd(config, s, ticket.id, ticket.login, ticket.generation, verdict);
            var atomic := Authentication.AtomicLogin(config, s, ticket.id, ticket.login, verdict);
            && (!IsActive(s, ticket.id) && IsActive(split.state, ticket.id) <==>
                  && ticket.id in s.sessions
                  && s.sessions[ticket.id].generation == ticket.generation
                  && !IsActive(s, ticket.id) && IsActive(atomic.state, ticket.id))
            && (!IsActive(s, ticket.id) && IsActive(split.state, ticket.id) ==> split == atomic)
  {
    ReachableGood(config, run);
    assert TicketOk(Play(config, run), ticket);
  }

  /** A waiting identification commits exactly when it could begin now: under
      fresh ids the generation it carries is always the current one by then. */
  lemma SplitIdentifyRefinesAtomicIdentify(config: CoreConfig, run: seq<Action>, ticket: Ticket)
    requires ticket in Play(config, run).tickets && ticket.IdentifyTicket?
    ensures var s := Play(config, run).net;
            var split := Authentication.IdentifyCommit(s, ticket.id, ticket.identification, ticket.generation);
            && (split.state != s <==> Authentication.IdentifyBegin(s, ticket.id).Ok?)
            && (split.state != s ==> Authentication.IdentifyBegin(s, ticket.id) == Ok(ticket.generation))
  {
    ReachableGood(config, run);
    assert TicketOk(Play(config, run), ticket);
    if ticket.id in Play(config, run).net.sessions {
      var x := Play(config, run).net.sessions[ticket.id];
      assert SessionOk(ticket.id, x);
    }
  }

  /** The id of a connection must not be used twice: a ticket taken on one
      session of a reused id commits on the next one, which the same login
      would have been refused on. */
  lemma ReusedIdWouldBreakLogin(
    config: CoreConfig, peer: SocketAddr, identity: AuthenticatedIdentity, callsign: Callsign)
    requires config.maxClients > 0 && !identity.suspended && identity.pilotRating.FlightExaminer?
    ensures var login := LoginCommand(callsign, Pilot, "1", "", 1, CLASSIC_PROTOCOL_REVISION, "", None);
            var first := Lifecycle.Register(config, START.net, 0, peer, Classic).value;
            var begun := Authentication.LoginGeneration(first, 0, login);
            var second := Lifecycle.Register(config, Lifecycle.Disconnect(first, 0, "").state, 0, peer, AsterV1).value;
            var verdict := Authentication.Authenticated(identity);
            && begun.Ok?
            && IsActive(Authentication.LoginEnd(config, second, 0, login, begun.value, verdict).state, 0)
            && Authentication.AtomicLogin(config, second, 0, login, verdict).state == second
  {
    var first := Lifecycle.Register(config, START.net, 0, peer, Classic).value;
    var between := Lifecycle.Disconnect(first, 0, "").state;
    assert between.sessions.Keys == {} && between.callsigns == map[];
    assert |between.sessions| == 0;
  }
}
