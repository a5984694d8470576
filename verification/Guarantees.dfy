/**
 Theorems about every run of the network. The functions here read a run from its
 actions and effects; the lemmas say how the final state is determined by them.
 */
module Guarantees {
  import opened Wrappers
  import opened Text
  import opened Model
  import opened State
  import opened System
  import opened History
  import Authentication
  import Commands
  import Lifecycle
  import Routing

  function Earlier(run: seq<Action>): seq<Action>
    requires run != []
  {
    run[..|run| - 1]
  }

  function Last(run: seq<Action>): Action
    requires run != []
  {
    run[|run| - 1]
  }

  function LastChange(config: CoreConfig, run: seq<Action>): Change
    requires run != []
  {
    ChangeOf(config, Play(config, Earlier(run)), Last(run))
  }

  lemma LastStep(config: CoreConfig, run: seq<Action>)
    requires run != []
    ensures Good(config, Play(config, Earlier(run))) && Good(config, Play(config, run))
    ensures FollowsPresence(
              Play(config, Earlier(run)).net, Play(config, run).net, Subject(Play(config, Earlier(run)), Last(run)))
    ensures LastChange(config, run) == ChangeBetween(
              Play(config, Earlier(run)).net, Play(config, run).net, Subject(Play(config, Earlier(run)), Last(run)))
    ensures LastChange(config, run).Activation? ==>
              Last(run).LoginEnd? && Enabled(Play(config, Earlier(run)), Last(run))
  {
    hide Apply;
    hide TicketsAfter;
    ReachableGood(config, Earlier(run));
    ReachableGood(config, run);
    StepFollows(config, Play(config, Earlier(run)), Last(run));
  }

  predicate Online(config: CoreConfig, run: seq<Action>, id: ConnectionId) {
    PresenceOf(Play(config, run).net, id).Some?
  }

  /** Active means having a presence, and the callsign index lists exactly the
      active sessions under the callsigns they present. */
  lemma CallsignIndexIsExact(config: CoreConfig, run: seq<Action>, callsign: Callsign, id: ConnectionId)
    ensures var s := Play(config, run).net;
            && (IsActive(s, id) <==> Online(config, run, id))
            && (callsign in s.callsigns && s.callsigns[callsign] == id <==>
                  IsActive(s, id) && s.sessions[id].CallsignOf() == Some(callsign))
  {
    ReachableGood(config, run);
    var s := Play(config, run).net;
    if id in s.sessions {
      assert SessionOk(id, s.sessions[id]);
    }
  }

  // ---------------------------------------------------------------- Presence replica

  /** The length of the run when `id` was activated, or 0 if it never was. */
  function ActivatedAt(config: CoreConfig, run: seq<Action>, id: ConnectionId): (n: nat)
    ensures n <= |run|
    decreases |run|
  {
    if run == [] then 0
    else if LastChange(config, run).Activation? && LastChange(config, run).id == id then |run|
    else ActivatedAt(config, Earlier(run), id)
  }

  /** What the client of `id` believes: the presence events addressed to it
      from its own activation on, folded in the order they were issued. */
  function Replica(config: CoreConfig, run: seq<Action>, id: ConnectionId): set<Callsign>
    decreases |run|
  {
    if run == [] then {}
    else
      HearAll(
        if LastChange(config, run).Activation? && LastChange(config, run).id == id then {}
        else Replica(config, Earlier(run), id),
        Apply(config, Play(config, Earlier(run)), Last(run)).effects.deliveries,
        id)
  }

  /** The callsigns of the active sessions that activated after `id` did. */
  function ActivatedAfter(config: CoreConfig, run: seq<Action>, id: ConnectionId): set<Callsign> {
    LaterThan(Play(config, run).net.callsigns, j => ActivatedAt(config, run, j), id)
  }

  predicate HonestBroadcasts(run: seq<Action>) {
    forall i :: 0 <= i < |run| ==> NoForgedPresence(run[i])
  }

  /** Through logins, logoffs, kills, lost connections and reused callsigns, the
      picture an active client builds from its events is exact: it knows
      precisely the active clients that came after it. */
  lemma {:induction false} ReplicaIsExact(config: CoreConfig, run: seq<Action>, id: ConnectionId)
    requires HonestBroadcasts(run) && Online(config, run, id)
    ensures Replica(config, run, id) == ActivatedAfter(config, run, id)
    decreases |run|
  {
    hide Apply;
    hide TicketsAfter;
    if run != [] {
      LastStep(config, run);
      var change := LastChange(config, run);
      if change.Activation? && change.id == id {
        assert ActivatedAt(config, run, id) == |run|;
        ActivationTellsItselfNothing(config, Play(config, Earlier(run)), Last(run));
      } else {
        assert Online(config, Earlier(run), id);
        ReplicaIsExact(config, Earlier(run), id);
        var sys := Play(config, Earlier(run));
        StepTells(config, sys, Last(run), id, Replica(config, Earlier(run), id));
        ActivatedAfterStep(config, run, id);
      }
    }
  }

  /** A login says nothing about presence to the client that logs in: neither
      its own arrival nor who was there before. */
  lemma ActivationTellsItselfNothing(config: CoreConfig, sys: System, a: Action)
    requires Good(config, sys) && ChangeOf(config, sys, a).Activation?
    ensures HearAll({}, Apply(config, sys, a).effects.deliveries, ChangeOf(config, sys, a).id) == {}
  {
    hide Authentication.LoginEnd;
    StepFollows(config, sys, a);
    Authentication.LoginEndExactly(config, sys.net, a.ticket.id, a.ticket.login, a.ticket.generation, a.verdict);
    var s := Apply(config, sys, a).state;
    OwnLoginIsSilent(config, s, a.ticket.id, Authentication.PresenceFor(a.ticket.login, a.verdict.identity));
  }

  lemma OwnLoginIsSilent(config: CoreConfig, s: NetworkState, id: ConnectionId, presence: ClientPresence)
    ensures HearAll({}, Authentication.LoginEffects(config, s, id, presence).deliveries, id) == {}
  {
    var public := Lifecycle.Send(Routing.ActiveIds(s, Some(id)), ClientAdded(presence)).deliveries;
    var private := Authentication.PrivateLoginEffects(config, s, id, presence);
    HearAllAppend({}, public, private, id);
    HearSend({}, Routing.ActiveIds(s, Some(id)), ClientAdded(presence), id);
    HearNothing({}, private, id);
  }

  lemma ActivatedAfterStep(config: CoreConfig, run: seq<Action>, id: ConnectionId)
    requires run != [] && Online(config, run, id) && Online(config, Earlier(run), id)
    ensures ActivatedAfter(config, run, id)
            == ViewAfter(ActivatedAfter(config, Earlier(run), id), LastChange(config, run))
  {
    hide Apply;
    hide TicketsAfter;
    LastStep(config, run);
    var s := Play(config, Earlier(run)).net;
    var change := LastChange(config, run);
    LaterThanAfterChange(
      s.callsigns, change, j => ActivatedAt(config, Earlier(run), j), j => ActivatedAt(config, run, j), id, |run|);
  }

  function LaterThan(
    callsigns: map<Callsign, ConnectionId>, rank: ConnectionId -> nat, id: ConnectionId): set<Callsign>
  {
    set cs | cs in callsigns && rank(callsigns[cs]) > rank(id)
  }

  lemma LaterThanAfterChange(
    callsigns: map<Callsign, ConnectionId>, change: Change, rank: ConnectionId -> nat, newRank: ConnectionId -> nat,
    id: ConnectionId, now: nat)
    requires forall j :: newRank(j) == if change.Activation? && change.id == j then now else rank(j)
    requires rank(id) < now
    requires change.Activation? ==>
               && change.id != id
               && change.presence.callsign !in callsigns
               && forall cs :: cs in callsigns ==> callsigns[cs] != change.id
    ensures LaterThan(ReIndexed(callsigns, change), newRank, id) == ViewAfter(LaterThan(callsigns, rank, id), change)
  {
  }

  /** The condition on broadcasts is needed, and this is how far: broadcasting
      an event keeps a client's picture exact unless it announces a callsign
      the client does not know of, or withdraws one it does. */
  lemma BroadcastKeepsReplicaExactlyWhen(config: CoreConfig, run: seq<Action>, id: ConnectionId, event: Event)
    requires HonestBroadcasts(run) && Online(config, run, id)
    ensures var known := ActivatedAfter(config, run, id);
            var longer := run + [Broadcast(event)];
            && Online(config, longer, id)
            && (Replica(config, longer, id) == ActivatedAfter(config, longer, id) <==>
                  && !(event.ClientAdded? && event.client.callsign !in known)
                  && !(event.ClientRemoved? && event.removed in known))
  {
    hide Apply;
    hide TicketsAfter;
    hide Inv;
    var longer := run + [Broadcast(event)];
    assert Earlier(longer) == run && Last(longer) == Broadcast(event);
    BroadcastStep(config, Play(config, run), event, Replica(config, run, id), id) by {
      ReachableGood(config, run);
    }
    ReplicaIsExact(config, run, id);
    ActivatedAfterStep(config, longer, id);
  }

  lemma BroadcastStep(config: CoreConfig, sys: System, event: Event, view: set<Callsign>, id: ConnectionId)
    requires Good(config, sys) && PresenceOf(sys.net, id).Some?
    ensures Apply(config, sys, Broadcast(event)).state == sys.net
    ensures ChangeOf(config, sys, Broadcast(event)).Quiet?
    ensures HearAll(view, Apply(config, sys, Broadcast(event)).effects.deliveries, id) == Hear(view, event)
  {
    assert SessionOk(id, sys.net.sessions[id]);
    HearSend(view, Routing.ActiveIds(sys.net, None), event, id);
  }

  // ---------------------------------------------------------------- Conservation

  function Activations(config: CoreConfig, run: seq<Action>): nat
    decreases |run|
  {
    if run == [] then 0
    else Activations(config, Earlier(run)) + if LastChange(config, run).Activation? then 1 else 0
  }

  function Releases(config: CoreConfig, run: seq<Action>): nat
    decreases |run|
  {
    if run == [] then 0
    else Releases(config, Earlier(run)) + if LastChange(config, run).Release? then 1 else 0
  }

  function OnlineIds(config: CoreConfig, run: seq<Action>): set<ConnectionId> {
    var s := Play(config, run).net;
    set id | id in s.sessions && s.sessions[id].phase.Active?
  }

  /** Every activation is accounted for: what was activated and not released is
      exactly what is registered in the callsign index. */
  lemma {:induction false} ActivationsAreConserved(config: CoreConfig, run: seq<Action>)
    ensures Activations(config, run) == Releases(config, run) + |Play(config, run).net.callsigns|
    decreases |run|
  {
    hide Apply;
    hide TicketsAfter;
    if run != [] {
      ActivationsAreConserved(config, Earlier(run));
      LastStep(config, run);
      var before := Play(config, Earlier(run)).net.callsigns;
      var after := Play(config, run).net.callsigns;
      match LastChange(config, run)
      case Activation(id, presence) => assert |after| == |before| + 1;
      case Release(id, presence) =>
        assert after.Keys == before.Keys - {presence.callsign};
        assert |after.Keys| == |before.Keys| - 1;
        assert |after| == |after.Keys| && |before| == |before.Keys|;
      case Quiet =>
    }
  }

  /** There are as many registered callsigns as active sessions. */
  lemma OneCallsignPerOnlineId(config: CoreConfig, run: seq<Action>)
    ensures |Play(config, run).net.callsigns| == |OnlineIds(config, run)|
    ensures |Play(config, run).net.sessions| <= config.maxClients
  {
    ReachableGood(config, run);
    var s := Play(config, run).net;
    forall id | id in s.sessions ensures SessionOk(id, s.sessions[id]) {}
    SameCardinality(s.callsigns, OnlineIds(config, run));
  }

  lemma {:induction false} SameCardinality<T, U>(m: map<T, U>, image: set<U>)
    requires forall t, u :: t in m && u in m && m[t] == m[u] ==> t == u
    requires forall t :: t in m ==> m[t] in image
    requires forall y :: y in image ==> exists t :: t in m && m[t] == y
    ensures |m| == |image|
    decreases |image|
  {
    if image == {} {
      assert m.Keys == {};
      assert |m| == |m.Keys|;
    } else {
      var y :| y in image;
      var t :| t in m && m[t] == y;
      var smaller := m - {t};
      forall z | z in image - {y} ensures exists u :: u in smaller && smaller[u] == z {
        var u :| u in m && m[u] == z;
        assert u in smaller;
      }
      SameCardinality(smaller, image - {y});
      assert smaller.Keys == m.Keys - {t};
      assert |smaller.Keys| == |m.Keys| - 1;
      assert |m| == |m.Keys| && |smaller| == |smaller.Keys|;
    }
  }

  /** How often `id` was activated, and how often it was released. */
  function ActivationsOf(config: CoreConfig, run: seq<Action>, id: ConnectionId): nat
    decreases |run|
  {
    if run == [] then 0
    else
      ActivationsOf(config, Earlier(run), id)
      + if LastChange(config, run).Activation? && LastChange(config, run).id == id then 1 else 0
  }

  function ReleasesOf(config: CoreConfig, run: seq<Action>, id: ConnectionId): nat
    decreases |run|
  {
    if run == [] then 0
    else
      ReleasesOf(config, Earlier(run), id)
      + if LastChange(config, run).Release? && LastChange(config, run).id == id then 1 else 0
  }

  /** A connection is activated at most once, and released exactly once after
      that, however many of logoff, kill and loss of the connection happen. */
  lemma {:induction false} ReleasedExactlyOnce(config: CoreConfig, run: seq<Action>, id: ConnectionId)
    ensures ActivationsOf(config, run, id) <= 1
    ensures ReleasesOf(config, run, id) + (if Online(config, run, id) then 1 else 0) == ActivationsOf(config, run, id)
    ensures ActivationsOf(config, run, id) > 0 && !Online(config, run, id) ==>
              id in Play(config, run).seen && id !in Play(config, run).net.sessions
    decreases |run|
  {
    hide Apply;
    hide TicketsAfter;
    if run != [] {
      ReleasedExactlyOnce(config, Earlier(run), id);
      LastStep(config, run);
      var sys := Play(config, Earlier(run));
      var after := Play(config, run);
      if id in sys.seen && id in after.net.sessions {
        StepEvolves(config, sys, Last(run), id);
        assert SessionOk(id, sys.net.sessions[id]) && SessionOk(id, after.net.sessions[id]);
      }
      if LastChange(config, run).Activation? && LastChange(config, run).id == id {
        assert id in sys.seen by {
          assert TicketOk(sys, Last(run).ticket);
        }
      }
      if LastChange(config, run).Release? && LastChange(config, run).id == id {
        ReleaseRemoves(config, sys, Last(run));
      }
    }
  }

  /** Losing the presence means losing the session. */
  lemma ReleaseRemoves(config: CoreConfig, sys: System, a: Action)
    requires Good(config, sys) && ChangeOf(config, sys, a).Release?
    ensures ChangeOf(config, sys, a).id in sys.seen
    ensures ChangeOf(config, sys, a).id !in Apply(config, sys, a).state.sessions
  {
    hide Apply;
    hide TicketsAfter;
    var id := ChangeOf(config, sys, a).id;
    StepKeepsInv(config, sys, a);
    if id in Apply(config, sys, a).state.sessions {
      StepEvolves(config, sys, a, id);
    }
  }

  // ---------------------------------------------------------------- Admission

  datatype Admission = Admission(login: LoginCommand, identity: AuthenticatedIdentity)

  /** The login that last activated `id`, with the identity the authority
      returned for it. */
  function AdmittedWith(config: CoreConfig, run: seq<Action>, id: ConnectionId): Option<Admission>
    decreases |run|
  {
    if run == [] then None
    else if LastChange(config, run).Activation? && LastChange(config, run).id == id then
      if Last(run).LoginEnd? && Last(run).ticket.LoginTicket? && Last(run).verdict.Authenticated?
      then Some(Admission(Last(run).ticket.login, Last(run).verdict.identity))
      else None
    else AdmittedWith(config, Earlier(run), id)
  }

  /** What every login is checked for before the authority is asked and after. */
  predicate ProperlyAdmitted(x: Session, admission: Admission) {
    && x.presence == Some(Authentication.PresenceFor(admission.login, admission.identity))
    && admission.login.protocolRevision == ExpectedRevision(x.dialect)
    && !admission.identity.suspended
    && Authentication.RatingAllowed(admission.login, admission.identity)
    && (x.dialect.Vatsim? ==> Authentication.IdentificationMatches(x, admission.login))
  }

  lemma LoginAdmits(config: CoreConfig, s: NetworkState, ticket: Ticket, verdict: Authentication.Verdict)
    requires Inv(s) && ticket.LoginTicket?
    requires Authentication.LoginChecksHold(s, ticket.id, ticket.login, ticket.generation)
    requires PresenceOf(s, ticket.id).None?
    ensures var after := Authentication.LoginEnd(config, s, ticket.id, ticket.login, ticket.generation, verdict).state;
            PresenceOf(after, ticket.id).Some? ==>
              && verdict.Authenticated?
              && ProperlyAdmitted(after.sessions[ticket.id], Admission(ticket.login, verdict.identity))
  {
    if ticket.id in s.sessions {
      assert SessionOk(ticket.id, s.sessions[ticket.id]);
    }
  }

  lemma ActivationAdmits(config: CoreConfig, sys: System, a: Action)
    requires Good(config, sys) && ChangeOf(config, sys, a).Activation?
    ensures a.LoginEnd? && a.ticket.LoginTicket? && a.verdict.Authenticated?
    ensures var id := ChangeOf(config, sys, a).id;
            && id in Apply(config, sys, a).state.sessions
            && ProperlyAdmitted(Apply(config, sys, a).state.sessions[id], Admission(a.ticket.login, a.verdict.identity))
  {
    StepFollows(config, sys, a);
    assert TicketOk(sys, a.ticket);
    LoginAdmits(config, sys.net, a.ticket, a.verdict);
  }

  /** The checks made before and after the authority answered hold of every
      active session in every reachable state. */
  lemma {:induction false} OnlineSessionsWereAdmitted(config: CoreConfig, run: seq<Action>, id: ConnectionId)
    requires Online(config, run, id)
    ensures AdmittedWith(config, run, id).Some?
    ensures ProperlyAdmitted(Play(config, run).net.sessions[id], AdmittedWith(config, run, id).value)
    decreases |run|
  {
    hide Apply;
    hide TicketsAfter;
    if run != [] {
      LastStep(config, run);
      var sys := Play(config, Earlier(run));
      var change := LastChange(config, run);
      if change.Activation? && change.id == id {
        ActivationAdmits(config, sys, Last(run));
      } else {
        OnlineSessionsWereAdmitted(config, Earlier(run), id);
        StepEvolves(config, sys, Last(run), id);
      }
    }
  }

  // ---------------------------------------------------------------- Who can remove whom

  /** The action ends the session of `id` with the consent of its owner or of
      the transport, or it is a kill by an active session of sufficient rating. */
  predicate MayRelease(s: NetworkState, a: Action, id: ConnectionId) {
    || (a.Disconnect? && a.id == id)
    || (a.Execute? && a.id == id && a.command.Logoff? && Commands.FromItsOwner(s, id, a.command))
    || (a.Execute? && a.command.Kill? && Commands.FromItsOwner(s, a.id, a.command)
        && s.sessions[a.id].presence.value.rating >= Commands.KILL_RATING
        && PresenceOf(s, id).Some? && PresenceOf(s, id).value.callsign == a.command.target)
  }

  /** An active client goes offline only by losing its connection, by its own
      logoff, or by a kill that names its callsign. */
  lemma OfflineOnlyByConsentOrKill(config: CoreConfig, run: seq<Action>, id: ConnectionId)
    requires run != [] && Online(config, Earlier(run), id) && !Online(config, run, id)
    ensures MayRelease(Play(config, Earlier(run)).net, Last(run), id)
  {
    LastStep(config, run);
    ReleaseNeedsCause(config, Play(config, Earlier(run)), Last(run), id);
  }

  lemma ReleaseNeedsCause(config: CoreConfig, sys: System, a: Action, id: ConnectionId)
    requires Good(config, sys) && PresenceOf(sys.net, id).Some?
    requires PresenceOf(Apply(config, sys, a).state, id).None?
    ensures MayRelease(sys.net, a, id)
  {
    hide Commands.ExecuteActive;
    hide Authentication.LoginEnd;
    StepFollows(config, sys, a);
    if a.Execute? && Enabled(sys, a) {
      ExecuteFollows(config, sys.net, a.id, a.command);
    }
    if a.LoginEnd? && Enabled(sys, a) {
      LoginFollows(config, sys.net, a.ticket.id, a.ticket.login, a.ticket.generation, a.verdict);
    }
  }

  /** Supervisors and administrators, and pilots certified from the airline
      transport licence up. */
  predicate CanHoldKillRating(clientType: ClientType, identity: AuthenticatedIdentity) {
    if clientType.Atc? then identity.atcRating.Supervisor? || identity.atcRating.Administrator?
    else
      identity.pilotRating.AirlineTransportPilotLicense? || identity.pilotRating.FlightInstructor?
      || identity.pilotRating.FlightExaminer?
  }

  /** The rating compared by a kill is the number from the login, whatever the
      client type, so the identities that can be granted such a number are
      exactly these, among the controllers and among the pilots. */
  lemma KillRatingExactlyWhen(login: LoginCommand, identity: AuthenticatedIdentity)
    ensures CanHoldKillRating(login.clientType, identity) <==>
            exists rating: I32 :: rating >= Commands.KILL_RATING
              && Authentication.RatingAllowed(login.(requestedRating := rating), identity)
  {
    if CanHoldKillRating(login.clientType, identity) {
      var rating: I32 := if login.clientType.Atc? then 11 else 15;
      assert Authentication.RatingAllowed(login.(requestedRating := rating), identity);
    }
  }

  /** An active session whose kills are obeyed was admitted as one of them. */
  lemma WhoCanKill(config: CoreConfig, run: seq<Action>, id: ConnectionId)
    requires Online(config, run, id)
    requires Play(config, run).net.sessions[id].presence.value.rating >= Commands.KILL_RATING
    ensures AdmittedWith(config, run, id).Some?
    ensures var admission := AdmittedWith(config, run, id).value;
            CanHoldKillRating(admission.login.clientType, admission.identity)
  {
    hide Play;
    hide AdmittedWith;
    hide CanHoldKillRating;
    OnlineSessionsWereAdmitted(config, run, id);
    var admission := AdmittedWith(config, run, id).value;
    KillRatingExactlyWhen(admission.login, admission.identity);
    assert admission.login == admission.login.(requestedRating := admission.login.requestedRating);
  }

  // ---------------------------------------------------------------- Flight plans

  /** The flight plan `id` filed last since it was activated. */
  function LastFiled(config: CoreConfig, run: seq<Action>, id: ConnectionId): Option<FlightPlan>
    decreases |run|
  {
    if run == [] then None
    else if LastChange(config, run).Activation? && LastChange(config, run).id == id then None
    else if Files(config, Play(config, Earlier(run)), Last(run), id) then Some(Last(run).command.plan)
    else LastFiled(config, Earlier(run), id)
  }

  lemma StepKeepsPlan(config: CoreConfig, sys: System, a: Action, id: ConnectionId)
    requires Good(config, sys) && id in sys.seen && id in Apply(config, sys, a).state.sessions
    requires !Files(config, sys, a, id)
    ensures id in sys.net.sessions
    ensures Apply(config, sys, a).state.sessions[id].flightPlan == sys.net.sessions[id].flightPlan
  {
    hide Commands.ExecuteActive;
    hide Authentication.LoginEnd;
    StepEvolves(config, sys, a, id);
    if a.LoginEnd? && Enabled(sys, a) {
      Authentication.LoginEndExactly(config, sys.net, a.ticket.id, a.ticket.login, a.ticket.generation, a.verdict);
    }
    if a.Execute? && Enabled(sys, a) {
      Commands.ExecuteState(config, sys.net, a.id, a.command);
    }
  }

  predicate Files(config: CoreConfig, sys: System, a: Action, id: ConnectionId) {
    && a.Execute? && a.id == id && a.command.FileFlightPlan?
    && Commands.FromItsOwner(sys.net, id, a.command)
  }

  lemma FilingStores(config: CoreConfig, sys: System, a: Action, id: ConnectionId)
    requires Good(config, sys) && Files(config, sys, a, id)
    ensures id in Apply(config, sys, a).state.sessions
    ensures Apply(config, sys, a).state.sessions[id].flightPlan == Some(a.command.plan)
  {
    assert SessionOk(id, sys.net.sessions[id]);
  }

  lemma ActivationStartsWithoutPlan(config: CoreConfig, sys: System, a: Action, id: ConnectionId)
    requires Good(config, sys) && ChangeOf(config, sys, a).Activation? && ChangeOf(config, sys, a).id == id
    ensures id in Apply(config, sys, a).state.sessions
    ensures Apply(config, sys, a).state.sessions[id].flightPlan.None?
  {
    StepFollows(config, sys, a);
    assert TicketOk(sys, a.ticket);
    StepKeepsPlan(config, sys, a, id);
    assert SessionOk(id, sys.net.sessions[id]);
  }

  lemma {:induction false} StoredPlanIsLastFiled(config: CoreConfig, run: seq<Action>, id: ConnectionId)
    requires Online(config, run, id)
    ensures Play(config, run).net.sessions[id].flightPlan == LastFiled(config, run, id)
    decreases |run|
  {
    hide Apply;
    hide TicketsAfter;
    if run != [] {
      LastStep(config, run);
      var sys := Play(config, Earlier(run));
      if LastChange(config, run).Activation? && LastChange(config, run).id == id {
        ActivationStartsWithoutPlan(config, sys, Last(run), id);
      } else if Files(config, sys, Last(run), id) {
        FilingStores(config, sys, Last(run), id);
      } else {
        StoredPlanIsLastFiled(config, Earlier(run), id);
        StepKeepsPlan(config, sys, Last(run), id);
      }
    }
  }

  lemma ServerAnswersItself(config: CoreConfig, s: NetworkState, asker: ConnectionId, query: Command)
    requires query.Query? && query.destination.Server? && query.queryKind.FlightPlanQuery?
    requires Commands.FromItsOwner(s, asker, query)
    ensures Commands.ExecuteActive(config, s, asker, query)
            == Outcome(s, Commands.AnswerFlightPlanQuery(s, asker, query.Source(), query.arguments))
  {
  }

  /** A client that asks the server for the flight plan of a callsign gets the
      plan last filed by the session that holds the callsign now, never one of
      an earlier holder; an unknown callsign and a holder without a plan each
      get their own error. */
  lemma FlightPlanQueryIsCurrent(
    config: CoreConfig, run: seq<Action>, asker: ConnectionId, query: Command, target: Callsign)
    requires query.Query? && query.destination.Server? && query.queryKind.FlightPlanQuery?
    requires query.arguments != [] && ParseCallsign(query.arguments[0]) == Ok(target)
    requires Commands.FromItsOwner(Play(config, run).net, asker, query)
    ensures var s := Play(config, run).net;
            Apply(config, Play(config, run), Execute(asker, query)) == Outcome(s,
              if target !in s.callsigns then
                Lifecycle.ErrorEffect(asker, Some(query.Source()), NoSuchCallsign, target.text)
              else match LastFiled(config, run, s.callsigns[target])
                case None => Lifecycle.ErrorEffect(asker, Some(query.Source()), NoFlightPlan, "")
                case Some(plan) => Lifecycle.Send({asker}, FlightPlanEvent(plan, Direct(query.Source()))))
    ensures var s := Play(config, run).net;
            target in s.callsigns && LastFiled(config, run, s.callsigns[target]).Some? ==>
              LastFiled(config, run, s.callsigns[target]).value.callsign == target
  {
    hide Play;
    hide LastFiled;
    hide Commands.ExecuteActive;
    hide ParseCallsign;
    ReachableGood(config, run);
    var s := Play(config, run).net;
    ServerAnswersItself(config, s, asker, query);
    if target in s.callsigns {
      var owner := s.callsigns[target];
      assert SessionOk(owner, s.sessions[owner]);
      StoredPlanIsLastFiled(config, run, owner);
    }
  }
}
