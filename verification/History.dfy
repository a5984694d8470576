/**
 What whole runs guarantee. Everything here is defined from the sequence of
 actions and the effects each of them issued, not from fields of the state.
 */
module History {
  import opened Wrappers
  import opened Text
  import opened Model
  import opened State
  import opened System
  import Lifecycle
  import Authentication
  import Commands
  import Routing

  // ---------------------------------------------------------------- Changes of presence

  /** What one action does to the set of active sessions. */
  datatype Change =
    | Activation(id: ConnectionId, presence: ClientPresence)
    | Release(id: ConnectionId, presence: ClientPresence)
    | Quiet

  function PresenceOf(s: NetworkState, id: ConnectionId): Option<ClientPresence> {
    if id in s.sessions then s.sessions[id].presence else None
  }

  /** The session an action may activate or release. */
  function Subject(sys: System, a: Action): ConnectionId {
    match a
    case LoginEnd(ticket, _) => ticket.id
    case Execute(id, command) => Commands.Touched(sys.net, id, command)
    case Register(id, _, _) => id
    case IdentifyBegin(id, _) => id
    case IdentifyEnd(ticket, _) => ticket.id
    case LoginBegin(id, _) => id
    case Disconnect(id, _) => id
    case Broadcast(_) => 0
  }

  function ChangeOf(config: CoreConfig, sys: System, a: Action): Change {
    ChangeBetween(sys.net, Apply(config, sys, a).state, Subject(sys, a))
  }

  function ChangeBetween(s: NetworkState, t: NetworkState, id: ConnectionId): Change {
    var before, after := PresenceOf(s, id), PresenceOf(t, id);
    if before.None? && after.Some? then Activation(id, after.value)
    else if before.Some? && after.None? then Release(id, before.value)
    else Quiet
  }

  /** The callsign index after a change of presence. */
  function ReIndexed(callsigns: map<Callsign, ConnectionId>, change: Change): map<Callsign, ConnectionId> {
    match change
    case Activation(id, presence) => callsigns[presence.callsign := id]
    case Release(_, presence) => callsigns - {presence.callsign}
    case Quiet => callsigns
  }

  /** The callsigns another client knows of, after a change of presence. */
  function ViewAfter(view: set<Callsign>, change: Change): set<Callsign> {
    match change
    case Activation(_, presence) => view + {presence.callsign}
    case Release(_, presence) => view - {presence.callsign}
    case Quiet => view
  }

  // ---------------------------------------------------------------- What a client hears

  /** The callsigns a client believes to be online, after one more event. */
  function Hear(view: set<Callsign>, event: Event): set<Callsign> {
    match event
    case ClientAdded(client) => view + {client.callsign}
    case ClientRemoved(callsign, _, _) => view - {callsign}
    case _ => view
  }

  function HearAll(view: set<Callsign>, ds: seq<Delivery>, id: ConnectionId): set<Callsign>
    decreases |ds|
  {
    if ds == [] then view
    else HearAll(if id in ds[0].recipients then Hear(view, ds[0].event) else view, ds[1..], id)
  }

  predicate IsPresenceEvent(event: Event) {
    event.ClientAdded? || event.ClientRemoved?
  }

  lemma {:induction false} HearAllAppend(view: set<Callsign>, a: seq<Delivery>, b: seq<Delivery>, id: ConnectionId)
    ensures HearAll(view, a + b, id) == HearAll(HearAll(view, a, id), b, id)
    decreases |a|
  {
    if a == [] {
      assert a + b == b;
    } else {
      assert (a + b)[1..] == a[1..] + b;
      HearAllAppend(if id in a[0].recipients then Hear(view, a[0].event) else view, a[1..], b, id);
    }
  }

  lemma {:induction false} HearNothing(view: set<Callsign>, ds: seq<Delivery>, id: ConnectionId)
    requires forall i :: 0 <= i < |ds| ==> !IsPresenceEvent(ds[i].event)
    ensures HearAll(view, ds, id) == view
  {
    if ds != [] {
      HearNothing(view, ds[1..], id);
    }
  }

  lemma HearSend(view: set<Callsign>, recipients: set<ConnectionId>, event: Event, id: ConnectionId)
    ensures HearAll(view, Lifecycle.Send(recipients, event).deliveries, id) ==
            if id in recipients then Hear(view, event) else view
  {
    if recipients != {} {
      var ds := Lifecycle.Send(recipients, event).deliveries;
      assert ds == [Delivery(recipients, event)] && ds[1..] == [];
      assert HearAll(view, ds, id) == HearAll(if id in recipients then Hear(view, event) else view, [], id);
    }
  }

  /** Nobody broadcasts a presence event; the server itself only ever
      broadcasts wind changes. */
  predicate NoForgedPresence(a: Action) {
    a.Broadcast? ==> !IsPresenceEvent(a.event)
  }

  // ---------------------------------------------------------------- One step

  /** From `s` to `t`, only the presence of `id` may differ, and the callsign
      index follows it. */
  ghost predicate FollowsPresence(s: NetworkState, t: NetworkState, id: ConnectionId) {
    var change := ChangeBetween(s, t, id);
    && t.callsigns == ReIndexed(s.callsigns, change)
    && (change.Activation? ==> change.presence.callsign !in s.callsigns)
    && (change.Release? ==>
          change.presence.callsign in s.callsigns && s.callsigns[change.presence.callsign] == id)
    && (change.Quiet? ==> PresenceOf(t, id) == PresenceOf(s, id))
    && (forall other :: other != id ==> PresenceOf(t, other) == PresenceOf(s, other))
  }

  lemma SameIndexFollows(s: NetworkState, t: NetworkState, id: ConnectionId)
    requires t.callsigns == s.callsigns
    requires forall other :: PresenceOf(t, other) == PresenceOf(s, other)
    ensures FollowsPresence(s, t, id) && ChangeBetween(s, t, id) == Quiet
  {
  }

  lemma DisconnectFollows(s: NetworkState, id: ConnectionId, reason: Bytes)
    requires Inv(s)
    ensures FollowsPresence(s, Lifecycle.Disconnect(s, id, reason).state, id)
    ensures PresenceOf(Lifecycle.Disconnect(s, id, reason).state, id).None?
  {
  }

  lemma LoginFollows(
    config: CoreConfig, s: NetworkState, id: ConnectionId, login: LoginCommand, generation: nat,
    verdict: Authentication.Verdict)
    requires Inv(s)
    ensures FollowsPresence(s, Authentication.LoginEnd(config, s, id, login, generation, verdict).state, id)
    ensures !ChangeBetween(s, Authentication.LoginEnd(config, s, id, login, generation, verdict).state, id).Release?
  {
    hide Authentication.LoginEnd;
    Authentication.LoginEndExactly(config, s, id, login, generation, verdict);
    if id in s.sessions {
      assert SessionOk(id, s.sessions[id]);
    }
  }

  lemma ExecuteFollows(config: CoreConfig, s: NetworkState, issuer: ConnectionId, command: Command)
    requires Inv(s)
    ensures var t := Commands.ExecuteActive(config, s, issuer, command).state;
            var touched := Commands.Touched(s, issuer, command);
            && FollowsPresence(s, t, touched)
            && ChangeBetween(s, t, touched) ==
                 if Commands.Accepted(s, issuer, command) && (command.Logoff? || command.Kill?)
                 then Release(touched, s.sessions[touched].presence.value) else Quiet
  {
    hide Commands.ExecuteActive;
    var t := Commands.ExecuteActive(config, s, issuer, command).state;
    Commands.ExecuteState(config, s, issuer, command);
    if Commands.Accepted(s, issuer, command) && (command.Logoff? || command.Kill?) {
      DisconnectFollows(s, Commands.Touched(s, issuer, command), "");
    } else {
      SameIndexFollows(s, t, Commands.Touched(s, issuer, command));
    }
  }

  lemma StepFollows(config: CoreConfig, sys: System, a: Action)
    requires Good(config, sys)
    ensures FollowsPresence(sys.net, Apply(config, sys, a).state, Subject(sys, a))
    ensures ChangeOf(config, sys, a).Activation? ==> a.LoginEnd? && Enabled(sys, a)
  {
    hide Commands.ExecuteActive;
    hide Authentication.LoginEnd;
    hide Lifecycle.Disconnect;
    var s := sys.net;
    if !Enabled(sys, a) {
      SameIndexFollows(s, s, Subject(sys, a));
    } else {
      match a
      case LoginEnd(ticket, verdict) => LoginFollows(config, s, ticket.id, ticket.login, ticket.generation, verdict);
      case Execute(id, command) => ExecuteFollows(config, s, id, command);
      case Disconnect(id, reason) => DisconnectFollows(s, id, reason);
      case IdentifyEnd(ticket, _) =>
        if ticket.id in s.sessions {
          assert SessionOk(ticket.id, s.sessions[ticket.id]);
        }
        SameIndexFollows(s, Apply(config, sys, a).state, Subject(sys, a));
      case _ => SameIndexFollows(s, Apply(config, sys, a).state, Subject(sys, a));
    }
  }

  /** The effects of going from `s` to `t` tell `id` the change of presence. */
  ghost predicate Tells(
    s: NetworkState, outcome: Outcome, subject: ConnectionId, id: ConnectionId, view: set<Callsign>)
  {
    PresenceOf(s, id).Some? && PresenceOf(outcome.state, id).Some? ==>
      HearAll(view, outcome.effects.deliveries, id) == ViewAfter(view, ChangeBetween(s, outcome.state, subject))
  }

  lemma DisconnectTells(s: NetworkState, gone: ConnectionId, reason: Bytes, id: ConnectionId, view: set<Callsign>)
    requires Inv(s)
    ensures Tells(s, Lifecycle.Disconnect(s, gone, reason), gone, id, view)
  {
    var after := Lifecycle.Disconnect(s, gone, reason).state;
    DisconnectFollows(s, gone, reason);
    if PresenceOf(s, gone).Some? && PresenceOf(after, id).Some? {
      var p := s.sessions[gone].presence.value;
      assert SessionOk(id, s.sessions[id]);
      HearSend(view, Routing.ActiveIds(after, None), ClientRemoved(p.callsign, p.clientType, p.networkId), id);
    }
  }

  lemma LoginAnnounces(
    config: CoreConfig, s: NetworkState, self: ConnectionId, presence: ClientPresence, id: ConnectionId,
    view: set<Callsign>)
    requires id in s.sessions && s.sessions[id].phase.Active? && id != self
    ensures HearAll(view, Authentication.LoginEffects(config, s, self, presence).deliveries, id)
            == view + {presence.callsign}
  {
    var public := Lifecycle.Send(Routing.ActiveIds(s, Some(self)), ClientAdded(presence)).deliveries;
    var private := Authentication.PrivateLoginEffects(config, s, self, presence);
    HearAllAppend(view, public, private, id);
    HearSend(view, Routing.ActiveIds(s, Some(self)), ClientAdded(presence), id);
    HearNothing(view + {presence.callsign}, private, id);
  }

  lemma KillTells(
    s: NetworkState, issuer: ConnectionId, presence: ClientPresence, target: Callsign, reason: Bytes,
    id: ConnectionId, view: set<Callsign>)
    requires Inv(s) && target in s.callsigns && presence.rating >= Commands.KILL_RATING
    ensures Tells(s, Commands.HandleKill(s, issuer, presence, target, reason), s.callsigns[target], id, view)
  {
    var victim := s.callsigns[target];
    var notice := Lifecycle.Send({issuer}, Welcome(presence.callsign, "Attempting to kill " + target.text)).deliveries;
    var farewell := Lifecycle.Send({victim}, DisconnectEvent(target, reason)).deliveries;
    var release := Lifecycle.Disconnect(s, victim, reason).effects.deliveries;
    HearNothing(view, notice + farewell, id);
    HearAllAppend(view, notice + farewell, release, id);
    DisconnectTells(s, victim, reason, id, view);
  }

  lemma LoginTells(
    config: CoreConfig, s: NetworkState, self: ConnectionId, login: LoginCommand, generation: nat,
    verdict: Authentication.Verdict, id: ConnectionId, view: set<Callsign>)
    requires Inv(s)
    ensures Tells(s, Authentication.LoginEnd(config, s, self, login, generation, verdict), self, id, view)
  {
    hide Authentication.LoginEnd;
    hide Authentication.LoginEffects;
    var outcome := Authentication.LoginEnd(config, s, self, login, generation, verdict);
    Authentication.LoginEndExactly(config, s, self, login, generation, verdict);
    if PresenceOf(s, id).Some? && PresenceOf(outcome.state, id).Some? {
      assert SessionOk(id, s.sessions[id]);
      if Authentication.LoginCommits(s, self, login, generation, verdict) {
        assert SessionOk(self, s.sessions[self]);
        LoginAnnounces(config, outcome.state, self, Authentication.PresenceFor(login, verdict.identity), id, view);
      } else {
        HearNothing(view, outcome.effects.deliveries, id);
      }
    }
  }

  lemma ExecuteTells(
    config: CoreConfig, s: NetworkState, issuer: ConnectionId, command: Command, id: ConnectionId, view: set<Callsign>)
    requires Inv(s)
    ensures Tells(s, Commands.ExecuteActive(config, s, issuer, command), Commands.Touched(s, issuer, command), id, view)
  {
    ExecuteFollows(config, s, issuer, command);
    if Commands.Accepted(s, issuer, command) && command.Logoff? {
      DisconnectTells(s, issuer, "client logoff", id, view);
    } else if Commands.Accepted(s, issuer, command) && command.Kill? {
      KillTells(s, issuer, s.sessions[issuer].presence.value, command.target, command.reason, id, view);
    } else {
      ExecuteIsSilent(config, s, issuer, command);
      HearNothing(view, Commands.ExecuteActive(config, s, issuer, command).effects.deliveries, id);
    }
  }

  lemma ExecuteIsSilent(config: CoreConfig, s: NetworkState, issuer: ConnectionId, command: Command)
    requires !(Commands.Accepted(s, issuer, command) && (command.Logoff? || command.Kill?))
    ensures var ds := Commands.ExecuteActive(config, s, issuer, command).effects.deliveries;
            forall i :: 0 <= i < |ds| ==> !IsPresenceEvent(ds[i].event)
  {
  }

  lemma OtherActionsAreSilent(config: CoreConfig, sys: System, a: Action)
    requires NoForgedPresence(a) && !a.LoginEnd? && !a.Execute? && !a.Disconnect?
    ensures var ds := Apply(config, sys, a).effects.deliveries;
            forall i :: 0 <= i < |ds| ==> !IsPresenceEvent(ds[i].event)
  {
    hide Routing.ActiveIds;
  }

  /** The effects of an action tell every other active session exactly the
      change of presence the action made. */
  lemma StepTells(config: CoreConfig, sys: System, a: Action, id: ConnectionId, view: set<Callsign>)
    requires Good(config, sys) && NoForgedPresence(a)
    ensures Tells(sys.net, Apply(config, sys, a), Subject(sys, a), id, view)
  {
    hide Commands.ExecuteActive;
    hide Authentication.LoginEnd;
    hide Lifecycle.Disconnect;
    hide Lifecycle.Register;
    hide Authentication.IdentifyEnd;
    hide Inv;
    var s := sys.net;
    StepFollows(config, sys, a);
    if Enabled(sys, a) && a.LoginEnd? {
      LoginTells(config, s, a.ticket.id, a.ticket.login, a.ticket.generation, a.verdict, id, view);
    } else if Enabled(sys, a) && a.Execute? {
      ExecuteTells(config, s, a.id, a.command, id, view);
    } else if Enabled(sys, a) && a.Disconnect? {
      DisconnectTells(s, a.id, a.reason, id, view);
    } else {
      if Enabled(sys, a) {
        OtherActionsAreSilent(config, sys, a);
      }
      OthersAreQuiet(config, sys, a);
      HearNothing(view, Apply(config, sys, a).effects.deliveries, id);
    }
  }

  lemma OthersAreQuiet(config: CoreConfig, sys: System, a: Action)
    requires Good(config, sys)
    requires !Enabled(sys, a) || (!a.LoginEnd? && !a.Execute? && !a.Disconnect?)
    ensures ChangeOf(config, sys, a) == Quiet
  {
    hide Commands.ExecuteActive;
    hide Authentication.LoginEnd;
    hide Lifecycle.Disconnect;
    if Enabled(sys, a) && a.IdentifyEnd? && a.ticket.id in sys.net.sessions {
      assert SessionOk(a.ticket.id, sys.net.sessions[a.ticket.id]);
    }
  }
}
