/**
 The dispatcher of `Runtime` is a dispatcher of `Mailboxes`: its fan-out of one
 event is a run of steps there, between which anything else may happen.
 */
module Interleaving {
  import opened Wrappers
  import opened Text
  import opened Model
  import opened State
  import opened Runtime
  import opened Mailboxes

  /** What a dispatcher sees of the connections. */
  function View(w: World): Connections {
    map id | id in w.connections :: ToHandle(w.connections[id])
  }

  /** One dispatcher `d` serves `recipients`: before the k-th of them the steps
      `between(k)` are taken, and the network answers `presence(k)`. */
  datatype Course = Course(
    d: nat, event: Event, recipients: seq<ConnectionId>, presence: nat -> Option<ClientPresence>,
    between: nat -> seq<Action>)
  {
    /** The steps up to the n-th recipient. */
    function Steps(n: nat): seq<Action>
      requires n <= |recipients|
    {
      if n == 0 then [BeginEvent(d, event)]
      else Steps(n - 1) + between(n - 1) + [ServeOne(d, recipients[n - 1], presence(n - 1))]
    }

    /** The steps in between belong to others. */
    ghost predicate OthersOnly() {
      forall k, i :: 0 <= i < |between(k)| ==>
        !(between(k)[i].BeginEvent? && between(k)[i].dispatcher == d)
        && !(between(k)[i].ServeOne? && between(k)[i].dispatcher == d)
    }

    /** The course as the dispatcher experiences it, from the world after `run`: at
        the k-th recipient it finds the connections as the others have left them. */
    function Moments(env: Environment, run: seq<Action>): Moments {
      (k: nat) => Moment(
        connections => if k < |recipients| then View(Play(env, run + Steps(k) + between(k))) else connections,
        presence(k))
    }
  }

  lemma {:induction false} PlayOthers(env: Environment, run: seq<Action>, more: seq<Action>, d: nat)
    requires forall i :: 0 <= i < |more| ==>
               !(more[i].BeginEvent? && more[i].dispatcher == d) && !(more[i].ServeOne? && more[i].dispatcher == d)
    requires d in Play(env, run).dispatchers
    ensures d in Play(env, run + more).dispatchers
    ensures Play(env, run + more).dispatchers[d] == Play(env, run).dispatchers[d]
    decreases |more|
  {
    hide StepOne;
    hide Chosen;
    if more == [] {
      assert run + more == run;
    } else {
      PlayOneMore(env, run, more);
      PlayOthers(env, run, more[..|more| - 1], d);
    }
  }

  lemma PlayStep(env: Environment, run: seq<Action>, a: Action)
    ensures Play(env, run + [a]) == Step(env, Play(env, run), a)
  {
    assert (run + [a])[..|run|] == run;
  }

  lemma PostIsQueue(env: Environment, x: Connection, encoding: Encoding)
    ensures ToHandle(Post(env, x, if encoding.Ok? then Ok(Frames(encoding.value)) else Err(())))
            == Queue(env.capacity, ToHandle(x), encoding)
  {
  }

  /** A step of the dispatcher in `Mailboxes` does what serving one recipient does
      in `Runtime`. */
  lemma ServeOneIsServe(
    env: Environment, w: World, f: Fanout, d: nat, id: ConnectionId, moment: Moment, event: Event)
    requires d in w.dispatchers && w.dispatchers[d] == Dispatcher(event, f.cache)
    requires moment.others(f.connections) == View(w)
    ensures var after := Step(env, w, ServeOne(d, id, moment.presence));
            var g := Serve(env, f, moment, id, event);
            && View(after) == g.connections
            && d in after.dispatchers && after.dispatchers[d] == Dispatcher(event, g.cache)
  {
    hide Choose;
    hide Queue;
    hide Post;
    hide Remember;
    hide Lookup;
    var a := ServeOne(d, id, moment.presence);
    var after := Step(env, w, a);
    if id in w.connections {
      PostIsQueue(env, w.connections[id], Chosen(env, w, a).encoding);
      assert after.connections == w.connections[id := Post(env, w.connections[id], Posted(env, w, a).value)];
    }
  }

  lemma BeginIsEmpty(env: Environment, run: seq<Action>, c: Course)
    ensures var w := Play(env, run + c.Steps(0));
            && View(w) == View(Play(env, run))
            && c.d in w.dispatchers && w.dispatchers[c.d] == Dispatcher(c.event, map[])
  {
    hide Play;
    PlayStep(env, run, BeginEvent(c.d, c.event));
  }

  /** The dispatcher and the fan-out are at the same point. */
  ghost predicate AtSamePoint(w: World, c: Course, f: Fanout) {
    View(w) == f.connections && c.d in w.dispatchers && w.dispatchers[c.d] == Dispatcher(c.event, f.cache)
  }

  lemma Regrouped(a: seq<Action>, b: seq<Action>, c: seq<Action>, d: seq<Action>)
    ensures a + (b + c + d) == a + b + c + d
  {
  }

  lemma NextRecipient(env: Environment, run: seq<Action>, c: Course, k: nat, f: Fanout)
    requires c.OthersOnly() && k < |c.recipients|
    requires AtSamePoint(Play(env, run + c.Steps(k)), c, f)
    ensures AtSamePoint(
              Play(env, run + c.Steps(k + 1)), c, Serve(env, f, c.Moments(env, run)(k), c.recipients[k], c.event))
  {
    hide Play;
    hide View;
    hide Step;
    hide Serve;
    var before, others := run + c.Steps(k), c.between(k);
    var step := ServeOne(c.d, c.recipients[k], c.presence(k));
    PlayOthers(env, before, others, c.d);
    ServeOneIsServe(env, Play(env, before + others), f, c.d, c.recipients[k], c.Moments(env, run)(k), c.event);
    PlayStep(env, before + others, step);
    Regrouped(run, c.Steps(k), others, [step]);
  }

  /** The fan-out of `Runtime` is the run of `Mailboxes`: after every recipient
      they agree on all connections and on the cache, whatever other dispatchers,
      writers and connections do in between. */
  lemma {:induction false} FanoutIsInterleaved(env: Environment, run: seq<Action>, c: Course, n: nat)
    requires c.OthersOnly() && n <= |c.recipients|
    ensures AtSamePoint(
              Play(env, run + c.Steps(n)), c,
              CachedDeliver(env, c.Moments(env, run), View(Play(env, run)), c.recipients[..n], c.event))
  {
    var start, moments := View(Play(env, run)), c.Moments(env, run);
    if n == 0 {
      BeginIsEmpty(env, run, c);
    } else {
      hide *;
      var k: nat := n - 1;
      var f := CachedDeliver(env, moments, start, c.recipients[..k], c.event);
      FanoutIsInterleaved(env, run, c, k);
      ServeNext(env, moments, start, c.recipients, c.event, k);
      NextRecipient(env, run, c, k, f);
    }
  }

  /** So is the request to close a connection. */
  lemma SendCloseIsAfterClose(
    env: Environment, w: World, last: Moment, connections: Connections, close: CloseConnection)
    requires last.others(connections) == View(w)
    ensures View(Step(env, w, SendClose(close.connectionId))) == AfterClose(env, last, connections, Some(close))
  {
  }
}
